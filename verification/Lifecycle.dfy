/** What each operation of the continuation store (src/continuation/sqlite.rs) opens up: which
    reservations and transitions a session takes next, what a commit stores, and what the store
    charges for it. */
module Lifecycle {
  import opened Common
  import opened Store

  /** Nothing but the session's own state stands against a reservation. */
  predicate Room(st: State, id: string, epoch: nat, input: string, reserve: nat, attempt: string) {
    && 0 < reserve && st.used + reserve <= st.limit && attempt !in st.attempts
    && forall a :: a in st.attempts && st.attempts[a].session == id && st.attempts[a].epoch == epoch ==>
         st.attempts[a].input != input
  }

  /** The session takes a reservation at this revision and head wherever there is room. */
  ghost predicate TakesRequests(st: State, id: string, epoch: nat, revision: nat, head: Option<string>) {
    forall input, reserve: nat, attempt ::
      DoBegin(st, id, revision, head, input, reserve, attempt).Some? <==> Room(st, id, epoch, input, reserve, attempt)
  }

  /** The session takes no reservation at all. */
  ghost predicate RefusesRequests(st: State, id: string) {
    forall revision: nat, head, input, reserve: nat, attempt ::
      DoBegin(st, id, revision, head, input, reserve, attempt) == None
  }

  ghost predicate Refuses(st: State, id: string, kind: Kind) {
    forall revision: nat, approved :: DoTransition(st, id, revision, kind, approved) == None
  }

  /** A transition succeeds at this revision with an approved context, and only so. */
  ghost predicate TakesWithApproval(st: State, id: string, kind: Kind, revision: nat) {
    forall r: nat, approved :: DoTransition(st, id, r, kind, approved).Some? <==> r == revision && approved.Some?
  }

  ghost predicate StartsCompaction(st: State, id: string, revision: nat) {
    forall r: nat, approved :: DoTransition(st, id, r, CompactBegin, approved).Some? <==> r == revision
  }

  lemma NewSessionTakesRequests(st: State, id: string)
    requires DoCreate(st, id).Some?
    ensures var after := DoCreate(st, id).value;
            TakesRequests(after, id, 1, 1, None) && StartsCompaction(after, id, 1) && Refuses(after, id, CompactCommit)
  {
  }

  /** A reservation occupies its session: no second one, and no transition. */
  lemma ReservedSessionWaits(st: State, id: string, revision: nat, parent: Option<string>, input: string,
                             reserve: nat, attempt: string)
    requires DoBegin(st, id, revision, parent, input, reserve, attempt).Some?
    ensures var after := DoBegin(st, id, revision, parent, input, reserve, attempt).value;
            && RefusesRequests(after, id)
            && Refuses(after, id, CompactBegin) && Refuses(after, id, CompactCommit) && Refuses(after, id, Recover)
            && after.used == st.used + reserve
            && after.attempts == st.attempts[attempt := after.attempts[attempt]]
            && after.attempts[attempt].session == id && after.attempts[attempt].input == input
            && after.attempts[attempt].parent == parent && after.attempts[attempt].reserve == reserve
  {
  }

  /** A held reservation is committed exactly if its envelope fits what was reserved for it, and
      the record is stored as given. */
  lemma CommitsWithinReserve(st: State, id: string, attempt: string, record: Record, tools: bool)
    requires Consistent(st) && HeldBy(st, id, attempt)
    ensures var r := DoFinalize(st, id, attempt, record, tools);
            && (r.Some? <==> |record.envelope| <= st.attempts[attempt].reserve)
            && (r.Some? ==> r.value.records == st.records[attempt := record] && r.value.used == st.used)
  {
    hide RecordsAreFinal, ParentsFinal, NoForks, HeadsAreTips, Chained, AttemptsBelong;
  }

  /** After the commit of an ordinary turn the session takes the next request behind it, and may
      start a compaction unless the turn left tools pending. */
  lemma CommitTakesNext(st: State, id: string, attempt: string, record: Record, tools: bool)
    requires DoFinalize(st, id, attempt, record, tools).Some? && st.sessions[id].status == Pending
    ensures var after := DoFinalize(st, id, attempt, record, tools).value;
            var s := st.sessions[id];
            && TakesRequests(after, id, s.epoch, s.revision + 1, Some(attempt))
            && (if tools then Refuses(after, id, CompactBegin) else StartsCompaction(after, id, s.revision + 1))
            && Refuses(after, id, CompactCommit)
            && TakesWithApproval(after, id, Recover, s.revision + 1)
  {
  }

  /** The commit of a compaction turn closes the epoch: only the approved context goes on. */
  lemma CompactionCommitWaits(st: State, id: string, attempt: string, record: Record, tools: bool)
    requires DoFinalize(st, id, attempt, record, tools).Some? && st.sessions[id].status == CompactingPending
    ensures var after := DoFinalize(st, id, attempt, record, tools).value;
            && RefusesRequests(after, id) && Refuses(after, id, CompactBegin)
            && TakesWithApproval(after, id, CompactCommit, st.sessions[id].revision + 1)
  {
  }

  /** A started compaction takes one more request behind the same head, and only that. */
  lemma CompactionTakesRequest(st: State, id: string, revision: nat, approved: Option<string>)
    requires DoTransition(st, id, revision, CompactBegin, approved).Some?
    ensures var after := DoTransition(st, id, revision, CompactBegin, approved).value;
            var s := st.sessions[id];
            && TakesRequests(after, id, s.epoch, revision + 1, s.head)
            && Refuses(after, id, CompactBegin) && Refuses(after, id, CompactCommit)
            && forall input, reserve: nat, attempt ::
                 Room(after, id, s.epoch, input, reserve, attempt) ==>
                   var begun := DoBegin(after, id, revision + 1, s.head, input, reserve, attempt);
                   begun.Some? && begun.value.sessions[id].status == CompactingPending
  {
  }

  lemma OrdinaryRequestIsPending(st: State, id: string, revision: nat, parent: Option<string>, input: string,
                                 reserve: nat, attempt: string)
    requires DoBegin(st, id, revision, parent, input, reserve, attempt).Some? && st.sessions[id].status == Ready
    ensures DoBegin(st, id, revision, parent, input, reserve, attempt).value.sessions[id].status == Pending
  {
  }

  /** A new epoch starts empty, bound to the approved context, and takes requests. */
  lemma NewEpochTakesRequests(st: State, id: string, revision: nat, kind: Kind, approved: Option<string>)
    requires kind != CompactBegin && DoTransition(st, id, revision, kind, approved).Some?
    ensures var after := DoTransition(st, id, revision, kind, approved).value;
            && TakesRequests(after, id, st.sessions[id].epoch + 1, revision + 1, None)
            && StartsCompaction(after, id, revision + 1)
            && after.sessions[id].portable == approved
  {
  }

  /** A request given up leaves a session that only an approved recovery brings back. */
  lemma GivenUpNeedsRecovery(st: State, id: string, attempt: string)
    requires HeldBy(st, id, attempt)
    ensures var after := DoUncertain(st, id, attempt);
            && after.Some? && after.value.attempts[attempt].status == Uncertain
            && RefusesRequests(after.value, id)
            && Refuses(after.value, id, CompactBegin) && Refuses(after.value, id, CompactCommit)
            && TakesWithApproval(after.value, id, Recover, st.sessions[id].revision + 1)
  {
  }

  // ----- Charges and inputs over whole runs -----

  /** The reserves of the reservations that succeeded. */
  function Charged(st: State, ops: seq<Op>): nat {
    if ops == [] then 0
    else
      var before, op := ops[..|ops| - 1], ops[|ops| - 1];
      Charged(st, before) + if op.Begin? && Apply(Run(st, before), op).Some? then op.reserve else 0
  }

  lemma OneCharge(st: State, op: Op)
    ensures Next(st, op).limit == st.limit
    ensures Next(st, op).used == st.used + if op.Begin? && Apply(st, op).Some? then op.reserve else 0
    ensures st.used <= st.limit ==> Next(st, op).used <= st.limit
  {
  }

  /** The store charges every reservation, gives nothing back, and never exceeds its limit. */
  lemma {:induction false} ChargesAddUp(st: State, ops: seq<Op>)
    requires st.used <= st.limit
    ensures Run(st, ops).used == st.used + Charged(st, ops) <= st.limit == Run(st, ops).limit
  {
    hide Next, Apply;
    if ops != [] {
      var before := ops[..|ops| - 1];
      ChargesAddUp(st, before);
      OneCharge(Run(st, before), ops[|ops| - 1]);
    }
  }

  /** No request of an epoch was sent twice. */
  ghost predicate DistinctInputs(st: State) {
    forall a, b :: a in st.attempts && b in st.attempts && a != b
                   && st.attempts[a].session == st.attempts[b].session
                   && st.attempts[a].epoch == st.attempts[b].epoch ==>
      st.attempts[a].input != st.attempts[b].input
  }

  /** What an operation leaves of an attempt. */
  lemma AttemptsKeepInputs(st: State, op: Op, a: string)
    requires a in Next(st, op).attempts
    ensures a in st.attempts ==>
              && SameEpoch(Next(st, op).attempts[a], st.attempts[a])
              && Next(st, op).attempts[a].input == st.attempts[a].input
    ensures a !in st.attempts ==>
              && op.Begin? && a == op.attempt
              && forall b :: b in st.attempts && SameEpoch(st.attempts[b], Next(st, op).attempts[a]) ==>
                   st.attempts[b].input != Next(st, op).attempts[a].input
  {
  }

  lemma InputsStayDistinct(st: State, op: Op)
    requires DistinctInputs(st)
    ensures DistinctInputs(Next(st, op))
  {
    hide Next;
    var after := Next(st, op);
    forall a, b | a in after.attempts && b in after.attempts && a != b
                  && after.attempts[a].session == after.attempts[b].session
                  && after.attempts[a].epoch == after.attempts[b].epoch
      ensures after.attempts[a].input != after.attempts[b].input
    {
      AttemptsKeepInputs(st, op, a);
      AttemptsKeepInputs(st, op, b);
    }
  }

  /** Over every run, no session reserves the same input twice within an epoch. */
  lemma {:induction false} NoRequestTwice(st: State, ops: seq<Op>)
    requires DistinctInputs(st)
    ensures DistinctInputs(Run(st, ops))
  {
    hide Next, DistinctInputs;
    if ops != [] {
      NoRequestTwice(st, ops[..|ops| - 1]);
      InputsStayDistinct(Run(st, ops[..|ops| - 1]), ops[|ops| - 1]);
    }
  }

  // ----- Refusals -----

  /** A reservation is taken only for the revision and the head the session stands at, and only by a
      session that is ready or compacting. */
  lemma ReservationsAreGuarded(st: State, id: string, revision: nat, parent: Option<string>, input: string,
                               reserve: nat, attempt: string)
    requires DoBegin(st, id, revision, parent, input, reserve, attempt).Some?
    ensures id in st.sessions && st.sessions[id].revision == revision && st.sessions[id].head == parent
    ensures st.sessions[id].status == Ready || st.sessions[id].status == Compacting
    ensures Room(st, id, st.sessions[id].epoch, input, reserve, attempt)
  {
  }

  /** Reopening touches nothing but what was in flight. */
  lemma ReopenKeepsTheRest(st: State, id: string, attempt: string)
    ensures var after := DoReopen(st).value;
            && after.records == st.records && after.used == st.used && after.limit == st.limit
            && (id in st.sessions && (forall a :: a in st.attempts && st.attempts[a].session == id ==>
                                        st.attempts[a].status != Reserved) ==>
                  id in after.sessions && after.sessions[id] == st.sessions[id])
            && (attempt in st.attempts ==>
                  && attempt in after.attempts
                  && after.attempts[attempt]
                     == if st.attempts[attempt].status == Reserved then st.attempts[attempt].(status := Uncertain)
                        else st.attempts[attempt])
            && after.sessions.Keys == st.sessions.Keys && after.attempts.Keys == st.attempts.Keys
  {
  }

  /** No operation touches another session. */
  lemma OtherSessionsUntouched(st: State, op: Op, other: string)
    requires other in st.sessions && !op.Reopen? && op.id != other
    ensures other in Next(st, op).sessions && Next(st, op).sessions[other] == st.sessions[other]
  {
  }
}
