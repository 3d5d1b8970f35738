/** The continuation store (src/continuation/sqlite.rs). Every operation is one
    transaction: it commits a new state or leaves the old one. */
module Store {
  import opened Common

  datatype SessionStatus =
    Ready | Pending | Unknown | Compacting | CompactingPending | AwaitingCompaction

  datatype Session = Session(epoch: nat, revision: nat, status: SessionStatus, head: Option<string>,
                             pendingTools: bool, portable: Option<string>)

  datatype AttemptStatus = Reserved | Finalized | Uncertain

  /** `parent` is the head the attempt was reserved against; its record repeats it. */
  datatype Attempt = Attempt(session: string, epoch: nat, input: string, status: AttemptStatus,
                             reserve: nat, parent: Option<string>)

  datatype Record = Record(digest: string, envelope: string)

  /** `used` is the sum of the reserves: attempts are never deleted. */
  datatype State = State(sessions: map<string, Session>, attempts: map<string, Attempt>,
                         records: map<string, Record>, used: nat, limit: nat)

  datatype Kind = CompactBegin | CompactCommit | Recover

  datatype Op =
    | Create(id: string)
    | Begin(id: string, revision: nat, parent: Option<string>, input: string, reserve: nat, attempt: string)
    | Finalize(id: string, attempt: string, record: Record, tools: bool)
    | MarkUncertain(id: string, attempt: string)
    | Transition(id: string, revision: nat, kind: Kind, approved: Option<string>)
    | Reopen

  predicate Busy(s: Session) {
    s.status == Pending || s.status == CompactingPending
  }

  predicate Duplicate(st: State, id: string, epoch: nat, input: string) {
    exists a :: a in st.attempts && st.attempts[a].session == id && st.attempts[a].epoch == epoch
                && st.attempts[a].input == input
  }

  function DoCreate(st: State, id: string): Option<State> {
    if id in st.sessions then None
    else Some(st.(sessions := st.sessions[id := Session(1, 1, Ready, None, false, None)]))
  }

  /** Compare-and-set on revision and head; the new attempt id must be unused. */
  function DoBegin(st: State, id: string, revision: nat, parent: Option<string>, input: string,
                   reserve: nat, attempt: string): Option<State> {
    if id !in st.sessions then None
    else
      var s := st.sessions[id];
      if s.revision != revision || (s.status != Ready && s.status != Compacting) || s.head != parent then None
      else if reserve == 0 || st.used + reserve > st.limit then None
      else if attempt in st.attempts || Duplicate(st, id, s.epoch, input) then None
      else
        Some(st.(attempts := st.attempts[attempt := Attempt(id, s.epoch, input, Reserved, reserve, parent)],
                 sessions := st.sessions[id := s.(
                   status := if s.status == Compacting then CompactingPending else Pending,
                   revision := s.revision + 1)],
                 used := st.used + reserve))
  }

  function DoFinalize(st: State, id: string, attempt: string, record: Record, tools: bool): Option<State> {
    if id !in st.sessions || attempt !in st.attempts then None
    else
      var s, a := st.sessions[id], st.attempts[attempt];
      if a.session != id || a.epoch != s.epoch || a.status != Reserved then None
      else if |record.envelope| > a.reserve || !Busy(s) then None
      else
        Some(st.(records := st.records[attempt := record],
                 attempts := st.attempts[attempt := a.(status := Finalized)],
                 sessions := st.sessions[id := s.(
                   status := if s.status == CompactingPending then AwaitingCompaction else Ready,
                   head := Some(attempt), pendingTools := tools, revision := s.revision + 1)]))
  }

  /** Only a reserved attempt becomes uncertain; for any other the call changes nothing. */
  function DoUncertain(st: State, id: string, attempt: string): Option<State> {
    if attempt !in st.attempts || st.attempts[attempt].session != id || st.attempts[attempt].status != Reserved
    then Some(st)
    else if id !in st.sessions then None
    else
      var s := st.sessions[id];
      Some(st.(attempts := st.attempts[attempt := st.attempts[attempt].(status := Uncertain)],
               sessions := st.sessions[id := s.(status := Unknown, revision := s.revision + 1)]))
  }

  function DoTransition(st: State, id: string, revision: nat, kind: Kind, approved: Option<string>): Option<State> {
    if id !in st.sessions then None
    else
      var s := st.sessions[id];
      if s.revision != revision || Busy(s) then None
      else if kind == CompactBegin then
        if s.status != Ready || s.pendingTools then None
        else Some(st.(sessions := st.sessions[id := s.(status := Compacting, revision := s.revision + 1)]))
      else if (kind == CompactCommit && s.status != AwaitingCompaction) || approved.None? then None
      else
        Some(st.(sessions := st.sessions[id := Session(s.epoch + 1, s.revision + 1, Ready, None, false, approved)]))
  }

  predicate HasReserved(st: State, id: string) {
    exists a :: a in st.attempts && st.attempts[a].session == id && st.attempts[a].status == Reserved
  }

  function Dropped(a: Attempt): (b: Attempt)
    ensures SameEpoch(a, b) && b.status != Reserved && (a.status != Reserved ==> b == a)
    ensures b.status == Finalized ==> a.status == Finalized
  {
    if a.status == Reserved then a.(status := Uncertain) else a
  }

  function Interrupted(s: Session, held: bool): (t: Session)
    ensures t.epoch == s.epoch && t.head == s.head && t.revision >= s.revision
  {
    if held then s.(status := Unknown, revision := s.revision + 1) else s
  }

  /** Opening the store after a crash: what was in flight stays uncertain. */
  function DoReopen(st: State): Option<State> {
    Some(st.(sessions := map id | id in st.sessions :: Interrupted(st.sessions[id], HasReserved(st, id)),
             attempts := map a | a in st.attempts :: Dropped(st.attempts[a])))
  }

  function Apply(st: State, op: Op): Option<State> {
    match op
    case Create(id) => DoCreate(st, id)
    case Begin(id, revision, parent, input, reserve, attempt) =>
      DoBegin(st, id, revision, parent, input, reserve, attempt)
    case Finalize(id, attempt, record, tools) => DoFinalize(st, id, attempt, record, tools)
    case MarkUncertain(id, attempt) => DoUncertain(st, id, attempt)
    case Transition(id, revision, kind, approved) => DoTransition(st, id, revision, kind, approved)
    case Reopen => DoReopen(st)
  }

  /** A failed operation rolls back. */
  function Next(st: State, op: Op): State {
    var r := Apply(st, op);
    if r.Some? then r.value else st
  }

  function Run(st: State, ops: seq<Op>): State {
    if ops == [] then st else Next(Run(st, ops[..|ops| - 1]), ops[|ops| - 1])
  }

  // ----- What every operation keeps -----

  predicate IsFinal(st: State, a: string) {
    a in st.attempts && st.attempts[a].status == Finalized
  }

  predicate SameEpoch(x: Attempt, y: Attempt) {
    x.session == y.session && x.epoch == y.epoch
  }

  ghost predicate AttemptsBelong(st: State) {
    forall a :: a in st.attempts ==>
      st.attempts[a].session in st.sessions && st.attempts[a].epoch <= st.sessions[st.attempts[a].session].epoch
  }

  /** A reserved attempt holds its session: busy, same epoch, head still the one it was
      reserved against, and no second reservation. */
  ghost predicate ReservedHolds(st: State) {
    && (forall a :: a in st.attempts && st.attempts[a].status == Reserved ==>
          && st.attempts[a].session in st.sessions
          && var s := st.sessions[st.attempts[a].session];
             Busy(s) && s.epoch == st.attempts[a].epoch && s.head == st.attempts[a].parent)
    && (forall a, b :: a in st.attempts && b in st.attempts && a != b
                       && st.attempts[a].status == st.attempts[b].status == Reserved
                       ==> st.attempts[a].session != st.attempts[b].session)
  }

  ghost predicate RecordsAreFinal(st: State) {
    forall a :: a in st.records <==> IsFinal(st, a)
  }

  /** The parent of a finalized attempt is a finalized attempt of the same epoch. */
  ghost predicate ParentsFinal(st: State) {
    forall a :: IsFinal(st, a) && st.attempts[a].parent.Some? ==>
      && IsFinal(st, st.attempts[a].parent.value)
      && SameEpoch(st.attempts[a], st.attempts[st.attempts[a].parent.value])
  }

  /** No two finalized attempts of an epoch have the same parent. */
  ghost predicate NoForks(st: State) {
    forall a, b :: IsFinal(st, a) && IsFinal(st, b) && a != b && SameEpoch(st.attempts[a], st.attempts[b])
      ==> st.attempts[a].parent != st.attempts[b].parent
  }

  /** The head is the youngest finalized attempt of its session's epoch: nothing names it as
      parent, and without a head the epoch has no finalized attempt. */
  ghost predicate HeadsAreTips(st: State) {
    && (forall id :: id in st.sessions && st.sessions[id].head.Some? ==>
          && var h := st.sessions[id].head.value;
             IsFinal(st, h) && st.attempts[h].session == id && st.attempts[h].epoch == st.sessions[id].epoch)
    && (forall a :: IsFinal(st, a) && st.attempts[a].session in st.sessions
                    && st.attempts[a].epoch == st.sessions[st.attempts[a].session].epoch ==>
          st.sessions[st.attempts[a].session].head.Some?
          && st.attempts[a].parent != st.sessions[st.attempts[a].session].head)
  }

  predicate InEpoch(st: State, a: string, id: string, epoch: nat) {
    IsFinal(st, a) && st.attempts[a].session == id && st.attempts[a].epoch == epoch
  }

  function Before(chain: seq<string>, i: nat): Option<string>
    requires i <= |chain|
  {
    if i == 0 then None else Some(chain[i - 1])
  }

  /** `chain` holds the finalized attempts of an epoch, each once: the first has no parent, every
      other one has its predecessor. */
  ghost predicate IsChain(st: State, id: string, epoch: nat, chain: seq<string>) {
    && Distinct(chain)
    && (forall i :: 0 <= i < |chain| ==>
          && InEpoch(st, chain[i], id, epoch)
          && st.attempts[chain[i]].parent == Before(chain, i))
    && (forall a :: InEpoch(st, a, id, epoch) ==> a in chain)
  }

  /** The finalized attempts of the epoch are one chain, which in the current epoch ends in the
      head. */
  ghost predicate OneChain(st: State, id: string, epoch: nat) {
    id in st.sessions
    && exists chain :: IsChain(st, id, epoch, chain)
                       && (epoch == st.sessions[id].epoch ==> st.sessions[id].head == Before(chain, |chain|))
  }

  ghost predicate Chained(st: State) {
    forall id, epoch: nat :: id in st.sessions ==> OneChain(st, id, epoch)
  }

  ghost predicate Consistent(st: State) {
    && AttemptsBelong(st) && ReservedHolds(st) && RecordsAreFinal(st)
    && ParentsFinal(st) && NoForks(st) && HeadsAreTips(st) && Chained(st) && st.used <= st.limit
  }

  function Empty(limit: nat): State {
    State(map[], map[], map[], 0, limit)
  }

  /** The finalized attempts and the records are the same. */
  ghost predicate SameFinals(st: State, st': State) {
    && st'.records == st.records
    && (forall a :: IsFinal(st', a) <==> IsFinal(st, a))
    && (forall a :: IsFinal(st, a) ==> st'.attempts[a] == st.attempts[a])
  }

  /** Sessions keep epoch and head, or stand at an epoch without attempts and without head. */
  ghost predicate SameHeads(st: State, st': State) {
    forall id :: id in st'.sessions ==>
      || (id in st.sessions && st'.sessions[id].head == st.sessions[id].head
          && st'.sessions[id].epoch == st.sessions[id].epoch)
      || (st'.sessions[id].head.None?
          && forall a :: a in st.attempts && st.attempts[a].session == id ==>
               st.attempts[a].epoch != st'.sessions[id].epoch)
  }

  lemma FinalsKept(st: State, st': State)
    requires SameFinals(st, st') && RecordsAreFinal(st) && ParentsFinal(st) && NoForks(st)
    ensures RecordsAreFinal(st') && ParentsFinal(st') && NoForks(st')
  {
    hide HeadsAreTips;
  }

  lemma HeadsKept(st: State, st': State)
    requires SameFinals(st, st') && SameHeads(st, st') && HeadsAreTips(st) && AttemptsBelong(st)
    ensures HeadsAreTips(st')
  {
    hide RecordsAreFinal;
  }

  lemma ChainKept(st: State, st': State, id: string, epoch: nat, chain: seq<string>)
    requires SameFinals(st, st') && IsChain(st, id, epoch, chain)
    ensures IsChain(st', id, epoch, chain)
  {
    hide Before;
  }

  /** An epoch that nothing was ever reserved in. */
  lemma NoChain(st: State, st': State, id: string, epoch: nat)
    requires SameFinals(st, st')
             && forall a :: a in st.attempts && st.attempts[a].session == id ==> st.attempts[a].epoch != epoch
    ensures IsChain(st', id, epoch, [])
  {
    assert forall a :: !InEpoch(st', a, id, epoch);
  }

  lemma ChainsKept(st: State, st': State)
    requires SameFinals(st, st') && SameHeads(st, st') && Chained(st) && AttemptsBelong(st)
    ensures Chained(st')
  {
    hide IsChain, SameFinals;
    forall id, epoch: nat | id in st'.sessions ensures OneChain(st', id, epoch) {
      var now := st'.sessions[id];
      if id in st.sessions && (epoch != now.epoch
        || (now.head == st.sessions[id].head && now.epoch == st.sessions[id].epoch)) {
        assert OneChain(st, id, epoch);
        var chain :| IsChain(st, id, epoch, chain)
                     && (epoch == st.sessions[id].epoch ==> st.sessions[id].head == Before(chain, |chain|));
        ChainKept(st, st', id, epoch, chain);
      } else {
        NoChain(st, st', id, epoch);
        assert Before([], 0) == None;
      }
    }
  }

  /** An operation that finalizes nothing. */
  lemma QuietStep(st: State, st': State)
    requires Consistent(st) && SameFinals(st, st') && SameHeads(st, st')
    requires AttemptsBelong(st') && ReservedHolds(st') && st'.used <= st'.limit
    ensures Consistent(st')
  {
    hide SameFinals, SameHeads, AttemptsBelong, ReservedHolds, RecordsAreFinal, ParentsFinal, NoForks, HeadsAreTips,
      Chained;
    FinalsKept(st, st');
    HeadsKept(st, st');
    ChainsKept(st, st');
  }

  lemma CreateKeeps(st: State, id: string)
    requires Consistent(st) && DoCreate(st, id).Some?
    ensures Consistent(DoCreate(st, id).value)
  {
    hide RecordsAreFinal, ParentsFinal, NoForks, HeadsAreTips, Chained;
    QuietStep(st, DoCreate(st, id).value);
  }

  lemma ReserveHolds(st: State, st': State, id: string, attempt: string, a: Attempt, s: Session)
    requires AttemptsBelong(st) && ReservedHolds(st) && id in st.sessions && attempt !in st.attempts
    requires !Busy(st.sessions[id]) && Busy(s) && s.epoch == st.sessions[id].epoch == a.epoch
    requires a.session == id && a.parent == s.head
    requires st'.attempts == st.attempts[attempt := a] && st'.sessions == st.sessions[id := s]
    ensures AttemptsBelong(st') && ReservedHolds(st')
  {
  }

  lemma BeginKeeps(st: State, id: string, revision: nat, parent: Option<string>, input: string,
                   reserve: nat, attempt: string)
    requires Consistent(st) && DoBegin(st, id, revision, parent, input, reserve, attempt).Some?
    ensures Consistent(DoBegin(st, id, revision, parent, input, reserve, attempt).value)
  {
    hide Duplicate, RecordsAreFinal, ParentsFinal, NoForks, HeadsAreTips, Chained, AttemptsBelong, ReservedHolds;
    var st' := DoBegin(st, id, revision, parent, input, reserve, attempt).value;
    ReserveHolds(st, st', id, attempt, st'.attempts[attempt], st'.sessions[id]);
    assert SameHeads(st, st');
    hide SameHeads;
    QuietStep(st, st');
  }

  lemma ReleaseHolds(st: State, st': State, id: string, attempt: string, a: Attempt, s: Session)
    requires AttemptsBelong(st) && ReservedHolds(st) && id in st.sessions && attempt in st.attempts
    requires st.attempts[attempt].status == Reserved && st.attempts[attempt].session == id
    requires a.status != Reserved && SameEpoch(a, st.attempts[attempt]) && s.epoch == st.sessions[id].epoch
    requires st'.attempts == st.attempts[attempt := a] && st'.sessions == st.sessions[id := s]
    ensures AttemptsBelong(st') && ReservedHolds(st')
  {
  }

  lemma UncertainKeeps(st: State, id: string, attempt: string)
    requires Consistent(st) && DoUncertain(st, id, attempt).Some?
    ensures Consistent(DoUncertain(st, id, attempt).value)
  {
    hide RecordsAreFinal, ParentsFinal, NoForks, HeadsAreTips, Chained, AttemptsBelong, ReservedHolds;
    var st' := DoUncertain(st, id, attempt).value;
    if st' != st {
      ReleaseHolds(st, st', id, attempt, st'.attempts[attempt], st'.sessions[id]);
      assert SameHeads(st, st');
      hide SameHeads;
      QuietStep(st, st');
    }
  }

  lemma TransitionKeeps(st: State, id: string, revision: nat, kind: Kind, approved: Option<string>)
    requires Consistent(st) && DoTransition(st, id, revision, kind, approved).Some?
    ensures Consistent(DoTransition(st, id, revision, kind, approved).value)
    ensures var before, after := st.sessions[id], DoTransition(st, id, revision, kind, approved).value.sessions[id];
            if kind == CompactBegin then after.epoch == before.epoch && after.head == before.head
            else after.epoch == before.epoch + 1 && after.head == None && after.portable == approved
  {
    hide RecordsAreFinal, ParentsFinal, NoForks, HeadsAreTips, Chained;
    QuietStep(st, DoTransition(st, id, revision, kind, approved).value);
  }

  lemma NothingReserved(st: State, st': State)
    requires AttemptsBelong(st) && st' == DoReopen(st).value
    ensures AttemptsBelong(st') && ReservedHolds(st')
  {
    hide HasReserved, Dropped, Interrupted;
  }

  lemma ReopenKeeps(st: State)
    requires Consistent(st)
    ensures Consistent(DoReopen(st).value)
  {
    hide HasReserved, Dropped, Interrupted, RecordsAreFinal, ParentsFinal, NoForks, HeadsAreTips, Chained;
    var st' := DoReopen(st).value;
    NothingReserved(st, st');
    ReopenFinals(st, st');
    ReopenHeads(st, st');
    hide AttemptsBelong, ReservedHolds, SameHeads, SameFinals;
    QuietStep(st, st');
  }

  lemma ReopenFinals(st: State, st': State)
    requires st' == DoReopen(st).value
    ensures SameFinals(st, st')
  {
    hide HasReserved, Dropped, Interrupted;
  }

  lemma ReopenHeads(st: State, st': State)
    requires st' == DoReopen(st).value
    ensures SameHeads(st, st')
  {
    hide HasReserved, Dropped, Interrupted;
  }

  /** What a commit adds: one finalized attempt on top of the old head. */
  ghost predicate AddsFinal(st: State, st': State, attempt: string) {
    && attempt in st.attempts && st.attempts[attempt].status == Reserved
    && attempt in st'.attempts && st'.attempts[attempt] == st.attempts[attempt].(status := Finalized)
    && (forall a :: IsFinal(st', a) <==> IsFinal(st, a) || a == attempt)
    && (forall a :: IsFinal(st, a) ==> st'.attempts[a] == st.attempts[a])
    && st'.records.Keys == st.records.Keys + {attempt}
  }

  lemma CommitParents(st: State, st': State, attempt: string)
    requires AddsFinal(st, st', attempt)
    requires RecordsAreFinal(st) && ParentsFinal(st) && HeadsAreTips(st) && ReservedHolds(st)
    ensures RecordsAreFinal(st') && ParentsFinal(st')
  {
  }

  lemma CommitNoForks(st: State, st': State, attempt: string)
    requires AddsFinal(st, st', attempt) && NoForks(st) && HeadsAreTips(st) && ReservedHolds(st)
    ensures NoForks(st')
  {
  }

  lemma CommitHeads(st: State, st': State, attempt: string, id: string)
    requires AddsFinal(st, st', attempt) && HeadsAreTips(st) && ReservedHolds(st) && ParentsFinal(st)
    requires id == st.attempts[attempt].session && st'.sessions.Keys == st.sessions.Keys
    requires forall other :: other in st.sessions && other != id ==> st'.sessions[other] == st.sessions[other]
    requires id in st'.sessions && st'.sessions[id].head == Some(attempt)
             && st'.sessions[id].epoch == st.sessions[id].epoch
    ensures HeadsAreTips(st')
  {
    assert !IsFinal(st, attempt);
  }

  /** What a commit does to membership in an epoch. */
  lemma EpochGrows(st: State, st': State, attempt: string, id: string, epoch: nat, a: string)
    requires AddsFinal(st, st', attempt)
    ensures InEpoch(st', a, id, epoch) <==>
              InEpoch(st, a, id, epoch) || (a == attempt && st.attempts[a].session == id
                && st.attempts[a].epoch == epoch)
    ensures InEpoch(st, a, id, epoch) ==> a != attempt && st'.attempts[a] == st.attempts[a]
  {
  }

  lemma CommittedIsFinal(st: State, st': State, attempt: string)
    requires AddsFinal(st, st', attempt)
    ensures InEpoch(st', attempt, st.attempts[attempt].session, st.attempts[attempt].epoch)
    ensures attempt in st'.attempts && st'.attempts[attempt].parent == st.attempts[attempt].parent
  {
  }

  lemma LinkGrows(st: State, st': State, attempt: string, id: string, epoch: nat, chain: seq<string>, i: nat)
    requires attempt in st.attempts && st.attempts[attempt].session == id && st.attempts[attempt].epoch == epoch
    requires AddsFinal(st, st', attempt) && IsChain(st, id, epoch, chain) && i <= |chain|
    requires st.attempts[attempt].parent == Before(chain, |chain|)
    ensures var longer := chain + [attempt];
            InEpoch(st', longer[i], id, epoch) && longer[i] in st'.attempts
              && st'.attempts[longer[i]].parent == Before(longer, i)
  {
    hide AddsFinal, Distinct;
    var longer := chain + [attempt];
    if i < |chain| {
      assert longer[i] == chain[i] && InEpoch(st, chain[i], id, epoch);
      EpochGrows(st, st', attempt, id, epoch, chain[i]);
    } else {
      CommittedIsFinal(st, st', attempt);
    }
  }

  lemma ChainGrows(st: State, st': State, attempt: string, id: string, epoch: nat, chain: seq<string>)
    requires attempt in st.attempts && st.attempts[attempt].session == id && st.attempts[attempt].epoch == epoch
    requires AddsFinal(st, st', attempt) && IsChain(st, id, epoch, chain)
    requires st.attempts[attempt].parent == Before(chain, |chain|)
    ensures IsChain(st', id, epoch, chain + [attempt])
  {
    var longer := chain + [attempt];
    hide AddsFinal, InEpoch;
    forall i | 0 <= i < |longer|
      ensures InEpoch(st', longer[i], id, epoch) && longer[i] in st'.attempts
              && st'.attempts[longer[i]].parent == Before(longer, i)
    {
      LinkGrows(st, st', attempt, id, epoch, chain, i);
    }
    hide Before;
    forall a | InEpoch(st', a, id, epoch) ensures a in longer {
      EpochGrows(st, st', attempt, id, epoch, a);
    }
    forall i, j | 0 <= i < j < |longer| ensures longer[i] != longer[j] {
      EpochGrows(st, st', attempt, id, epoch, longer[i]);
    }
  }

  lemma OtherChain(st: State, st': State, attempt: string, id: string, epoch: nat, chain: seq<string>)
    requires AddsFinal(st, st', attempt) && IsChain(st, id, epoch, chain)
    requires st.attempts[attempt].session != id || st.attempts[attempt].epoch != epoch
    ensures IsChain(st', id, epoch, chain)
  {
    hide Before;
  }

  lemma CommitChains(st: State, st': State, attempt: string, id: string)
    requires AddsFinal(st, st', attempt) && Chained(st) && ReservedHolds(st)
    requires id == st.attempts[attempt].session && st'.sessions.Keys == st.sessions.Keys
    requires forall other :: other in st.sessions && other != id ==> st'.sessions[other] == st.sessions[other]
    requires id in st'.sessions && st'.sessions[id].head == Some(attempt)
             && st'.sessions[id].epoch == st.sessions[id].epoch
    ensures Chained(st')
  {
    hide IsChain;
    forall other, epoch: nat | other in st'.sessions ensures OneChain(st', other, epoch) {
      assert OneChain(st, other, epoch);
      var chain :| IsChain(st, other, epoch, chain)
                   && (epoch == st.sessions[other].epoch ==> st.sessions[other].head == Before(chain, |chain|));
      if other == id && epoch == st.attempts[attempt].epoch {
        ChainGrows(st, st', attempt, id, epoch, chain);
        assert Before(chain + [attempt], |chain + [attempt]|) == Some(attempt);
      } else {
        OtherChain(st, st', attempt, other, epoch, chain);
      }
    }
  }

  /** The chain of the session's epoch, which ended in the old head, now ends in the attempt. */
  ghost predicate Appends(st: State, st': State, id: string, attempt: string) {
    && id in st.sessions && id in st'.sessions && st'.sessions[id].head == Some(attempt)
    && exists chain :: && IsChain(st, id, st.sessions[id].epoch, chain)
                       && st.sessions[id].head == Before(chain, |chain|)
                       && IsChain(st', id, st.sessions[id].epoch, chain + [attempt])
  }

  lemma CommitAppends(st: State, st': State, attempt: string, id: string)
    requires AddsFinal(st, st', attempt) && Chained(st) && ReservedHolds(st)
    requires id == st.attempts[attempt].session && id in st'.sessions && st'.sessions[id].head == Some(attempt)
    ensures Appends(st, st', id, attempt)
  {
    hide IsChain;
    var epoch := st.sessions[id].epoch;
    assert OneChain(st, id, epoch);
    var chain :| IsChain(st, id, epoch, chain) && st.sessions[id].head == Before(chain, |chain|);
    ChainGrows(st, st', attempt, id, epoch, chain);
  }

  lemma FinalizeAdds(st: State, id: string, attempt: string, record: Record, tools: bool)
    requires DoFinalize(st, id, attempt, record, tools).Some?
    ensures attempt in st.attempts && AddsFinal(st, DoFinalize(st, id, attempt, record, tools).value, attempt)
    ensures var st' := DoFinalize(st, id, attempt, record, tools).value;
            && id in st.sessions && st.attempts[attempt].session == id
               && st.attempts[attempt].epoch == st.sessions[id].epoch
            && st'.sessions.Keys == st.sessions.Keys && st'.sessions[id].epoch == st.sessions[id].epoch
            && st'.sessions[id].head == Some(attempt)
            && forall other :: other in st.sessions && other != id ==> st'.sessions[other] == st.sessions[other]
  {
  }

  lemma FinalizeReleases(st: State, id: string, attempt: string, record: Record, tools: bool)
    requires AttemptsBelong(st) && ReservedHolds(st) && DoFinalize(st, id, attempt, record, tools).Some?
    ensures var st' := DoFinalize(st, id, attempt, record, tools).value;
            AttemptsBelong(st') && ReservedHolds(st') && st'.used == st.used && st'.limit == st.limit
  {
    hide AttemptsBelong, ReservedHolds;
    var st' := DoFinalize(st, id, attempt, record, tools).value;
    ReleaseHolds(st, st', id, attempt, st'.attempts[attempt], st'.sessions[id]);
  }

  lemma FinalizeKeeps(st: State, id: string, attempt: string, record: Record, tools: bool)
    requires Consistent(st) && DoFinalize(st, id, attempt, record, tools).Some?
    ensures Consistent(DoFinalize(st, id, attempt, record, tools).value)
    ensures Appends(st, DoFinalize(st, id, attempt, record, tools).value, id, attempt)
  {
    hide RecordsAreFinal, ParentsFinal, NoForks, HeadsAreTips, Chained, AttemptsBelong, ReservedHolds, AddsFinal,
      IsFinal,DoFinalize, Appends;
    var st' := DoFinalize(st, id, attempt, record, tools).value;
    FinalizeAdds(st, id, attempt, record, tools);
    FinalizeReleases(st, id, attempt, record, tools);
    CommitParents(st, st', attempt);
    CommitNoForks(st, st', attempt);
    CommitHeads(st, st', attempt, id);
    CommitChains(st, st', attempt, id);
    CommitAppends(st, st', attempt, id);
  }

  /** Whatever operations arrive, in whatever order, the store stays consistent: the finalized
      attempts of every session and epoch are one chain, ending in the head. */
  lemma {:induction false} RunsStayConsistent(st: State, ops: seq<Op>)
    requires Consistent(st)
    ensures Consistent(Run(st, ops))
  {
    hide Consistent, Apply;
    if ops != [] {
      var before := Run(st, ops[..|ops| - 1]);
      RunsStayConsistent(st, ops[..|ops| - 1]);
      if Apply(before, ops[|ops| - 1]).Some? {
        StepKeeps(before, ops[|ops| - 1]);
      }
    }
  }

  lemma StepKeeps(st: State, op: Op)
    requires Consistent(st) && Apply(st, op).Some?
    ensures Consistent(Apply(st, op).value)
  {
    hide Consistent, DoCreate, DoBegin, DoFinalize, DoUncertain, DoTransition, DoReopen;
    match op
    case Create(id) => CreateKeeps(st, id);
    case Begin(id, revision, parent, input, reserve, attempt) =>
      BeginKeeps(st, id, revision, parent, input, reserve, attempt);
    case Finalize(id, attempt, record, tools) => FinalizeKeeps(st, id, attempt, record, tools);
    case MarkUncertain(id, attempt) => UncertainKeeps(st, id, attempt);
    case Transition(id, revision, kind, approved) => TransitionKeeps(st, id, revision, kind, approved);
    case Reopen => ReopenKeeps(st);
  }

  lemma EmptyIsConsistent(limit: nat)
    ensures Consistent(Empty(limit))
  {
  }

  // ----- What an operation other than a commit leaves alone -----

  /** The session stands where it stood, or at an epoch in which nothing was ever reserved. */
  ghost predicate StaysOrRestarts(st: State, st': State, id: string) {
    id in st'.sessions
    && (if id in st.sessions && st'.sessions[id].epoch == st.sessions[id].epoch
        then st'.sessions[id].head == st.sessions[id].head
        else st'.sessions[id].head.None?
             && forall a :: a in st.attempts && st.attempts[a].session == id ==>
                  st.attempts[a].epoch != st'.sessions[id].epoch)
  }

  lemma QuietFinals(st: State, op: Op)
    requires Apply(st, op).Some? && !op.Finalize?
    ensures SameFinals(st, Apply(st, op).value)
  {
    hide Duplicate, Interrupted, HasReserved, DoReopen, Dropped;
    if op.Reopen? {
      ReopenFinals(st, Apply(st, op).value);
    }
  }

  lemma QuietSessions(st: State, op: Op, id: string)
    requires AttemptsBelong(st) && Apply(st, op).Some? && !op.Finalize?
    ensures id in st.sessions ==> id in Apply(st, op).value.sessions
    ensures id in Apply(st, op).value.sessions ==> StaysOrRestarts(st, Apply(st, op).value, id)
  {
    hide Duplicate, HasReserved;
  }

  // ----- Races -----

  /** A successful write moves the session to a later revision, and none moves it back. */
  lemma RevisionsGrow(st: State, op: Op, id: string)
    requires id in st.sessions
    ensures id in Next(st, op).sessions && st.sessions[id].revision <= Next(st, op).sessions[id].revision
    ensures op.Begin? && op.id == id && Apply(st, op).Some? ==>
              st.sessions[id].revision == op.revision < Next(st, op).sessions[id].revision
  {
  }

  lemma {:induction false} RevisionsNeverReturn(st: State, ops: seq<Op>, id: string)
    requires id in st.sessions
    ensures id in Run(st, ops).sessions && st.sessions[id].revision <= Run(st, ops).sessions[id].revision
  {
    hide Next;
    if ops != [] {
      RevisionsNeverReturn(st, ops[..|ops| - 1], id);
      RevisionsGrow(Run(st, ops[..|ops| - 1]), ops[|ops| - 1], id);
    }
  }

  /** Of all requests that saw one revision of a session, at most one is reserved. */
  lemma OneReservationPerRevision(st: State, first: Op, ops: seq<Op>, second: Op)
    requires first.Begin? && second.Begin? && first.id == second.id && first.revision == second.revision
    requires Apply(st, first).Some?
    ensures Apply(Run(Next(st, first), ops), second) == None
  {
    hide Run;
    RevisionsGrow(st, first, first.id);
    RevisionsNeverReturn(Next(st, first), ops, first.id);
  }

  predicate Settled(st: State, attempt: string) {
    attempt in st.attempts && st.attempts[attempt].status != Reserved
  }

  /** Once settled, an attempt keeps its outcome through every later operation. */
  lemma SettledStays(st: State, op: Op, attempt: string)
    requires Settled(st, attempt)
    ensures attempt in Next(st, op).attempts && Next(st, op).attempts[attempt] == st.attempts[attempt]
    ensures attempt in st.records && (RecordsAreFinal(st) || !op.Finalize?) ==>
              attempt in Next(st, op).records && Next(st, op).records[attempt] == st.records[attempt]
  {
  }

  lemma {:induction false} OutcomeIsFinal(st: State, ops: seq<Op>, attempt: string)
    requires Settled(st, attempt)
    ensures attempt in Run(st, ops).attempts && Run(st, ops).attempts[attempt] == st.attempts[attempt]
  {
    hide Next;
    if ops != [] {
      OutcomeIsFinal(st, ops[..|ops| - 1], attempt);
      SettledStays(Run(st, ops[..|ops| - 1]), ops[|ops| - 1], attempt);
    }
  }

  /** The commit races with the uncertain mark of a dropped attempt: the first settles the
      attempt for good, the other one fails or changes nothing. */
  lemma CommitAndDropRace(st: State, id: string, attempt: string, record: Record, tools: bool, ops: seq<Op>)
    requires Consistent(st) && id in st.sessions && attempt in st.attempts && st.attempts[attempt].session == id
    requires st.attempts[attempt].status == Reserved
    ensures DoUncertain(Run(st, ops), id, attempt).Some?
    ensures var marked := Run(Next(st, MarkUncertain(id, attempt)), ops);
            DoFinalize(marked, id, attempt, record, tools) == None && attempt !in marked.records
    ensures DoFinalize(st, id, attempt, record, tools).Some? ==>
              var committed := Run(Next(st, Finalize(id, attempt, record, tools)), ops);
              DoUncertain(committed, id, attempt) == Some(committed) && IsFinal(committed, attempt)
  {
    hide Run, Consistent;
    UncertainKeeps(st, id, attempt);
    var marked := Next(st, MarkUncertain(id, attempt));
    OutcomeIsFinal(marked, ops, attempt);
    RunsStayConsistent(marked, ops);
    ConsistentRecords(Run(marked, ops));
    RunsStayConsistent(st, ops);
    RevisionsNeverReturn(st, ops, id);
    if DoFinalize(st, id, attempt, record, tools).Some? {
      OutcomeIsFinal(Next(st, Finalize(id, attempt, record, tools)), ops, attempt);
    }
  }

  lemma ConsistentRecords(st: State)
    requires Consistent(st)
    ensures RecordsAreFinal(st)
  {
  }

  // ----- A reservation that nobody settles -----

  predicate HeldBy(st: State, id: string, attempt: string) {
    && attempt in st.attempts && st.attempts[attempt].status == Reserved && st.attempts[attempt].session == id
    && id in st.sessions && Busy(st.sessions[id])
  }

  /** The operations that can end the reservation. */
  predicate Settles(op: Op, attempt: string) {
    op.Reopen? || ((op.Finalize? || op.MarkUncertain?) && op.attempt == attempt)
  }

  lemma HeldStays(st: State, op: Op, id: string, attempt: string)
    requires Consistent(st) && HeldBy(st, id, attempt) && !Settles(op, attempt)
    ensures HeldBy(Next(st, op), id, attempt)
    ensures Next(st, op).sessions[id] == st.sessions[id]
  {
    hide RecordsAreFinal, ParentsFinal, NoForks, HeadsAreTips, Chained, AttemptsBelong, Duplicate;
  }

  /** Until the reservation is settled or the store is reopened, its session does not move:
      whatever happens elsewhere, every reservation and every transition of it is refused. */
  lemma {:induction false} UnsettledBlocksSession(st: State, ops: seq<Op>, id: string, attempt: string, op: Op)
    requires Consistent(st) && HeldBy(st, id, attempt)
    requires forall i :: 0 <= i < |ops| ==> !Settles(ops[i], attempt)
    ensures HeldBy(Run(st, ops), id, attempt) && Run(st, ops).sessions[id] == st.sessions[id]
    ensures (op.Begin? || op.Transition?) && op.id == id ==> Apply(Run(st, ops), op) == None
  {
    hide Consistent, Next, Settles, DoFinalize, DoUncertain, DoReopen, DoCreate;
    if ops != [] {
      var front := ops[..|ops| - 1];
      UnsettledBlocksSession(st, front, id, attempt, op);
      RunsStayConsistent(st, front);
      HeldStays(Run(st, front), ops[|ops| - 1], id, attempt);
    }
  }

  /** Reopening settles it, and the session can be recovered from there. */
  lemma ReopenReleasesSession(st: State, id: string, attempt: string, approved: string)
    requires HeldBy(st, id, attempt)
    ensures var after := DoReopen(st).value;
            && after.attempts[attempt].status == Uncertain && after.sessions[id].status == Unknown
            && DoTransition(after, id, after.sessions[id].revision, Recover, Some(approved)).Some?
  {
    assert HasReserved(st, id);
  }
}
