/** Host continuity records (scripts/continuity_contract.py): hash-chained records of one host
    thread, with a request budget, interruption and recovery, and switches between models. */
module Continuity {
  import opened Common

  datatype Status = Ready | InFlight | Unknown | Cancelled

  datatype Request = Turn | Compact

  datatype Omitted = OpaqueReasoning | ProviderResponseIds | PendingOperations

  datatype Kind = Created | Started | Completed | Compacted | BecameUnknown | WasCancelled | Switched | Recovered

  /** `labels` and `digests` hold the fields that only have to be well formed. */
  datatype Identity = Identity(alias: string, provider: string, labels: seq<string>, digests: seq<string>, api: string,
                               maxOutput: int, contextWindow: int, compaction: string, remoteCompaction: string,
                               budget: int, retries: int)

  datatype Thread = Thread(id: string, provider: string, reference: string, history: Option<string>)

  datatype Transition = Transition(kind: Kind, source: Option<string>, context: Option<string>, omitted: seq<Omitted>,
                                   recovery: Option<string>)

  datatype Record = Record(identity: Identity, thread: Thread, revision: int, previous: Option<string>, issued: int,
                           status: Status, pending: Option<Request>, lastTurn: Option<string>, tools: seq<string>,
                           transition: Transition)

  datatype Portable = Message(role: string, text: string) | ToolResult(callId: string, result: string)

  type Hash = Record -> string

  type ContextHash = seq<Portable> -> string

  // ----- Validation -----

  predicate Space(c: char) {
    var n := c as int;
    || 9 <= n <= 13 || 28 <= n <= 32 || n == 0x85 || n == 0xA0 || n == 0x1680 || 0x2000 <= n <= 0x200A
    || n == 0x2028 || n == 0x2029 || n == 0x202F || n == 0x205F || n == 0x3000
  }

  predicate Printable(s: string) {
    forall i :: 0 <= i < |s| ==> s[i] as int >= 32 && s[i] as int != 127
  }

  predicate Label(s: string) {
    0 < |s| <= 256 && !Space(s[0]) && !Space(s[|s| - 1]) && Printable(s)
  }

  predicate Hexadecimal(s: string) {
    |s| == 64 && forall i :: 0 <= i < |s| ==> '0' <= s[i] <= '9' || 'a' <= s[i] <= 'f'
  }

  predicate AllLabels(list: seq<string>) {
    forall i :: 0 <= i < |list| ==> Label(list[i])
  }

  function Parts(s: string): seq<string> {
    if s == "" then [""]
    else
      var rest := Parts(s[1..]);
      if s[0] == '/' then [""] + rest else if rest == [] then [[s[0]]] else [[s[0]] + rest[0]] + rest[1..]
  }

  predicate Reference(s: string) {
    && s != "" && s[0] != '/' && '\\' !in s && Printable(s)
    && forall part :: part in Parts(s) ==> part != "" && part != "." && part != ".."
  }

  predicate ValidIdentity(v: Identity) {
    && Label(v.alias) && Label(v.provider) && AllLabels(v.labels)
    && (forall i :: 0 <= i < |v.digests| ==> Hexadecimal(v.digests[i]))
    && v.api in {"responses", "messages", "chat_completions"}
    && 0 < v.maxOutput < v.contextWindow
    && v.compaction == "local-only" && v.remoteCompaction == "unsupported" && v.retries == 0 && v.budget > 0
  }

  predicate ValidThread(t: Thread) {
    Label(t.id) && Label(t.provider) && Reference(t.reference) && (t.history.Some? ==> Hexadecimal(t.history.value))
  }

  predicate ValidState(r: Record) {
    && (r.status in {InFlight, Unknown} <==> r.pending.Some?)
    && (r.lastTurn.Some? ==> Label(r.lastTurn.value) && r.thread.history.Some?)
    && |r.tools| <= 4096 && AllLabels(r.tools) && Distinct(r.tools)
  }

  predicate ValidTransition(t: Transition) {
    && (t.source.Some? ==> Hexadecimal(t.source.value)) && (t.context.Some? ==> Hexadecimal(t.context.value))
    && Distinct(t.omitted)
    && (if t.kind == Recovered then t.recovery.Some? && Label(t.recovery.value) else t.recovery.None?)
    && (if t.kind == Switched then t.source.Some? && t.context.Some?
        else t.source.None? && t.context.None? && t.omitted == [])
  }

  predicate ValidRecord(r: Record) {
    && ValidIdentity(r.identity) && ValidThread(r.thread) && r.thread.provider == r.identity.provider
    && r.revision > 0 && (r.previous.Some? ==> Hexadecimal(r.previous.value)) && (r.revision == 1 <==> r.previous.None?)
    && 0 <= r.issued <= r.identity.budget
    && ValidState(r) && ValidTransition(r.transition)
  }

  function Validated(r: Record): Option<Record> {
    if ValidRecord(r) then Some(r) else None
  }

  // ----- Operations: the new record, or a refusal -----

  function Plain(kind: Kind): Transition {
    Transition(kind, None, None, [], None)
  }

  function Create(identity: Identity, thread: Thread): Option<Record> {
    Validated(Record(identity, thread, 1, None, 0, Ready, None, None, [], Plain(Created)))
  }

  /** The successor every operation but a switch starts from. */
  function Next(sha: Hash, r: Record, kind: Kind): Record {
    r.(revision := r.revision + 1, previous := Some(sha(r)), transition := Plain(kind))
  }

  function Resume(r: Record, identity: Identity, thread: Thread): Option<(string, string, string)> {
    if ValidRecord(r) && ValidIdentity(identity) && r.identity == identity && ValidThread(thread) && r.thread == thread
       && thread.history.Some? && r.status == Ready
    then Some((r.thread.id, identity.alias, identity.provider))
    else None
  }

  function Begin(sha: Hash, r: Record, request: Request, pendingTools: bool, pendingApprovals: bool): Option<Record> {
    if pendingTools || pendingApprovals || !ValidRecord(r) || r.status != Ready then None
    else Validated(Next(sha, r, Started).(issued := r.issued + 1, status := InFlight, pending := Some(request)))
  }

  predicate SameThread(t: Thread, u: Thread) {
    t.id == u.id && t.provider == u.provider && t.reference == u.reference
  }

  predicate Disjoint(s: seq<string>, t: seq<string>) {
    forall x :: x in s ==> x !in t
  }

  function Complete(sha: Hash, r: Record, thread: Thread, turn: string, ids: seq<string>): Option<Record> {
    if !ValidRecord(r) || r.status != InFlight || !ValidThread(thread) || thread.history.None?
      || !SameThread(thread, r.thread)
       || (r.pending == Some(Compact) && ids != []) || !Disjoint(ids, r.tools) || !Label(turn)
    then None
    else
      Validated(Next(sha, r, if r.pending == Some(Compact) then Compacted else Completed)
        .(thread := thread, tools := r.tools + ids, status := Ready, pending := None, lastTurn := Some(turn)))
  }

  /** May the tool call be dispatched now? */
  predicate AdmitTool(r: Record, callId: string) {
    ValidRecord(r) && r.status == InFlight && r.pending == Some(Turn) && Label(callId) && callId !in r.tools
  }

  function Interrupted(sha: Hash, r: Record, upstreamClosed: bool): Option<Record> {
    if !ValidRecord(r) || r.status != InFlight then None
    else if upstreamClosed then Validated(Next(sha, r, WasCancelled).(status := Cancelled, pending := None))
    else Validated(Next(sha, r, BecameUnknown).(status := Unknown))
  }

  predicate Carries(r: Record, item: Portable) {
    match item
    case Message(role, _) => role in {"user", "assistant"}
    case ToolResult(callId, _) => callId in r.tools
  }

  function Switch(sha: Hash, shaContext: ContextHash, r: Record, identity: Identity, thread: Thread,
                  context: seq<Portable>, omitted: seq<Omitted>): Option<Record>
  {
    var created := Create(identity, thread);
    if !ValidRecord(r) || r.status != Ready || context == [] || (exists item :: item in context && !Carries(r, item))
       || created.None? || thread.id == r.thread.id
    then None
    else
      Validated(created.value.(tools := r.tools,
        transition := Transition(Switched, Some(sha(r)), Some(shaContext(context)), omitted, None)))
  }

  function Recover(sha: Hash, r: Record, identity: Identity, thread: Thread, turn: Option<string>, decision: string,
                   ids: seq<string>, pendingTools: bool, pendingApprovals: bool): Option<Record>
  {
    if !ValidRecord(r) || r.status !in {Unknown, Cancelled} || pendingTools || pendingApprovals
       || !ValidIdentity(identity) || r.identity != identity || !ValidThread(thread) || thread.history.None?
       || !SameThread(thread, r.thread) || (exists x :: x in r.tools && x !in ids)
       || (turn.Some? && !Label(turn.value)) || !Label(decision)
    then None
    else
      Validated(Next(sha, r, Recovered)
        .(thread := thread, status := Ready, pending := None, lastTurn := turn, tools := ids,
          transition := Plain(Recovered).(recovery := Some(decision))))
  }

  // ----- Lineages: every record a host can reach -----

  datatype Event =
    | DoBegin(request: Request, pendingTools: bool, pendingApprovals: bool)
    | DoComplete(thread: Thread, turn: string, ids: seq<string>)
    | DoInterrupt(upstreamClosed: bool)
    | DoSwitch(identity: Identity, thread: Thread, context: seq<Portable>, omitted: seq<Omitted>)
    | DoRecover(identity: Identity, thread: Thread, lastTurn: Option<string>, decision: string, ids: seq<string>,
                pendingTools: bool, pendingApprovals: bool)

  datatype Hashing = Hashing(record: Hash, context: ContextHash)

  function Apply(h: Hashing, r: Record, e: Event): Option<Record> {
    match e
    case DoBegin(request, pendingTools, pendingApprovals) => Begin(h.record, r, request, pendingTools, pendingApprovals)
    case DoComplete(thread, turn, ids) => Complete(h.record, r, thread, turn, ids)
    case DoInterrupt(upstreamClosed) => Interrupted(h.record, r, upstreamClosed)
    case DoSwitch(identity, thread, context, omitted) =>
      Switch(h.record, h.context, r, identity, thread, context, omitted)
    case DoRecover(identity, thread, turn, decision, ids, pendingTools, pendingApprovals) =>
      Recover(h.record, r, identity, thread, turn, decision, ids, pendingTools, pendingApprovals)
  }

  /** The records written one after the other, and the events that produced them. */
  predicate Lineage(h: Hashing, chain: seq<Record>, events: seq<Event>) {
    && |chain| == |events| + 1
    && Create(chain[0].identity, chain[0].thread) == Some(chain[0])
    && forall i :: 0 <= i < |events| ==> Apply(h, chain[i], events[i]) == Some(chain[i + 1])
  }

  lemma LineagePrefix(h: Hashing, chain: seq<Record>, events: seq<Event>, n: nat)
    requires Lineage(h, chain, events) && n <= |events|
    ensures Lineage(h, chain[..n + 1], events[..n])
  {
    hide Apply, Create;
  }

  // ----- Accounting -----

  /** The events since the thread in use was created. */
  function Since(events: seq<Event>): seq<Event> {
    if events == [] || events[|events| - 1].DoSwitch? then []
    else Since(events[..|events| - 1]) + [events[|events| - 1]]
  }

  function Begins(events: seq<Event>): nat {
    if events == [] then 0 else Begins(events[..|events| - 1]) + if events[|events| - 1].DoBegin? then 1 else 0
  }

  function Completes(events: seq<Event>): nat {
    if events == [] then 0 else Completes(events[..|events| - 1]) + if events[|events| - 1].DoComplete? then 1 else 0
  }

  function Interrupts(events: seq<Event>): nat {
    if events == [] then 0 else Interrupts(events[..|events| - 1]) + if events[|events| - 1].DoInterrupt? then 1 else 0
  }

  function Recoveries(events: seq<Event>): nat {
    if events == [] then 0 else Recoveries(events[..|events| - 1]) + if events[|events| - 1].DoRecover? then 1 else 0
  }

  /** Every request is completed, interrupted or still in flight, and every interruption is
      recovered from or still open. */
  predicate Balanced(r: Record, events: seq<Event>) {
    && Begins(events) == Completes(events) + Interrupts(events) + (if r.status == InFlight then 1 else 0)
    && Interrupts(events) == Recoveries(events) + (if r.status == Unknown || r.status == Cancelled then 1 else 0)
  }

  predicate Accounted(r: Record, events: seq<Event>) {
    && r.revision == 1 + |Since(events)|
    && r.issued == Begins(Since(events)) <= r.identity.budget
    && Balanced(r, Since(events)) && Balanced(r, events)
  }

  lemma StepBalances(h: Hashing, r: Record, e: Event, after: Record, events: seq<Event>)
    requires Apply(h, r, e) == Some(after) && Balanced(r, events)
    ensures Balanced(after, events + [e])
  {
    hide ValidRecord, SameThread, Disjoint, Carries, Label, ValidThread, ValidIdentity;
    assert (events + [e])[..|events|] == events;
  }

  lemma StepCounts(h: Hashing, r: Record, e: Event, after: Record)
    requires Apply(h, r, e) == Some(after)
    ensures ValidRecord(after)
    ensures e.DoSwitch? ==> after.revision == 1 && after.issued == 0
    ensures !e.DoSwitch? ==> after.revision == r.revision + 1
    ensures !e.DoSwitch? ==> after.issued == r.issued + (if e.DoBegin? then 1 else 0)
  {
    hide ValidRecord, SameThread, Disjoint, Carries, Label, ValidThread, ValidIdentity;
  }

  lemma StepAccounts(h: Hashing, r: Record, e: Event, after: Record, events: seq<Event>)
    requires Apply(h, r, e) == Some(after) && Accounted(r, events)
    ensures Accounted(after, events + [e])
  {
    hide Apply, Balanced, ValidIdentity, ValidThread, ValidState, ValidTransition, Hexadecimal;
    assert (events + [e])[..|events|] == events;
    StepCounts(h, r, e, after);
    StepBalances(h, r, e, after, events);
    if e.DoSwitch? {
      SwitchBalances(h, r, e, after);
    } else {
      var since := Since(events);
      assert (since + [e])[..|since|] == since;
      StepBalances(h, r, e, after, since);
    }
  }

  lemma SwitchBalances(h: Hashing, r: Record, e: Event, after: Record)
    requires Apply(h, r, e) == Some(after) && e.DoSwitch?
    ensures Balanced(after, [])
  {
    hide ValidRecord, SameThread, Carries, Label, ValidThread, ValidIdentity;
  }

  /** Over every lineage: revisions count transitions, requests issued count begins within the
      budget, and no request or interruption is lost. */
  lemma {:induction false} EveryLineageIsAccounted(h: Hashing, chain: seq<Record>, events: seq<Event>)
    requires Lineage(h, chain, events)
    ensures ValidRecord(chain[|events|]) && Accounted(chain[|events|], events)
    decreases |events|
  {
    hide Apply, ValidRecord, Accounted;
    if events == [] {
      StartAccounts(h, chain);
    } else {
      var n := |events| - 1;
      LineagePrefix(h, chain, events, n);
      EveryLineageIsAccounted(h, chain[..n + 1], events[..n]);
      assert Apply(h, chain[n], events[n]) == Some(chain[n + 1]);
      StepCounts(h, chain[n], events[n], chain[n + 1]);
      StepAccounts(h, chain[n], events[n], chain[n + 1], events[..n]);
      assert events == events[..n] + [events[n]];
    }
  }

  lemma StartAccounts(h: Hashing, chain: seq<Record>)
    requires Lineage(h, chain, [])
    ensures ValidRecord(chain[0]) && Accounted(chain[0], [])
  {
    hide ValidState, ValidTransition, ValidThread;
  }

  /** A thread may be resumed exactly if its binding is unchanged, its history exists, and every
      request and every interruption of the whole lineage has been settled. */
  lemma ResumesIffSettled(h: Hashing, chain: seq<Record>, events: seq<Event>, identity: Identity, thread: Thread)
    requires Lineage(h, chain, events)
    ensures Resume(chain[|events|], identity, thread).Some?
            <==> && identity == chain[|events|].identity && thread == chain[|events|].thread && thread.history.Some?
                 && Begins(events) == Completes(events) + Interrupts(events) && Interrupts(events) == Recoveries(events)
  {
    hide Apply, Lineage, ValidState, ValidTransition, ValidIdentity, ValidThread, Since, Begins, Completes,
      Interrupts, Recoveries;
    EveryLineageIsAccounted(h, chain, events);
  }

  // ----- Tools run at most once -----

  /** The tool calls an event reports as done. */
  function Reported(e: Event): seq<string> {
    match e
    case DoComplete(_, _, ids) => ids
    case DoRecover(_, _, _, _, ids, _, _) => ids
    case _ => []
  }

  lemma StepTools(h: Hashing, r: Record, e: Event, after: Record, x: string)
    requires Apply(h, r, e) == Some(after)
    ensures x in after.tools <==> x in r.tools || x in Reported(e)
    ensures e.DoComplete? && x in Reported(e) ==> x !in r.tools
    ensures Distinct(after.tools)
  {
    hide ValidIdentity, ValidThread, ValidTransition, Label, AllLabels, Carries, Hexadecimal, SameThread;
  }

  /** A tool is on the record exactly if an earlier completion or recovery reported it. */
  lemma {:induction false} ToolsAreReported(h: Hashing, chain: seq<Record>, events: seq<Event>, n: nat, x: string)
    requires Lineage(h, chain, events) && n <= |events|
    ensures x in chain[n].tools <==> exists i :: 0 <= i < n && x in Reported(events[i])
    decreases n
  {
    hide Apply, Reported, ValidRecord, ValidIdentity, ValidThread;
    if n > 0 {
      ToolsAreReported(h, chain, events, n - 1, x);
      assert Apply(h, chain[n - 1], events[n - 1]) == Some(chain[n - 1 + 1]);
      StepTools(h, chain[n - 1], events[n - 1], chain[n], x);
    } else {
      assert chain[0].tools == [];
    }
  }

  /** Once completed, a tool stays completed, is never admitted again and never completes again,
      in every later record, across model switches too. */
  lemma ToolsRunAtMostOnce(h: Hashing, chain: seq<Record>, events: seq<Event>, m: nat, n: nat, x: string)
    requires Lineage(h, chain, events) && m <= n <= |events| && x in chain[m].tools
    ensures x in chain[n].tools && !AdmitTool(chain[n], x)
    ensures n < |events| && events[n].DoComplete? ==> x !in Reported(events[n])
  {
    hide Apply, Reported, ValidRecord, Lineage;
    ToolsAreReported(h, chain, events, m, x);
    ToolsAreReported(h, chain, events, n, x);
    StepInLineage(h, chain, events, n);
    if n < |events| {
      StepTools(h, chain[n], events[n], chain[n + 1], x);
    }
  }

  lemma StepInLineage(h: Hashing, chain: seq<Record>, events: seq<Event>, n: nat)
    requires Lineage(h, chain, events)
    ensures n < |events| ==> n + 1 < |chain| && Apply(h, chain[n], events[n]) == Some(chain[n + 1])
  {
  }

  /** The gate in front of a tool, over a whole lineage: exactly the calls nobody reported yet. */
  lemma AdmittedIffUnreported(h: Hashing, chain: seq<Record>, events: seq<Event>, n: nat, x: string)
    requires Lineage(h, chain, events) && n <= |events|
    ensures AdmitTool(chain[n], x)
            <==> && chain[n].status == InFlight && chain[n].pending == Some(Turn) && Label(x)
                 && forall i :: 0 <= i < n ==> x !in Reported(events[i])
  {
    hide Apply, Reported, ValidRecord, Label;
    ToolsAreReported(h, chain, events, n, x);
    LineagePrefix(h, chain, events, n);
    EveryLineageIsAccounted(h, chain[..n + 1], events[..n]);
  }

  // ----- The last record fixes the whole chain -----

  /** No two different records of the two chains have the same digest. */
  predicate CollisionFree(sha: Hash, chain: seq<Record>, chain': seq<Record>) {
    forall i, j :: 0 <= i < |chain| && 0 <= j < |chain'| && sha(chain[i]) == sha(chain'[j]) ==> chain[i] == chain'[j]
  }

  /** Every later record names its predecessor by digest. */
  function Parent(r: Record): Option<string> {
    if r.transition.kind == Switched then r.transition.source else r.previous
  }

  lemma StepNamesParent(h: Hashing, r: Record, e: Event, after: Record)
    requires Apply(h, r, e) == Some(after)
    ensures Parent(after) == Some(h.record(r))
  {
    hide ValidRecord, SameThread, Disjoint, Carries, Label, ValidThread, ValidIdentity;
  }

  lemma StartHasNoParent(h: Hashing, chain: seq<Record>, events: seq<Event>)
    requires Lineage(h, chain, events)
    ensures Parent(chain[0]) == None
  {
    hide Apply, ValidRecord;
  }

  lemma LastNamesParent(h: Hashing, chain: seq<Record>, events: seq<Event>)
    requires Lineage(h, chain, events)
    ensures Parent(chain[|events|]) == if events == [] then None else Some(h.record(chain[|events| - 1]))
  {
    hide Apply, ValidRecord, Parent;
    if events == [] {
      StartHasNoParent(h, chain, events);
    } else {
      var n := |events| - 1;
      assert Apply(h, chain[n], events[n]) == Some(chain[n + 1]);
      StepNamesParent(h, chain[n], events[n], chain[n + 1]);
    }
  }

  /** Two lineages that end in the same record are the same, record by record. */
  lemma {:induction false} LastRecordFixesChain(h: Hashing, chain: seq<Record>, events: seq<Event>,
                                                chain': seq<Record>, events': seq<Event>)
    requires Lineage(h, chain, events) && Lineage(h, chain', events') && CollisionFree(h.record, chain, chain')
    requires chain[|events|] == chain'[|events'|]
    ensures chain == chain'
    decreases |events|
  {
    hide Apply, Parent, Create;
    LastNamesParent(h, chain, events);
    LastNamesParent(h, chain', events');
    if events != [] && events' != [] {
      var m, n := |events| - 1, |events'| - 1;
      LineagePrefix(h, chain, events, m);
      LineagePrefix(h, chain', events', n);
      LastRecordFixesChain(h, chain[..m + 1], events[..m], chain'[..n + 1], events'[..n]);
      assert chain == chain[..m + 1] + [chain[m + 1]] && chain' == chain'[..n + 1] + [chain'[n + 1]];
    }
  }

  // ----- When an operation is refused -----

  /** On a valid record a request is refused only for open host work, an open outcome or a spent
      budget: the closing validation adds nothing else. */
  lemma BeginsWithinBudget(sha: Hash, r: Record, request: Request, pendingTools: bool, pendingApprovals: bool)
    requires ValidRecord(r) && Hexadecimal(sha(r))
    ensures Begin(sha, r, request, pendingTools, pendingApprovals).Some?
            <==> !pendingTools && !pendingApprovals && r.status == Ready && r.issued < r.identity.budget
  {
    hide ValidIdentity, ValidThread, Hexadecimal, AllLabels, Label;
  }

  lemma InterruptsWhenInFlight(sha: Hash, r: Record, upstreamClosed: bool)
    requires ValidRecord(r) && Hexadecimal(sha(r))
    ensures Interrupted(sha, r, upstreamClosed).Some? <==> r.status == InFlight
  {
    hide ValidIdentity, ValidThread, Hexadecimal, AllLabels, Label;
  }

  /** A completion fits when its tools are new, well formed, listed once and within the limit. */
  lemma CompletesWithNewTools(sha: Hash, r: Record, thread: Thread, turn: string, ids: seq<string>)
    requires ValidRecord(r) && Hexadecimal(sha(r))
    ensures Complete(sha, r, thread, turn, ids).Some?
            <==> && r.status == InFlight && ValidThread(thread) && thread.history.Some?
                 && SameThread(thread, r.thread) && Label(turn)
                 && (r.pending == Some(Compact) ==> ids == [])
                 && Disjoint(ids, r.tools) && AllLabels(ids) && Distinct(ids) && |r.tools| + |ids| <= 4096
  {
    hide ValidIdentity, ValidThread, Hexadecimal, AllLabels, Disjoint, Label;
    JoinedTools(r.tools, ids);
  }

  lemma JoinedTools(tools: seq<string>, ids: seq<string>)
    requires AllLabels(tools) && Distinct(tools)
    ensures Disjoint(ids, tools) ==>
              (AllLabels(tools + ids) && Distinct(tools + ids) <==> AllLabels(ids) && Distinct(ids))
  {
    hide Label;
    var all := tools + ids;
    assert forall i :: 0 <= i < |ids| ==> all[|tools| + i] == ids[i];
    if Disjoint(ids, tools) && Distinct(ids) {
      forall i, j | 0 <= i < j < |all| ensures all[i] != all[j] {
        if i < |tools| <= j {
          assert ids[j - |tools|] in ids && tools[i] in tools;
        }
      }
    }
    if Distinct(all) {
      forall i, j | 0 <= i < j < |ids| ensures ids[i] != ids[j] {
        assert all[|tools| + i] != all[|tools| + j];
      }
    }
    if AllLabels(all) {
      forall i | 0 <= i < |ids| ensures Label(ids[i]) {
        assert Label(all[|tools| + i]);
      }
    }
  }

  /** A valid interrupted record can always be left by a recovery that keeps its tools. */
  lemma RecoveryIsPossible(sha: Hash, r: Record, digest: string, decision: string)
    requires ValidRecord(r) && r.status in {Unknown, Cancelled} && Hexadecimal(sha(r)) && Hexadecimal(digest)
             && Label(decision)
    ensures var thread := r.thread.(history := Some(digest));
            Recover(sha, r, r.identity, thread, r.lastTurn, decision, r.tools, false, false).Some?
  {
    hide ValidIdentity, Hexadecimal, AllLabels, Label, Reference;
  }

  // ----- What an operation writes down -----

  /** A record starts exactly from a valid identity and a valid thread of its provider: ready, at
      revision one, with nothing issued, completed or carried over. */
  lemma CreateWrites(identity: Identity, thread: Thread)
    ensures Create(identity, thread).Some?
            <==> ValidIdentity(identity) && ValidThread(thread) && thread.provider == identity.provider
    ensures Create(identity, thread).Some? ==>
              var r := Create(identity, thread).value;
              && r.identity == identity && r.thread == thread && r.revision == 1 && r.previous == None && r.issued == 0
              && r.status == Ready && r.pending == None && r.lastTurn == None && r.tools == []
              && r.transition.kind == Created
  {
    hide ValidThread, Label, Hexadecimal;
  }

  /** A resumed thread is named by its id, the route's alias and the route's provider. */
  lemma ResumeAnswers(r: Record, identity: Identity, thread: Thread)
    requires Resume(r, identity, thread).Some?
    ensures Resume(r, identity, thread).value == (r.thread.id, r.identity.alias, r.identity.provider)
  {
    hide ValidRecord, ValidIdentity, ValidThread;
  }

  lemma BeginWrites(sha: Hash, r: Record, request: Request, pendingTools: bool, pendingApprovals: bool)
    requires Begin(sha, r, request, pendingTools, pendingApprovals).Some?
    ensures var after := Begin(sha, r, request, pendingTools, pendingApprovals).value;
            && after.status == InFlight && after.pending == Some(request) && after.transition.kind == Started
            && after.identity == r.identity && after.thread == r.thread && after.lastTurn == r.lastTurn
            && after.tools == r.tools && after.issued == r.issued + 1
  {
    hide ValidRecord;
  }

  /** A completion writes down the given turn, thread and tools, and which request it was. */
  lemma CompleteWrites(sha: Hash, r: Record, thread: Thread, turn: string, ids: seq<string>)
    requires Complete(sha, r, thread, turn, ids).Some?
    ensures var after := Complete(sha, r, thread, turn, ids).value;
            && after.status == Ready && after.pending == None && after.lastTurn == Some(turn) && after.thread == thread
            && after.tools == r.tools + ids && after.identity == r.identity && after.issued == r.issued
            && (r.pending == Some(Turn) ==> after.transition.kind == Completed)
            && (r.pending == Some(Compact) ==> after.transition.kind == Compacted)
  {
    hide ValidRecord, ValidThread, SameThread, Disjoint, Label;
  }

  /** An interruption says whether the upstream is known to be closed; if not, the request stays
      on record. */
  lemma InterruptWrites(sha: Hash, r: Record, upstreamClosed: bool)
    requires Interrupted(sha, r, upstreamClosed).Some?
    ensures var after := Interrupted(sha, r, upstreamClosed).value;
            && (if upstreamClosed
                then after.status == Cancelled && after.pending == None && after.transition.kind == WasCancelled
                else after.status == Unknown && after.pending == r.pending && after.transition.kind == BecameUnknown)
            && after.identity == r.identity && after.thread == r.thread && after.tools == r.tools
            && after.issued == r.issued && after.lastTurn == r.lastTurn
  {
    hide ValidRecord;
  }

  /** A switch starts afresh on another thread and takes nothing along but the completed tools and
      the digests of what it came from. */
  lemma SwitchWrites(sha: Hash, shaContext: ContextHash, r: Record, identity: Identity, thread: Thread,
                     context: seq<Portable>, omitted: seq<Omitted>)
    requires Switch(sha, shaContext, r, identity, thread, context, omitted).Some?
    ensures var after := Switch(sha, shaContext, r, identity, thread, context, omitted).value;
            && after.identity == identity && after.thread == thread && after.tools == r.tools
            && after.revision == 1 && after.previous == None && after.issued == 0
            && after.status == Ready && after.pending == None && after.lastTurn == None
            && after.transition == Transition(Switched, Some(sha(r)), Some(shaContext(context)), omitted, None)
  {
    hide ValidRecord, Carries;
  }

  /** A switch is possible exactly from a ready record, to another valid thread, with a context of
      messages of the two sides and results of completed tools only. */
  lemma SwitchesWhenPortable(sha: Hash, shaContext: ContextHash, r: Record, identity: Identity, thread: Thread,
                             context: seq<Portable>, omitted: seq<Omitted>)
    requires ValidRecord(r) && Hexadecimal(sha(r)) && Hexadecimal(shaContext(context))
    ensures Switch(sha, shaContext, r, identity, thread, context, omitted).Some?
            <==> && r.status == Ready && thread.id != r.thread.id && context != [] && Distinct(omitted)
                 && ValidIdentity(identity) && ValidThread(thread) && thread.provider == identity.provider
                 && forall i :: 0 <= i < |context| ==>
                      if context[i].Message? then context[i].role == "user" || context[i].role == "assistant"
                      else context[i].callId in r.tools
  {
    hide ValidThread, Label, Hexadecimal;
    forall i | 0 <= i < |context|
      ensures Carries(r, context[i])
              <==> if context[i].Message? then context[i].role == "user" || context[i].role == "assistant"
                   else context[i].callId in r.tools
    {
    }
  }

  /** A recovery writes down the decision, the given thread, turn and tools, and is ready again. */
  lemma RecoverWrites(sha: Hash, r: Record, identity: Identity, thread: Thread, turn: Option<string>, decision: string,
                      ids: seq<string>, pendingTools: bool, pendingApprovals: bool)
    requires Recover(sha, r, identity, thread, turn, decision, ids, pendingTools, pendingApprovals).Some?
    ensures var after := Recover(sha, r, identity, thread, turn, decision, ids, pendingTools, pendingApprovals).value;
            && after.status == Ready && after.pending == None && after.lastTurn == turn && after.thread == thread
            && after.tools == ids && after.identity == r.identity && after.issued == r.issued
            && after.transition == Transition(Recovered, None, None, [], Some(decision))
  {
    hide ValidRecord, ValidThread, ValidIdentity, SameThread, Label;
  }

  /** A recovery is possible exactly from an interrupted record without open host work, with the
      same binding and thread, a history, every completed tool and a decision to name. */
  lemma RecoversWhenReconciled(sha: Hash, r: Record, identity: Identity, thread: Thread, turn: Option<string>,
                               decision: string, ids: seq<string>, pendingTools: bool, pendingApprovals: bool)
    requires ValidRecord(r) && Hexadecimal(sha(r))
    ensures Recover(sha, r, identity, thread, turn, decision, ids, pendingTools, pendingApprovals).Some?
            <==> && (r.status == Unknown || r.status == Cancelled) && !pendingTools && !pendingApprovals
                 && identity == r.identity && ValidThread(thread) && thread.history.Some?
                 && thread.id == r.thread.id && thread.provider == r.thread.provider
                 && thread.reference == r.thread.reference
                 && (forall x :: x in r.tools ==> x in ids) && AllLabels(ids) && Distinct(ids) && |ids| <= 4096
                 && (turn.Some? ==> Label(turn.value)) && Label(decision)
  {
    hide ValidIdentity, ValidThread, Hexadecimal, AllLabels, Label;
  }

  // ----- What a well-formed record holds -----

  /** No path separator is left in a part, and the parts make up the reference again. */
  lemma {:induction false} PartsMakeUp(s: string)
    ensures Parts(s) != [] && Joined(Parts(s)) == s
    ensures forall i :: 0 <= i < |Parts(s)| ==> '/' !in Parts(s)[i]
    decreases |s|
  {
    if s != "" {
      PartsMakeUp(s[1..]);
      var rest := Parts(s[1..]);
      assert s == [s[0]] + s[1..];
      if s[0] == '/' {
        assert Parts(s)[1..] == rest;
      } else {
        assert Parts(s)[1..] == rest[1..];
        assert Joined(Parts(s)) == [s[0]] + Joined(rest);
      }
    }
  }

  function Joined(parts: seq<string>): string {
    if parts == [] then "" else if |parts| == 1 then parts[0] else parts[0] + "/" + Joined(parts[1..])
  }

  /** What every written record holds: local compaction, no transport retries, an output limit below
      the context window, requests within a positive budget, a known interface, printable names of at
      most 256 characters without spaces around them, at most 4096 different tools, and a history
      reference that stays inside its directory. */
  lemma RecordHolds(r: Record)
    requires ValidRecord(r)
    ensures r.identity.compaction == "local-only" && r.identity.remoteCompaction == "unsupported"
            && r.identity.retries == 0
    ensures 0 < r.identity.maxOutput < r.identity.contextWindow && 0 <= r.issued <= r.identity.budget
            && r.identity.budget > 0
    ensures r.identity.api in {"responses", "messages", "chat_completions"}
    ensures r.thread.provider == r.identity.provider && |r.tools| <= 4096 && Distinct(r.tools)
    ensures forall name :: name in {r.thread.id, r.thread.provider, r.identity.alias} || name in r.tools ==>
              && 0 < |name| <= 256 && name[0] != ' ' && name[|name| - 1] != ' '
              && forall i :: 0 <= i < |name| ==> ' ' <= name[i] && name[i] != 127 as char
    ensures '\\' !in r.thread.reference && r.thread.reference != "" && r.thread.reference[0] != '/'
    ensures forall part :: part in Parts(r.thread.reference) ==> part !in {"", ".", ".."}
    ensures r.lastTurn.Some? ==> r.thread.history.Some?
    ensures r.revision >= 1 && (r.revision == 1 <==> r.previous == None)
    ensures r.status in {InFlight, Unknown} <==> r.pending.Some?
  {
    hide Parts, Hexadecimal, ValidTransition;
    forall name | name in r.tools ensures Label(name) {
      var i :| 0 <= i < |r.tools| && r.tools[i] == name;
    }
  }
}
