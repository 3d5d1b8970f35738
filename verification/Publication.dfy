/** The end of a managed request (src/proxy_managed.rs, responses): numbered frames within
    a byte limit, and a token that becomes visible only after the checkpoint is committed
    and the final usage record is acknowledged. */
module Publication {
  import opened Common
  import opened Json
  import History
  import Resume
  import SseFrames

  // ----- Final events -----

  datatype StreamEvent =
    | ItemAdded(index: nat, item: Json)
    | ItemDone(position: Option<nat>, item: Json)
    | Completed(output: seq<Json>)
    | OtherEvent(body: Json)

  /** An event of the codec, rewritten to show the published output. */
  function Rewritten(e: StreamEvent, published: seq<Json>): StreamEvent {
    match e
    case ItemDone(position, _) =>
      if position.Some? && position.value < |published| then ItemDone(position, published[position.value]) else e
    case Completed(_) => Completed(published)
    case _ => e
  }

  function RewrittenAll(events: seq<StreamEvent>, published: seq<Json>): seq<StreamEvent> {
    seq(|events|, i requires 0 <= i < |events| => Rewritten(events[i], published))
  }

  function DoneEvents(published: seq<Json>): seq<StreamEvent> {
    seq(|published|, i requires 0 <= i < |published| => ItemDone(Some(i), published[i]))
  }

  function SaturatingPred(n: nat): nat {
    if n == 0 then 0 else n - 1
  }

  /** The carrier as it is first announced: without summary and without token. */
  function Announced(carrier: Json): Json {
    Obj(map[Type := Str("reasoning"), Id := (if Get(carrier, Id).Some? then Get(carrier, Id).value else Null),
      Summary := Arr([])])
  }

  function FinalEvents(output: seq<Json>, id: string, token: string,
                       events: Option<seq<StreamEvent>>): seq<StreamEvent> {
    var published := Resume.AddEnvelope(output, id, token);
    if events.None? then DoneEvents(published) + [Completed(published)]
    else
      var shown := RewrittenAll(events.value, published);
      if |published| > |output| then
        var at := SaturatingPred(|shown|);
        var carrier := published[|output|];
        shown[..at] + [ItemAdded(|output|, Announced(carrier)), ItemDone(Some(|output|), carrier)] + shown[at..]
      else shown
  }

  /** The in-place rewrite of the prepared events. */
  method ManagedFinalEvents(output: seq<Json>, id: string, token: string, events: Option<seq<StreamEvent>>)
    returns (all: seq<StreamEvent>)
    ensures all == FinalEvents(output, id, token, events)
  {
    hide Resume.AddEnvelope;
    var published := Resume.AddEnvelope(output, id, token);
    if events.None? {
      return DoneEvents(published) + [Completed(published)];
    }
    all := events.value;
    for i := 0 to |all|
      invariant |all| == |events.value|
      invariant forall k :: 0 <= k < i ==> all[k] == Rewritten(events.value[k], published)
      invariant forall k :: i <= k < |all| ==> all[k] == events.value[k]
    {
      all := all[i := Rewritten(all[i], published)];
    }
    assert all == RewrittenAll(events.value, published);
    if |published| > |output| {
      var carrier := published[|output|];
      var at := SaturatingPred(|all|);
      all := all[..at] + [ItemAdded(|output|, Announced(carrier)), ItemDone(Some(|output|), carrier)] + all[at..];
    }
  }

  /** The event shows the published output: the item at its position, or all of it. */
  predicate Shows(e: StreamEvent, published: seq<Json>) {
    match e
    case ItemDone(position, item) => position.Some? && position.value < |published| ==>
      item == published[position.value]
    case Completed(output) => output == published
    case _ => true
  }

  /** A finished item without a place in the published output. */
  predicate Unplaced(e: StreamEvent, published: seq<Json>) {
    e.ItemDone? && (e.position.None? || e.position.value >= |published|)
  }

  /** Whatever the codec prepared, a finished item with a place in the output and the completed
      response show what is published; items without a place pass unchanged. */
  lemma FinalEventsShowPublished(output: seq<Json>, id: string, token: string, events: Option<seq<StreamEvent>>)
    ensures var published := Resume.AddEnvelope(output, id, token);
            forall i :: 0 <= i < |FinalEvents(output, id, token, events)| ==>
              && Shows(FinalEvents(output, id, token, events)[i], published)
              && (Unplaced(FinalEvents(output, id, token, events)[i], published) ==>
                    events.Some? && FinalEvents(output, id, token, events)[i] in events.value)
    ensures events.Some? ==>
              |FinalEvents(output, id, token, events)| == |events.value|
                + if Resume.Carrier(output) < |output| then 0 else 2
  {
    hide Resume.Carrier;
    var published := Resume.AddEnvelope(output, id, token);
    var all := FinalEvents(output, id, token, events);
    if events.Some? {
      var shown := RewrittenAll(events.value, published);
      var at := SaturatingPred(|shown|);
      forall i | 0 <= i < |all|
        ensures Shows(all[i], published) && (Unplaced(all[i], published) ==> all[i] in events.value)
      {
        if |published| > |output| && i >= at + 2 {
          assert all[i] == shown[i - 2];
        }
      }
    }
  }

  /** Without prepared events: every published item in its place, in order, and then the completed
      response. */
  lemma PlainFinalEvents(output: seq<Json>, id: string, token: string)
    ensures var all, published := FinalEvents(output, id, token, None), Resume.AddEnvelope(output, id, token);
            && |all| == |published| + 1
            && (forall i :: 0 <= i < |published| ==> all[i] == ItemDone(Some(i), published[i]))
            && all[|published|] == Completed(published)
  {
    hide Resume.AddEnvelope;
  }

  /** `e` is the prepared event `was`, showing the published output where it shows output. */
  predicate Presents(e: StreamEvent, was: StreamEvent, published: seq<Json>) {
    if was.Completed? then e == Completed(published)
    else if was.ItemDone? && was.position.Some? && was.position.value < |published|
    then e == ItemDone(was.position, published[was.position.value])
    else e == was
  }

  /** Prepared events keep their order. If an item carries the token, that is all; otherwise the new
      carrier is announced and finished directly before the last of them. */
  lemma PreparedFinalEvents(output: seq<Json>, id: string, token: string, events: seq<StreamEvent>)
    ensures var all, published := FinalEvents(output, id, token, Some(events)), Resume.AddEnvelope(output, id, token);
            var n := |events|;
            var at := if n == 0 then 0 else n - 1;
            if exists k :: 0 <= k < |output| && History.IsReasoning(output[k]) then
              |all| == n && forall i :: 0 <= i < n ==> Presents(all[i], events[i], published)
            else
              && |all| == n + 2 && published == output + [Resume.NewCarrier(id, token)]
              && (forall i :: 0 <= i < at ==> Presents(all[i], events[i], published))
              && all[at] == ItemAdded(|output|, Obj(map[Type := Str("reasoning"), Id := Str("rs_" + id),
                                                        Summary := Arr([])]))
              && all[at + 1] == ItemDone(Some(|output|), Resume.NewCarrier(id, token))
              && (n > 0 ==> Presents(all[n + 1], events[n - 1], published))
  {
    var published := Resume.AddEnvelope(output, id, token);
    var k := Resume.Carrier(output);
    if k < |output| {
      assert History.IsReasoning(output[k]);
    } else {
      var carrier := Resume.NewCarrier(id, token);
      assert published[|output|] == carrier && Get(carrier, Id) == Some(Str("rs_" + id));
    }
  }

  /** A stream that the codec ends with its completed event, or leaves to the gateway, ends with the
      completed response as it is published. */
  lemma EndsCompleted(output: seq<Json>, id: string, token: string, events: Option<seq<StreamEvent>>)
    requires events.Some? ==> events.value != [] && events.value[|events.value| - 1].Completed?
    ensures var all := FinalEvents(output, id, token, events);
            all != [] && all[|all| - 1] == Completed(Resume.AddEnvelope(output, id, token))
  {
    hide FinalEvents, Resume.AddEnvelope, Resume.NewCarrier;
    if events.None? {
      PlainFinalEvents(output, id, token);
    } else {
      PreparedFinalEvents(output, id, token, events.value);
    }
  }

  // ----- Numbered frames -----

  /** The JSON text and type of an event once it carries its sequence number. */
  type Render = (StreamEvent, nat) -> SseFrames.Frame

  function Numbered(render: Render, e: StreamEvent, sequence: nat): (bytes: Bytes)
    ensures |bytes| > 0
  {
    SseFrames.Print(render(e, sequence))
  }

  /** Bytes of `events` printed one after the other from `sequence` on. */
  function PrintedSize(render: Render, events: seq<StreamEvent>, sequence: nat): nat {
    if events == [] then 0
    else |Numbered(render, events[0], sequence)| + PrintedSize(render, events[1..], sequence + 1)
  }

  lemma {:induction false} PrintedSizeAppend(render: Render, a: seq<StreamEvent>, b: seq<StreamEvent>, sequence: nat)
    ensures PrintedSize(render, a + b, sequence)
            == PrintedSize(render, a, sequence) + PrintedSize(render, b, sequence + |a|)
  {
    hide Numbered;
    if a == [] {
      assert a + b == b;
    } else {
      assert (a + b)[1..] == a[1..] + b;
      PrintedSizeAppend(render, a[1..], b, sequence + 1);
    }
  }

  // ----- What a run does, in order -----

  datatype Effect =
    | Reserved
    | Progress(event: StreamEvent, number: nat)
    | Committed(token: string)
    | Marked
    | Acked(ok: bool)
    | FinalFrame(event: StreamEvent, number: nat, token: string)
    | Body(token: string, output: seq<Json>)
    | Failed
    | Uncertain

  predicate IsFrame(e: Effect) {
    e.Progress? || e.FinalFrame?
  }

  predicate ShowsToken(e: Effect) {
    e.FinalFrame? || e.Body?
  }

  /** The events sent downstream, in order. */
  function Sent(trace: seq<Effect>): seq<StreamEvent> {
    if trace == [] then []
    else Sent(trace[..|trace| - 1]) + if IsFrame(trace[|trace| - 1]) then [trace[|trace| - 1].event] else []
  }

  /** Every frame carries the number of frames before it. */
  predicate NumberedInOrder(trace: seq<Effect>) {
    trace == [] ||
    var before, last := trace[..|trace| - 1], trace[|trace| - 1];
    NumberedInOrder(before) && (IsFrame(last) ==> last.number == |Sent(before)|)
  }

  function Count(trace: seq<Effect>, e: Effect): nat {
    if trace == [] then 0 else Count(trace[..|trace| - 1], e) + if trace[|trace| - 1] == e then 1 else 0
  }

  predicate AnyCommit(trace: seq<Effect>) {
    exists i :: 0 <= i < |trace| && trace[i].Committed?
  }

  predicate AnyAck(trace: seq<Effect>) {
    exists i :: 0 <= i < |trace| && trace[i].Acked?
  }

  /** What may come next. */
  predicate Allowed(before: seq<Effect>, e: Effect) {
    match e
    case Committed(_) => Reserved in before && !AnyCommit(before)
    case Marked => AnyCommit(before) && Marked !in before && Uncertain !in before
    case Acked(_) => AnyCommit(before) && !AnyAck(before)
    case FinalFrame(_, _, token) => Committed(token) in before && Acked(true) in before
    case Body(token, _) => Committed(token) in before && Acked(true) in before
    case Uncertain => Reserved in before && Marked !in before && Uncertain !in before
    case _ => true
  }

  predicate Lawful(trace: seq<Effect>) {
    trace == [] || (Lawful(trace[..|trace| - 1]) && Allowed(trace[..|trace| - 1], trace[|trace| - 1]))
  }

  /** One effect more. */
  lemma After(trace: seq<Effect>, e: Effect)
    ensures Sent(trace + [e]) == Sent(trace) + if IsFrame(e) then [e.event] else []
    ensures NumberedInOrder(trace + [e]) <==> NumberedInOrder(trace) && (IsFrame(e) ==> e.number == |Sent(trace)|)
    ensures Lawful(trace + [e]) <==> Lawful(trace) && Allowed(trace, e)
    ensures AnyCommit(trace + [e]) <==> AnyCommit(trace) || e.Committed?
    ensures AnyAck(trace + [e]) <==> AnyAck(trace) || e.Acked?
  {
    hide Allowed;
    assert (trace + [e])[..|trace|] == trace && (trace + [e])[|trace|] == e;
    assert forall i :: 0 <= i < |trace| ==> (trace + [e])[i] == trace[i];
  }

  // ----- Attempts -----

  /** The guard of a reserved attempt: dropping it unfinalized schedules `uncertain`. */
  class Attempt {
    var finalized: bool

    constructor ()
      ensures !finalized
    {
      finalized := false;
    }

    method MarkFinalized()
      modifies this
      ensures finalized
    {
      finalized := true;
    }

    method Drop(trace: seq<Effect>) returns (after: seq<Effect>)
      ensures after == if finalized then trace else trace + [Uncertain]
    {
      after := trace;
      if !finalized {
        after := after + [Uncertain];
      }
    }
  }

  /** A run so far: lawful, numbered without gaps and within the byte limit. */
  ghost predicate Going(render: Render, trace: seq<Effect>, max: nat) {
    Lawful(trace) && NumberedInOrder(trace) && PrintedSize(render, Sent(trace), 0) <= max
  }

  /** Nothing durable has happened since the reservation. */
  predicate Quiet(trace: seq<Effect>) {
    Reserved in trace && forall i :: 0 <= i < |trace| ==> trace[i].Reserved? || trace[i].Progress? || trace[i].Failed?
  }

  /** Every reservation is either marked finalized or scheduled as uncertain. */
  predicate Closed(trace: seq<Effect>) {
    Reserved in trace ==> (Marked in trace <==> Uncertain !in trace)
  }

  /** An effect that sends no frame. */
  lemma Silent(render: Render, trace: seq<Effect>, e: Effect, max: nat)
    requires Going(render, trace, max) && !IsFrame(e) && Allowed(trace, e)
    ensures Going(render, trace + [e], max) && Sent(trace + [e]) == Sent(trace)
  {
    hide Lawful, NumberedInOrder, Sent, Allowed, PrintedSize;
    After(trace, e);
    assert Sent(trace) + [] == Sent(trace);
  }

  lemma Frame(render: Render, trace: seq<Effect>, e: Effect, max: nat)
    requires Going(render, trace, max) && IsFrame(e) && Allowed(trace, e) && e.number == |Sent(trace)|
    ensures Sent(trace + [e]) == Sent(trace) + [e.event]
    ensures PrintedSize(render, Sent(trace + [e]), 0)
            == PrintedSize(render, Sent(trace), 0) + |Numbered(render, e.event, e.number)|
    ensures PrintedSize(render, Sent(trace + [e]), 0) <= max ==> Going(render, trace + [e], max)
  {
    hide Lawful, NumberedInOrder, Sent, Allowed, Numbered;
    After(trace, e);
    PrintedSizeAppend(render, Sent(trace), [e.event], 0);
    assert [e.event][1..] == [];
  }

  /** Leaving before the mark: the drop is lawful and closes the run. */
  lemma DropQuiet(render: Render, trace: seq<Effect>, max: nat)
    requires Going(render, trace, max) && Quiet(trace)
    ensures Going(render, trace + [Uncertain], max) && Closed(trace + [Uncertain])
    ensures !AnyCommit(trace) && Marked !in trace + [Uncertain]
  {
    hide Going;
    Silent(render, trace, Uncertain, max);
  }

  const USIZE_MAX: nat := 0xFFFF_FFFF_FFFF_FFFF

  /** Configuration admits at most this many response bytes (src/config.rs). */
  const MAX_RESPONSE_BYTES: nat := 64 * 1024 * 1024

  function SaturatingAdd(a: nat, b: nat): nat {
    if a + b > USIZE_MAX then USIZE_MAX else a + b
  }

  /** How one upstream event was taken: did the codec accept it, was its usage recorded,
      which frames came of it, did it complete the response. */
  datatype Step = Step(accepted: bool, observed: bool, progress: seq<StreamEvent>, complete: bool)

  /** What the run cannot decide itself: internal failures, the sealed token, the store, the
      final acknowledgement, and when the downstream leaves. A stream is left after so many
      frames, possibly none, or while the commit or the acknowledgement is awaited; a buffered
      response is left before the commit or at these two points. */
  datatype World = World(initialized: bool, observed: bool, recorded: bool, sealed: bool, token: string,
                         stored: bool, staysForBody: bool, staysForCommit: bool, staysForAck: bool, acked: bool,
                         leavesAfter: Option<nat>)

  /** The downstream leaves once n frames are sent, and before anything else is. */
  predicate Leaves(world: World, n: nat) {
    world.leavesAfter == Some(n)
  }

  predicate StaysFor(world: World, n: nat) {
    world.leavesAfter.Some? ==> world.leavesAfter.value > n
  }

  /** The progress frames of an upstream stream that completes. */
  function ProgressOf(steps: seq<Step>): Option<seq<StreamEvent>> {
    if steps == [] || !steps[0].accepted || !steps[0].observed then None
    else if steps[0].complete then Some(steps[0].progress)
    else
      var rest := ProgressOf(steps[1..]);
      if rest.None? then None else Some(steps[0].progress + rest.value)
  }

  predicate ProgressSent(render: Render, max: nat, steps: seq<Step>, world: World) {
    ProgressOf(steps).Some? && PrintedSize(render, ProgressOf(steps).value, 0) <= max
    && StaysFor(world, |ProgressOf(steps).value|)
  }

  /** `rest` is what the steps still have to send behind `sent`. */
  predicate Remaining(steps: seq<Step>, sent: seq<StreamEvent>, rest: Option<seq<StreamEvent>>) {
    ProgressOf(steps) == if rest.None? then None else Some(sent + rest.value)
  }

  lemma NextStep(steps: seq<Step>, sent: seq<StreamEvent>, k: nat)
    requires k < |steps| && Remaining(steps, sent, ProgressOf(steps[k..]))
    requires steps[k].accepted && steps[k].observed && !steps[k].complete
    ensures Remaining(steps, sent + steps[k].progress, ProgressOf(steps[k + 1..]))
  {
    var rest := ProgressOf(steps[k + 1..]);
    assert steps[k..][1..] == steps[k + 1..] && steps[k..][0] == steps[k];
    hide ProgressOf;
    if rest.Some? {
      assert sent + (steps[k].progress + rest.value) == sent + steps[k].progress + rest.value;
    }
  }

  /** Frames already sent are part of what completes. */
  lemma SentIsPart(render: Render, steps: seq<Step>, k: nat, sent: seq<StreamEvent>, part: seq<StreamEvent>)
    requires k < |steps| && Remaining(steps, sent, ProgressOf(steps[k..])) && part <= steps[k].progress
    ensures ProgressOf(steps).Some? ==>
              sent + part <= ProgressOf(steps).value
              && PrintedSize(render, sent + part, 0) <= PrintedSize(render, ProgressOf(steps).value, 0)
  {
    hide ProgressOf, PrintedSize;
    if ProgressOf(steps).Some? {
      var all, rest := ProgressOf(steps).value, ProgressOf(steps[k..]).value;
      FirstProgress(steps[k..]);
      SplitBehind(sent, part, rest);
      PrintedSizeAppend(render, sent + part, rest[|part|..], 0);
    }
  }

  lemma FirstProgress(steps: seq<Step>)
    ensures ProgressOf(steps).Some? ==> steps != [] && steps[0].progress <= ProgressOf(steps).value
  {
  }

  lemma SplitBehind(sent: seq<StreamEvent>, part: seq<StreamEvent>, rest: seq<StreamEvent>)
    requires part <= rest
    ensures sent + rest == (sent + part) + rest[|part|..] && sent + part <= sent + rest
  {
    assert rest == part + rest[|part|..];
  }

  /** The read loop. It completes exactly when the upstream does, everything fits and the
      downstream stays; `gone` says that it left. */
  method ReadProgress(render: Render, max: nat, steps: seq<Step>, world: World)
    returns (trace: seq<Effect>, written: nat, complete: bool, gone: bool)
    requires max <= MAX_RESPONSE_BYTES
    ensures Going(render, trace, max) && Quiet(trace)
    ensures complete <==> ProgressSent(render, max, steps, world)
    ensures complete ==>
              !gone && Sent(trace) == ProgressOf(steps).value && written == PrintedSize(render, Sent(trace), 0)
    ensures Leaves(world, 0) ==> gone && trace == [Reserved]
  {
    hide PrintedSize, Numbered, Lawful, NumberedInOrder, Going, ProgressOf;
    trace, written, complete, gone := [Reserved], 0, false, false;
    var sequence := 0;
    StartGoing(render, max);
    StartRemaining(steps);
    if Leaves(world, 0) {
      gone := true;
      return;
    }
    var k := 0;
    while k < |steps|
      invariant k <= |steps| && !complete && !gone
      invariant Going(render, trace, max) && Quiet(trace)
      invariant written == PrintedSize(render, Sent(trace), 0) && sequence == |Sent(trace)|
      invariant Remaining(steps, Sent(trace), ProgressOf(steps[k..]))
      invariant StaysFor(world, sequence)
    {
      var step := steps[k];
      StepShape(steps[k..]);
      if !step.accepted || !step.observed {
        return;
      }
      ghost var sent := Sent(trace);
      var j := 0;
      assert sent + step.progress[..0] == sent;
      while j < |step.progress|
        invariant j <= |step.progress|
        invariant Going(render, trace, max) && Quiet(trace)
        invariant written == PrintedSize(render, Sent(trace), 0) && sequence == |Sent(trace)|
        invariant Sent(trace) == sent + step.progress[..j]
        invariant StaysFor(world, sequence)
      {
        var event := step.progress[j];
        var bytes := Numbered(render, event, sequence);
        Frame(render, trace, Progress(event, sequence), max);
        SentWithin(render, trace, max);
        assert sent + step.progress[..j] + [event] == sent + step.progress[..j + 1];
        SentIsPart(render, steps, k, sent, step.progress[..j + 1]);
        written := SaturatingAdd(written, |bytes|);
        if written > max {
          return;
        }
        trace := trace + [Progress(event, sequence)];
        sequence := sequence + 1;
        if Leaves(world, sequence) {
          gone := true;
          return;
        }
        j := j + 1;
      }
      assert step.progress[..j] == step.progress;
      SentWithin(render, trace, max);
      if step.complete {
        complete := true;
        return;
      }
      NextStep(steps, sent, k);
      k := k + 1;
    }
    StepShape(steps[k..]);
  }

  lemma StartRemaining(steps: seq<Step>)
    ensures Remaining(steps, [], ProgressOf(steps[0..]))
  {
    assert steps[0..] == steps;
    if ProgressOf(steps).Some? {
      assert [] + ProgressOf(steps).value == ProgressOf(steps).value;
    }
  }

  lemma StepShape(steps: seq<Step>)
    ensures steps == [] || !steps[0].accepted || !steps[0].observed ==> ProgressOf(steps) == None
    ensures steps != [] && steps[0].accepted && steps[0].observed && steps[0].complete ==>
              ProgressOf(steps) == Some(steps[0].progress)
  {
  }

  lemma SentWithin(render: Render, trace: seq<Effect>, max: nat)
    requires Going(render, trace, max)
    ensures PrintedSize(render, Sent(trace), 0) <= max
  {
  }

  lemma StartGoing(render: Render, max: nat)
    ensures Going(render, [Reserved], max) && Quiet([Reserved])
    ensures Sent([Reserved]) == [] && PrintedSize(render, [], 0) == 0
  {
    assert [Reserved][..0] == [];
  }

  /** A decoded response: its output, its id and the codec's own terminal events. */
  datatype Decoded = Decoded(output: seq<Json>, id: string, terminal: Option<seq<StreamEvent>>)

  /** Everything that can be true of a finished run. */
  ghost predicate SafeRun(render: Render, trace: seq<Effect>, max: nat) {
    Going(render, trace, max) && Closed(trace)
  }

  /** The checkpoint is durable and marked, nothing is acknowledged yet. */
  predicate Settled(trace: seq<Effect>, token: string) {
    Reserved in trace && Committed(token) in trace && Marked in trace && Uncertain !in trace && !AnyAck(trace)
  }

  predicate Released(trace: seq<Effect>, token: string) {
    Committed(token) in trace && Acked(true) in trace && Marked in trace && Uncertain !in trace
  }

  predicate NoToken(trace: seq<Effect>) {
    forall i :: 0 <= i < |trace| ==> !ShowsToken(trace[i])
  }

  /** Leaving before anything is durable; a downstream that is still there sees an error. */
  method Abandon(render: Render, trace: seq<Effect>, max: nat, gone: bool, attempt: Attempt)
    returns (after: seq<Effect>)
    requires Going(render, trace, max) && Quiet(trace) && !attempt.finalized
    ensures SafeRun(render, after, max) && NoToken(after) && !AnyCommit(after)
    ensures after == trace + (if gone then [] else [Failed]) + [Uncertain]
  {
    hide Going, Sent;
    after := trace;
    if !gone {
      Silent(render, trace, Failed, max);
      after := after + [Failed];
    }
    DropQuiet(render, after, max);
    after := attempt.Drop(after);
  }

  /** The checks that run on the sealed token before the store commits. */
  predicate Fits(render: Render, size: seq<Json> -> nat, max: nat, written: nat, sent: nat, decoded: Decoded,
                 world: World) {
    && world.sealed
    && size(Resume.AddEnvelope(decoded.output, decoded.id, world.token)) <= max
    && var final := FinalEvents(decoded.output, decoded.id, world.token, decoded.terminal);
       written + PrintedSize(render, final, sent) <= max
  }

  /** finalize_checked and the mark. The check of the sealed token measures the very frames
      that will be sent; a downstream that leaves while the store commits is still dropped
      as uncertain. */
  method Commit(render: Render, size: seq<Json> -> nat, max: nat, written: nat, decoded: Decoded,
                before: seq<Effect>, world: World, attempt: Attempt)
    returns (trace: seq<Effect>, saved: bool)
    requires Going(render, before, max) && Quiet(before) && !attempt.finalized && max <= MAX_RESPONSE_BYTES
    requires written == PrintedSize(render, Sent(before), 0)
    modifies attempt
    ensures !saved ==> SafeRun(render, trace, max)
    ensures saved ==>
              && Going(render, trace, max) && Settled(trace, world.token) && Sent(trace) == Sent(before)
              && attempt.finalized
    ensures saved <==>
              && world.stored && world.staysForCommit
              && Fits(render, size, max, written, |Sent(before)|, decoded, world)
  {
    hide Going, Sent, PrintedSize, FinalEvents, Resume.AddEnvelope;
    saved := false;
    var token := world.token;
    SentWithin(render, before, max);
    var events := ManagedFinalEvents(decoded.output, decoded.id, token, decoded.terminal);
    if !world.sealed || size(Resume.AddEnvelope(decoded.output, decoded.id, token)) > max
       || SaturatingAdd(written, PrintedSize(render, events, |Sent(before)|)) > max || !world.stored {
      trace := Abandon(render, before, max, false, attempt);
      return;
    }
    Silent(render, before, Committed(token), max);
    trace := before + [Committed(token)];
    assert AnyCommit(trace) && !AnyAck(trace) by { assert trace[|before|] == Committed(token); }
    if !world.staysForCommit {
      Silent(render, trace, Uncertain, max);
      trace := attempt.Drop(trace);
      return;
    }
    attempt.MarkFinalized();
    Silent(render, trace, Marked, max);
    trace := trace + [Marked];
    saved := true;
  }

  /** The final usage record. */
  method Acknowledge(render: Render, before: seq<Effect>, token: string, world: World, max: nat)
    returns (trace: seq<Effect>, acked: bool)
    requires Going(render, before, max) && Settled(before, token)
    ensures acked <==> world.staysForAck && world.acked
    ensures !acked ==> SafeRun(render, trace, max)
    ensures acked ==> Going(render, trace, max) && Released(trace, token) && Sent(trace) == Sent(before)
    ensures NoToken(before) ==> NoToken(trace)
  {
    hide Going, Sent;
    trace, acked := before, world.acked;
    if !world.staysForAck {
      acked := false;
      return;
    }
    Silent(render, trace, Acked(acked), max);
    trace := trace + [Acked(acked)];
    if !acked {
      Silent(render, trace, Failed, max);
      trace := trace + [Failed];
    }
  }

  /** The frames that show the token. */
  method SendFinal(render: Render, before: seq<Effect>, token: string, events: seq<StreamEvent>, world: World, max: nat)
    returns (trace: seq<Effect>, delivered: bool)
    requires Going(render, before, max) && Released(before, token)
    requires PrintedSize(render, Sent(before), 0) + PrintedSize(render, events, |Sent(before)|) <= max
    requires StaysFor(world, |Sent(before)|)
    ensures SafeRun(render, trace, max)
    ensures delivered <==> StaysFor(world, |Sent(before)| + |events|)
    ensures Sent(before) <= Sent(trace) <= Sent(before) + events
    ensures delivered ==> Sent(trace) == Sent(before) + events
  {
    hide Going, Sent, PrintedSize, Numbered;
    trace, delivered := before, false;
    var sequence := |Sent(before)|;
    var k := 0;
    assert Sent(before) + events[..0] == Sent(before);
    while k < |events|
      invariant k <= |events| && sequence == |Sent(before)| + k
      invariant Going(render, trace, max) && Released(trace, token)
      invariant Sent(trace) == Sent(before) + events[..k]
      invariant StaysFor(world, sequence)
    {
      var e := FinalFrame(events[k], sequence, token);
      Frame(render, trace, e, max);
      assert events[..k + 1] == events[..k] + [events[k]];
      SizeOfPart(render, Sent(before), events, k + 1);
      assert Sent(before) + events[..k] + [events[k]] == Sent(before) + events[..k + 1];
      trace := trace + [e];
      sequence := sequence + 1;
      k := k + 1;
      if Leaves(world, sequence) {
        return;
      }
    }
    assert events[..k] == events;
    delivered := true;
  }

  lemma SizeOfPart(render: Render, sent: seq<StreamEvent>, events: seq<StreamEvent>, k: nat)
    requires k <= |events|
    ensures PrintedSize(render, sent + events[..k], 0)
            <= PrintedSize(render, sent, 0) + PrintedSize(render, events, |sent|)
  {
    hide PrintedSize;
    PrintedSizeAppend(render, sent, events[..k], 0);
    PrintedSizeAppend(render, events[..k], events[k..], |sent|);
    assert events[..k] + events[k..] == events;
  }

  /** Exactly when a stream is published to its end. */
  predicate Publishes(render: Render, size: seq<Json> -> nat, max: nat, steps: seq<Step>, finish: Option<Decoded>,
                      world: World) {
    && world.initialized && ProgressSent(render, max, steps, world)
    && finish.Some? && world.observed && Resume.PublicOutput(finish.value.output).Some? && world.recorded
    && var progress := ProgressOf(steps).value;
       var final := FinalEvents(finish.value.output, finish.value.id, world.token, finish.value.terminal);
       && Fits(render, size, max, PrintedSize(render, progress, 0), |progress|, finish.value, world)
       && world.stored && world.staysForCommit && world.staysForAck && world.acked
       && StaysFor(world, |progress| + |final|)
  }

  /** The streaming branch from the reservation on. */
  method Stream(render: Render, size: seq<Json> -> nat, max: nat, steps: seq<Step>, finish: Option<Decoded>,
                world: World, attempt: Attempt)
    returns (trace: seq<Effect>, delivered: bool)
    requires max <= MAX_RESPONSE_BYTES && !attempt.finalized
    modifies attempt
    ensures SafeRun(render, trace, max)
    ensures delivered <==> Publishes(render, size, max, steps, finish, world)
    ensures Leaves(world, 0) ==> trace == [Reserved, Uncertain]
    ensures AnyCommit(trace) ==> ProgressSent(render, max, steps, world)
    ensures delivered ==> size(Resume.AddEnvelope(finish.value.output, finish.value.id, world.token)) <= max
    ensures delivered ==>
              Sent(trace) == ProgressOf(steps).value
                + FinalEvents(finish.value.output, finish.value.id, world.token, finish.value.terminal)
  {
    hide Going, FinalEvents, Sent, Quiet, Closed, Allowed, Resume.PublicOutput, PrintedSize, Lawful, ProgressOf, Fits,
      StaysFor;
    delivered := false;
    if !world.initialized {
      StartGoing(render, max);
      trace := Abandon(render, [Reserved], max, Leaves(world, 0), attempt);
      return;
    }
    var written, complete, gone;
    trace, written, complete, gone := ReadProgress(render, max, steps, world);
    if gone || !complete || finish.None? || !world.observed
       || Resume.PublicOutput(finish.value.output).None? || !world.recorded {
      trace := Abandon(render, trace, max, gone, attempt);
      return;
    }
    var decoded := finish.value;
    var saved: bool;
    trace, saved := Commit(render, size, max, written, decoded, trace, world, attempt);
    if !saved {
      return;
    }
    var acked: bool;
    trace, acked := Acknowledge(render, trace, world.token, world, max);
    if !acked {
      trace := attempt.Drop(trace);
      return;
    }
    var events := ManagedFinalEvents(decoded.output, decoded.id, world.token, decoded.terminal);
    FitsWithin(render, size, max, written, |Sent(trace)|, decoded, world);
    trace, delivered := SendFinal(render, trace, world.token, events, world, max);
    trace := attempt.Drop(trace);
  }

  lemma FitsWithin(render: Render, size: seq<Json> -> nat, max: nat, written: nat, sent: nat, decoded: Decoded,
                   world: World)
    requires Fits(render, size, max, written, sent, decoded, world)
    ensures size(Resume.AddEnvelope(decoded.output, decoded.id, world.token)) <= max
    ensures var final := FinalEvents(decoded.output, decoded.id, world.token, decoded.terminal);
            written + PrintedSize(render, final, sent) <= max
  {
  }

  function Sum(chunks: seq<nat>): nat {
    if chunks == [] then 0 else Sum(chunks[..|chunks| - 1]) + chunks[|chunks| - 1]
  }

  lemma {:induction false} PartialSum(chunks: seq<nat>, k: nat)
    requires k <= |chunks|
    ensures Sum(chunks[..k]) <= Sum(chunks)
  {
    if k < |chunks| {
      PartialSum(chunks[..|chunks| - 1], k);
      assert chunks[..|chunks| - 1][..k] == chunks[..k];
    } else {
      assert chunks[..k] == chunks;
    }
  }

  /** Exactly when a buffered response is published. */
  predicate WholePublishes(size: seq<Json> -> nat, max: nat, chunks: seq<nat>, decode: Option<Decoded>, world: World) {
    && world.staysForBody && Sum(chunks) <= max
    && decode.Some? && world.observed && Resume.PublicOutput(decode.value.output).Some? && world.recorded
    && world.sealed && size(Resume.AddEnvelope(decode.value.output, decode.value.id, world.token)) <= max
    && world.stored && world.staysForCommit && world.staysForAck && world.acked
  }

  /** The body is bounded while it is read. */
  method ReadBody(max: nat, chunks: seq<nat>) returns (fits: bool)
    ensures fits <==> Sum(chunks) <= max
  {
    var buffered := 0;
    for k := 0 to |chunks|
      invariant buffered == Sum(chunks[..k]) <= max
    {
      assert chunks[..k + 1][..k] == chunks[..k];
      PartialSum(chunks, k + 1);
      if buffered + chunks[k] > max {
        return false;
      }
      buffered := buffered + chunks[k];
    }
    assert chunks[..|chunks|] == chunks;
    return true;
  }

  /** The buffered branch: the token is part of the one response. */
  method Whole(render: Render, size: seq<Json> -> nat, max: nat, chunks: seq<nat>, decode: Option<Decoded>,
               world: World, attempt: Attempt)
    returns (trace: seq<Effect>, delivered: bool)
    requires max <= MAX_RESPONSE_BYTES && !attempt.finalized
    modifies attempt
    ensures SafeRun(render, trace, max)
    ensures delivered <==> WholePublishes(size, max, chunks, decode, world)
    ensures !delivered ==> NoToken(trace)
    ensures delivered ==>
              var published := Resume.AddEnvelope(decode.value.output, decode.value.id, world.token);
              trace != [] && trace[|trace| - 1] == Body(world.token, published)
    ensures !world.staysForBody ==> trace == [Reserved, Uncertain]
    ensures delivered ==> size(Resume.AddEnvelope(decode.value.output, decode.value.id, world.token)) <= max
  {
    hide Going, Sent, PrintedSize, Resume.AddEnvelope, Resume.PublicOutput, SafeRun, Sum;
    trace, delivered := [Reserved], false;
    StartGoing(render, max);
    if !world.staysForBody {
      trace := Abandon(render, trace, max, true, attempt);
      return;
    }
    var fits := ReadBody(max, chunks);
    if !fits || decode.None? || !world.observed || Resume.PublicOutput(decode.value.output).None? || !world.recorded
       || !world.sealed || size(Resume.AddEnvelope(decode.value.output, decode.value.id, world.token)) > max
       || !world.stored {
      trace := Abandon(render, trace, max, false, attempt);
      return;
    }
    Silent(render, trace, Committed(world.token), max);
    trace := trace + [Committed(world.token)];
    assert AnyCommit(trace) && !AnyAck(trace) by { assert trace[1] == Committed(world.token); }
    if !world.staysForCommit {
      Silent(render, trace, Uncertain, max);
      trace := attempt.Drop(trace);
      SafeEnd(render, trace, max);
      return;
    }
    attempt.MarkFinalized();
    Silent(render, trace, Marked, max);
    trace := trace + [Marked];
    trace, delivered := Acknowledge(render, trace, world.token, world, max);
    if delivered {
      var published := Resume.AddEnvelope(decode.value.output, decode.value.id, world.token);
      Silent(render, trace, Body(world.token, published), max);
      trace := trace + [Body(world.token, published)];
      SafeEnd(render, trace, max);
    }
    trace := attempt.Drop(trace);
  }

  lemma SafeEnd(render: Render, trace: seq<Effect>, max: nat)
    requires Going(render, trace, max) && Closed(trace)
    ensures SafeRun(render, trace, max)
  {
  }

  /** Where the caller leaves before the response is read, if it does. */
  datatype Departure = Stays | WhilePreparing | WhileReserving | WhileDispatching

  /** What happens before the response is read. A provider plugin reserves before any external
      code runs, the built-in codecs right before dispatch. */
  datatype Opening = Opening(plugin: bool, reserved: bool, prepared: bool, accepted: bool, departs: Departure)

  /** The upstream response is read. */
  predicate Reached(o: Opening) {
    o.reserved && o.prepared && o.accepted && o.departs == Stays
  }

  /** The caller leaves while the store reserves. The store's own task carries the reservation
      out, but the guard that would give it up is never built. */
  predicate Orphans(o: Opening) {
    o.departs == WhileReserving && o.reserved && (o.plugin || o.prepared)
  }

  /** A managed request after history has been verified: lawful, numbered and bounded however it
      ends, and closed unless its reservation is orphaned. */
  method Respond(render: Render, size: seq<Json> -> nat, max: nat, opening: Opening, streaming: bool,
                 steps: seq<Step>, chunks: seq<nat>, decoded: Option<Decoded>, world: World)
    returns (trace: seq<Effect>, delivered: bool)
    requires max <= MAX_RESPONSE_BYTES
    ensures Going(render, trace, max)
    ensures Closed(trace) <==> !Orphans(opening)
    ensures Orphans(opening) ==> trace == [Reserved]
    ensures delivered <==>
              && Reached(opening)
              && if streaming then Publishes(render, size, max, steps, decoded, world)
                 else WholePublishes(size, max, chunks, decoded, world)
    ensures AnyCommit(trace) ==> Reached(opening)
  {
    hide Going, Publishes, WholePublishes;
    var reserved;
    trace, reserved := Open(render, max, opening);
    delivered := false;
    if !reserved {
      return;
    }
    if opening.departs == WhileDispatching || !opening.accepted {
      trace := DropReserved(render, max, opening.departs == WhileDispatching);
      return;
    }
    var attempt := new Attempt();
    if streaming {
      trace, delivered := Stream(render, size, max, steps, decoded, world, attempt);
    } else {
      trace, delivered := Whole(render, size, max, chunks, decoded, world, attempt);
    }
  }

  /** Preparation and reservation, in the order of the route; `reserved` if the request goes on
      to dispatch. */
  method Open(render: Render, max: nat, o: Opening) returns (trace: seq<Effect>, reserved: bool)
    ensures reserved <==> o.reserved && o.prepared && (o.departs == Stays || o.departs == WhileDispatching)
    ensures Going(render, trace, max) && !AnyCommit(trace)
    ensures !reserved ==> (Closed(trace) <==> !Orphans(o))
    ensures Orphans(o) ==> trace == [Reserved]
  {
    hide Going;
    reserved := false;
    StartGoing(render, max);
    NothingReserved(render, max);
    if !o.plugin {
      if o.departs == WhilePreparing {
        return [], false;
      }
      if !o.prepared {
        return [Failed], false;
      }
    }
    if o.departs == WhileReserving {
      return if o.reserved then [Reserved] else [], false;
    }
    if !o.reserved {
      return [Failed], false;
    }
    if o.plugin && (o.departs == WhilePreparing || !o.prepared) {
      trace := DropReserved(render, max, o.departs == WhilePreparing);
      return;
    }
    return [Reserved], true;
  }

  /** An early exit with a reservation: preparation or the upstream request failed, or the caller
      left. */
  method DropReserved(render: Render, max: nat, gone: bool) returns (trace: seq<Effect>)
    ensures SafeRun(render, trace, max) && NoToken(trace) && !AnyCommit(trace)
  {
    hide *;
    var attempt := new Attempt();
    StartGoing(render, max);
    trace := Abandon(render, [Reserved], max, gone, attempt);
  }

  lemma NothingReserved(render: Render, max: nat)
    ensures SafeRun(render, [Failed], max) && SafeRun(render, [], max)
  {
    assert [Failed][..0] == [];
    assert Sent([Failed]) == [];
  }

  // ----- What lawful runs promise -----

  lemma {:induction false} LawfulAt(trace: seq<Effect>, i: nat)
    requires Lawful(trace) && i < |trace|
    ensures Lawful(trace[..i]) && Allowed(trace[..i], trace[i])
  {
    hide Allowed;
    if i < |trace| - 1 {
      var before := trace[..|trace| - 1];
      LawfulAt(before, i);
      assert before[..i] == trace[..i];
    }
  }

  lemma NoneEarlier(trace: seq<Effect>, i: nat, j: nat)
    requires Lawful(trace) && i < j < |trace|
    ensures trace[j].Committed? ==> !trace[i].Committed?
    ensures trace[j].Acked? ==> !trace[i].Acked?
  {
    LawfulAt(trace, j);
    assert trace[..j][i] == trace[i];
  }

  /** One commit and one final acknowledgement at most. */
  lemma OnlyOne(trace: seq<Effect>, i: nat, j: nat)
    requires Lawful(trace) && i < |trace| && j < |trace|
    requires (trace[i].Committed? && trace[j].Committed?) || (trace[i].Acked? && trace[j].Acked?)
    ensures i == j
  {
    if i < j {
      NoneEarlier(trace, i, j);
    } else if j < i {
      NoneEarlier(trace, j, i);
    }
  }

  /** The barrier: whatever shows a token stands behind the commit of that token and, in
      between, a successful final acknowledgement. */
  lemma TokenAfterCommitAndAck(trace: seq<Effect>, i: nat) returns (commit: nat, ack: nat)
    requires Lawful(trace) && i < |trace| && ShowsToken(trace[i])
    ensures commit < ack < i && trace[commit] == Committed(trace[i].token) && trace[ack] == Acked(true)
  {
    LawfulAt(trace, i);
    commit :| 0 <= commit < i && trace[..i][commit] == Committed(trace[i].token);
    ack :| 0 <= ack < i && trace[..i][ack] == Acked(true);
    LawfulAt(trace, ack);
    var earlier :| 0 <= earlier < ack && trace[..ack][earlier].Committed?;
    OnlyOne(trace, commit, earlier);
  }

  /** A failed acknowledgement leaves the token invisible for good. */
  lemma FailedAckHidesToken(trace: seq<Effect>, k: nat, i: nat)
    requires Lawful(trace) && k < |trace| && trace[k] == Acked(false) && i < |trace|
    ensures !ShowsToken(trace[i])
  {
    if ShowsToken(trace[i]) {
      var commit, ack := TokenAfterCommitAndAck(trace, i);
      OnlyOne(trace, ack, k);
    }
  }

  /** `uncertain` is scheduled at most once, and never beside the mark. */
  lemma {:induction false} UncertainOnce(trace: seq<Effect>)
    requires Lawful(trace)
    ensures Count(trace, Uncertain) <= 1
    ensures Count(trace, Uncertain) == 1 <==> Uncertain in trace
    ensures Uncertain in trace ==> Marked !in trace
  {
    if trace != [] {
      UncertainOnce(trace[..|trace| - 1]);
      assert trace == trace[..|trace| - 1] + [trace[|trace| - 1]];
    }
  }

  /** Every finished run: one uncertain mark exactly when a reservation was not finalized. */
  lemma DroppedExactlyOnce(render: Render, trace: seq<Effect>, max: nat)
    requires SafeRun(render, trace, max)
    ensures Count(trace, Uncertain) == if Reserved in trace && Marked !in trace then 1 else 0
  {
    hide NumberedInOrder, PrintedSize, Sent;
    UncertainOnce(trace);
    if Uncertain in trace {
      var i :| 0 <= i < |trace| && trace[i] == Uncertain;
      LawfulAt(trace, i);
      assert Reserved in trace[..i];
    }
  }

  /** Frames carry 0, 1, 2, ... in the order in which they are sent. */
  lemma {:induction false} FrameNumbers(trace: seq<Effect>, i: nat)
    requires NumberedInOrder(trace) && i < |trace| && IsFrame(trace[i])
    ensures trace[i].number == |Sent(trace[..i])| < |Sent(trace)|
  {
    var before := trace[..|trace| - 1];
    if i < |trace| - 1 {
      FrameNumbers(before, i);
      assert before[..i] == trace[..i];
    }
  }

  lemma {:induction false} FramesAreNotEmpty(render: Render, events: seq<StreamEvent>, sequence: nat)
    ensures |events| <= PrintedSize(render, events, sequence)
  {
    hide Numbered;
    if events != [] {
      FramesAreNotEmpty(render, events[1..], sequence + 1);
    }
  }

  /** No sequence number of a run reaches its byte limit, let alone overflows. */
  lemma NumbersStayBelowLimit(render: Render, trace: seq<Effect>, max: nat, i: nat)
    requires SafeRun(render, trace, max) && i < |trace| && IsFrame(trace[i])
    ensures trace[i].number < max
  {
    hide Lawful, PrintedSize, NumberedInOrder, Sent;
    FrameNumbers(trace, i);
    FramesAreNotEmpty(render, Sent(trace), 0);
  }

  // ----- What a run depends on -----

  /** The frames of the first `n` steps. */
  function ProgressOfFirst(steps: seq<Step>, n: nat): seq<StreamEvent>
    requires n <= |steps|
  {
    if n == 0 then [] else ProgressOfFirst(steps, n - 1) + steps[n - 1].progress
  }

  /** The upstream completes at step `n`: every step up to it was accepted and accounted for, and it
      is the first to complete. */
  predicate CompletesAt(steps: seq<Step>, n: nat) {
    && n < |steps| && steps[n].complete
    && (forall i :: 0 <= i <= n ==> steps[i].accepted && steps[i].observed)
    && (forall i :: 0 <= i < n ==> !steps[i].complete)
  }

  lemma {:induction false} FirstShift(steps: seq<Step>, n: nat)
    requires 0 < n <= |steps|
    ensures ProgressOfFirst(steps, n) == steps[0].progress + ProgressOfFirst(steps[1..], n - 1)
  {
    if n > 1 {
      FirstShift(steps, n - 1);
      assert steps[1..][n - 2] == steps[n - 1];
    } else {
      assert ProgressOfFirst(steps, 1) == [] + steps[0].progress;
    }
  }

  /** Progress is what the steps up to the completing one produced, in order. */
  lemma {:induction false} ProgressMeans(steps: seq<Step>)
    ensures ProgressOf(steps).Some? <==> exists n: nat :: CompletesAt(steps, n)
    ensures forall n: nat :: CompletesAt(steps, n) ==> ProgressOf(steps) == Some(ProgressOfFirst(steps, n + 1))
    decreases |steps|
  {
    if steps != [] && steps[0].accepted && steps[0].observed && !steps[0].complete {
      var rest := steps[1..];
      ProgressMeans(rest);
      if n: nat :| CompletesAt(rest, n) {
        CompletesLater(steps, n);
      }
      forall n: nat | CompletesAt(steps, n) ensures ProgressOf(steps) == Some(ProgressOfFirst(steps, n + 1)) {
        CompletesEarlier(steps, n);
        FirstShift(steps, n + 1);
      }
    } else if steps != [] && steps[0].accepted && steps[0].observed {
      assert CompletesAt(steps, 0);
      assert ProgressOfFirst(steps, 0) == [];
      assert ProgressOfFirst(steps, 1) == [] + steps[0].progress == steps[0].progress;
      forall n: nat | CompletesAt(steps, n) ensures n == 0 {
      }
    } else {
      forall n: nat ensures !CompletesAt(steps, n) {
      }
    }
  }

  lemma CompletesLater(steps: seq<Step>, n: nat)
    requires steps != [] && steps[0].accepted && steps[0].observed && !steps[0].complete && CompletesAt(steps[1..], n)
    ensures CompletesAt(steps, n + 1)
  {
    forall i | 0 <= i <= n + 1 ensures steps[i].accepted && steps[i].observed {
      if i > 0 { assert steps[i] == steps[1..][i - 1]; }
    }
    forall i | 0 <= i < n + 1 ensures !steps[i].complete {
      if i > 0 { assert steps[i] == steps[1..][i - 1]; }
    }
  }

  lemma CompletesEarlier(steps: seq<Step>, n: nat)
    requires CompletesAt(steps, n) && !steps[0].complete
    ensures n > 0 && CompletesAt(steps[1..], n - 1)
  {
  }

  /** Any single failure keeps a stream from being delivered. */
  lemma FailuresStopStream(render: Render, size: seq<Json> -> nat, max: nat, steps: seq<Step>, finish: Option<Decoded>,
                           world: World)
    requires || !world.initialized || !world.observed || !world.recorded || !world.sealed || !world.stored
             || !world.staysForCommit || !world.staysForAck || !world.acked || finish == None
             || Leaves(world, 0) || Resume.PublicOutput(finish.value.output) == None
             || forall n: nat :: !CompletesAt(steps, n)
    ensures !Publishes(render, size, max, steps, finish, world)
  {
    hide PrintedSize, FinalEvents, Resume.AddEnvelope, Resume.PublicOutput, CompletesAt, ProgressOf;
    ProgressMeans(steps);
  }

  lemma FailuresStopResponse(size: seq<Json> -> nat, max: nat, chunks: seq<nat>, decode: Option<Decoded>, world: World)
    requires || !world.staysForBody || !world.observed || !world.recorded || !world.sealed || !world.stored
             || !world.staysForCommit || !world.staysForAck || !world.acked || decode == None || Sum(chunks) > max
             || Resume.PublicOutput(decode.value.output) == None
    ensures !WholePublishes(size, max, chunks, decode, world)
  {
  }

  /** The one departure that leaves a reservation behind, on either route. */
  lemma OrphansExist()
    ensures Orphans(Opening(true, true, false, false, WhileReserving))
    ensures Orphans(Opening(false, true, true, false, WhileReserving))
  {
  }

  /** A downstream that leaves by the last frame is not served to the end, whenever it leaves. */
  lemma LeavingStopsStream(render: Render, size: seq<Json> -> nat, max: nat, steps: seq<Step>, finish: Option<Decoded>,
                           world: World, n: nat)
    requires ProgressOf(steps).Some? && finish.Some? && world.leavesAfter == Some(n)
    requires var final := FinalEvents(finish.value.output, finish.value.id, world.token, finish.value.terminal);
             n <= |ProgressOf(steps).value| + |final|
    ensures !Publishes(render, size, max, steps, finish, world)
  {
    hide PrintedSize, FinalEvents, Resume.AddEnvelope, Resume.PublicOutput, ProgressOf;
  }

  /** Nothing is delivered unless reservation, preparation and dispatch all succeed and the caller
      stays for them. */
  lemma OpeningFailuresStop(o: Opening)
    ensures Reached(o) <==> o.reserved && o.prepared && o.accepted && o.departs.Stays?
  {
  }
}
