/** Requests, the store and the host together: every commit seals a record on top of the stored
    head, the host replays everything it was shown, and the next request is judged by what the
    store and the sealed records say. */
module Sessions {
  import opened Common
  import opened Json
  import opened History
  import opened Resume
  import Store

  /** `turns` is what the host of each session was shown in the session's epoch, `vault` what
      each sealed token opens to. */
  datatype World = World(store: Store.State, turns: map<string, seq<Turn>>, vault: Restore)

  datatype Event =
    | Commit(id: string, turn: Turn, recordDigest: string, tools: bool)
    | Other(op: Store.Op)

  /** The session as the history check sees it. */
  function SessionOf(st: Store.State, id: string): Session
    requires id in st.sessions
  {
    Session(st.sessions[id].head, st.sessions[id].portable)
  }

  /** A response may be committed: its request replayed the whole transcript and was accepted,
      its output can be published, and sealing gave a token of its own. */
  predicate Committable(w: World, id: string, turn: Turn, digest: Digest) {
    && id in w.store.sessions && id in w.turns
    && Plain(turn.added) && Accepts(w.vault, digest, SessionOf(w.store, id), Transcript(w.turns[id]) + turn.added)
    && Publishable(turn.output) && turn.token !in w.vault
  }

  /** The record a response is sealed with: its parent is the head its attempt was reserved
      against. */
  function Sealed(w: World, turn: Turn, input: seq<Json>, digest: Digest): Replay
    requires turn.response in w.store.attempts
  {
    Replay(turn.response, w.store.attempts[turn.response].parent, |input|, digest(Normalized(Arr(input))), turn.native,
           Visible(turn.output))
  }

  /** A new epoch starts a new transcript. */
  function TurnsAfter(before: Store.State, after: Store.State, turns: map<string, seq<Turn>>): map<string, seq<Turn>> {
    map id | id in after.sessions ::
      if id in before.sessions && id in turns && after.sessions[id].epoch == before.sessions[id].epoch
      then turns[id] else []
  }

  /** What becomes of the world, unless the event is refused. */
  function Step(w: World, e: Event, digest: Digest): Option<World> {
    match e
    case Commit(id, turn, recordDigest, tools) =>
      var st := Store.DoFinalize(w.store, id, turn.response, Store.Record(recordDigest, turn.token), tools);
      if !Committable(w, id, turn, digest) || st.None? then None
      else
        var input := Clean(Transcript(w.turns[id]) + turn.added);
        Some(World(st.value, w.turns[id := w.turns[id] + [turn]],
          w.vault[turn.token := Sealed(w, turn, input, digest)]))
    case Other(op) =>
      var st := Store.Apply(w.store, op);
      if op.Finalize? || st.None? then None else Some(World(st.value, TurnsAfter(w.store, st.value, w.turns), w.vault))
  }

  function Run(w: World, events: seq<Event>, digest: Digest): World {
    if events == [] then w
    else
      var before := Run(w, events[..|events| - 1], digest);
      var after := Step(before, events[|events| - 1], digest);
      if after.Some? then after.value else before
  }

  function Empty(limit: nat): World {
    World(Store.Empty(limit), map[], map[])
  }

  // ----- What every run keeps -----

  function Responses(turns: seq<Turn>): (ids: seq<string>)
    ensures |ids| == |turns|
  {
    seq(|turns|, i requires 0 <= i < |turns| => turns[i].response)
  }

  /** Every turn but the last was accepted back at least once. */
  predicate Proven(turns: seq<Turn>) {
    turns != [] ==> TurnsReplayable(turns[..|turns| - 1]) && Advances(turns[..|turns| - 1])
  }

  ghost predicate Vaulted(turns: seq<Turn>, vault: Restore, digest: Digest)
    requires Dispatched(turns)
  {
    forall i :: 0 <= i < |turns| ==> turns[i].token in vault && vault[turns[i].token] == Records(turns, digest)[i]
  }

  /** The stored chain of the session's epoch is the transcript, turn by turn. */
  ghost predicate InStep(w: World, id: string, digest: Digest) {
    && id in w.store.sessions && id in w.turns
    && Store.IsChain(w.store, id, w.store.sessions[id].epoch, Responses(w.turns[id]))
    && w.store.sessions[id].head == HeadOf(w.turns[id])
    && Dispatched(w.turns[id]) && Vaulted(w.turns[id], w.vault, digest) && Proven(w.turns[id])
  }

  ghost predicate Kept(w: World, digest: Digest) {
    && Store.Consistent(w.store) && w.turns.Keys == w.store.sessions.Keys
    && forall id :: id in w.turns ==> InStep(w, id, digest)
  }

  lemma HeadIsBefore(turns: seq<Turn>)
    ensures HeadOf(turns) == Store.Before(Responses(turns), |turns|)
  {
  }

  lemma NothingShown(w: World, id: string, digest: Digest)
    requires id in w.store.sessions && id in w.turns && w.turns[id] == []
    requires w.store.sessions[id].head == None && Store.IsChain(w.store, id, w.store.sessions[id].epoch, [])
    ensures InStep(w, id, digest)
  {
    hide Store.IsChain;
    assert Responses([]) == [];
  }

  lemma {:induction false} ChainHasDistinctResponses(w: World, id: string, digest: Digest)
    requires InStep(w, id, digest)
    ensures DistinctResponses(w.turns[id])
  {
    hide Dispatched, Vaulted, Proven;
    var turns := w.turns[id];
    var ids := Responses(turns);
    assert Distinct(ids);
    forall i, j | 0 <= i < j < |turns| ensures turns[i].response != turns[j].response {
      assert ids[i] != ids[j];
    }
  }

  /** The hypotheses of the resume theorem hold in every kept world. */
  lemma KeptIsStored(w: World, id: string, digest: Digest)
    requires InStep(w, id, digest)
    ensures Dispatched(w.turns[id]) && Stored(w.turns[id], w.vault, digest)
    ensures SessionOf(w.store, id).head == HeadOf(w.turns[id])
  {
    hide Dispatched, Store.IsChain, Proven;
    ChainHasDistinctResponses(w, id, digest);
  }

  // ----- A commit -----

  lemma AcceptedIsOk(restore: Restore, digest: Digest, session: Session, input: seq<Json>)
    requires Accepts(restore, digest, session, input)
    ensures AllOk(input)
  {
    hide Verified;
  }

  lemma TurnAppended(turns: seq<Turn>, turn: Turn, digest: Digest)
    requires Dispatched(turns) && Plain(turn.added) && AllOk(Transcript(turns) + turn.added) && Publishable(turn.output)
    ensures Dispatched(turns + [turn])
    ensures Records(turns + [turn], digest) == Records(turns, digest) + [RecordOf(turns, turn, digest)]
  {
    hide AllOk, Transcript, Publishable, Plain, RecordOf;
    assert (turns + [turn])[..|turns|] == turns;
  }

  lemma VaultGrows(turns: seq<Turn>, vault: Restore, token: string, record: Replay, digest: Digest)
    requires Dispatched(turns) && Vaulted(turns, vault, digest) && token !in vault
    ensures Vaulted(turns, vault[token := record], digest)
  {
    hide Dispatched, Records;
  }

  lemma TurnVaulted(turns: seq<Turn>, turn: Turn, vault: Restore, digest: Digest)
    requires Dispatched(turns) && Dispatched(turns + [turn]) && AllOk(Transcript(turns) + turn.added)
    requires Records(turns + [turn], digest) == Records(turns, digest) + [RecordOf(turns, turn, digest)]
    requires Vaulted(turns, vault, digest) && turn.token in vault && vault[turn.token] == RecordOf(turns, turn, digest)
    ensures Vaulted(turns + [turn], vault, digest)
  {
    hide Dispatched, Records, RecordOf, AllOk, Transcript;
    var all := turns + [turn];
    forall i | 0 <= i < |all| ensures all[i].token in vault && vault[all[i].token] == Records(all, digest)[i] {
      if i < |turns| {
        assert all[i] == turns[i];
      }
    }
  }

  /** Since the request was accepted, what came before it is proven. */
  lemma NowProven(w: World, id: string, turn: Turn, digest: Digest)
    requires InStep(w, id, digest) && Committable(w, id, turn, digest)
    ensures Proven(w.turns[id] + [turn])
  {
    hide *;
    KeptIsStored(w, id, digest);
    CommittablePlain(w, id, turn, digest);
    var turns := w.turns[id];
    if turns == [] {
      ProvenAtOnce(turn);
      assert turns + [turn] == [turn];
    } else {
      ResumesIff(turns, turn.added, w.vault, digest, SessionOf(w.store, id));
      ProvenNow(turns, turn);
    }
  }

  lemma CommittablePlain(w: World, id: string, turn: Turn, digest: Digest)
    requires Committable(w, id, turn, digest)
    ensures id in w.store.sessions && id in w.turns && Plain(turn.added)
    ensures Accepts(w.vault, digest, SessionOf(w.store, id), Transcript(w.turns[id]) + turn.added)
    ensures AllOk(Transcript(w.turns[id]) + turn.added) && Publishable(turn.output) && turn.token !in w.vault
  {
    hide Accepts, AllOk, Transcript, Plain, Publishable, SessionOf;
    AcceptedIsOk(w.vault, digest, SessionOf(w.store, id), Transcript(w.turns[id]) + turn.added);
  }

  lemma ProvenAtOnce(turn: Turn)
    ensures Proven([turn])
  {
    assert [turn][..0] == [];
  }

  lemma ProvenNow(turns: seq<Turn>, turn: Turn)
    requires TurnsReplayable(turns) && Advances(turns)
    ensures Proven(turns + [turn])
  {
    hide TurnsReplayable, Advances;
    assert (turns + [turn])[..|turns|] == turns;
  }

  /** The record that is sealed is the one the transcript calls for. */
  lemma SealedIsRecord(w: World, id: string, turn: Turn, digest: Digest)
    requires InStep(w, id, digest) && AllOk(Transcript(w.turns[id]) + turn.added)
    requires turn.response in w.store.attempts && w.store.attempts[turn.response].parent == w.store.sessions[id].head
    ensures Sealed(w, turn, Clean(Transcript(w.turns[id]) + turn.added), digest) == RecordOf(w.turns[id], turn, digest)
  {
    hide Dispatched, Vaulted, Proven, Store.IsChain, Clean, AllOk, Transcript, Visible, Normalized;
  }

  lemma CommitKeepsOwn(w: World, e: Event, digest: Digest)
    requires Kept(w, digest) && e.Commit? && Step(w, e, digest).Some?
    ensures InStep(Step(w, e, digest).value, e.id, digest)
  {
    hide *;
    CommitShape(w, e, digest);
    var id, turn, after := e.id, e.turn, Step(w, e, digest).value;
    var turns := w.turns[id];
    KeptAt(w, id, digest);
    CommittablePlain(w, id, turn, digest);
    KeptIsStored(w, id, digest);
    InStepVaulted(w, id, digest);
    TurnAppended(turns, turn, digest);
    SealedIsRecord(w, id, turn, digest);
    VaultGrows(turns, w.vault, turn.token, RecordOf(turns, turn, digest), digest);
    TurnVaulted(turns, turn, after.vault, digest);
    NowProven(w, id, turn, digest);
    CommitChain(w, e, digest);
    InStepFrom(after, id, digest);
  }

  lemma KeptAt(w: World, id: string, digest: Digest)
    requires Kept(w, digest)
    ensures id in w.turns ==> InStep(w, id, digest)
    ensures id in w.turns <==> id in w.store.sessions
    ensures Store.Consistent(w.store)
  {
    hide Store.Consistent, InStep;
  }

  lemma InStepVaulted(w: World, id: string, digest: Digest)
    requires InStep(w, id, digest)
    ensures id in w.turns && Dispatched(w.turns[id]) && Vaulted(w.turns[id], w.vault, digest)
  {
  }

  lemma InStepFrom(w: World, id: string, digest: Digest)
    requires id in w.store.sessions && id in w.turns
    requires Store.IsChain(w.store, id, w.store.sessions[id].epoch, Responses(w.turns[id]))
    requires w.store.sessions[id].head == HeadOf(w.turns[id])
    requires Dispatched(w.turns[id]) && Vaulted(w.turns[id], w.vault, digest) && Proven(w.turns[id])
    ensures InStep(w, id, digest)
  {
    hide Dispatched, Vaulted, Proven, Store.IsChain;
  }

  /** What a commit consists of. */
  lemma CommitShape(w: World, e: Event, digest: Digest)
    requires Kept(w, digest) && e.Commit? && Step(w, e, digest).Some?
    ensures Committable(w, e.id, e.turn, digest) && e.id in w.store.sessions && e.id in w.turns
    ensures e.turn.response in w.store.attempts
            && w.store.attempts[e.turn.response].parent == w.store.sessions[e.id].head
    ensures AllOk(Transcript(w.turns[e.id]) + e.turn.added)
    ensures var after, sealed := Step(w, e, digest).value,
                                 Sealed(w, e.turn, Clean(Transcript(w.turns[e.id]) + e.turn.added), digest);
            && after.store.sessions.Keys == w.store.sessions.Keys
            && after.turns == w.turns[e.id := w.turns[e.id] + [e.turn]]
               && after.vault == w.vault[e.turn.token := sealed]
  {
    hide Dispatched, Transcript, Accepts, Clean, Sealed, InStep, Publishable, AllOk;
    CommittablePlain(w, e.id, e.turn, digest);
    CommitParent(w.store, e.id, e.turn.response, Store.Record(e.recordDigest, e.turn.token), e.tools);
  }

  lemma CommitParent(st: Store.State, id: string, attempt: string, record: Store.Record, tools: bool)
    requires Store.Consistent(st) && Store.DoFinalize(st, id, attempt, record, tools).Some?
    ensures attempt in st.attempts && id in st.sessions && st.attempts[attempt].parent == st.sessions[id].head
    ensures Store.DoFinalize(st, id, attempt, record, tools).value.sessions.Keys == st.sessions.Keys
  {
    hide Store.RecordsAreFinal, Store.ParentsFinal, Store.NoForks, Store.HeadsAreTips, Store.Chained;
  }

  lemma CommitChain(w: World, e: Event, digest: Digest)
    requires Kept(w, digest) && e.Commit? && Step(w, e, digest).Some?
    ensures var after := Step(w, e, digest).value;
            && e.id in after.turns && e.id in after.store.sessions
            && Store.IsChain(after.store, e.id, after.store.sessions[e.id].epoch, Responses(after.turns[e.id]))
            && after.store.sessions[e.id].head == HeadOf(after.turns[e.id])
  {
    hide Store.IsChain, Store.DoFinalize, Store.AddsFinal, Store.Consistent, Dispatched, Vaulted, Proven, Committable,
         Sealed, Clean, Transcript;
    var id, turn, record := e.id, e.turn, Store.Record(e.recordDigest, e.turn.token);
    CommitShape(w, e, digest);
    var st := w.store;
    var st' := Store.DoFinalize(st, id, turn.response, record, e.tools).value;
    Store.FinalizeAdds(st, id, turn.response, record, e.tools);
    KeptAt(w, id, digest);
    HeadIsBefore(w.turns[id]);
    Store.ChainGrows(st, st', turn.response, id, st.sessions[id].epoch, Responses(w.turns[id]));
    assert Responses(w.turns[id] + [turn]) == Responses(w.turns[id]) + [turn.response];
  }

  lemma CommitKeepsOther(w: World, e: Event, id: string, digest: Digest)
    requires Kept(w, digest) && e.Commit? && Step(w, e, digest).Some? && id in w.turns && id != e.id
    ensures InStep(Step(w, e, digest).value, id, digest)
  {
    hide Store.IsChain, Store.DoFinalize, Store.AddsFinal, Store.Consistent, Dispatched, Vaulted, Proven, Committable,
         Sealed, Clean, Transcript, Accepts;
    var st, turn, record := w.store, e.turn, Store.Record(e.recordDigest, e.turn.token);
    CommitShape(w, e, digest);
    CommittablePlain(w, e.id, turn, digest);
    var after := Step(w, e, digest).value;
    Store.FinalizeAdds(st, e.id, turn.response, record, e.tools);
    KeptAt(w, id, digest);
    Store.OtherChain(st, after.store, turn.response, id, st.sessions[id].epoch, Responses(w.turns[id]));
    VaultGrows(w.turns[id], w.vault, turn.token, after.vault[turn.token], digest);
  }

  // ----- Anything else -----

  lemma OtherKeeps(w: World, e: Event, id: string, digest: Digest)
    requires Kept(w, digest) && e.Other? && Step(w, e, digest).Some? && id in Step(w, e, digest).value.turns
    ensures InStep(Step(w, e, digest).value, id, digest)
  {
    hide Store.IsChain, Store.Apply, Store.SameFinals, Dispatched, Vaulted, Proven, Store.RecordsAreFinal,
         Store.ParentsFinal, Store.NoForks, Store.HeadsAreTips, Store.Chained, Store.ReservedHolds;
    var st, after := w.store, Step(w, e, digest).value;
    Store.QuietFinals(st, e.op);
    Store.QuietSessions(st, e.op, id);
    KeptAt(w, id, digest);
    if id in st.sessions && after.store.sessions[id].epoch == st.sessions[id].epoch {
      Store.ChainKept(st, after.store, id, st.sessions[id].epoch, Responses(w.turns[id]));
    } else {
      Store.NoChain(st, after.store, id, after.store.sessions[id].epoch);
      NothingShown(after, id, digest);
    }
  }

  lemma StepStaysConsistent(w: World, e: Event, digest: Digest)
    requires Store.Consistent(w.store) && Step(w, e, digest).Some?
    ensures Store.Consistent(Step(w, e, digest).value.store)
  {
    hide Store.Consistent, Store.DoFinalize, Committable, Sealed, Clean, Transcript;
    match e
    case Commit(id, turn, recordDigest, tools) =>
      Store.FinalizeKeeps(w.store, id, turn.response, Store.Record(recordDigest, turn.token), tools);
    case Other(op) => Store.StepKeeps(w.store, op);
  }

  lemma StepKeeps(w: World, e: Event, digest: Digest)
    requires Kept(w, digest) && Step(w, e, digest).Some?
    ensures Kept(Step(w, e, digest).value, digest)
  {
    hide InStep, Store.Consistent, Committable, Sealed, Clean, Transcript, Store.DoFinalize;
    var after := Step(w, e, digest).value;
    StepStaysConsistent(w, e, digest);
    if e.Commit? {
      CommitShape(w, e, digest);
    }
    forall id | id in after.turns ensures InStep(after, id, digest) {
      if e.Other? {
        OtherKeeps(w, e, id, digest);
      } else if id == e.id {
        CommitKeepsOwn(w, e, digest);
      } else {
        CommitKeepsOther(w, e, id, digest);
      }
    }
  }

  lemma EmptyIsKept(limit: nat, digest: Digest)
    ensures Kept(Empty(limit), digest)
  {
    Store.EmptyIsConsistent(limit);
  }

  /** Over every run of commits, reservations, drops, transitions and crashes, the stored chain of
      each session and the host's transcript stay in step. */
  lemma {:induction false} RunsStayInStep(w: World, events: seq<Event>, digest: Digest)
    requires Kept(w, digest)
    ensures Kept(Run(w, events, digest), digest)
    decreases |events|
  {
    hide Kept, Step;
    if events != [] {
      var before := Run(w, events[..|events| - 1], digest);
      RunsStayInStep(w, events[..|events| - 1], digest);
      if Step(before, events[|events| - 1], digest).Some? {
        StepKeeps(before, events[|events| - 1], digest);
      }
    }
  }

  // ----- When a reachable session resumes -----

  /** The last turn can be replayed and is not hidden behind the one before it. */
  predicate LastTurnReplays(turns: seq<Turn>) {
    turns != [] ==>
      var n := |turns| - 1;
      AllReplayable(turns[n].output) && (n > 0 ==> Visible(turns[n - 1].output) != [] || turns[n].added != [])
  }

  lemma AdvancesAppended(turns: seq<Turn>, n: nat)
    requires n + 1 == |turns|
    ensures Advances(turns)
            <==> Advances(turns[..n]) && (n > 0 ==> Visible(turns[n - 1].output) != [] || turns[n].added != [])
  {
    hide Visible;
    var front := turns[..n];
    forall i {:trigger turns[i]} | 0 < i < n
      ensures Visible(turns[i - 1].output) == Visible(front[i - 1].output) && turns[i].added == front[i].added
    {
    }
    if Advances(turns) {
      forall i {:trigger front[i]} | 0 < i < n ensures Visible(front[i - 1].output) != [] || front[i].added != [] {
        assert turns[i] == front[i];
      }
      assert n > 0 ==> turns[n].added == turns[n].added;
    }
  }

  lemma ReplayableAppended(turns: seq<Turn>, n: nat)
    requires n + 1 == |turns|
    ensures TurnsReplayable(turns) <==> TurnsReplayable(turns[..n]) && AllReplayable(turns[n].output)
  {
    hide AllReplayable;
    var front := turns[..n];
    assert forall i :: 0 <= i < n ==> front[i] == turns[i];
  }

  lemma OnlyTheLastMatters(turns: seq<Turn>)
    requires Proven(turns)
    ensures TurnsReplayable(turns) && Advances(turns) <==> LastTurnReplays(turns)
  {
    if turns != [] {
      hide TurnsReplayable, Advances, AllReplayable, Visible;
      AdvancesAppended(turns, |turns| - 1);
      ReplayableAppended(turns, |turns| - 1);
    }
  }

  /** In every reachable world, a host that replays what it was shown and adds new items is
      accepted if and only if the last turn can be replayed: everything before it is settled by
      the requests that were accepted since. */
  lemma ReachableSessionResumesIff(limit: nat, events: seq<Event>, digest: Digest, id: string, added: seq<Json>)
    requires var w := Run(Empty(limit), events, digest);
             id in w.store.sessions && id in w.turns && (w.turns[id] == [] ==> w.store.sessions[id].portable == None)
    requires Plain(added)
    ensures var w := Run(Empty(limit), events, digest);
            Accepts(w.vault, digest, SessionOf(w.store, id), Transcript(w.turns[id]) + added)
            <==> LastTurnReplays(w.turns[id])
  {
    hide Run, Accepts, Transcript, Plain, Store.Consistent, LastTurnReplays, Stored, Dispatched, TurnsReplayable,
      Advances,Vaulted, Proven, Store.IsChain;
    EmptyIsKept(limit, digest);
    RunsStayInStep(Empty(limit), events, digest);
    var w := Run(Empty(limit), events, digest);
    KeptAt(w, id, digest);
    KeptIsStored(w, id, digest);
    OnlyTheLastMatters(w.turns[id]);
    ResumesIff(w.turns[id], added, w.vault, digest, SessionOf(w.store, id));
  }
}
