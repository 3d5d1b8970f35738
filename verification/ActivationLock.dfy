/** The extension activation lock (scripts/extension_manager.py): the lock record, its strict
    reader, its writer, and what every sequence of guarded mutations keeps. */
module ActivationLock {
  import opened Common
  import opened Ordering

  datatype Entry = Entry(id: string, version: string, sha: string, grants: seq<string>)

  datatype Binding = Binding(storeId: string, mode: string, queueCapacity: int, ackTimeout: int, configSha: string)

  datatype Lock = Lock(schema: string, generation: int, extensions: seq<Entry>, recorder: Option<Binding>)

  const SCHEMA_V1 := "gateway-extension-lock/v1"
  const SCHEMA_V2 := "gateway-extension-lock/v2"
  const OBSERVER_GRANTS := ["observe_http_metadata", "write_private_state"]
  const RECORDER_GRANTS := ["export_usage", "observe_usage", "write_usage_store"]
  const CODEC_GRANTS := ["read_model_payload", "transform_model_protocol"]
  const MAX_EXTENSIONS := 4
  const MAX_JSON := 65536
  const GENERATIONS := 0x1_0000_0000_0000_0000

  // ----- Field formats -----

  predicate Identifier(s: string) {
    1 <= |s| <= 64 && 'a' <= s[0] <= 'z'
    && forall i :: 1 <= i < |s| ==> 'a' <= s[i] <= 'z' || '0' <= s[i] <= '9' || s[i] == '-'
  }

  predicate Number(s: string) {
    1 <= |s| <= 6 && (forall i :: 0 <= i < |s| ==> '0' <= s[i] <= '9') && (s[0] == '0' ==> |s| == 1)
  }

  predicate Version(s: string) {
    exists i, j :: 0 <= i < j < |s| && s[i] == '.' && s[j] == '.' && Number(s[..i]) && Number(s[i + 1..j])
      && Number(s[j + 1..])
  }

  predicate HexDigest(s: string) {
    |s| == 64 && forall i :: 0 <= i < |s| ==> 'a' <= s[i] <= 'f' || '0' <= s[i] <= '9'
  }

  predicate KnownGrants(grants: seq<string>) {
    grants == OBSERVER_GRANTS || grants == RECORDER_GRANTS || grants == CODEC_GRANTS
  }

  predicate ValidBinding(b: Binding) {
    && Identifier(b.storeId) && (b.mode == "off" || b.mode == "best_effort" || b.mode == "durable_local")
    && 2 <= b.queueCapacity <= 4096 && 1 <= b.ackTimeout <= 60000 && HexDigest(b.configSha)
  }

  predicate ValidEntry(e: Entry) {
    Identifier(e.id) && Version(e.version) && HexDigest(e.sha) && KnownGrants(e.grants)
  }

  // ----- The bytes of the canonical JSON text -----

  function Digits(n: nat): nat {
    if n < 10 then 1 else 1 + Digits(n / 10)
  }

  /** The quoted names, with commas between them. */
  function GrantsSize(grants: seq<string>): nat {
    if grants == [] then 0
    else GrantsSize(grants[..|grants| - 1]) + |grants[|grants| - 1]| + 2 + if |grants| > 1 then 1 else 0
  }

  function EntrySize(e: Entry): nat {
    54 + GrantsSize(e.grants) + |e.id| + |e.sha| + |e.version|
  }

  function EntriesSize(entries: seq<Entry>): nat {
    if entries == [] then 0
    else
      var last := |entries| - 1;
      EntriesSize(entries[..last]) + EntrySize(entries[last]) + if last > 0 then 1 else 0
  }

  function BindingSize(b: Binding): nat
    requires ValidBinding(b)
  {
    92 + Digits(b.ackTimeout) + |b.configSha| + |b.mode| + Digits(b.queueCapacity) + |b.storeId|
  }

  function FileSize(l: Lock): nat
    requires l.generation >= 0 && (l.recorder.Some? ==> ValidBinding(l.recorder.value))
  {
    69 + EntriesSize(l.extensions) + Digits(l.generation)
    + if l.recorder.Some? then BindingSize(l.recorder.value) else 0
  }

  // ----- The strict reader -----

  function Recorders(entries: seq<Entry>): nat {
    if entries == [] then 0
    else Recorders(entries[..|entries| - 1]) + if entries[|entries| - 1].grants == RECORDER_GRANTS then 1 else 0
  }

  predicate UniqueIds(entries: seq<Entry>) {
    forall i, j :: 0 <= i < j < |entries| ==> entries[i].id != entries[j].id
  }

  /** Sorting by id would change nothing. */
  predicate Ordered(entries: seq<Entry>) {
    forall i, j :: 0 <= i < j < |entries| ==> !Before(entries[j].id, entries[i].id)
  }

  predicate Readable(l: Lock) {
    && l.schema == (if l.recorder.Some? then SCHEMA_V2 else SCHEMA_V1) && 0 <= l.generation < GENERATIONS
    && |l.extensions| <= MAX_EXTENSIONS && (forall i :: 0 <= i < |l.extensions| ==> ValidEntry(l.extensions[i]))
    && UniqueIds(l.extensions) && Ordered(l.extensions)
    && (l.recorder.Some? ==> ValidBinding(l.recorder.value))
    && Recorders(l.extensions) == (if l.recorder.Some? then 1 else 0)
    && FileSize(l) <= MAX_JSON
  }

  const EMPTY_LOCK := Lock(SCHEMA_V1, 0, [], None)

  function ReadLock(active: Option<Lock>): Option<Lock> {
    if active.None? then Some(EMPTY_LOCK) else if Readable(active.value) then active else None
  }

  // ----- The writer -----

  function Insert(e: Entry, sorted: seq<Entry>): seq<Entry> {
    if sorted == [] then [e]
    else if Before(e.id, sorted[|sorted| - 1].id) then Insert(e, sorted[..|sorted| - 1]) + [sorted[|sorted| - 1]]
    else sorted + [e]
  }

  /** The entries in a stable order by id. */
  function Sorted(entries: seq<Entry>): seq<Entry> {
    if entries == [] then [] else Insert(entries[|entries| - 1], Sorted(entries[..|entries| - 1]))
  }

  function Committed(l: Lock): Option<Lock> {
    if l.generation < GENERATIONS - 1
    then Some(l.(generation := l.generation + 1, extensions := Sorted(l.extensions)))
    else None
  }

  function Others(entries: seq<Entry>, id: string): seq<Entry> {
    if entries == [] then []
    else Others(entries[..|entries| - 1], id) + if entries[|entries| - 1].id != id then [entries[|entries| - 1]] else []
  }

  predicate HasRecorder(entries: seq<Entry>) {
    exists i :: 0 <= i < |entries| && entries[i].grants == RECORDER_GRANTS
  }

  /** The binding goes once no recorder is left. */
  function Settle(l: Lock, entries: seq<Entry>): Lock {
    if HasRecorder(entries) then l.(extensions := entries)
    else l.(extensions := entries, recorder := None, schema := SCHEMA_V1)
  }

  function Enabled(l: Lock, e: Entry, binding: Option<Binding>): Lock {
    Settle(if binding.Some? then l.(recorder := binding, schema := SCHEMA_V2) else l, Others(l.extensions, e.id) + [e])
  }

  function Disabled(l: Lock, id: string): Lock {
    Settle(l, Others(l.extensions, id))
  }

  // ----- Facts about entry lists -----

  ghost predicate SameEntries(s: seq<Entry>, t: seq<Entry>) {
    |s| == |t| && Recorders(s) == Recorders(t) && forall e :: e in s <==> e in t
  }

  lemma {:induction false} RecordersAppend(s: seq<Entry>, e: Entry)
    ensures Recorders(s + [e]) == Recorders(s) + if e.grants == RECORDER_GRANTS then 1 else 0
  {
    assert (s + [e])[..|s|] == s;
  }

  lemma {:induction false} InsertKeeps(e: Entry, s: seq<Entry>)
    ensures SameEntries(Insert(e, s), s + [e])
    decreases |s|
  {
    RecordersAppend(s, e);
    if s != [] && Before(e.id, s[|s| - 1].id) {
      var front, last := s[..|s| - 1], s[|s| - 1];
      InsertKeeps(e, front);
      RecordersAppend(front, e);
      RecordersAppend(Insert(e, front), last);
      assert s == front + [last];
      forall x ensures x in Insert(e, s) <==> x in s + [e] {
        assert x in Insert(e, front) <==> x in front + [e];
      }
    }
  }

  lemma {:induction false} InsertOrders(e: Entry, s: seq<Entry>)
    requires Ordered(s)
    ensures Ordered(Insert(e, s))
    decreases |s|
  {
    if s != [] {
      var front, last := s[..|s| - 1], s[|s| - 1];
      if Before(e.id, last.id) {
        InsertOrders(e, front);
        InsertKeeps(e, front);
        BeforeIsStrict(e.id, last.id);
        forall x | x in Insert(e, front) ensures !Before(last.id, x.id) {
          assert x in front + [e];
          if x in front {
            var i :| 0 <= i < |front| && front[i] == x;
            assert s[i] == x;
          }
        }
        AppendOrders(Insert(e, front), last);
      } else {
        forall x | x in s ensures !Before(e.id, x.id) {
          BelowLast(e, s, x);
        }
        AppendOrders(s, e);
      }
    }
  }

  lemma BelowLast(e: Entry, s: seq<Entry>, x: Entry)
    requires Ordered(s) && x in s && !Before(e.id, s[|s| - 1].id)
    ensures !Before(e.id, x.id)
  {
    var last := s[|s| - 1];
    var i :| 0 <= i < |s| && s[i] == x;
    BeforeIsTotal(x.id, last.id);
    if Before(e.id, x.id) && Before(x.id, last.id) {
      BeforeIsTransitive(e.id, x.id, last.id);
    }
  }

  lemma AppendOrders(s: seq<Entry>, e: Entry)
    requires Ordered(s) && forall x :: x in s ==> !Before(e.id, x.id)
    ensures Ordered(s + [e])
  {
  }

  lemma {:induction false} SortedIsOrdered(entries: seq<Entry>)
    ensures Ordered(Sorted(entries)) && SameEntries(Sorted(entries), entries)
    decreases |entries|
  {
    if entries != [] {
      var front, last := entries[..|entries| - 1], entries[|entries| - 1];
      SortedIsOrdered(front);
      InsertOrders(last, Sorted(front));
      InsertKeeps(last, Sorted(front));
      RecordersAppend(Sorted(front), last);
      RecordersAppend(front, last);
      assert entries == front + [last];
      forall x ensures x in Sorted(entries) <==> x in entries {
        assert x in Sorted(front) + [last] <==> x in front + [last];
      }
    }
  }

  function Ids(entries: seq<Entry>): set<string> {
    set e | e in entries :: e.id
  }

  lemma {:induction false} UniqueByCount(entries: seq<Entry>)
    ensures |Ids(entries)| <= |entries|
    ensures UniqueIds(entries) <==> |Ids(entries)| == |entries|
    decreases |entries|
  {
    if entries != [] {
      var front, last := entries[..|entries| - 1], entries[|entries| - 1];
      UniqueByCount(front);
      assert entries == front + [last];
      assert Ids(entries) == Ids(front) + {last.id};
      if last.id in Ids(front) {
        var e :| e in front && e.id == last.id;
        var i :| 0 <= i < |front| && front[i] == e;
        assert entries[i].id == entries[|entries| - 1].id;
        assert !UniqueIds(entries);
      } else {
        UniqueLast(front, last);
      }
    }
  }

  lemma UniqueLast(front: seq<Entry>, last: Entry)
    requires last.id !in Ids(front)
    ensures UniqueIds(front + [last]) <==> UniqueIds(front)
  {
    var all := front + [last];
    if UniqueIds(front) {
      forall i, j | 0 <= i < j < |all| ensures all[i].id != all[j].id {
        if j == |front| {
          assert all[i] in front;
        }
      }
    } else {
      var i, j :| 0 <= i < j < |front| && front[i].id == front[j].id;
      assert all[i].id == all[j].id;
    }
  }

  lemma SameEntriesKeepUnique(s: seq<Entry>, t: seq<Entry>)
    requires SameEntries(s, t) && UniqueIds(t)
    ensures UniqueIds(s)
  {
    UniqueByCount(s);
    UniqueByCount(t);
    assert Ids(s) == Ids(t);
  }

  lemma {:induction false} OthersHold(entries: seq<Entry>, id: string)
    ensures forall e :: e in Others(entries, id) <==> e in entries && e.id != id
    decreases |entries|
  {
    if entries != [] {
      var front, last := entries[..|entries| - 1], entries[|entries| - 1];
      OthersHold(front, id);
      assert entries == front + [last];
    }
  }

  lemma {:induction false} OthersCount(entries: seq<Entry>, id: string)
    ensures |Others(entries, id)| <= |entries| && Recorders(Others(entries, id)) <= Recorders(entries)
    decreases |entries|
  {
    if entries != [] {
      var front, last := entries[..|entries| - 1], entries[|entries| - 1];
      OthersCount(front, id);
      RecordersAppend(Others(front, id), last);
      assert Others(front, id) + [] == Others(front, id);
    }
  }

  lemma {:induction false} OthersUnique(entries: seq<Entry>, id: string)
    requires UniqueIds(entries)
    ensures UniqueIds(Others(entries, id))
    decreases |entries|
  {
    hide Recorders;
    if entries != [] {
      var front, last := entries[..|entries| - 1], entries[|entries| - 1];
      assert entries == front + [last];
      UniqueFront(front, last);
      OthersUnique(front, id);
      OthersHold(front, id);
      forall e | e in front ensures e.id != last.id {
        var i :| 0 <= i < |front| && front[i] == e;
        assert entries[i].id != entries[|entries| - 1].id;
      }
      UniqueLast(Others(front, id), last);
    }
  }

  lemma UniqueFront(front: seq<Entry>, last: Entry)
    requires UniqueIds(front + [last])
    ensures UniqueIds(front)
  {
    var all := front + [last];
    forall i, j | 0 <= i < j < |front| ensures front[i].id != front[j].id {
      assert all[i].id != all[j].id;
    }
  }

  lemma {:induction false} RecordersFound(entries: seq<Entry>)
    ensures HasRecorder(entries) <==> Recorders(entries) > 0
    decreases |entries|
  {
    if entries != [] {
      var front, last := entries[..|entries| - 1], entries[|entries| - 1];
      RecordersFound(front);
      if HasRecorder(front) {
        var i :| 0 <= i < |front| && front[i].grants == RECORDER_GRANTS;
        assert entries[i].grants == RECORDER_GRANTS;
      }
      if last.grants == RECORDER_GRANTS {
        assert entries[|entries| - 1].grants == RECORDER_GRANTS;
      }
    }
  }

  // ----- What is written is never too long to be read -----

  function PowerOfTen(k: nat): nat {
    if k == 0 then 1 else 10 * PowerOfTen(k - 1)
  }

  lemma {:induction false} DigitsBound(n: nat, k: nat)
    requires k > 0 && n < PowerOfTen(k)
    ensures Digits(n) <= k
    decreases k
  {
    if n >= 10 {
      DigitsBound(n / 10, k - 1);
    }
  }

  lemma GenerationDigits(n: nat)
    requires n < GENERATIONS
    ensures Digits(n) <= 20
  {
    assert PowerOfTen(10) == 10_000_000_000;
    assert PowerOfTen(20) == 10 * (10 * (10 * (10 * (10 * PowerOfTen(15)))));
    assert PowerOfTen(15) == 10 * (10 * (10 * (10 * (10 * PowerOfTen(10)))));
    DigitsBound(n, 20);
  }

  lemma {:induction false} GrantsBound(grants: seq<string>)
    requires forall i :: 0 <= i < |grants| ==> |grants[i]| <= 32
    ensures GrantsSize(grants) <= 35 * |grants|
    decreases |grants|
  {
    if grants != [] {
      GrantsBound(grants[..|grants| - 1]);
    }
  }

  lemma VersionBound(s: string)
    requires Version(s)
    ensures |s| <= 20
  {
    var i, j :| 0 <= i < j < |s| && s[i] == '.' && s[j] == '.' && Number(s[..i]) && Number(s[i + 1..j])
      && Number(s[j + 1..]);
  }

  lemma EntryBound(e: Entry)
    requires ValidEntry(e)
    ensures EntrySize(e) <= 400
  {
    hide Identifier, Version, HexDigest;
    FieldBounds(e);
    GrantsBound(e.grants);
  }

  lemma FieldBounds(e: Entry)
    requires ValidEntry(e)
    ensures |e.id| <= 64 && |e.sha| == 64 && |e.version| <= 20 && |e.grants| <= 3
  {
    VersionBound(e.version);
  }

  lemma {:induction false} EntriesBound(entries: seq<Entry>)
    requires forall i :: 0 <= i < |entries| ==> ValidEntry(entries[i])
    ensures EntriesSize(entries) <= 401 * |entries|
    decreases |entries|
  {
    hide ValidEntry, EntrySize;
    if entries != [] {
      EntriesBound(entries[..|entries| - 1]);
      EntryBound(entries[|entries| - 1]);
    }
  }

  lemma BindingBound(b: Binding)
    requires ValidBinding(b)
    ensures BindingSize(b) <= 300
  {
    assert PowerOfTen(5) == 100_000;
    DigitsBound(b.ackTimeout, 5);
    DigitsBound(b.queueCapacity, 5);
  }

  lemma FileFits(l: Lock)
    requires 0 <= l.generation < GENERATIONS && |l.extensions| <= MAX_EXTENSIONS
    requires forall i :: 0 <= i < |l.extensions| ==> ValidEntry(l.extensions[i])
    requires l.recorder.Some? ==> ValidBinding(l.recorder.value)
    ensures FileSize(l) <= MAX_JSON
  {
    hide ValidEntry, ValidBinding, EntriesSize, BindingSize, Digits;
    EntriesBound(l.extensions);
    GenerationDigits(l.generation);
    if l.recorder.Some? {
      BindingBound(l.recorder.value);
    }
  }

  // ----- The writer satisfies its own reader -----

  /** A lock whose entries only need sorting is readable once committed. */
  lemma CommittedIsReadable(l: Lock, w: Lock)
    requires Committed(l) == Some(w) && l.generation >= 0
    requires l.schema == (if l.recorder.Some? then SCHEMA_V2 else SCHEMA_V1)
    requires |l.extensions| <= MAX_EXTENSIONS && (forall e :: e in l.extensions ==> ValidEntry(e))
             && UniqueIds(l.extensions)
    requires l.recorder.Some? ==> ValidBinding(l.recorder.value)
    requires Recorders(l.extensions) == (if l.recorder.Some? then 1 else 0)
    ensures Readable(w) && w.generation == l.generation + 1 && w.recorder == l.recorder
    ensures forall e :: e in w.extensions <==> e in l.extensions
  {
    hide ValidEntry, ValidBinding, FileSize, Ordered, Sorted, UniqueIds, Recorders;
    SortedIsOrdered(l.extensions);
    SameEntriesKeepUnique(w.extensions, l.extensions);
    assert forall i :: 0 <= i < |w.extensions| ==> w.extensions[i] in l.extensions;
    FileFits(w);
  }

  lemma SettledRecorders(l: Lock, entries: seq<Entry>)
    requires Recorders(entries) <= 1 && (HasRecorder(entries) ==> l.recorder.Some? && l.schema == SCHEMA_V2)
    ensures var s := Settle(l, entries);
            && Recorders(entries) == (if s.recorder.Some? then 1 else 0)
            && s.schema == (if s.recorder.Some? then SCHEMA_V2 else SCHEMA_V1)
  {
    hide HasRecorder, Recorders;
    RecordersFound(entries);
  }

  /** The entry may join the others under this binding. */
  predicate MayJoin(l: Lock, e: Entry, binding: Option<Binding>) {
    && ValidEntry(e) && |Others(l.extensions, e.id)| < MAX_EXTENSIONS
    && (binding.Some? <==> e.grants == RECORDER_GRANTS)
    && (binding.Some? ==> ValidBinding(binding.value) && !HasRecorder(Others(l.extensions, e.id)))
  }

  lemma JoinedRecorders(l: Lock, e: Entry, binding: Option<Binding>)
    requires Readable(l) && MayJoin(l, e, binding)
    ensures var joined := Others(l.extensions, e.id) + [e];
            Recorders(joined) <= 1 && (HasRecorder(joined) ==> binding.Some? || l.recorder.Some?)
  {
    hide Others, HasRecorder, Recorders, ValidEntry, ValidBinding, Ordered, UniqueIds, FileSize;
    var others := Others(l.extensions, e.id);
    OthersCount(l.extensions, e.id);
    RecordersAppend(others, e);
    RecordersFound(others);
    RecordersFound(others + [e]);
  }

  lemma JoinedUnique(l: Lock, e: Entry)
    requires UniqueIds(l.extensions)
    ensures UniqueIds(Others(l.extensions, e.id) + [e])
  {
    hide Others;
    OthersUnique(l.extensions, e.id);
    OthersHold(l.extensions, e.id);
    UniqueLast(Others(l.extensions, e.id), e);
  }

  /** Enabling writes a readable lock with exactly the new entry in place of the old one. */
  lemma EnabledIsReadable(l: Lock, e: Entry, binding: Option<Binding>, w: Lock)
    requires Readable(l) && MayJoin(l, e, binding) && Committed(Enabled(l, e, binding)) == Some(w)
    ensures Readable(w) && w.generation == l.generation + 1
    ensures forall x :: x in w.extensions <==> x == e || (x in l.extensions && x.id != e.id)
    ensures w.recorder == if binding.Some? then binding
                          else if HasRecorder(Others(l.extensions, e.id)) then l.recorder else None
  {
    hide Others, HasRecorder, Recorders, ValidEntry, ValidBinding, Ordered, UniqueIds, FileSize, Committed;
    var others := Others(l.extensions, e.id);
    OthersHold(l.extensions, e.id);
    JoinedUnique(l, e);
    JoinedRecorders(l, e, binding);
    var bound := if binding.Some? then l.(recorder := binding, schema := SCHEMA_V2) else l;
    SettledRecorders(bound, others + [e]);
    RecordersAppend(others, e);
    RecordersFound(others);
    RecordersFound(others + [e]);
    assert forall x :: x in l.extensions ==> ValidEntry(x);
    CommittedIsReadable(Enabled(l, e, binding), w);
  }

  /** Disabling writes a readable lock without the entry. */
  lemma DisabledIsReadable(l: Lock, id: string, w: Lock)
    requires Readable(l) && Committed(Disabled(l, id)) == Some(w)
    ensures Readable(w) && w.generation == l.generation + 1
    ensures forall x :: x in w.extensions <==> x in l.extensions && x.id != id
    ensures w.recorder == if HasRecorder(Others(l.extensions, id)) then l.recorder else None
  {
    hide Others, HasRecorder, Recorders, ValidEntry, ValidBinding, Ordered, UniqueIds, FileSize, Committed;
    var others := Others(l.extensions, id);
    OthersHold(l.extensions, id);
    OthersUnique(l.extensions, id);
    OthersCount(l.extensions, id);
    RecordersFound(others);
    SettledRecorders(l, others);
    assert forall x :: x in l.extensions ==> ValidEntry(x);
    CommittedIsReadable(Disabled(l, id), w);
  }

  // ----- What the strict reader guarantees -----

  /** A lock that is read holds at most four extensions, by ascending id, each with one of the three
      sets of permissions, and a recorder binding within its limits exactly if one of them records. */
  lemma ReadableMeans(l: Lock)
    requires Readable(l)
    ensures 0 <= l.generation <= 0xFFFF_FFFF_FFFF_FFFF && |l.extensions| <= 4
    ensures forall i, j :: 0 <= i < j < |l.extensions| ==> Before(l.extensions[i].id, l.extensions[j].id)
    ensures forall i :: 0 <= i < |l.extensions| ==>
              l.extensions[i].grants in {["observe_http_metadata", "write_private_state"],
                                         ["export_usage", "observe_usage", "write_usage_store"],
                                         ["read_model_payload", "transform_model_protocol"]}
    ensures l.recorder.Some? <==> exists i :: 0 <= i < |l.extensions|
                                    && l.extensions[i].grants == ["export_usage", "observe_usage", "write_usage_store"]
    ensures forall i, j :: 0 <= i < j < |l.extensions| ==>
              || l.extensions[i].grants != ["export_usage", "observe_usage", "write_usage_store"]
              || l.extensions[j].grants != ["export_usage", "observe_usage", "write_usage_store"]
    ensures l.schema == if l.recorder.Some? then "gateway-extension-lock/v2" else "gateway-extension-lock/v1"
    ensures l.recorder.Some? ==>
              && l.recorder.value.mode in {"off", "best_effort", "durable_local"}
              && 2 <= l.recorder.value.queueCapacity <= 4096 && 1 <= l.recorder.value.ackTimeout <= 60000
  {
    hide FileSize, Recorders, Before, Identifier, Version, HexDigest;
    RecordersFound(l.extensions);
    forall i, j | 0 <= i < j < |l.extensions| ensures Before(l.extensions[i].id, l.extensions[j].id) {
      BeforeIsTotal(l.extensions[i].id, l.extensions[j].id);
    }
    forall i, j | 0 <= i < j < |l.extensions| && l.extensions[i].grants == RECORDER_GRANTS
      ensures l.extensions[j].grants != RECORDER_GRANTS
    {
      TwoRecorders(l.extensions, i, j);
    }
  }

  lemma {:induction false} TwoRecorders(entries: seq<Entry>, i: nat, j: nat)
    requires i < j < |entries| && entries[i].grants == RECORDER_GRANTS
    ensures entries[j].grants == RECORDER_GRANTS ==> Recorders(entries) >= 2
    decreases |entries|
  {
    var n := |entries| - 1;
    if j < n {
      TwoRecorders(entries[..n], i, j);
    } else {
      RecordersFound(entries[..n]);
      assert entries[..n][i].grants == RECORDER_GRANTS;
    }
  }

  /** Names: lower case, starting with a letter, at most 64 characters. Versions: three numbers without
      leading zeros, two dots between them. Digests: 64 lower-case hexadecimal digits. */
  lemma FormatsMean(s: string)
    ensures Identifier(s) ==>
              && 1 <= |s| <= 64 && 'a' <= s[0] <= 'z'
              && forall i :: 0 <= i < |s| ==> 'a' <= s[i] <= 'z' || '0' <= s[i] <= '9' || s[i] == '-'
    ensures Version(s) ==> |s| <= 20 && forall i :: 0 <= i < |s| ==> '0' <= s[i] <= '9' || s[i] == '.'
    ensures HexDigest(s) ==> |s| == 64 && forall i :: 0 <= i < |s| ==> 'a' <= s[i] <= 'f' || '0' <= s[i] <= '9'
  {
    hide Version;
    if Version(s) {
      VersionBound(s);
      VersionDigits(s);
    }
  }

  lemma NumberDigits(s: string, from: nat, to: nat, k: nat)
    requires from <= k < to <= |s| && Number(s[from..to])
    ensures '0' <= s[k] <= '9'
  {
    assert s[from..to][k - from] == s[k];
  }

  lemma VersionDigits(s: string)
    requires Version(s)
    ensures forall k :: 0 <= k < |s| ==> '0' <= s[k] <= '9' || s[k] == '.'
  {
    hide Number;
    var i, j :| 0 <= i < j < |s| && s[i] == '.' && s[j] == '.' && Number(s[..i]) && Number(s[i + 1..j])
                && Number(s[j + 1..]);
    assert s[0..i] == s[..i] && s[j + 1..|s|] == s[j + 1..];
    forall k | 0 <= k < |s| ensures '0' <= s[k] <= '9' || s[k] == '.' {
      if k < i {
        NumberDigits(s, 0, i, k);
      } else if i < k < j {
        NumberDigits(s, i + 1, j, k);
      } else if k > j {
        NumberDigits(s, j + 1, |s|, k);
      }
    }
  }
}
