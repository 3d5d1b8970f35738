/** The extension store (scripts/extension_manager.py): installing, enabling and disabling under
    the mutation lock, with optional compare-and-set preconditions. */
module ActivationStore {
  import opened Common
  import opened ActivationLock

  datatype Protocol = Observer | RecorderV1 | RecorderV2 | Codec | Provider

  datatype Package = Package(id: string, version: string, protocol: Protocol, permissions: seq<string>)

  datatype Selector = Selector(id: string, version: string, sha: string)

  /** What is on disk: the lock file, the installed manifests with the id and release directories
      above them, how many entries are none of these (a directory that an interrupted
      installation was filling), and per usage store the digest of its recorder configuration. */
  datatype Disk = Disk(active: Option<Lock>, packages: map<Selector, Package>, ids: set<string>,
                       releases: set<(string, string)>, strays: nat, usage: map<string, string>)

  const EMPTY_DISK := Disk(None, map[], {}, {}, 0, map[])
  const LISTING_BUDGET := 1024
  const MAX_LISTED := 128

  datatype Expected = Expected(generation: int, inventory: string)

  datatype Hashes = Hashes(manifest: Package -> string, inventory: (Lock, map<Selector, Package>) -> string)

  datatype Command =
    | Install(package: Package, sha: string, condition: Option<Expected>)
    | Enable(selector: Selector, grants: seq<string>, binding: Option<Binding>, condition: Option<Expected>)
    | Disable(id: string, condition: Option<Expected>)

  predicate IsRecorder(p: Protocol) {
    p == RecorderV1 || p == RecorderV2
  }

  function PermissionsOf(p: Protocol): seq<string> {
    if p == Observer then OBSERVER_GRANTS else if IsRecorder(p) then RECORDER_GRANTS else CODEC_GRANTS
  }

  predicate ValidPackage(p: Package) {
    Identifier(p.id) && Version(p.version) && p.permissions == PermissionsOf(p.protocol)
  }

  function SelectorOf(p: Package, sha: string): Selector {
    Selector(p.id, p.version, sha)
  }

  /** The manifest in the selected directory, if it is intact. */
  function Inspect(h: Hashes, d: Disk, s: Selector): Option<Package> {
    if s in d.packages && HexDigest(s.sha) && h.manifest(d.packages[s]) == s.sha && ValidPackage(d.packages[s])
    then Some(d.packages[s]) else None
  }

  /** The inventory can be read: the lock is readable and the listing within its bound. */
  predicate Listable(d: Disk) {
    && ReadLock(d.active).Some? && d.strays == 0 && |d.packages| <= MAX_LISTED && Entries(d) <= LISTING_BUDGET
    && (forall id :: id in d.ids ==> Identifier(id)) && (forall r :: r in d.releases ==> Version(r.1))
    && (forall s :: s in d.packages ==> HexDigest(s.sha))
  }

  /** The directory entries a listing walks over, left-over empty directories included. */
  function Entries(d: Disk): nat {
    |d.ids| + |d.releases| + |d.packages|
  }

  predicate Expects(h: Hashes, d: Disk, condition: Option<Expected>) {
    condition.None?
    || (var c := condition.value;
        && 0 <= c.generation < GENERATIONS && HexDigest(c.inventory) && Listable(d)
        && ReadLock(d.active).value.generation == c.generation
        && h.inventory(ReadLock(d.active).value, d.packages) == c.inventory)
  }

  predicate BindingMatches(d: Disk, p: Package, others: seq<Entry>, binding: Option<Binding>) {
    if IsRecorder(p.protocol) then
      && binding.Some? && ValidBinding(binding.value) && !HasRecorder(others)
      && binding.value.storeId in d.usage && d.usage[binding.value.storeId] == binding.value.configSha
    else binding.None?
  }

  /** The lock an enabling writes, unless it is refused. */
  function EnabledLock(h: Hashes, d: Disk, s: Selector, grants: seq<string>, binding: Option<Binding>,
                       condition: Option<Expected>): Option<Lock> {
    var package := Inspect(h, d, s);
    var lock := ReadLock(d.active);
    if !Expects(h, d, condition) || !Identifier(s.id) || !Version(s.version)
       || package.None? || package.value.id != s.id || package.value.version != s.version
       || multiset(grants) != multiset(package.value.permissions) || lock.None?
       || |Others(lock.value.extensions, s.id)| >= MAX_EXTENSIONS
       || !BindingMatches(d, package.value, Others(lock.value.extensions, s.id), binding)
    then None
    else Committed(Enabled(lock.value, Entry(s.id, s.version, s.sha, package.value.permissions), binding))
  }

  function DisabledLock(h: Hashes, d: Disk, id: string, condition: Option<Expected>): Option<Lock> {
    var lock := ReadLock(d.active);
    if !Identifier(id) || !Expects(h, d, condition) || lock.None? || id !in Ids(lock.value.extensions) then None
    else Committed(Disabled(lock.value, id))
  }

  /** The disk after an installation, unless it is refused. */
  function Installed(h: Hashes, d: Disk, p: Package, sha: string, condition: Option<Expected>): Option<Disk> {
    var s := SelectorOf(p, sha);
    if !HexDigest(sha) || h.manifest(p) != sha || !ValidPackage(p) || !Expects(h, d, condition) then None
    else if s in d.packages then (if Inspect(h, d, s).Some? then Some(WithFolders(d, s)) else None)
    else Some(WithFolders(d, s).(packages := d.packages[s := p]))
  }

  function WithFolders(d: Disk, s: Selector): Disk {
    d.(ids := d.ids + {s.id}, releases := d.releases + {(s.id, s.version)})
  }

  /** The lock file a command writes. */
  function Writes(h: Hashes, d: Disk, c: Command): Option<Lock> {
    match c
    case Install(_, _, _) => None
    case Enable(s, grants, binding, condition) => EnabledLock(h, d, s, grants, binding, condition)
    case Disable(id, condition) => DisabledLock(h, d, id, condition)
  }

  function After(h: Hashes, d: Disk, c: Command): Disk {
    if c.Install? then
      var installed := Installed(h, d, c.package, c.sha, c.condition);
      if installed.Some? then installed.value else d
    else
      var lock := Writes(h, d, c);
      if lock.Some? then d.(active := lock) else d
  }

  /** Whether the caller gets a result; a guarded command reads the inventory once more for it. */
  predicate Reports(h: Hashes, d: Disk, c: Command) {
    && (if c.Install? then Installed(h, d, c.package, c.sha, c.condition).Some? else Writes(h, d, c).Some?)
    && (c.condition.Some? ==> Listable(After(h, d, c)))
  }

  // ----- The manager -----

  class Store {
    var active: Option<Lock>
    var packages: map<Selector, Package>
    var ids: set<string>
    var releases: set<(string, string)>
    var strays: nat
    var usage: map<string, string>

    ghost function Contents(): Disk
      reads this
    {
      Disk(active, packages, ids, releases, strays, usage)
    }

    constructor ()
      ensures Contents() == EMPTY_DISK
    {
      active, packages, ids, releases, strays, usage := None, map[], {}, {}, 0, map[];
    }

    /** A snapshot of the disk. */
    method Scan() returns (d: Disk)
      ensures d == Contents()
    {
      d := Disk(active, packages, ids, releases, strays, usage);
    }

    method CheckExpected(h: Hashes, condition: Option<Expected>) returns (ok: bool)
      ensures ok <==> Expects(h, Contents(), condition)
    {
      var d := Scan();
      ok := Expects(h, d, condition);
    }

    /** Replaces the lock file by the next generation. */
    method CommitLock(lock: Lock) returns (ok: bool)
      modifies this`active
      ensures ok <==> Committed(lock).Some?
      ensures active == if ok then Committed(lock) else old(active)
    {
      ok := lock.generation < GENERATIONS - 1;
      if ok {
        active := Some(lock.(generation := lock.generation + 1, extensions := Sorted(lock.extensions)));
      }
    }

    method GuardedResult(condition: Option<Expected>) returns (ok: bool)
      ensures ok <==> condition.None? || Listable(Contents())
    {
      var d := Scan();
      ok := condition.None? || Listable(d);
    }

    method InstallPackage(h: Hashes, p: Package, sha: string, condition: Option<Expected>) returns (ok: bool)
      modifies this`packages, this`ids, this`releases
      ensures Contents() == After(h, old(Contents()), Install(p, sha, condition))
      ensures ok <==> Reports(h, old(Contents()), Install(p, sha, condition))
    {
      hide HexDigest, ValidPackage, Listable, ReadLock, Expects;
      if !HexDigest(sha) || h.manifest(p) != sha || !ValidPackage(p) {
        return false;
      }
      var expected := CheckExpected(h, condition);
      if !expected {
        return false;
      }
      var s := SelectorOf(p, sha);
      var d := Scan();
      if s in packages && Inspect(h, d, s).None? {
        return false;
      }
      ids, releases := ids + {s.id}, releases + {(s.id, s.version)};
      if s !in packages {
        packages := packages[s := p];
      }
      ok := GuardedResult(condition);
    }

    method EnableExtension(h: Hashes, s: Selector, grants: seq<string>, binding: Option<Binding>,
                           condition: Option<Expected>)
      returns (ok: bool)
      modifies this`active
      ensures Contents() == After(h, old(Contents()), Enable(s, grants, binding, condition))
      ensures ok <==> Reports(h, old(Contents()), Enable(s, grants, binding, condition))
    {
      hide Identifier, Version, Inspect, Listable, ReadLock, Expects, Others, HasRecorder, Committed, BindingMatches;
      var expected := CheckExpected(h, condition);
      if !expected || !Identifier(s.id) || !Version(s.version) {
        return false;
      }
      var d := Scan();
      var package := Inspect(h, d, s);
      if package.None? || package.value.id != s.id || package.value.version != s.version
         || multiset(grants) != multiset(package.value.permissions)
      {
        return false;
      }
      var lock := ReadLock(active);
      if lock.None? {
        return false;
      }
      var entries := Others(lock.value.extensions, s.id);
      if |entries| >= MAX_EXTENSIONS || !BindingMatches(d, package.value, entries, binding) {
        return false;
      }
      entries := entries + [Entry(s.id, s.version, s.sha, package.value.permissions)];
      var next := lock.value;
      if binding.Some? {
        next := next.(recorder := binding, schema := SCHEMA_V2);
      }
      if !HasRecorder(entries) {
        next := next.(recorder := None, schema := SCHEMA_V1);
      }
      next := next.(extensions := entries);
      ok := CommitLock(next);
      if ok {
        ok := GuardedResult(condition);
      }
    }

    method DisableExtension(h: Hashes, id: string, condition: Option<Expected>) returns (ok: bool)
      modifies this`active
      ensures Contents() == After(h, old(Contents()), Disable(id, condition))
      ensures ok <==> Reports(h, old(Contents()), Disable(id, condition))
    {
      hide Identifier, Listable, ReadLock, Expects, Others, HasRecorder, Committed, Ids;
      var expected := CheckExpected(h, condition);
      if !Identifier(id) || !expected {
        return false;
      }
      var lock := ReadLock(active);
      if lock.None? || id !in Ids(lock.value.extensions) {
        return false;
      }
      var next := lock.value.(extensions := Others(lock.value.extensions, id));
      if !HasRecorder(next.extensions) {
        next := next.(recorder := None, schema := SCHEMA_V1);
      }
      ok := CommitLock(next);
      if ok {
        ok := GuardedResult(condition);
      }
    }
  }

  // ----- What every command keeps -----

  predicate Backed(d: Disk, e: Entry) {
    var s := Selector(e.id, e.version, e.sha);
    s in d.packages && d.packages[s].permissions == e.grants
  }

  /** The lock is readable, and every activated entry is an installed package granted exactly its
      own permissions. */
  ghost predicate Consistent(d: Disk) {
    && ReadLock(d.active).Some?
    && (forall e :: e in ReadLock(d.active).value.extensions ==> Backed(d, e))
    && (forall s :: s in d.packages ==> Identifier(s.id) && Version(s.version) && HexDigest(s.sha))
  }

  function Generation(d: Disk): int {
    if d.active.Some? then d.active.value.generation else 0
  }

  lemma EmptyIsReadable()
    ensures Readable(EMPTY_LOCK)
  {
  }

  lemma GrantsFollowProtocol(p: Package)
    requires ValidPackage(p)
    ensures KnownGrants(p.permissions) && (IsRecorder(p.protocol) <==> p.permissions == RECORDER_GRANTS)
  {
    assert |RECORDER_GRANTS| == 3 && |OBSERVER_GRANTS| == 2 && |CODEC_GRANTS| == 2;
  }

  lemma EnablingMayJoin(h: Hashes, d: Disk, s: Selector, grants: seq<string>, binding: Option<Binding>,
                        condition: Option<Expected>)
    requires EnabledLock(h, d, s, grants, binding, condition).Some?
    ensures var lock, package := ReadLock(d.active), Inspect(h, d, s);
            && lock.Some? && package.Some?
            && MayJoin(lock.value, Entry(s.id, s.version, s.sha, package.value.permissions), binding)
  {
    hide Others, HasRecorder, Committed, Enabled, Identifier, Version, HexDigest, ValidBinding, Expects, ReadLock,
      KnownGrants, PermissionsOf;
    GrantsFollowProtocol(Inspect(h, d, s).value);
  }

  /** What an enabling does to the lock, in terms of the lock it read. */
  lemma EnableWrites(h: Hashes, d: Disk, s: Selector, grants: seq<string>, binding: Option<Binding>,
                     condition: Option<Expected>, w: Lock)
    requires EnabledLock(h, d, s, grants, binding, condition) == Some(w)
    ensures var lock, package := ReadLock(d.active), Inspect(h, d, s);
            && lock.Some? && package.Some? && Readable(w) && w.generation == lock.value.generation + 1
            && var e := Entry(s.id, s.version, s.sha, package.value.permissions);
               forall x :: x in w.extensions <==> x == e || (x in lock.value.extensions && x.id != e.id)
  {
    hide Others, HasRecorder, Committed, Enabled, Readable, Identifier, Version, HexDigest, ValidBinding, Expects,
      Inspect, MayJoin, BindingMatches;
    EnablingMayJoin(h, d, s, grants, binding, condition);
    EmptyIsReadable();
    var e := Entry(s.id, s.version, s.sha, Inspect(h, d, s).value.permissions);
    EnabledIsReadable(ReadLock(d.active).value, e, binding, w);
  }

  lemma DisableWrites(h: Hashes, d: Disk, id: string, condition: Option<Expected>, w: Lock)
    requires DisabledLock(h, d, id, condition) == Some(w)
    ensures var lock := ReadLock(d.active);
            && lock.Some? && Readable(w) && w.generation == lock.value.generation + 1
            && forall x :: x in w.extensions <==> x in lock.value.extensions && x.id != id
  {
    hide Others, HasRecorder, Committed, Disabled, Readable, Identifier, Expects, Ids;
    EmptyIsReadable();
    DisabledIsReadable(ReadLock(d.active).value, id, w);
  }

  /** Every lock file a command writes passes the strict reader, one generation later. */
  lemma WrittenLockIsReadable(h: Hashes, d: Disk, c: Command)
    requires Writes(h, d, c).Some?
    ensures Readable(Writes(h, d, c).value) && Writes(h, d, c).value.generation == Generation(d) + 1
  {
    hide EnabledLock, DisabledLock, Readable;
    match c
    case Enable(s, grants, binding, condition) =>
      EnableWrites(h, d, s, grants, binding, condition, Writes(h, d, c).value);
    case Disable(id, condition) => DisableWrites(h, d, id, condition, Writes(h, d, c).value);
  }

  lemma InstallKeeps(h: Hashes, d: Disk, c: Command)
    requires Consistent(d) && c.Install?
    ensures Consistent(After(h, d, c))
  {
    hide Identifier, Version, HexDigest, Expects, ReadLock, PermissionsOf;
    forall e | e in ReadLock(d.active).value.extensions ensures Backed(After(h, d, c), e) {
      assert Backed(d, e);
    }
  }

  lemma CommandKeeps(h: Hashes, d: Disk, c: Command)
    requires Consistent(d)
    ensures Consistent(After(h, d, c))
    ensures Generation(After(h, d, c)) == Generation(d) + if Writes(h, d, c).Some? then 1 else 0
  {
    hide EnabledLock, DisabledLock, Readable, Installed, Identifier, Version, HexDigest, Inspect;
    match c
    case Install(p, sha, condition) =>
      InstallKeeps(h, d, c);
      InstallKeepsLock(h, d, c);
    case Enable(s, grants, binding, condition) =>
      var w := EnabledLock(h, d, s, grants, binding, condition);
      if w.Some? {
        EnableWrites(h, d, s, grants, binding, condition, w.value);
        InspectedIsBacked(h, d, s);
        assert forall x :: x in w.value.extensions ==> Backed(d, x);
      }
    case Disable(id, condition) =>
      var w := DisabledLock(h, d, id, condition);
      if w.Some? {
        DisableWrites(h, d, id, condition, w.value);
        assert forall x :: x in w.value.extensions ==> Backed(d, x);
      }
  }

  lemma InspectedIsBacked(h: Hashes, d: Disk, s: Selector)
    requires Inspect(h, d, s).Some?
    ensures Backed(d, Entry(s.id, s.version, s.sha, Inspect(h, d, s).value.permissions))
  {
    assert s == Selector(s.id, s.version, s.sha);
  }

  lemma InstallKeepsLock(h: Hashes, d: Disk, c: Command)
    requires c.Install?
    ensures After(h, d, c).active == d.active
  {
    hide HexDigest, Identifier, Version, Expects;
  }

  // ----- Whole runs -----

  /** A command, what the usage stores hold when it runs (recorders configure themselves), and
      what interrupted installations have left behind by then. */
  datatype Step = Step(command: Command, usage: map<string, string>, ids: set<string>,
                       releases: set<(string, string)>, strays: nat)

  function Sees(d: Disk, step: Step): Disk {
    d.(usage := step.usage, ids := d.ids + step.ids, releases := d.releases + step.releases,
      strays := d.strays + step.strays)
  }

  function Run(h: Hashes, d: Disk, steps: seq<Step>): Disk {
    if steps == [] then d
    else
      var last := steps[|steps| - 1];
      After(h, Sees(Run(h, d, steps[..|steps| - 1]), last), last.command)
  }

  /** The i-th command replaces the lock file. */
  predicate CommitsAt(h: Hashes, d: Disk, steps: seq<Step>, i: nat)
    requires i < |steps|
  {
    Writes(h, Sees(Run(h, d, steps[..i]), steps[i]), steps[i].command).Some?
  }

  function Commits(h: Hashes, d: Disk, steps: seq<Step>): nat {
    if steps == [] then 0
    else Commits(h, d, steps[..|steps| - 1]) + if CommitsAt(h, d, steps, |steps| - 1) then 1 else 0
  }

  lemma EmptyIsConsistent()
    ensures Consistent(EMPTY_DISK) && Generation(EMPTY_DISK) == 0
  {
  }

  lemma SeeingKeeps(d: Disk, step: Step)
    ensures Consistent(d) ==> Consistent(Sees(d, step))
    ensures Generation(Sees(d, step)) == Generation(d)
  {
    hide Identifier, Version, HexDigest, ReadLock;
    if Consistent(d) {
      forall e | e in ReadLock(d.active).value.extensions ensures Backed(Sees(d, step), e) {
        assert Backed(d, e);
      }
    }
  }

  /** From any consistent store, and so from the empty one, every run keeps the store consistent
      and counts its commits in the generation. */
  lemma {:induction false} RunsStayConsistent(h: Hashes, d: Disk, steps: seq<Step>)
    requires Consistent(d)
    ensures Consistent(Run(h, d, steps))
    ensures Generation(Run(h, d, steps)) == Generation(d) + Commits(h, d, steps)
    decreases |steps|
  {
    hide After, Writes, Consistent, Generation, Sees;
    if steps != [] {
      var front, last := steps[..|steps| - 1], steps[|steps| - 1];
      RunsStayConsistent(h, d, front);
      SeeingKeeps(Run(h, d, front), last);
      CommandKeeps(h, Sees(Run(h, d, front), last), last.command);
    }
  }

  lemma {:induction false} CommitsGrow(h: Hashes, d: Disk, steps: seq<Step>, i: nat, j: nat)
    requires i < j <= |steps| && CommitsAt(h, d, steps, i)
    ensures Commits(h, d, steps[..i]) < Commits(h, d, steps[..j])
    decreases j
  {
    hide Run, Writes, Sees;
    var now := steps[..j];
    assert now[..j - 1] == steps[..j - 1] && now[..i] == steps[..i] && now[i] == steps[i];
    if i < j - 1 {
      CommitsGrow(h, d, steps, i, j - 1);
    } else {
      assert CommitsAt(h, d, now, j - 1);
    }
  }

  lemma GuardFixesGeneration(h: Hashes, d: Disk, c: Command)
    requires Writes(h, d, c).Some? && c.condition.Some?
    ensures Generation(d) == c.condition.value.generation
  {
    hide Inspect, Identifier, Version, HexDigest, Listable, Others, HasRecorder, Committed, BindingMatches, Ids,
      Enabled, Disabled;
  }

  lemma GuardedAt(h: Hashes, d: Disk, steps: seq<Step>, i: nat)
    requires Consistent(d) && i < |steps| && steps[i].command.condition.Some? && CommitsAt(h, d, steps, i)
    ensures steps[i].command.condition.value.generation == Generation(d) + Commits(h, d, steps[..i])
  {
    hide Run, Writes, Consistent, Generation, Commits, Sees;
    var now := Run(h, d, steps[..i]);
    GuardFixesGeneration(h, Sees(now, steps[i]), steps[i].command);
    SeeingKeeps(now, steps[i]);
    RunsStayConsistent(h, d, steps[..i]);
  }

  /** Whatever happens in between, at most one of the activations guarded by the same generation
      commits. */
  lemma OneGuardedCommit(h: Hashes, d: Disk, steps: seq<Step>, i: nat, j: nat)
    requires Consistent(d) && i < j < |steps|
    requires steps[i].command.condition.Some? && steps[j].command.condition.Some?
    requires steps[i].command.condition.value.generation == steps[j].command.condition.value.generation
    ensures !(CommitsAt(h, d, steps, i) && CommitsAt(h, d, steps, j))
  {
    hide CommitsAt, Consistent, Commits;
    if CommitsAt(h, d, steps, i) && CommitsAt(h, d, steps, j) {
      GuardedAt(h, d, steps, i);
      GuardedAt(h, d, steps, j);
      CommitsGrow(h, d, steps, i, j);
    }
  }

  // ----- A result is reported exactly when something was done, but for one case -----

  /** An activation that commits is always reported. */
  lemma CommitsAreReported(h: Hashes, d: Disk, c: Command)
    requires !c.Install?
    ensures Reports(h, d, c) <==> Writes(h, d, c).Some?
  {
    hide EnabledLock, DisabledLock, Readable, Identifier, Version, HexDigest;
    if Writes(h, d, c).Some? {
      WrittenLockIsReadable(h, d, c);
      if c.condition.Some? {
        GuardWasListable(h, d, c);
      }
    }
  }

  lemma GuardWasListable(h: Hashes, d: Disk, c: Command)
    requires Writes(h, d, c).Some? && c.condition.Some?
    ensures Listable(d)
  {
    hide Inspect, Identifier, Version, HexDigest, Listable, Others, HasRecorder, Committed, BindingMatches, Ids,
      Enabled, Disabled, ReadLock;
  }

  /** How many directory entries an installation adds. */
  function NewEntries(d: Disk, s: Selector): nat {
    (if s.id in d.ids then 0 else 1) + (if (s.id, s.version) in d.releases then 0 else 1)
      + (if s in d.packages then 0 else 1)
  }

  lemma OneMore<T>(s: set<T>, x: T)
    ensures |s + {x}| == |s| + if x in s then 0 else 1
  {
    if x in s {
      assert s + {x} == s;
    }
  }

  lemma InstallAddsEntries(h: Hashes, d: Disk, p: Package, sha: string, condition: Option<Expected>)
    requires Installed(h, d, p, sha, condition).Some?
    ensures var s, after := SelectorOf(p, sha), Installed(h, d, p, sha, condition).value;
            && Entries(after) == Entries(d) + NewEntries(d, s)
            && |after.packages| == |d.packages| + (if s in d.packages then 0 else 1)
  {
    hide Identifier, Version, HexDigest, Inspect, Expects, PermissionsOf;
    var s := SelectorOf(p, sha);
    OneMore(d.ids, s.id);
    OneMore(d.releases, (s.id, s.version));
    if s !in d.packages {
      assert d.packages[s := p].Keys == d.packages.Keys + {s};
      assert |d.packages[s := p]| == |d.packages| + 1;
    }
  }

  lemma EntriesCount(d: Disk)
    ensures Entries(d) == |d.ids| + |d.releases| + |d.packages|
  {
  }

  /** Behind a guarded installation only the bounds of the listing can be missed. */
  lemma ListedAfterInstall(h: Hashes, d: Disk, p: Package, sha: string, condition: Option<Expected>)
    requires condition.Some? && Installed(h, d, p, sha, condition).Some?
    ensures |d.packages| <= 128
    ensures var after := Installed(h, d, p, sha, condition).value;
            Listable(after) <==> |after.packages| <= 128 && Entries(after) <= 1024
  {
    hide Identifier, Version, HexDigest, Inspect, ReadLock, Entries;
  }

  /** A guarded installation that is carried out goes unreported exactly when it adds the 129th
      package or the listing no longer fits its budget, left-over directories included: the
      store has changed, and the caller sees an error. */
  lemma InstallUnreportedIff(h: Hashes, d: Disk, c: Command)
    requires c.Install? && c.condition.Some? && Installed(h, d, c.package, c.sha, c.condition).Some?
    ensures var s := SelectorOf(c.package, c.sha);
            !Reports(h, d, c) <==>
              || (s !in d.packages && |d.packages| == 128)
              || |d.ids| + |d.releases| + |d.packages| + NewEntries(d, s) > 1024
  {
    hide Installed, Listable, Entries, NewEntries;
    EntriesCount(d);
    ListedAfterInstall(h, d, c.package, c.sha, c.condition);
    InstallAddsEntries(h, d, c.package, c.sha, c.condition);
  }

  // ----- What is refused, and what is not -----

  /** The inventory can be read exactly if the lock can, nothing unknown lies in the store, its names
      are well formed, and it has at most 128 packages in at most 1024 directory entries. */
  lemma ListableMeans(d: Disk)
    ensures Listable(d)
            <==> && (d.active.None? || Readable(d.active.value)) && d.strays == 0 && |d.packages| <= 128
                 && |d.ids| + |d.releases| + |d.packages| <= 1024
                 && (forall id :: id in d.ids ==> Identifier(id)) && (forall r :: r in d.releases ==> Version(r.1))
                 && (forall s :: s in d.packages ==> HexDigest(s.sha))
  {
    hide Readable, Identifier, Version, HexDigest;
  }

  /** The inventory is what the caller saw: the same generation and the same digest. */
  predicate AsSeen(h: Hashes, d: Disk, c: Expected, lock: Lock) {
    && Listable(d) && lock.generation == c.generation && h.inventory(lock, d.packages) == c.inventory
    && HexDigest(c.inventory)
  }

  lemma ExpectsMeans(h: Hashes, d: Disk, condition: Option<Expected>, lock: Lock)
    requires ReadLock(d.active) == Some(lock)
    ensures Expects(h, d, condition) <==> condition == None || AsSeen(h, d, condition.value, lock)
  {
    hide HexDigest;
    EmptyIsReadable();
  }

  /** The permissions of each kind of package, written out. */
  predicate HasOwnPermissions(p: Package) {
    match p.protocol
    case Observer => p.permissions == ["observe_http_metadata", "write_private_state"]
    case RecorderV1 => p.permissions == ["export_usage", "observe_usage", "write_usage_store"]
    case RecorderV2 => p.permissions == ["export_usage", "observe_usage", "write_usage_store"]
    case Codec => p.permissions == ["read_model_payload", "transform_model_protocol"]
    case Provider => p.permissions == ["read_model_payload", "transform_model_protocol"]
  }

  /** An intact package of that name stands in the store. */
  predicate Stands(h: Hashes, d: Disk, s: Selector) {
    && s in d.packages && Identifier(s.id) && Version(s.version) && HexDigest(s.sha)
    && d.packages[s].id == s.id && d.packages[s].version == s.version && h.manifest(d.packages[s]) == s.sha
    && HasOwnPermissions(d.packages[s])
  }

  lemma InspectMeans(h: Hashes, d: Disk, s: Selector)
    ensures Stands(h, d, s)
            <==> && Inspect(h, d, s).Some? && Identifier(s.id) && Version(s.version)
                 && Inspect(h, d, s).value.id == s.id && Inspect(h, d, s).value.version == s.version
  {
    hide HexDigest, Identifier, Version;
  }

  /** Entries of other extensions. */
  function OtherIds(lock: Lock, id: string): set<string> {
    set e | e in lock.extensions && e.id != id :: e.id
  }

  /** An extension is enabled exactly if the inventory is as expected, its package stands, the
      approved grants are its permissions in any order, at most three others are active, a recorder
      comes with a valid binding to a store configured as it says while no other recorder is
      active, anything else comes without one, and a generation is left. */
  lemma EnablesIff(h: Hashes, d: Disk, s: Selector, grants: seq<string>, binding: Option<Binding>,
                   condition: Option<Expected>, lock: Lock)
    requires ReadLock(d.active) == Some(lock)
    ensures EnabledLock(h, d, s, grants, binding, condition).Some?
            <==> && (condition == None || AsSeen(h, d, condition.value, lock))
                 && Stands(h, d, s) && multiset(grants) == multiset(d.packages[s].permissions)
                 && |OtherIds(lock, s.id)| <= 3
                 && (if d.packages[s].protocol in {RecorderV1, RecorderV2} then
                       && binding.Some? && ValidBinding(binding.value)
                       && binding.value.storeId in d.usage && d.usage[binding.value.storeId] == binding.value.configSha
                       && forall e :: e in lock.extensions && e.id != s.id ==>
                            e.grants != ["export_usage", "observe_usage", "write_usage_store"]
                     else binding == None)
                 && lock.generation < 0xFFFF_FFFF_FFFF_FFFF
  {
    hide Expects, Inspect, Stands, Listable, Identifier, Version, ValidBinding, Others, HasRecorder, Readable, AsSeen,
      OtherIds;
    ExpectsMeans(h, d, condition, lock);
    InspectMeans(h, d, s);
    EmptyIsReadable();
    OthersMeans(lock, s.id);
    StandingPackage(h, d, s);
  }

  lemma StandingPackage(h: Hashes, d: Disk, s: Selector)
    ensures Stands(h, d, s) ==> s in d.packages && Inspect(h, d, s) == Some(d.packages[s])
  {
    hide HexDigest, Identifier, Version;
  }

  lemma OthersMeans(lock: Lock, id: string)
    requires Readable(lock)
    ensures |Others(lock.extensions, id)| == |OtherIds(lock, id)|
    ensures HasRecorder(Others(lock.extensions, id))
            <==> exists e :: e in lock.extensions && e.id != id
                             && e.grants == ["export_usage", "observe_usage", "write_usage_store"]
  {
    hide ValidEntry, FileSize, Ordered, Recorders, ValidBinding, Others;
    var others := Others(lock.extensions, id);
    OthersHold(lock.extensions, id);
    OthersUnique(lock.extensions, id);
    UniqueByCount(others);
    assert Ids(others) == OtherIds(lock, id);
    if e :| e in lock.extensions && e.id != id && e.grants == RECORDER_GRANTS {
      assert e in others;
      var i :| 0 <= i < |others| && others[i] == e;
      assert HasRecorder(others);
    }
    if HasRecorder(others) {
      var i :| 0 <= i < |others| && others[i].grants == RECORDER_GRANTS;
      assert others[i] in others;
    }
  }

  /** An extension is disabled exactly if it is active, the inventory is as expected and a
      generation is left. */
  lemma DisablesIff(h: Hashes, d: Disk, id: string, condition: Option<Expected>, lock: Lock)
    requires ReadLock(d.active) == Some(lock)
    ensures DisabledLock(h, d, id, condition).Some?
            <==> && (condition == None || AsSeen(h, d, condition.value, lock))
                 && Identifier(id) && (exists e :: e in lock.extensions && e.id == id)
                 && lock.generation < 0xFFFF_FFFF_FFFF_FFFF
  {
    hide Expects, AsSeen, Identifier, Others, HasRecorder;
    ExpectsMeans(h, d, condition, lock);
  }

  /** A package is installed exactly if the inventory is as expected, its digest is the trusted one,
      it is valid, and whatever stands in its place already is intact; its manifest is then in the
      store under its own name, and every other package is untouched. */
  lemma InstallsIff(h: Hashes, d: Disk, p: Package, sha: string, condition: Option<Expected>, lock: Lock)
    requires ReadLock(d.active) == Some(lock)
    ensures var s := Selector(p.id, p.version, sha);
            && (Installed(h, d, p, sha, condition).Some?
                <==> && (condition == None || AsSeen(h, d, condition.value, lock))
                     && HexDigest(sha) && h.manifest(p) == sha
                     && Identifier(p.id) && Version(p.version) && HasOwnPermissions(p)
                     && (s in d.packages ==>
                           && h.manifest(d.packages[s]) == sha && Identifier(d.packages[s].id)
                           && Version(d.packages[s].version) && HasOwnPermissions(d.packages[s])))
            && (Installed(h, d, p, sha, condition).Some? ==>
                  var after := Installed(h, d, p, sha, condition).value;
                  && after.active == d.active && after.usage == d.usage
                  && after.packages == if s in d.packages then d.packages else d.packages[s := p])
  {
    hide Expects, AsSeen, Identifier, Version, HexDigest;
    ExpectsMeans(h, d, condition, lock);
  }

  // ----- A store that changes without an answer -----

  const DIGITS := "0123456789abcdef"

  /** The n-th of 256 digests. */
  function Sha(n: nat): string
    requires n < 256
  {
    [DIGITS[n / 16], DIGITS[n % 16]] + seq(62, i => '0')
  }

  lemma DigitOf(i: nat, j: nat)
    requires i < 16 && j < 16
    ensures DIGITS[i] == DIGITS[j] <==> i == j
    ensures 'a' <= DIGITS[i] <= 'f' || '0' <= DIGITS[i] <= '9'
  {
  }

  lemma ShasDiffer(m: nat, n: nat)
    requires m < 256 && n < 256
    ensures Sha(m) == Sha(n) <==> m == n
    ensures HexDigest(Sha(m))
  {
    DigitOf(m / 16, n / 16);
    DigitOf(m % 16, n % 16);
    assert Sha(m)[0] == DIGITS[m / 16] && Sha(m)[1] == DIGITS[m % 16];
    assert Sha(n)[0] == DIGITS[n / 16] && Sha(n)[1] == DIGITS[n % 16];
  }

  const OBSERVER: Package := Package("a", "0.0.0", Observer, OBSERVER_GRANTS)

  /** The first n releases of one observer. */
  function Stock(n: nat): map<Selector, Package>
    requires n <= 256
  {
    if n == 0 then map[] else Stock(n - 1)[SelectorOf(OBSERVER, Sha(n - 1)) := OBSERVER]
  }

  lemma {:induction false} StockCounts(n: nat)
    requires n <= 256
    ensures |Stock(n)| == n
    ensures forall s :: s in Stock(n) ==> HexDigest(s.sha)
    ensures forall k :: n <= k < 256 ==> SelectorOf(OBSERVER, Sha(k)) !in Stock(n)
  {
    hide Sha, HexDigest;
    if n > 0 {
      StockCounts(n - 1);
      ShasDiffer(n - 1, n - 1);
      forall k | n <= k < 256 ensures SelectorOf(OBSERVER, Sha(k)) !in Stock(n) {
        ShasDiffer(k, n - 1);
      }
    }
  }

  const FULL_DISK: Disk := Disk(None, Stock(128), {"a"}, {("a", "0.0.0")}, 0, map[])

  /** Some digest functions: all that matters here is what they say of one manifest and one
      inventory. */
  const SOME_HASHES: Hashes := Hashes((p: Package) => Sha(128), (l: Lock, m: map<Selector, Package>) => Sha(0))

  /** On a store with 128 packages, installing another one under the right precondition changes
      the store, and the caller sees an error. */
  lemma FullStoreInstallsUnreported()
    ensures var c := Install(OBSERVER, Sha(128), Some(Expected(0, Sha(0))));
            && Installed(SOME_HASHES, FULL_DISK, OBSERVER, Sha(128), c.condition).Some?
            && !Reports(SOME_HASHES, FULL_DISK, c)
            && After(SOME_HASHES, FULL_DISK, c) != FULL_DISK
            && |After(SOME_HASHES, FULL_DISK, c).packages| == 129
  {
    hide Sha, HexDigest, Stock, Readable;
    var c := Install(OBSERVER, Sha(128), Some(Expected(0, Sha(0))));
    StockCounts(128);
    ShasDiffer(128, 0);
    ShasDiffer(0, 0);
    ObserverIsValid();
    assert Entries(FULL_DISK) == 130;
    assert Expects(SOME_HASHES, FULL_DISK, c.condition);
    InstallAddsEntries(SOME_HASHES, FULL_DISK, OBSERVER, Sha(128), c.condition);
    InstallUnreportedIff(SOME_HASHES, FULL_DISK, c);
  }

  lemma ObserverIsValid()
    ensures ValidPackage(OBSERVER) && Identifier("a") && Version("0.0.0")
  {
    hide Version;
    ZeroIsVersion();
  }

  lemma ZeroIsVersion()
    ensures Version("0.0.0")
  {
    assert Number("0");
    hide Number;
    var v := "0.0.0";
    assert v[..1] == "0" && v[2..3] == "0" && v[4..] == "0";
    var i, j := 1, 3;
    assert v[i] == '.' && v[j] == '.' && Number(v[..i]) && Number(v[i + 1..j]) && Number(v[j + 1..]);
  }
}
