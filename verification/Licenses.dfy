/** Licence selection (scripts/license_audit.py, select_licenses): greedy removal from the
    least preferred licence on, judged by an SPDX engine that is a monotone test here. */
module Licenses {
  import opened Common

  type License = string

  type Key = (string, string)

  datatype Record = Record(key: Key, source: string, checksum: string, declared: string)

  datatype Prior = Prior(source: string, checksum: string, declared: string, selected: seq<License>)

  datatype AuditError = NotPermitted

  /** Does the engine accept the package when exactly these licences are allowed for it? */
  type Accept = (Key, seq<License>) -> bool

  predicate Within(s: seq<License>, t: seq<License>) {
    forall x :: x in s ==> x in t
  }

  /** Allowing more never turns an accepted package down. */
  ghost predicate Monotone(accept: Accept, key: Key) {
    forall s, t :: Within(s, t) && accept(key, s) ==> accept(key, t)
  }

  function Without(s: seq<License>, name: License): (t: seq<License>)
    ensures forall x :: x in t <==> x in s && x != name
  {
    if s == [] then []
    else
      var last := s[|s| - 1];
      Without(s[..|s| - 1], name) + if last == name then [] else [last]
  }

  /** Removal of the licences in `names`, last one first, wherever the rest is accepted. */
  function Prune(accept: Accept, key: Key, current: seq<License>, names: seq<License>): seq<License>
    decreases |names|
  {
    if names == [] then current
    else
      var trial := Without(current, names[|names| - 1]);
      Prune(accept, key, if accept(key, trial) then trial else current, names[..|names| - 1])
  }

  predicate CarriedOver(record: Record, previous: map<Key, Prior>) {
    record.key in previous
    && var prior := previous[record.key];
       prior.source == record.source && prior.checksum == record.checksum && prior.declared == record.declared
  }

  predicate DistinctKeys(records: seq<Record>) {
    forall i, j :: 0 <= i < j < |records| ==> records[i].key != records[j].key
  }

  /** The selection every package starts from. */
  function Initial(record: Record, allowed: seq<License>, previous: map<Key, Prior>): seq<License> {
    if CarriedOver(record, previous) then previous[record.key].selected else allowed
  }

  predicate Permitted(records: seq<Record>, allowed: seq<License>, accept: Accept, previous: map<Key, Prior>) {
    forall i :: 0 <= i < |records| ==> accept(records[i].key, Initial(records[i], allowed, previous))
  }

  predicate Selected(selections: map<Key, seq<License>>, record: Record, allowed: seq<License>, accept: Accept,
                     previous: map<Key, Prior>) {
    record.key in selections
    && selections[record.key]
       == if CarriedOver(record, previous) then previous[record.key].selected
          else Prune(accept, record.key, allowed, allowed)
  }

  /** Which packages are new, and the selections to start from. */
  method Collect(records: seq<Record>, allowed: seq<License>, previous: map<Key, Prior>)
    returns (selections: map<Key, seq<License>>, added: set<Key>)
    requires DistinctKeys(records)
    ensures forall i :: 0 <= i < |records| ==>
              && records[i].key in selections && selections[records[i].key] == Initial(records[i], allowed, previous)
              && (records[i].key in added <==> !CarriedOver(records[i], previous))
    ensures forall k :: k in selections ==> exists i :: 0 <= i < |records| && records[i].key == k
    ensures added <= selections.Keys
  {
    selections, added := map[], {};
    for n := 0 to |records|
      invariant forall i :: 0 <= i < n ==>
                  && records[i].key in selections
                  && selections[records[i].key] == Initial(records[i], allowed, previous)
                  && (records[i].key in added <==> !CarriedOver(records[i], previous))
      invariant forall k :: k in selections ==> exists i :: 0 <= i < n && records[i].key == k
      invariant added <= selections.Keys
    {
      var record := records[n];
      if CarriedOver(record, previous) {
        selections := selections[record.key := previous[record.key].selected];
      } else {
        selections := selections[record.key := allowed];
        added := added + {record.key};
      }
    }
  }

  method SelectLicenses(records: seq<Record>, allowed: seq<License>, accept: Accept, previous: map<Key, Prior>)
    returns (r: Result<map<Key, seq<License>>, AuditError>)
    requires DistinctKeys(records)
    ensures r.Ok? <==> Permitted(records, allowed, accept, previous)
    ensures r.Ok? ==> forall i :: 0 <= i < |records| ==> Selected(r.value, records[i], allowed, accept, previous)
    ensures r.Ok? ==> forall k :: k in r.value ==> exists i :: 0 <= i < |records| && records[i].key == k
  {
    hide Prune;
    var selections, added := Collect(records, allowed, previous);
    if exists k :: k in selections && !accept(k, selections[k]) {
      return Err(NotPermitted);
    }
    forall k | k in added ensures selections[k] == allowed {
      var i :| 0 <= i < |records| && records[i].key == k;
    }
    selections := Reduce(selections, added, allowed, accept);
    return Ok(selections);
  }

  lemma PruneStep(accept: Accept, key: Key, current: seq<License>, allowed: seq<License>, n: nat)
    requires n < |allowed|
    ensures var trial := Without(current, allowed[n]);
            Prune(accept, key, current, allowed[..n + 1])
            == Prune(accept, key, if accept(key, trial) then trial else current, allowed[..n])
  {
    assert allowed[..n + 1][..n] == allowed[..n];
  }

  /** The outer loop: one licence after another, the least preferred first. */
  method Reduce(start: map<Key, seq<License>>, added: set<Key>, allowed: seq<License>, accept: Accept)
    returns (selections: map<Key, seq<License>>)
    requires added <= start.Keys && forall k :: k in added ==> start[k] == allowed
    ensures selections.Keys == start.Keys
    ensures forall k :: k in start ==>
              selections[k] == if k in added then Prune(accept, k, allowed, allowed) else start[k]
  {
    hide Prune;
    selections := start;
    var n := |allowed|;
    assert allowed[..n] == allowed;
    while n > 0
      invariant n <= |allowed| && selections.Keys == start.Keys
      invariant forall k :: k in start && k !in added ==> selections[k] == start[k]
      invariant forall k :: k in added ==>
                  Prune(accept, k, selections[k], allowed[..n]) == Prune(accept, k, allowed, allowed)
    {
      n := n - 1;
      var trials := map k | k in selections :: if k in added then Without(selections[k], allowed[n]) else selections[k];
      forall k | k in added {
        PruneStep(accept, k, selections[k], allowed, n);
      }
      selections := Adopt(selections, trials, added, accept);
    }
    forall k | k in added ensures Prune(accept, k, selections[k], allowed[..0]) == selections[k] {
      PruneNothing(accept, k, selections[k]);
      assert allowed[..0] == [];
    }
  }

  lemma PruneNothing(accept: Accept, key: Key, current: seq<License>)
    ensures Prune(accept, key, current, []) == current
  {
  }

  /** The inner loop: every new package whose trial was accepted adopts it. */
  method Adopt(selections: map<Key, seq<License>>, trials: map<Key, seq<License>>, added: set<Key>, accept: Accept)
    returns (after: map<Key, seq<License>>)
    requires added <= selections.Keys && trials.Keys == selections.Keys
    ensures after.Keys == selections.Keys
    ensures forall k :: k in selections ==>
              after[k] == if k in added && accept(k, trials[k]) then trials[k] else selections[k]
  {
    after := selections;
    var todo := added;
    while todo != {}
      invariant todo <= added && after.Keys == selections.Keys
      invariant forall k :: k in selections ==>
                  after[k] == if k in added - todo && accept(k, trials[k]) then trials[k] else selections[k]
      decreases todo
    {
      var key :| key in todo;
      if accept(key, trials[key]) {
        after := after[key := trials[key]];
      }
      todo := todo - {key};
    }
  }

  // ----- Why the greedy choice is right -----

  /** `other` agrees with `s` on every licence less preferred than the i-th. */
  predicate AgreesAbove(other: seq<License>, s: seq<License>, allowed: seq<License>, i: nat) {
    forall m :: i < m < |allowed| ==> (allowed[m] in other <==> allowed[m] in s)
  }

  /** No accepted selection avoids the i-th licence and is as good from there on. */
  ghost predicate Forced(accept: Accept, key: Key, s: seq<License>, allowed: seq<License>, i: nat)
    requires i < |allowed|
  {
    forall other :: accept(key, other) && Within(other, allowed) && AgreesAbove(other, s, allowed, i) ==>
      allowed[i] in other
  }

  /** The state before the n-th licence is tried: nothing more preferred has been touched, and
      what was kept so far is forced. */
  ghost predicate Pruning(accept: Accept, key: Key, current: seq<License>, allowed: seq<License>, n: nat)
    requires n <= |allowed|
  {
    && Within(current, allowed) && accept(key, current)
    && (forall i :: 0 <= i < n ==> allowed[i] in current)
    && (forall i :: n <= i < |allowed| && allowed[i] in current ==> Forced(accept, key, current, allowed, i))
  }

  lemma RejectedIsForced(accept: Accept, key: Key, current: seq<License>, allowed: seq<License>, n: nat)
    requires Monotone(accept, key) && n < |allowed| && Pruning(accept, key, current, allowed, n + 1)
    requires !accept(key, Without(current, allowed[n]))
    ensures Forced(accept, key, current, allowed, n)
  {
    forall other | accept(key, other) && Within(other, allowed) && AgreesAbove(other, current, allowed, n)
      ensures allowed[n] in other
    {
      if allowed[n] !in other {
        assert Within(other, Without(current, allowed[n]));
      }
    }
  }

  lemma ForcedStays(accept: Accept, key: Key, current: seq<License>, allowed: seq<License>, n: nat, i: nat)
    requires Distinct(allowed) && n < i < |allowed| && Forced(accept, key, current, allowed, i)
    ensures Forced(accept, key, Without(current, allowed[n]), allowed, i)
  {
    var trial := Without(current, allowed[n]);
    forall other | accept(key, other) && Within(other, allowed) && AgreesAbove(other, trial, allowed, i)
      ensures allowed[i] in other
    {
      assert AgreesAbove(other, current, allowed, i);
    }
  }

  lemma {:induction false} PruneReachesBest(accept: Accept, key: Key, current: seq<License>, allowed: seq<License>,
                                            n: nat)
    requires Monotone(accept, key) && Distinct(allowed) && n <= |allowed| && Pruning(accept, key, current, allowed, n)
    ensures Pruning(accept, key, Prune(accept, key, current, allowed[..n]), allowed, 0)
    decreases n
  {
    if n == 0 {
      assert allowed[..0] == [];
    } else {
      var m := n - 1;
      var trial := Without(current, allowed[m]);
      assert allowed[..n][..m] == allowed[..m] && allowed[..n][m] == allowed[m];
      if accept(key, trial) {
        forall i | m <= i < |allowed| && allowed[i] in trial ensures Forced(accept, key, trial, allowed, i) {
          ForcedStays(accept, key, current, allowed, m, i);
        }
        PruneReachesBest(accept, key, trial, allowed, m);
      } else {
        RejectedIsForced(accept, key, current, allowed, m);
        PruneReachesBest(accept, key, current, allowed, m);
      }
    }
  }

  /** `other` differs from `s` first, from the least preferred end, by a licence `s` avoids. */
  ghost predicate WorseThan(other: seq<License>, s: seq<License>, allowed: seq<License>) {
    exists i :: 0 <= i < |allowed| && allowed[i] in other && allowed[i] !in s && AgreesAbove(other, s, allowed, i)
  }

  predicate SameChoice(s: seq<License>, t: seq<License>) {
    Within(s, t) && Within(t, s)
  }

  lemma {:induction false} FirstDifference(other: seq<License>, s: seq<License>, allowed: seq<License>, n: nat)
    returns (i: nat)
    requires n <= |allowed| && forall m :: n <= m < |allowed| ==> (allowed[m] in other <==> allowed[m] in s)
    requires exists m :: 0 <= m < n && (allowed[m] in other) != (allowed[m] in s)
    ensures i < n && (allowed[i] in other) != (allowed[i] in s) && AgreesAbove(other, s, allowed, i)
    decreases n
  {
    if (allowed[n - 1] in other) != (allowed[n - 1] in s) {
      i := n - 1;
    } else {
      i := FirstDifference(other, s, allowed, n - 1);
    }
  }

  /** The greedy result is accepted, has nothing to spare, and beats every other accepted
      choice from the allow list at the first difference. */
  lemma GreedyIsOptimal(accept: Accept, key: Key, allowed: seq<License>)
    requires Monotone(accept, key) && Distinct(allowed) && accept(key, allowed)
    ensures var best := Prune(accept, key, allowed, allowed);
            && accept(key, best) && Within(best, allowed)
            && (forall name :: name in best ==> !accept(key, Without(best, name)))
            && (forall other :: accept(key, other) && Within(other, allowed) && !SameChoice(other, best)
                                ==> WorseThan(other, best, allowed))
  {
    var best := Prune(accept, key, allowed, allowed);
    assert allowed[..|allowed|] == allowed;
    PruneReachesBest(accept, key, allowed, allowed, |allowed|);
    forall other | accept(key, other) && Within(other, allowed) && !SameChoice(other, best)
      ensures WorseThan(other, best, allowed)
    {
      var i := Differ(other, best, allowed);
    }
    forall name | name in best ensures !accept(key, Without(best, name)) {
      var other := Without(best, name);
      if accept(key, other) {
        var i := Differ(other, best, allowed);
      }
    }
  }

  lemma Differ(other: seq<License>, best: seq<License>, allowed: seq<License>) returns (i: nat)
    requires Within(other, allowed) && Within(best, allowed) && !SameChoice(other, best)
    ensures i < |allowed| && (allowed[i] in other) != (allowed[i] in best) && AgreesAbove(other, best, allowed, i)
  {
    var x :| (x in other) != (x in best);
    var m :| 0 <= m < |allowed| && allowed[m] == x;
    i := FirstDifference(other, best, allowed, |allowed|);
  }

  // ----- What a selection means for one package -----

  /** A package with the same source, checksum and declared licence as before keeps its selection. */
  lemma UnchangedKeepsSelection(selections: map<Key, seq<License>>, record: Record, allowed: seq<License>,
                                accept: Accept, previous: map<Key, Prior>)
    requires Selected(selections, record, allowed, accept, previous) && record.key in previous
    requires previous[record.key].source == record.source && previous[record.key].checksum == record.checksum
             && previous[record.key].declared == record.declared
    ensures selections[record.key] == previous[record.key].selected
  {
  }

  /** A package that is new, or whose source, checksum or declared licence changed, is selected for
      anew, whatever was selected before: the best choice from the allow list. */
  lemma ChangedIsSelectedAnew(selections: map<Key, seq<License>>, record: Record, allowed: seq<License>,
                              accept: Accept, previous: map<Key, Prior>)
    requires Selected(selections, record, allowed, accept, previous)
    requires record.key in previous ==>
               || previous[record.key].source != record.source || previous[record.key].checksum != record.checksum
               || previous[record.key].declared != record.declared
    requires Monotone(accept, record.key) && Distinct(allowed) && accept(record.key, allowed)
    ensures var best := selections[record.key];
            && accept(record.key, best) && Within(best, allowed)
            && (forall name :: name in best ==> !accept(record.key, Without(best, name)))
            && (forall other :: accept(record.key, other) && Within(other, allowed) && !SameChoice(other, best)
                                ==> WorseThan(other, best, allowed))
  {
    hide Prune, Within, WorseThan, SameChoice, Without, Monotone;
    GreedyIsOptimal(accept, record.key, allowed);
  }

  /** The selection is refused exactly if an unchanged package's selection, or the whole allow list
      for a changed one, is not accepted. */
  lemma PermittedMeans(records: seq<Record>, allowed: seq<License>, accept: Accept, previous: map<Key, Prior>)
    ensures Permitted(records, allowed, accept, previous)
            <==> forall i :: 0 <= i < |records| ==>
                   var r := records[i];
                   if r.key in previous && previous[r.key].source == r.source && previous[r.key].checksum == r.checksum
                      && previous[r.key].declared == r.declared
                   then accept(r.key, previous[r.key].selected) else accept(r.key, allowed)
  {
  }

  /** What of the allow list is in `s`, in the order of the list. */
  function InListOrder(allowed: seq<License>, s: seq<License>): seq<License> {
    if allowed == [] then []
    else InListOrder(allowed[..|allowed| - 1], s) + if allowed[|allowed| - 1] in s then [allowed[|allowed| - 1]] else []
  }

  lemma {:induction false} WithoutKeepsOrder(allowed: seq<License>, s: seq<License>, name: License)
    ensures Without(InListOrder(allowed, s), name) == InListOrder(allowed, Without(s, name))
  {
    if allowed != [] {
      var n := |allowed| - 1;
      WithoutKeepsOrder(allowed[..n], s, name);
      var front := InListOrder(allowed[..n], s);
      if allowed[n] in s {
        assert (front + [allowed[n]])[..|front|] == front;
      } else {
        assert front + [] == front;
      }
    }
  }

  /** A selection lists its licences in the order of preference. */
  lemma {:induction false} PruneKeepsOrder(accept: Accept, key: Key, current: seq<License>, names: seq<License>,
                                           allowed: seq<License>)
    requires current == InListOrder(allowed, current)
    ensures var s := Prune(accept, key, current, names);
            s == InListOrder(allowed, s)
    decreases |names|
  {
    if names != [] {
      var trial := Without(current, names[|names| - 1]);
      WithoutKeepsOrder(allowed, current, names[|names| - 1]);
      PruneKeepsOrder(accept, key, if accept(key, trial) then trial else current, names[..|names| - 1], allowed);
    }
  }

  lemma {:induction false} ListIsInOrder(allowed: seq<License>, all: seq<License>)
    requires Within(allowed, all)
    ensures InListOrder(allowed, all) == allowed
  {
    if allowed != [] {
      assert forall x :: x in allowed[..|allowed| - 1] ==> x in allowed;
      ListIsInOrder(allowed[..|allowed| - 1], all);
      assert allowed == allowed[..|allowed| - 1] + [allowed[|allowed| - 1]];
    }
  }

  lemma SelectionIsOrdered(accept: Accept, key: Key, allowed: seq<License>)
    ensures var best := Prune(accept, key, allowed, allowed);
            best == InListOrder(allowed, best)
  {
    ListIsInOrder(allowed, allowed);
    PruneKeepsOrder(accept, key, allowed, allowed, allowed);
  }
}
