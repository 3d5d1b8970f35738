/** The order in which Python sorts text, and sorting a set of keys by it. */
module Ordering {
  /** `s` comes strictly before `t`: it is a proper prefix, or has the smaller code point at
      the first difference. */
  predicate Before(s: string, t: string) {
    if t == [] then false
    else if s == [] then true
    else s[0] < t[0] || (s[0] == t[0] && Before(s[1..], t[1..]))
  }

  lemma {:induction false} BeforeIsTotal(s: string, t: string)
    ensures s == t || Before(s, t) || Before(t, s)
  {
    if s != [] && t != [] && s[0] == t[0] {
      BeforeIsTotal(s[1..], t[1..]);
      assert s == [s[0]] + s[1..] && t == [t[0]] + t[1..];
    }
  }

  lemma {:induction false} BeforeIsTransitive(s: string, t: string, u: string)
    requires Before(s, t) && Before(t, u)
    ensures Before(s, u)
  {
    if s != [] && s[0] == t[0] && t[0] == u[0] {
      BeforeIsTransitive(s[1..], t[1..], u[1..]);
    }
  }

  lemma {:induction false} BeforeIsStrict(s: string, t: string)
    requires Before(s, t)
    ensures s != t && !Before(t, s)
  {
    if s != [] && s[0] == t[0] {
      BeforeIsStrict(s[1..], t[1..]);
    }
  }

  predicate Ascending(s: seq<string>) {
    forall i, j :: 0 <= i < j < |s| ==> Before(s[i], s[j])
  }

  predicate Injective(names: set<string>, key: map<string, string>) {
    && names <= key.Keys
    && forall x, y :: x in names && y in names && key[x] == key[y] ==> x == y
  }

  predicate AscendingBy(s: seq<string>, key: map<string, string>) {
    && (forall i :: 0 <= i < |s| ==> s[i] in key)
    && forall i, j :: 0 <= i < j < |s| ==> Before(key[s[i]], key[s[j]])
  }

  method Least(names: set<string>, key: map<string, string>) returns (least: string)
    requires names != {} && Injective(names, key)
    ensures least in names && forall x :: x in names && x != least ==> Before(key[least], key[x])
  {
    least :| least in names;
    var rest := names - {least};
    while rest != {}
      invariant rest <= names && least in names - rest
      invariant forall x :: x in names - rest && x != least ==> Before(key[least], key[x])
      decreases rest
    {
      var next :| next in rest;
      BeforeIsTotal(key[next], key[least]);
      if Before(key[next], key[least]) {
        forall x | x in names - rest && x != least ensures Before(key[next], key[x]) {
          BeforeIsTransitive(key[next], key[least], key[x]);
        }
        least := next;
      }
      rest := rest - {next};
    }
  }

  /** The names in the order of their keys. */
  method SortBy(names: set<string>, key: map<string, string>) returns (s: seq<string>)
    requires Injective(names, key)
    ensures AscendingBy(s, key)
    ensures forall x :: x in s <==> x in names
    ensures |s| == |names|
  {
    s := [];
    var rest := names;
    while rest != {}
      invariant rest <= names && |s| + |rest| == |names|
      invariant forall x :: x in s <==> x in names - rest
      invariant AscendingBy(s, key)
      invariant forall x, y :: x in s && y in rest ==> Before(key[x], key[y])
      decreases rest
    {
      var next := Least(rest, key);
      s := s + [next];
      rest := rest - {next};
    }
  }

  method Sort(names: set<string>) returns (s: seq<string>)
    ensures Ascending(s)
    ensures forall x :: x in s <==> x in names
    ensures |s| == |names|
  {
    var key := map x | x in names :: x;
    s := SortBy(names, key);
    assert forall i :: 0 <= i < |s| ==> key[s[i]] == s[i];
  }

  /** One text comes before another exactly if it is a proper prefix, or has the smaller character
      where they first differ. */
  lemma {:induction false} BeforeMeans(s: string, t: string)
    ensures Before(s, t) <==> exists k: nat :: FirstDiffers(s, t, k)
    decreases |s|
  {
    if s != [] && t != [] && s[0] == t[0] {
      BeforeMeans(s[1..], t[1..]);
      if k: nat :| FirstDiffers(s[1..], t[1..], k) {
        DiffersLater(s, t, k);
      }
      if k: nat :| FirstDiffers(s, t, k) {
        assert k > 0;
        assert s[1..][..k - 1] == s[1..k] && t[1..][..k - 1] == t[1..k];
        assert s[..k][1..] == s[1..k] && t[..k][1..] == t[1..k];
        assert FirstDiffers(s[1..], t[1..], k - 1);
      }
    } else if t != [] && (s == [] || s[0] < t[0]) {
      assert FirstDiffers(s, t, 0);
    } else {
      forall k: nat ensures !FirstDiffers(s, t, k) {
        if k > 0 && k <= |s| && k <= |t| {
          assert s[..k][0] == s[0] && t[..k][0] == t[0];
        }
      }
    }
  }

  predicate FirstDiffers(s: string, t: string, k: nat) {
    k <= |s| && k < |t| && s[..k] == t[..k] && (k == |s| || s[k] < t[k])
  }

  lemma DiffersLater(s: string, t: string, k: nat)
    requires s != [] && t != [] && s[0] == t[0] && FirstDiffers(s[1..], t[1..], k)
    ensures FirstDiffers(s, t, k + 1)
  {
    assert s[..k + 1] == [s[0]] + s[1..][..k] && t[..k + 1] == [t[0]] + t[1..][..k];
  }
}
