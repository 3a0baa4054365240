/** The ordered selection sequence: tapping an unselected tile appends it,
    tapping a selected one filters it out. Generic in the tile type, so it
    speaks of tile identity only. */
module Selection {

  predicate NoDup<T(==)>(s: seq<T>)
  {
    forall i, j :: 0 <= i < j < |s| ==> s[i] != s[j]
  }

  /** `s` with every occurrence of x filtered out, the others in order. */
  function Without<T(==)>(s: seq<T>, x: T): (r: seq<T>)
    ensures multiset(r) == multiset(s)[x := 0]
    ensures x !in r && |r| <= |s|
  {
    if s == [] then []
    else
      assert s == [s[0]] + s[1..];
      if s[0] == x then Without(s[1..], x)
      else [s[0]] + Without(s[1..], x)
  }

  /** Membership in the filtered sequence. */
  lemma InWithout<T>(s: seq<T>, x: T, y: T)
    ensures y in Without(s, x) <==> y in s && y != x
  {
    assert y in Without(s, x) <==> y in multiset(Without(s, x));
  }

  /** One tap on tile x: deselect it if it is in the sequence, else select it. */
  function Toggled<T(==)>(s: seq<T>, x: T): (r: seq<T>)
    ensures x in r <==> x !in s
    ensures multiset(r)[x := 0] == multiset(s)[x := 0]
  {
    if x in s then Without(s, x) else s + [x]
  }

  /** Filtering out a tile that is absent changes nothing. */
  lemma {:induction false} WithoutAbsent<T>(s: seq<T>, x: T)
    requires x !in s
    ensures Without(s, x) == s
  {
    if s != [] {
      WithoutAbsent(s[1..], x);
    }
  }

  /** Removing a tile from a duplicate-free sequence cuts it out at its
      position and keeps the relative order of the others. */
  lemma {:induction false} WithoutAt<T>(s: seq<T>, p: nat)
    requires NoDup(s) && p < |s|
    ensures Without(s, s[p]) == s[..p] + s[p + 1..]
  {
    if p == 0 {
      assert s[0] !in s[1..];
      WithoutAbsent(s[1..], s[0]);
    } else {
      WithoutAt(s[1..], p - 1);
      assert s[1..][..p - 1] == s[1..p];
      assert s[1..][p..] == s[p + 1..];
      assert s[..p] == [s[0]] + s[1..p];
    }
  }

  /** Filtering keeps a sequence free of duplicates. */
  lemma {:induction false} WithoutNoDup<T>(s: seq<T>, x: T)
    requires NoDup(s)
    ensures NoDup(Without(s, x))
  {
    if s != [] {
      WithoutNoDup(s[1..], x);
      var rest := Without(s[1..], x);
      assert s[0] !in s[1..];
      assert s[0] !in multiset(s[1..])[x := 0];
      assert s[0] !in rest;
    }
  }

  /** A toggle keeps the sequence free of duplicates. */
  lemma ToggledNoDup<T>(s: seq<T>, x: T)
    requires NoDup(s)
    ensures NoDup(Toggled(s, x))
  {
    if x in s {
      WithoutNoDup(s, x);
    }
  }

  /** Selecting a tile and then deselecting it restores the sequence, in
      content and order. */
  lemma SelectThenDeselect<T>(s: seq<T>, x: T)
    requires x !in s
    ensures Toggled(Toggled(s, x), x) == s
  {
    var t := s + [x];
    assert Toggled(s, x) == t;
    WithoutAppend(s, x);
  }

  /** Filtering the last-appended tile x off s + [x] gives s back. */
  lemma {:induction false} WithoutAppend<T>(s: seq<T>, x: T)
    requires x !in s
    ensures Without(s + [x], x) == s
  {
    if s == [] {
      assert [x][1..] == [];
    } else {
      assert (s + [x])[1..] == s[1..] + [x];
      WithoutAppend(s[1..], x);
    }
  }

  /** Deselecting the most recently selected tile and selecting it again
      restores the sequence. */
  lemma DeselectLastThenSelect<T>(s: seq<T>, x: T)
    requires NoDup(s) && s != [] && s[|s| - 1] == x
    ensures Toggled(Toggled(s, x), x) == s
  {
    var init := s[..|s| - 1];
    WithoutAt(s, |s| - 1);
    assert s[..|s| - 1] + s[|s|..] == init;
    assert Toggled(s, x) == init;
    assert x !in init;
    assert init + [x] == s;
  }

  /** A sequence has at most as many distinct elements as entries, and
      exactly as many when it has no duplicates. */
  lemma {:induction false} DistinctCard<T>(s: seq<T>)
    ensures |set x | x in s| <= |s|
    ensures NoDup(s) ==> |set x | x in s| == |s|
  {
    if s != [] {
      DistinctCard(s[1..]);
      assert (set x | x in s) == {s[0]} + set x | x in s[1..];
      if NoDup(s) {
        assert NoDup(s[1..]);
        assert s[0] !in s[1..];
      }
    }
  }

  /** Pigeonhole: a duplicate-free sequence drawn from `all` that is at
      least as long as `all` holds every element of `all`. */
  lemma CoversAll<T>(sub: seq<T>, all: seq<T>)
    requires NoDup(sub) && |sub| >= |all|
    requires forall k :: 0 <= k < |sub| ==> sub[k] in all
    ensures forall i :: 0 <= i < |all| ==> all[i] in sub
  {
    var a, b := set x | x in sub, set x | x in all;
    DistinctCard(sub);
    DistinctCard(all);
    assert a <= b;
    assert b == a + (b - a);
    assert |b - a| == 0;
    forall i | 0 <= i < |all| ensures all[i] in sub {
      assert all[i] in b;
    }
  }
}
