/**
  The selection list of the challenge controller: the names the user has
  clicked, in click order. The source keeps it as a JavaScript array and
  updates it with `filter` (to remove) and spread-append (to add).
 */
module Selection {

  /** An image name, as the source passes it to `handleSelect`. */
  type Name = string

  /** No element occurs twice in `s`. */
  predicate NoDup(s: seq<Name>) {
    forall i, j :: 0 <= i < j < |s| ==> s[i] != s[j]
  }

  /** `s.filter(item => item !== x)`: every occurrence of `x` is dropped and
      the other elements keep their order. */
  function Without(s: seq<Name>, x: Name): (r: seq<Name>)
    ensures multiset(r) == multiset(s)[x := 0]
    ensures forall y :: y in r <==> y in s && y != x
    ensures x !in s ==> r == s
    ensures |r| <= |s|
    ensures x in s ==> |r| < |s|
  {
    if |s| == 0 then []
    else
      assert s == [s[0]] + s[1..];
      if s[0] == x then Without(s[1..], x)
      else [s[0]] + Without(s[1..], x)
  }

  /** `handleSelect` on the list alone: a present name is filtered out, an
      absent one is appended at the end. Membership of `x` in the challenge's
      images is not checked here. */
  function Toggle(s: seq<Name>, x: Name): (r: seq<Name>)
    ensures forall y :: y in r <==> (y in s <==> y != x)
    ensures x in s ==> multiset(r) == multiset(s)[x := 0] && |r| < |s|
    ensures x !in s ==> |r| == |s| + 1 && r[|s|] == x && r[..|s|] == s
    ensures NoDup(s) ==> NoDup(r)
  {
    if x in s then
      var r := Without(s, x);
      assert NoDup(s) ==> NoDup(r) by {
        if NoDup(s) {
          WithoutNoDup(s, x);
        }
      }
      r
    else
      s + [x]
  }

  /** The tail of a duplicate-free list is duplicate-free and does not
      contain the head. */
  lemma NoDupTail(s: seq<Name>)
    requires NoDup(s)
    requires |s| > 0
    ensures NoDup(s[1..])
    ensures s[0] !in s[1..]
  {
  }

  /** Filtering a duplicate-free list keeps it duplicate-free. */
  lemma {:induction false} WithoutNoDup(s: seq<Name>, x: Name)
    requires NoDup(s)
    ensures NoDup(Without(s, x))
  {
    if |s| > 0 {
      NoDupTail(s);
      WithoutNoDup(s[1..], x);
      if s[0] != x {
        var t := Without(s[1..], x);
        var u := [s[0]] + t;
        assert s[0] !in t;
        forall i, j | 0 <= i < j < |u|
          ensures u[i] != u[j]
        {
          assert u[j] == t[j - 1];
          if i > 0 {
            assert u[i] == t[i - 1];
          }
        }
        assert Without(s, x) == u;
      }
    }
  }

  /** Filtering distributes over concatenation: each part is filtered on
      its own and the parts stay in order. */
  lemma {:induction false} WithoutAppend(a: seq<Name>, b: seq<Name>, x: Name)
    ensures Without(a + b, x) == Without(a, x) + Without(b, x)
  {
    if |a| == 0 {
      assert a + b == b;
    } else {
      assert (a + b)[1..] == a[1..] + b;
      WithoutAppend(a[1..], b, x);
    }
  }

  /** In a duplicate-free list an element that is present occurs exactly once. */
  lemma {:induction false} NoDupCount(s: seq<Name>, x: Name)
    requires NoDup(s)
    requires x in s
    ensures multiset(s)[x] == 1
  {
    assert s == [s[0]] + s[1..];
    NoDupTail(s);
    if s[0] != x {
      NoDupCount(s[1..], x);
    }
  }

  /** Toggling an absent name twice gives back the very same list. */
  lemma ToggleTwiceAbsent(s: seq<Name>, x: Name)
    requires x !in s
    ensures Toggle(Toggle(s, x), x) == s
  {
    assert Toggle(s, x) == s + [x];
    WithoutAppend(s, [x], x);
    assert [x][1..] == [];
  }

  /** Toggling a present name twice in a duplicate-free list gives back the
      same elements (same multiset, hence same set and length), with `x`
      moved to the end. */
  lemma ToggleTwicePresent(s: seq<Name>, x: Name)
    requires NoDup(s)
    requires x in s
    ensures multiset(Toggle(Toggle(s, x), x)) == multiset(s)
    ensures |Toggle(Toggle(s, x), x)| == |s|
    ensures Toggle(Toggle(s, x), x) == Without(s, x) + [x]
  {
    var once := Toggle(s, x);
    assert x !in once;
    NoDupCount(s, x);
    assert multiset(once + [x]) == multiset(once) + multiset{x};
  }

  /** Toggling the same name twice in a duplicate-free list restores the
      same elements; the order is restored too when the name was absent. */
  lemma ToggleTwice(s: seq<Name>, x: Name)
    requires NoDup(s)
    ensures multiset(Toggle(Toggle(s, x), x)) == multiset(s)
    ensures x !in s ==> Toggle(Toggle(s, x), x) == s
  {
    if x in s {
      ToggleTwicePresent(s, x);
    } else {
      ToggleTwiceAbsent(s, x);
    }
  }

  /** Toggling twice does not always give back the same sequence: a
      present name comes back at the end. */
  lemma ToggleTwiceReorders()
    ensures Toggle(Toggle(["a", "b"], "a"), "a") == ["b", "a"]
    ensures Toggle(Toggle(["a", "b"], "a"), "a") != ["a", "b"]
  {
    assert "a" in ["a", "b"];
    assert Without(["a", "b"], "a") == ["b"] by {
      assert ["a", "b"][1..] == ["b"];
    }
    assert "a" !in ["b"];
  }
}
