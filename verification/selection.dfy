/**
 The list update behind both filter toggles of the trip map: a key that is in the
 selection list is removed (every occurrence of it), a key that is not is appended.
 The list is used as a set, but it is a list, so order and multiplicity are observable.
 */
module Selection {
  import opened Seqs

  /** The selection list without any occurrence of `key`. */
  function Remove(xs: seq<string>, key: string): (r: seq<string>)
    ensures key !in r
    ensures key in xs ==> |r| < |xs|
    ensures forall x :: x != key ==> multiset(r)[x] == multiset(xs)[x]
    ensures IsSubsequence(r, xs)
  {
    FilterMultiplicity(xs, x => x != key);
    Filter(xs, x => x != key)
  }

  /** One click on a filter button: drop `key` if selected, otherwise append it. */
  function Toggle(xs: seq<string>, key: string): (r: seq<string>)
    // the key's membership flips, every other key's membership is kept
    ensures key in r <==> key !in xs
    ensures forall x :: x != key ==> (x in r <==> x in xs)
    // an absent key goes to the end, after the untouched earlier elements
    ensures key !in xs ==> |r| == |xs| + 1 && r[..|xs|] == xs && r[|xs|] == key
    // a present key loses every occurrence; the others keep their count and order
    ensures key in xs ==>
              && |r| < |xs|
              && IsSubsequence(r, xs)
              && forall x :: x != key ==> multiset(r)[x] == multiset(xs)[x]
  {
    if key in xs then Remove(xs, key) else xs + [key]
  }

  /** Two clicks on the same button restore which keys are selected. */
  lemma ToggleTwiceRestoresMembership(xs: seq<string>, key: string)
    ensures forall x :: x in Toggle(Toggle(xs, key), key) <==> x in xs
  {
  }

  /** Two clicks restore the exact list when the key started out unselected. */
  lemma {:induction false} ToggleTwiceFromAbsent(xs: seq<string>, key: string)
    requires key !in xs
    ensures Toggle(Toggle(xs, key), key) == xs
  {
    var p := (x: string) => x != key;
    FilterConcat(xs, [key], p);
    FilterKeepsAll(xs, p);
    assert Filter([key], p) == [];
  }

  /** Two clicks on a selected key move it to the end, without its duplicates. */
  lemma ToggleTwiceFromPresent(xs: seq<string>, key: string)
    requires key in xs
    ensures Toggle(Toggle(xs, key), key) == Remove(xs, key) + [key]
  {
  }

  /**
   Two clicks give back the exact list if and only if the key was absent, or it occurred
   once, as the last element.
   */
  lemma ToggleTwiceRestoresListIff(xs: seq<string>, key: string)
    ensures Toggle(Toggle(xs, key), key) == xs <==>
              key !in xs || (xs != [] && xs[|xs| - 1] == key && key !in xs[..|xs| - 1])
  {
    if key !in xs {
      ToggleTwiceFromAbsent(xs, key);
    } else {
      ToggleTwiceFromPresent(xs, key);
      var r := Remove(xs, key);
      if xs[|xs| - 1] == key && key !in xs[..|xs| - 1] {
        var init := xs[..|xs| - 1];
        var p := (x: string) => x != key;
        assert xs == init + [key];
        FilterConcat(init, [key], p);
        FilterKeepsAll(init, p);
        assert Filter([key], p) == [];
        assert r == init;
      } else if r + [key] == xs {
        assert false;
      }
    }
  }

  /** Two clicks on "krishna" give back the initial category list unchanged. */
  lemma ToggleTwiceLastKeyRestores()
    ensures
      var xs := ["jyotirlinga", "jyotipeeth", "shaktipeeth", "krishna"];
      Toggle(Toggle(xs, "krishna"), "krishna") == xs
  {
    var xs := ["jyotirlinga", "jyotipeeth", "shaktipeeth", "krishna"];
    assert xs[..|xs| - 1] == ["jyotirlinga", "jyotipeeth", "shaktipeeth"];
    ToggleTwiceRestoresListIff(xs, "krishna");
  }

  /** The list is not restored in general: toggling "a" twice in ["a", "b"] gives ["b", "a"]. */
  lemma ToggleTwiceReorders()
    ensures Toggle(Toggle(["a", "b"], "a"), "a") == ["b", "a"]
    ensures Toggle(Toggle(["a", "b"], "a"), "a") != ["a", "b"]
  {
    var p := (x: string) => x != "a";
    assert ["a", "b"] == ["a"] + ["b"];
    FilterConcat(["a"], ["b"], p);
    assert Filter(["a"], p) == [];
    assert Filter(["b"], p) == ["b"];
  }

  /** Toggling keeps a duplicate-free list duplicate-free. */
  lemma ToggleKeepsNoDuplicates(xs: seq<string>, key: string)
    requires NoDuplicates(xs)
    ensures NoDuplicates(Toggle(xs, key))
  {
    if key in xs {
      FilterKeepsNoDuplicates(xs, x => x != key);
    } else {
      AppendFreshKeepsNoDuplicates(xs, key);
    }
  }

  /** On a duplicate-free list two clicks give back a permutation of the list. */
  lemma ToggleTwiceIsPermutation(xs: seq<string>, key: string)
    requires NoDuplicates(xs)
    ensures multiset(Toggle(Toggle(xs, key), key)) == multiset(xs)
  {
    if key in xs {
      var r := Remove(xs, key);
      assert multiset(xs)[key] == 1 by {
        MultiplicityAtMostOne(xs, key);
      }
      assert multiset(r + [key]) == multiset(r) + multiset{key};
    } else {
      ToggleTwiceFromAbsent(xs, key);
    }
  }

  /** In a duplicate-free list every element occurs at most once. */
  lemma {:induction false} MultiplicityAtMostOne(xs: seq<string>, x: string)
    requires NoDuplicates(xs)
    ensures multiset(xs)[x] <= 1
  {
    if xs != [] {
      TailKeepsNoDuplicates(xs);
      MultiplicityAtMostOne(xs[1..], x);
      assert xs == [xs[0]] + xs[1..];
      if xs[0] == x {
        assert multiset(xs[1..])[x] == 0;
      }
    }
  }
}
