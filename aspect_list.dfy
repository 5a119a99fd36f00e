/** The list of aspect ratios offered by the setup dialog: one entry per enumerated
    display mode, sorted with `operator <` (std::list::sort is stable) and then
    cleared of consecutive `operator ==` duplicates (std::list::unique). */
module AspectRatioLists {
  import opened Settings
  import opened AspectRatios

  // ---------------------------------------------------------------------
  // Stable sorting by a key

  /** The order `operator <` induces: numerators only. */
  function NumeratorKey(a: AspectRatio): real {
    a.numerator as real
  }

  /** Sorting by `NumeratorKey` compares exactly as `operator <` does. */
  lemma NumeratorKeyIsLess(a: AspectRatio, b: AspectRatio)
    ensures NumeratorKey(a) < NumeratorKey(b) <==> Less(a, b)
  {
  }

  /** The order of the ratio values themselves (used by the corrected list). */
  function ValueKey(a: AspectRatio): real {
    if a.denominator == 0 then 0.0 else GetRatio(a)
  }

  ghost predicate SortedBy(s: seq<AspectRatio>, key: AspectRatio -> real) {
    forall i, j :: 0 <= i < j < |s| ==> key(s[i]) <= key(s[j])
  }

  /** Inserts `x` after every element whose key is not greater than its own. */
  function Insert(x: AspectRatio, s: seq<AspectRatio>, key: AspectRatio -> real): (r: seq<AspectRatio>)
    ensures |r| == |s| + 1
  {
    if s == [] then [x]
    else if key(x) < key(s[0]) then [x] + s
    else [s[0]] + Insert(x, s[1..], key)
  }

  /** A stable sort: elements with equal keys keep their relative order. */
  function StableSort(s: seq<AspectRatio>, key: AspectRatio -> real): (r: seq<AspectRatio>)
    ensures |r| == |s| && multiset(r) == multiset(s)
  {
    if s == [] then []
    else
      var init, x := s[..|s| - 1], s[|s| - 1];
      var sorted := StableSort(init, key);
      InsertMultiset(x, sorted, key);
      assert s == init + [x];
      Insert(x, sorted, key)
  }

  /** The elements of `s` whose key is `v`, in order. */
  function WithKey(s: seq<AspectRatio>, key: AspectRatio -> real, v: real): seq<AspectRatio>
  {
    if s == [] then []
    else (if key(s[0]) == v then [s[0]] else []) + WithKey(s[1..], key, v)
  }

  lemma {:induction false} WithKeyAppend(s: seq<AspectRatio>, t: seq<AspectRatio>, key: AspectRatio -> real, v: real)
    ensures WithKey(s + t, key, v) == WithKey(s, key, v) + WithKey(t, key, v)
  {
    if s != [] {
      assert (s + t)[1..] == s[1..] + t;
      WithKeyAppend(s[1..], t, key, v);
    } else {
      assert s + t == t;
    }
  }

  lemma {:induction false} WithKeyAbove(s: seq<AspectRatio>, key: AspectRatio -> real, v: real)
    requires forall i :: 0 <= i < |s| ==> v < key(s[i])
    ensures WithKey(s, key, v) == []
  {
    if s != [] {
      WithKeyAbove(s[1..], key, v);
    }
  }

  lemma {:induction false} InsertMultiset(x: AspectRatio, s: seq<AspectRatio>, key: AspectRatio -> real)
    ensures multiset(Insert(x, s, key)) == multiset(s) + multiset{x}
  {
    if s != [] && key(s[0]) <= key(x) {
      InsertMultiset(x, s[1..], key);
      assert s == [s[0]] + s[1..];
    }
  }

  lemma {:induction false} InsertSorted(x: AspectRatio, s: seq<AspectRatio>, key: AspectRatio -> real)
    requires SortedBy(s, key)
    ensures SortedBy(Insert(x, s, key), key)
  {
    if s != [] && key(s[0]) <= key(x) {
      var t := Insert(x, s[1..], key);
      InsertSorted(x, s[1..], key);
      InsertMultiset(x, s[1..], key);
      // every element of t is x or an element of s[1..]
      forall k | 0 <= k < |t| ensures key(s[0]) <= key(t[k]) {
        assert t[k] in multiset(t);
        if t[k] != x {
          assert t[k] in multiset(s[1..]);
          var m :| 0 <= m < |s[1..]| && s[1..][m] == t[k];
          assert s[m + 1] == t[k];
        }
      }
    }
  }

  lemma {:induction false} InsertWithKey(x: AspectRatio, s: seq<AspectRatio>, key: AspectRatio -> real, v: real)
    requires SortedBy(s, key)
    ensures WithKey(Insert(x, s, key), key, v) == WithKey(s, key, v) + (if key(x) == v then [x] else [])
  {
    var r := Insert(x, s, key);
    if s == [] {
      assert r[1..] == [];
    } else if key(x) < key(s[0]) {
      assert r[1..] == s;
      if key(x) == v {
        WithKeyAbove(s, key, v);
      }
    } else {
      var t := Insert(x, s[1..], key);
      assert r == [s[0]] + t;
      InsertWithKey(x, s[1..], key, v);
      assert r[0] == s[0] && r[1..] == t;
      assert WithKey(r, key, v) == (if key(s[0]) == v then [s[0]] else []) + WithKey(t, key, v);
    }
  }

  /** Sorting with a stable sort: sorted, and equal keys keep their order (the permutation
      is part of `StableSort`'s own contract). */
  lemma {:induction false} StableSortCorrect(s: seq<AspectRatio>, key: AspectRatio -> real)
    ensures SortedBy(StableSort(s, key), key)
    ensures forall v :: WithKey(StableSort(s, key), key, v) == WithKey(s, key, v)
  {
    if s != [] {
      var init, x := s[..|s| - 1], s[|s| - 1];
      var sorted := StableSort(init, key);
      StableSortCorrect(init, key);
      InsertSorted(x, sorted, key);
      assert StableSort(s, key) == Insert(x, sorted, key);
      assert s == init + [x];
      forall v ensures WithKey(StableSort(s, key), key, v) == WithKey(s, key, v) {
        InsertWithKey(x, sorted, key, v);
        WithKeyAppend(init, [x], key, v);
        assert [x][1..] == [];
      }
    }
  }


  // ---------------------------------------------------------------------
  // Removing consecutive duplicates

  /** std::list::unique with `operator ==`: keeps the first of every run of equal ratios. */
  function DropAdjacentSame(s: seq<AspectRatio>): (u: seq<AspectRatio>)
    ensures |u| <= |s|
    ensures |s| > 0 ==> |u| > 0 && u[0] == s[0]
  {
    if s == [] then []
    else
      var u := DropAdjacentSame(s[..|s| - 1]);
      if u != [] && Same(u[|u| - 1], s[|s| - 1]) then u else u + [s[|s| - 1]]
  }

  ghost predicate NoAdjacentSame(s: seq<AspectRatio>) {
    forall i :: 0 <= i < |s| - 1 ==> !Same(s[i], s[i + 1])
  }

  /** Some element of `u` is `==` to `x`. */
  ghost predicate Represented(x: AspectRatio, u: seq<AspectRatio>) {
    exists j :: 0 <= j < |u| && Same(u[j], x)
  }

  /** Dropping the last input element leaves a prefix of the result. */
  lemma DropAdjacentSameStep(s: seq<AspectRatio>)
    requires s != []
    ensures var u0, u := DropAdjacentSame(s[..|s| - 1]), DropAdjacentSame(s);
      (u == u0 && u0 != [] && Same(u0[|u0| - 1], s[|s| - 1])) || u == u0 + [s[|s| - 1]]
  {
  }

  lemma {:induction false} DropAdjacentSameSubset(s: seq<AspectRatio>)
    ensures forall y :: y in DropAdjacentSame(s) ==> y in s
  {
    if s != [] {
      var init := s[..|s| - 1];
      DropAdjacentSameSubset(init);
      assert s == init + [s[|s| - 1]];
    }
  }

  lemma {:induction false} DropAdjacentSameNoAdjacent(s: seq<AspectRatio>)
    ensures NoAdjacentSame(DropAdjacentSame(s))
    ensures |s| > 0 ==> |DropAdjacentSame(s)| > 0
  {
    if s != [] {
      DropAdjacentSameNoAdjacent(s[..|s| - 1]);
      DropAdjacentSameStep(s);
    }
  }

  lemma {:induction false} DropAdjacentSameRepresents(s: seq<AspectRatio>)
    ensures forall i :: 0 <= i < |s| ==> Represented(s[i], DropAdjacentSame(s))
  {
    if s != [] {
      var init, x := s[..|s| - 1], s[|s| - 1];
      var u0, u := DropAdjacentSame(init), DropAdjacentSame(s);
      DropAdjacentSameRepresents(init);
      DropAdjacentSameStep(s);
      forall i | 0 <= i < |s| ensures Represented(s[i], u) {
        if i < |s| - 1 {
          assert s[i] == init[i];
          var j :| 0 <= j < |u0| && Same(u0[j], init[i]);
          assert u[j] == u0[j];
        } else if u == u0 {
          assert Same(u[|u| - 1], x);
        } else {
          assert u[|u| - 1] == x;
        }
      }
    }
  }

  lemma {:induction false} DropAdjacentSameSorted(s: seq<AspectRatio>, key: AspectRatio -> real)
    requires SortedBy(s, key)
    ensures SortedBy(DropAdjacentSame(s), key)
  {
    if s != [] {
      var init, x := s[..|s| - 1], s[|s| - 1];
      var u0, u := DropAdjacentSame(init), DropAdjacentSame(s);
      DropAdjacentSameSorted(init, key);
      DropAdjacentSameSubset(init);
      DropAdjacentSameStep(s);
      if u != u0 {
        forall i, j | 0 <= i < j < |u| ensures key(u[i]) <= key(u[j]) {
          if j == |u| - 1 {
            assert u[i] == u0[i] && u0[i] in init;
            var m :| 0 <= m < |init| && init[m] == u[i];
            assert s[m] == u[i] && s[|s| - 1] == u[j];
          } else {
            assert u[i] == u0[i] && u[j] == u0[j];
          }
        }
      }
    }
  }

  /** An independent description of `unique`: keep the entry at index i exactly when it
      is the first one or is not `==` to the entry just before it in the input. */
  function KeptWhere(s: seq<AspectRatio>): seq<AspectRatio>
  {
    if s == [] then []
    else
      var init, x := s[..|s| - 1], s[|s| - 1];
      KeptWhere(init) + (if |s| == 1 || !Same(s[|s| - 2], x) then [x] else [])
  }

  /** The last kept entry is `==` to the last input entry, so comparing with the last kept
      entry (as DropAdjacentSame does) is comparing with the input neighbour. */
  lemma {:induction false} DropAdjacentSameIsKeptWhere(s: seq<AspectRatio>)
    ensures DropAdjacentSame(s) == KeptWhere(s)
    ensures s != [] ==> Same(DropAdjacentSame(s)[|DropAdjacentSame(s)| - 1], s[|s| - 1])
  {
    if s != [] {
      var init, x := s[..|s| - 1], s[|s| - 1];
      DropAdjacentSameIsKeptWhere(init);
      DropAdjacentSameStep(s);
      if init != [] {
        assert init[|init| - 1] == s[|s| - 2];
      }
    }
  }

  /** DropAdjacentSame keeps only elements of its input, leaves no two neighbours equal,
      keeps an equal representative of every input element, keeps a sorted list sorted,
      and drops exactly the entries that are `==` to their neighbour in the input. */
  lemma UniqueCorrect(s: seq<AspectRatio>, key: AspectRatio -> real)
    ensures forall y :: y in DropAdjacentSame(s) ==> y in s
    ensures NoAdjacentSame(DropAdjacentSame(s))
    ensures forall i :: 0 <= i < |s| ==> Represented(s[i], DropAdjacentSame(s))
    ensures SortedBy(s, key) ==> SortedBy(DropAdjacentSame(s), key)
    ensures DropAdjacentSame(s) == KeptWhere(s)
  {
    DropAdjacentSameIsKeptWhere(s);
    DropAdjacentSameSubset(s);
    DropAdjacentSameNoAdjacent(s);
    DropAdjacentSameRepresents(s);
    if SortedBy(s, key) {
      DropAdjacentSameSorted(s, key);
    }
  }

  // ---------------------------------------------------------------------
  // The list object (s_aspectRatios)

  /** The display modes the dialog can turn into aspect ratios (no zero side). */
  predicate ModesHaveArea(modes: seq<DisplayMode>) {
    forall i :: 0 <= i < |modes| ==> modes[i].width != 0 && modes[i].height != 0
  }

  /** One AspectRatio per mode, in enumeration order. */
  function RatiosOf(modes: seq<DisplayMode>): (r: seq<AspectRatio>)
    requires ModesHaveArea(modes)
    ensures |r| == |modes|
    ensures forall i :: 0 <= i < |modes| ==> r[i] == Make(modes[i].width, modes[i].height)
  {
    if modes == [] then []
    else RatiosOf(modes[..|modes| - 1]) + [Make(modes[|modes| - 1].width, modes[|modes| - 1].height)]
  }

  /** The list the dialog ends up offering, as the source computes it. */
  function AspectChoices(modes: seq<DisplayMode>): (c: seq<AspectRatio>)
    requires ModesHaveArea(modes)
    ensures |c| <= |modes|
    ensures |c| == 0 <==> |modes| == 0
  {
    DropAdjacentSame(StableSort(RatiosOf(modes), NumeratorKey))
  }

  /** The list with the evidently intended order: by ratio value. */
  function AspectChoicesByValue(modes: seq<DisplayMode>): seq<AspectRatio>
    requires ModesHaveArea(modes)
  {
    DropAdjacentSame(StableSort(RatiosOf(modes), ValueKey))
  }

  class AspectRatioList {
    var items: seq<AspectRatio>

    constructor ()
      ensures items == []
    {
      items := [];
    }

    method Clear()
      modifies this
      ensures items == []
    {
      items := [];
    }

    method PushBack(r: AspectRatio)
      modifies this
      ensures items == old(items) + [r]
    {
      items := items + [r];
    }

    /** std::list::sort, ordering by `key` (`NumeratorKey` is `operator <`). */
    method Sort(key: AspectRatio -> real)
      modifies this
      ensures items == StableSort(old(items), key)
    {
      items := StableSort(items, key);
    }

    /** std::list::unique with `operator ==`. */
    method Unique()
      modifies this
      ensures items == DropAdjacentSame(old(items))
    {
      items := DropAdjacentSame(items);
    }

    /** The aspect-ratio part of UpdateDisplayModes: clear, one entry per mode, sort
        with `operator <` (numerators only), unique. */
    method Populate(modes: seq<DisplayMode>)
      requires ModesHaveArea(modes)
      modifies this
      ensures items == AspectChoices(modes)
    {
      Clear();
      for i := 0 to |modes|
        invariant items == RatiosOf(modes[..i])
      {
        assert modes[..i + 1][..i] == modes[..i];
        PushBack(Make(modes[i].width, modes[i].height));
      }
      assert modes[..|modes|] == modes;
      Sort(NumeratorKey);
      Unique();
    }
  }

  // ---------------------------------------------------------------------
  // What the offered list guarantees

  /** The offered list: ascending numerators, no two neighbours `==`, every mode's ratio
      present, and nothing that is not the ratio of some mode. */
  lemma AspectChoicesCorrect(modes: seq<DisplayMode>)
    requires ModesHaveArea(modes)
    ensures var c := AspectChoices(modes);
      && SortedBy(c, NumeratorKey)
      && NoAdjacentSame(c)
      && (forall i :: 0 <= i < |modes| ==> Represented(Make(modes[i].width, modes[i].height), c))
      && (forall y :: y in c ==> exists i :: 0 <= i < |modes| && y == Make(modes[i].width, modes[i].height))
  {
    var r := RatiosOf(modes);
    var sorted := StableSort(r, NumeratorKey);
    StableSortCorrect(r, NumeratorKey);
    UniqueCorrect(sorted, NumeratorKey);
    var c := AspectChoices(modes);
    forall i | 0 <= i < |modes| ensures Represented(Make(modes[i].width, modes[i].height), c) {
      assert r[i] in multiset(sorted);
      var k :| 0 <= k < |sorted| && sorted[k] == r[i];
      assert Represented(sorted[k], c);
    }
    ChoicesFromModes(modes, NumeratorKey);
  }

  /** Everything offered is the lowest-terms ratio of some enumerated mode. */
  lemma ChoicesFromModes(modes: seq<DisplayMode>, key: AspectRatio -> real)
    requires ModesHaveArea(modes)
    ensures var c := DropAdjacentSame(StableSort(RatiosOf(modes), key));
      forall y :: y in c ==> Reduced(y) && exists i :: 0 <= i < |modes| && y == Make(modes[i].width, modes[i].height)
  {
    var r := RatiosOf(modes);
    var sorted := StableSort(r, key);
    StableSortCorrect(r, key);
    DropAdjacentSameSubset(sorted);
    forall y | y in DropAdjacentSame(sorted)
      ensures Reduced(y) && exists i :: 0 <= i < |modes| && y == Make(modes[i].width, modes[i].height)
    {
      assert y in multiset(r);
      var i :| 0 <= i < |r| && r[i] == y;
    }
  }

  /** A value-sorted list of reduced ratios with no equal neighbours strictly increases. */
  lemma StrictlyIncreasing(c: seq<AspectRatio>)
    requires forall y :: y in c ==> Reduced(y)
    requires SortedBy(c, ValueKey) && NoAdjacentSame(c)
    ensures forall i, j :: 0 <= i < j < |c| ==> ValueKey(c[i]) < ValueKey(c[j]) && !Same(c[i], c[j])
  {
    forall i | 0 <= i < |c| - 1 ensures ValueKey(c[i]) < ValueKey(c[i + 1]) {
      SameIffEqualRatio(c[i], c[i + 1]);
    }
    forall i, j | 0 <= i < j < |c| ensures ValueKey(c[i]) < ValueKey(c[j]) && !Same(c[i], c[j]) {
      assert ValueKey(c[i]) < ValueKey(c[i + 1]) <= ValueKey(c[j]);
      SameIffEqualRatio(c[i], c[j]);
    }
  }

  /** Ordered by value, unique() leaves no ratio twice anywhere in the list:
      the values strictly increase, and every mode's ratio is still offered. */
  lemma AspectChoicesByValueDistinct(modes: seq<DisplayMode>)
    requires ModesHaveArea(modes)
    ensures var c := AspectChoicesByValue(modes);
      && (forall i, j :: 0 <= i < j < |c| ==> ValueKey(c[i]) < ValueKey(c[j]) && !Same(c[i], c[j]))
      && (forall i :: 0 <= i < |modes| ==> Represented(Make(modes[i].width, modes[i].height), c))
  {
    var r := RatiosOf(modes);
    var sorted := StableSort(r, ValueKey);
    StableSortCorrect(r, ValueKey);
    UniqueCorrect(sorted, ValueKey);
    ChoicesFromModes(modes, ValueKey);
    var c := AspectChoicesByValue(modes);
    StrictlyIncreasing(c);
    forall i | 0 <= i < |modes| ensures Represented(Make(modes[i].width, modes[i].height), c) {
      assert r[i] in multiset(sorted);
      var k :| 0 <= k < |sorted| && sorted[k] == r[i];
      assert Represented(sorted[k], c);
    }
  }

  /** With the value order every combo-box entry reads differently. */
  lemma AspectChoicesByValueDescriptionsDistinct(modes: seq<DisplayMode>, i: nat, j: nat)
    requires ModesHaveArea(modes)
    requires i < j < |AspectChoicesByValue(modes)|
    ensures DescPrefix(AspectChoicesByValue(modes)[i]) != DescPrefix(AspectChoicesByValue(modes)[j])
  {
    AspectChoicesByValueDistinct(modes);
    DescPrefixIffSame(AspectChoicesByValue(modes)[i], AspectChoicesByValue(modes)[j]);
  }

  /** As written, `operator <` ignores the denominator, so equal ratios separated by a
      ratio with the same numerator survive unique(): 1280x768 (5:3), 1280x1024 (5:4)
      and 1600x960 (5:3) leave 5:3 in the list twice. */
  lemma AspectChoicesKeepsDuplicate()
    ensures var modes := [DisplayMode(1280, 768, 60, 1, BackBufferFormat),
                          DisplayMode(1280, 1024, 60, 1, BackBufferFormat),
                          DisplayMode(1600, 960, 60, 1, BackBufferFormat)];
      var c := AspectChoices(modes);
      |c| == 3 && Same(c[0], c[2])
  {
    var modes := [DisplayMode(1280, 768, 60, 1, BackBufferFormat),
                  DisplayMode(1280, 1024, 60, 1, BackBufferFormat),
                  DisplayMode(1600, 960, 60, 1, BackBufferFormat)];
    ExampleRatios();
    RatiosOfThree(modes[0], modes[1], modes[2]);
    assert modes == [modes[0], modes[1], modes[2]];
    var a, b, d := Make(1280, 768), Make(1280, 1024), Make(1600, 960);
    SortEqualKeys(a, b, d, NumeratorKey);
    DropNoneAdjacent(a, b, d);
  }

  /** The ratios of three modes, in order. */
  lemma RatiosOfThree(m0: DisplayMode, m1: DisplayMode, m2: DisplayMode)
    requires m0.width != 0 && m0.height != 0 && m1.width != 0 && m1.height != 0
    requires m2.width != 0 && m2.height != 0
    ensures ModesHaveArea([m0, m1, m2])
    ensures RatiosOf([m0, m1, m2]) == [Make(m0.width, m0.height), Make(m1.width, m1.height), Make(m2.width, m2.height)]
  {
  }

  /** The reduced ratios of 1280x768, 1280x1024 and 1600x960. */
  lemma ExampleRatios()
    ensures Make(1280, 768) == AspectRatio(1280, 768, 5, 3)
    ensures Make(1280, 1024) == AspectRatio(1280, 1024, 5, 4)
    ensures Make(1600, 960) == AspectRatio(1600, 960, 5, 3)
  {
    assert Gcd(1280, 768) == 256 by {
      assert Gcd(256, 0) == 256;
      assert Gcd(512, 256) == 256;
      assert Gcd(768, 512) == 256;
    }
    assert Gcd(1280, 1024) == 256 by {
      assert Gcd(256, 0) == 256;
      assert Gcd(1024, 256) == 256;
    }
    assert Gcd(1600, 960) == 320 by {
      assert Gcd(320, 0) == 320;
      assert Gcd(640, 320) == 320;
      assert Gcd(960, 640) == 320;
    }
    MakeByGcd(1280, 768, 256);
    MakeByGcd(1280, 1024, 256);
    MakeByGcd(1600, 960, 320);
  }

  lemma MakeByGcd(width: Uint, height: Uint, g: nat)
    requires width != 0 && height != 0 && Gcd(width, height) == g
    ensures Make(width, height) == AspectRatio(width, height, width / g, height / g)
  {
  }

  /** Three elements with one key are left in place by the stable sort. */
  lemma SortEqualKeys(a: AspectRatio, b: AspectRatio, d: AspectRatio, key: AspectRatio -> real)
    requires key(a) == key(b) == key(d)
    ensures StableSort([a, b, d], key) == [a, b, d]
  {
    assert StableSort([a], key) == [a] by {
      assert [a][..0] == [];
    }
    assert Insert(b, [a], key) == [a, b] by {
      assert [a][1..] == [];
    }
    assert StableSort([a, b], key) == [a, b] by {
      assert [a, b][..1] == [a];
    }
    assert Insert(d, [b], key) == [b, d] by {
      assert [b][1..] == [];
    }
    assert Insert(d, [a, b], key) == [a, b, d] by {
      assert [a, b][1..] == [b];
    }
    assert [a, b, d][..2] == [a, b];
  }

  /** Three elements none of which is `==` to its neighbour survive `unique`. */
  lemma DropNoneAdjacent(a: AspectRatio, b: AspectRatio, d: AspectRatio)
    requires !Same(a, b) && !Same(b, d)
    ensures DropAdjacentSame([a, b, d]) == [a, b, d]
  {
    assert DropAdjacentSame([a]) == [a] by {
      assert [a][..0] == [];
    }
    assert DropAdjacentSame([a, b]) == [a, b] by {
      assert [a, b][..1] == [a];
    }
    assert [a, b, d][..2] == [a, b];
  }
}
