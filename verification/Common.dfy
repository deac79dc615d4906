/** Small vocabulary shared by the models: optional values, list filtering and
    the stable sort behind Python's list.sort. */
module Common {

  datatype Option<+T> = None | Some(value: T)

  /** The list comprehension [x for x in xs if keep(x)]. */
  function Filter<T(!new)>(xs: seq<T>, keep: T -> bool): (ys: seq<T>)
    ensures |ys| <= |xs|
    ensures forall y :: y in ys <==> y in xs && keep(y)
  {
    if xs == [] then []
    else
      var rest := Filter(xs[1..], keep);
      assert forall y :: y in xs <==> y == xs[0] || y in xs[1..];
      if keep(xs[0]) then [xs[0]] + rest else rest
  }

  lemma {:induction false} FilterConcat<T(!new)>(xs: seq<T>, ys: seq<T>, keep: T -> bool)
    ensures Filter(xs + ys, keep) == Filter(xs, keep) + Filter(ys, keep)
  {
    if xs == [] {
      assert xs + ys == ys;
    } else {
      assert (xs + ys)[1..] == xs[1..] + ys;
      FilterConcat(xs[1..], ys, keep);
    }
  }

  lemma {:induction false} SameFilter<T(!new)>(xs: seq<T>, keep: T -> bool, same: T -> bool)
    requires forall x :: x in xs ==> keep(x) == same(x)
    ensures Filter(xs, keep) == Filter(xs, same)
  {
    if xs != [] {
      assert xs[0] in xs;
      SameFilter(xs[1..], keep, same);
    }
  }

  /** Both conditions at once. */
  function Both<T>(keep: T -> bool, also: T -> bool): T -> bool { (x: T) => keep(x) && also(x) }

  lemma {:induction false} FilterTwice<T(!new)>(xs: seq<T>, keep: T -> bool, also: T -> bool)
    ensures Filter(Filter(xs, keep), also) == Filter(xs, Both(keep, also))
  {
    if xs != [] {
      FilterTwice(xs[1..], keep, also);
      var rest := Filter(xs[1..], keep);
      assert ([xs[0]] + rest)[1..] == rest;
    }
  }

  /** Where in the list the kept elements stand. */
  function Places<T>(xs: seq<T>, keep: T -> bool): set<int> { set i | 0 <= i < |xs| && keep(xs[i]) }

  lemma PlacesSnoc<T>(xs: seq<T>, last: T, keep: T -> bool)
    ensures Places(xs + [last], keep) == Places(xs, keep) + if keep(last) then {|xs|} else {}
  {
    var all := xs + [last];
    assert forall i :: 0 <= i < |xs| ==> all[i] == xs[i];
  }

  lemma {:induction false} FilterSize<T(!new)>(xs: seq<T>, keep: T -> bool)
    ensures |Filter(xs, keep)| == |Places(xs, keep)|
  {
    if xs != [] {
      var n := |xs| - 1;
      FilterSize(xs[..n], keep);
      assert xs[..n] + [xs[n]] == xs;
      FilterConcat(xs[..n], [xs[n]], keep);
      FilterOne(xs[n], keep);
      PlacesSnoc(xs[..n], xs[n], keep);
    }
  }

  lemma FilterOne<T(!new)>(x: T, keep: T -> bool)
    ensures Filter([x], keep) == if keep(x) then [x] else []
  {
    assert [x][1..] == [];
  }

  /** Filtering around one replaced element. */
  lemma FilterUpdate<T(!new)>(xs: seq<T>, i: nat, x: T, keep: T -> bool)
    requires i < |xs|
    ensures Filter(xs, keep) == Filter(xs[..i], keep) + Filter([xs[i]], keep) + Filter(xs[i + 1..], keep)
    ensures Filter(xs[i := x], keep) == Filter(xs[..i], keep) + Filter([x], keep) + Filter(xs[i + 1..], keep)
  {
    assert xs == xs[..i] + [xs[i]] + xs[i + 1..];
    assert xs[i := x] == xs[..i] + [x] + xs[i + 1..];
    FilterConcat(xs[..i] + [xs[i]], xs[i + 1..], keep);
    FilterConcat(xs[..i], [xs[i]], keep);
    FilterConcat(xs[..i] + [x], xs[i + 1..], keep);
    FilterConcat(xs[..i], [x], keep);
  }

  lemma SubsetSize<T>(a: set<T>, b: set<T>)
    requires a <= b
    ensures |a| <= |b|
    ensures a != b ==> |a| < |b|
  {
    assert b == a + (b - a);
    assert |b| == |a| + |b - a|;
    if a != b { assert b - a != {}; }
  }

  function Min(a: int, b: int): int { if a <= b then a else b }
}

/** Python's list.sort(key=...): a stable sort. `lt(a, b)` says that the key of
    a is smaller than the key of b. */
module Sorting {

  ghost predicate StrictWeakOrder<T(!new)>(lt: (T, T) -> bool) {
    && (forall a :: !lt(a, a))
    && (forall a, b, c :: lt(a, b) && lt(b, c) ==> lt(a, c))
    && (forall a, b, c :: lt(a, c) ==> lt(a, b) || lt(b, c))
  }

  ghost predicate Ascending<T>(xs: seq<T>, lt: (T, T) -> bool) {
    forall i, j :: 0 <= i < j < |xs| ==> !lt(xs[j], xs[i])
  }

  /** Some occurrence of a stands before some occurrence of b. */
  ghost predicate Before<T>(xs: seq<T>, a: T, b: T) {
    exists i, j :: 0 <= i < j < |xs| && xs[i] == a && xs[j] == b
  }

  function Insert<T>(x: T, xs: seq<T>, lt: (T, T) -> bool): (ys: seq<T>)
    ensures multiset(ys) == multiset(xs) + multiset{x}
  {
    if xs == [] || !lt(xs[0], x) then [x] + xs
    else
      assert xs == [xs[0]] + xs[1..];
      [xs[0]] + Insert(x, xs[1..], lt)
  }

  function StableSort<T>(xs: seq<T>, lt: (T, T) -> bool): (ys: seq<T>)
    ensures multiset(ys) == multiset(xs)
    ensures |ys| == |xs|
  {
    if xs == [] then []
    else
      assert xs == [xs[0]] + xs[1..];
      var ys := Insert(xs[0], StableSort(xs[1..], lt), lt);
      assert |multiset(ys)| == |multiset(xs)|;
      ys
  }

  lemma SortKeepsMembers<T(!new)>(xs: seq<T>, lt: (T, T) -> bool)
    ensures forall x :: x in StableSort(xs, lt) <==> x in xs
  {
    forall x ensures x in StableSort(xs, lt) <==> x in xs {
      assert x in StableSort(xs, lt) <==> x in multiset(StableSort(xs, lt));
      assert x in xs <==> x in multiset(xs);
    }
  }

  lemma {:induction false} InsertAscending<T(!new)>(x: T, xs: seq<T>, lt: (T, T) -> bool)
    requires StrictWeakOrder(lt) && Ascending(xs, lt)
    ensures Ascending(Insert(x, xs, lt), lt)
  {
    var ys := Insert(x, xs, lt);
    if xs == [] || !lt(xs[0], x) {
      forall j | 0 < j < |ys| ensures !lt(ys[j], x) { assert ys[j] == xs[j - 1]; }
    } else {
      InsertAscending(x, xs[1..], lt);
      var zs := Insert(x, xs[1..], lt);
      forall j | 0 <= j < |zs| ensures !lt(zs[j], xs[0]) {
        assert zs[j] in multiset(zs);
        assert zs[j] == x || zs[j] in xs[1..];
      }
    }
  }

  lemma {:induction false} SortAscending<T(!new)>(xs: seq<T>, lt: (T, T) -> bool)
    requires StrictWeakOrder(lt)
    ensures Ascending(StableSort(xs, lt), lt)
  {
    if xs != [] {
      SortAscending(xs[1..], lt);
      InsertAscending(xs[0], StableSort(xs[1..], lt), lt);
    }
  }

  lemma BeforeCons<T>(x: T, xs: seq<T>, a: T, b: T)
    requires Before(xs, a, b) || (x == a && b in xs)
    ensures Before([x] + xs, a, b)
  {
    var ys := [x] + xs;
    if x == a && b in xs {
      var j :| 0 <= j < |xs| && xs[j] == b;
      assert ys[0] == a && ys[j + 1] == b;
    } else {
      var i, j :| 0 <= i < j < |xs| && xs[i] == a && xs[j] == b;
      assert ys[i + 1] == a && ys[j + 1] == b;
    }
  }

  lemma BeforeTail<T>(xs: seq<T>, a: T, b: T)
    requires Before(xs, a, b)
    ensures Before(xs[1..], a, b) || (xs[0] == a && b in xs[1..])
  {
    var i, j :| 0 <= i < j < |xs| && xs[i] == a && xs[j] == b;
    var tail := xs[1..];
    assert tail[j - 1] == b;
    if i > 0 {
      assert tail[i - 1] == a;
    }
  }

  lemma {:induction false} InsertKeepsBefore<T(!new)>(x: T, xs: seq<T>, lt: (T, T) -> bool, a: T, b: T)
    requires Before(xs, a, b)
    ensures Before(Insert(x, xs, lt), a, b)
  {
    if xs == [] || !lt(xs[0], x) {
      BeforeCons(x, xs, a, b);
    } else {
      BeforeTail(xs, a, b);
      var zs := Insert(x, xs[1..], lt);
      if Before(xs[1..], a, b) {
        InsertKeepsBefore(x, xs[1..], lt, a, b);
      } else {
        assert b in multiset(xs[1..]);
        assert b in multiset(zs);
      }
      BeforeCons(xs[0], zs, a, b);
    }
  }

  /** A newly inserted element goes in front of everything not smaller. */
  lemma {:induction false} InsertGoesBefore<T(!new)>(x: T, xs: seq<T>, lt: (T, T) -> bool, b: T)
    requires StrictWeakOrder(lt) && Ascending(xs, lt)
    requires b in xs && !lt(b, x)
    ensures Before(Insert(x, xs, lt), x, b)
  {
    if !lt(xs[0], x) {
      BeforeCons(x, xs, x, b);
    } else {
      assert b in xs[1..];
      InsertGoesBefore(x, xs[1..], lt, b);
      BeforeCons(xs[0], Insert(x, xs[1..], lt), x, b);
    }
  }

  /** Stability: of two elements, the one listed first stays first unless the
      other has a strictly smaller key. */
  lemma {:induction false} SortStable<T(!new)>(xs: seq<T>, lt: (T, T) -> bool, a: T, b: T)
    requires StrictWeakOrder(lt)
    requires Before(xs, a, b) && !lt(b, a)
    ensures Before(StableSort(xs, lt), a, b)
  {
    var tail := xs[1..];
    SortAscending(tail, lt);
    SortKeepsMembers(tail, lt);
    BeforeTail(xs, a, b);
    if Before(tail, a, b) {
      SortStable(tail, lt, a, b);
      InsertKeepsBefore(xs[0], StableSort(tail, lt), lt, a, b);
    } else {
      InsertGoesBefore(a, StableSort(tail, lt), lt, b);
    }
  }

  /** The list without the first occurrence of x. */
  function Without<T(==)>(xs: seq<T>, x: T): seq<T> {
    if xs == [] then [] else if xs[0] == x then xs[1..] else [xs[0]] + Without(xs[1..], x)
  }

  /** Selection: what follows the head of the sorted list is the sorted rest. */
  lemma {:induction false} SortTail<T(!new)>(xs: seq<T>, lt: (T, T) -> bool)
    requires StrictWeakOrder(lt)
    requires xs != []
    ensures StableSort(xs, lt)[1..] == StableSort(Without(xs, StableSort(xs, lt)[0]), lt)
  {
    var x, tail := xs[0], xs[1..];
    var sorted := StableSort(tail, lt);
    if sorted != [] && lt(sorted[0], x) {
      SortTail(tail, lt);
      var rest := Without(tail, sorted[0]);
      assert Without(xs, sorted[0]) == [x] + rest;
      assert ([x] + rest)[1..] == rest;
      assert StableSort(xs, lt)[1..] == Insert(x, sorted[1..], lt);
    } else {
      assert StableSort(xs, lt) == [x] + sorted;
    }
  }

  ghost predicate NoRepeats<T>(xs: seq<T>) {
    forall i, j :: 0 <= i < j < |xs| ==> xs[i] != xs[j]
  }

  lemma RepeatCounts<T>(xs: seq<T>, i: nat, j: nat)
    requires i < j < |xs| && xs[i] == xs[j]
    ensures multiset(xs)[xs[i]] >= 2
  {
    assert xs == xs[..j] + [xs[j]] + xs[j + 1..];
    assert xs[i] in xs[..j];
    assert multiset(xs[..j])[xs[i]] >= 1;
  }

  lemma {:induction false} NoRepeatsCounts<T>(xs: seq<T>, x: T)
    requires NoRepeats(xs)
    ensures multiset(xs)[x] <= 1
  {
    if xs != [] {
      assert xs == [xs[0]] + xs[1..];
      NoRepeatsCounts(xs[1..], x);
      if x == xs[0] {
        forall k | 0 <= k < |xs[1..]| ensures xs[1..][k] != x { assert xs[1..][k] == xs[k + 1]; }
        assert x !in xs[1..];
      }
    }
  }

  lemma SortNoRepeats<T>(xs: seq<T>, lt: (T, T) -> bool)
    requires NoRepeats(xs)
    ensures NoRepeats(StableSort(xs, lt))
  {
    var s := StableSort(xs, lt);
    forall i, j | 0 <= i < j < |s| ensures s[i] != s[j] {
      if s[i] == s[j] {
        RepeatCounts(s, i, j);
        NoRepeatsCounts(xs, s[i]);
      }
    }
  }

  /** Neighbours in the sorted list with equal keys stand in list order: the
      element at a smaller position of the original list comes first. */
  lemma SortedTiesKeepOrder<T(!new)>(xs: seq<T>, lt: (T, T) -> bool, i: nat, j: nat, x: nat, y: nat)
    requires StrictWeakOrder(lt) && NoRepeats(xs)
    requires i < j < |xs| && x < |xs| && y < |xs|
    requires StableSort(xs, lt)[i] == xs[x] && StableSort(xs, lt)[j] == xs[y] && !lt(xs[x], xs[y])
    ensures x < y
  {
    SortNoRepeats(xs, lt);
    if Before(xs, xs[y], xs[x]) { SortStable(xs, lt, xs[y], xs[x]); }
    OrderFromStability(xs, StableSort(xs, lt), i, j, x, y);
  }

  lemma OrderFromStability<T>(xs: seq<T>, s: seq<T>, i: nat, j: nat, x: nat, y: nat)
    requires i < j < |s| && x < |xs| && y < |xs| && s[i] == xs[x] && s[j] == xs[y]
    requires NoRepeats(s) && (Before(xs, xs[y], xs[x]) ==> Before(s, xs[y], xs[x]))
    ensures x < y
  {
    assert y < x ==> Before(xs, xs[y], xs[x]);
    NotBefore(s, i, j);
  }

  lemma NotBefore<T>(xs: seq<T>, i: nat, j: nat)
    requires NoRepeats(xs) && i < j < |xs|
    ensures xs[i] != xs[j] && !Before(xs, xs[j], xs[i])
  {
    forall b, a | 0 <= b < a < |xs| ensures !(xs[b] == xs[j] && xs[a] == xs[i]) {
    }
  }
}

/** Occurrences of one string in another. */
module Texts {

  predicate OccursAt(t: string, pat: string, k: int) {
    0 <= k && k + |pat| <= |t| && t[k..k + |pat|] == pat
  }

  predicate Contains(t: string, pat: string) {
    exists k :: 0 <= k <= |t| && OccursAt(t, pat, k)
  }
}
