/** Orderings: the date order of `sort_values('DATE')` and the median of a column. */
module Order {
  import opened Cells
  import opened Frames

  /** The order `sort_values('DATE')` sorts by: dates by day, missing dates (NaT) last. */
  predicate DateLe(a: Cell, b: Cell)
  {
    if a.Date? then !b.Date? || a.day <= b.day else !b.Date?
  }

  lemma DateLeTotal(a: Cell, b: Cell)
    ensures DateLe(a, b) || DateLe(b, a)
  {
  }

  lemma DateLeTransitive(a: Cell, b: Cell, c: Cell)
    requires DateLe(a, b) && DateLe(b, c)
    ensures DateLe(a, c)
  {
  }

  /** A date column: every cell is a date or missing. */
  predicate Dates(c: Column)
  {
    forall k :: 0 <= k < |c| ==> c[k].Date? || c[k].Missing?
  }

  /** A date column in ascending order, missing dates last. */
  predicate DateSorted(dates: Column)
  {
    forall i, j :: 0 <= i < j < |dates| ==> DateLe(dates[i], dates[j])
  }

  predicate InRange(s: seq<nat>, n: nat)
  {
    forall k :: 0 <= k < |s| ==> s[k] < n
  }

  /** Row indices listed in date order. */
  predicate SortedBy(dates: Column, s: seq<nat>)
    requires InRange(s, |dates|)
  {
    forall p, q :: 0 <= p < q < |s| ==> DateLe(dates[s[p]], dates[s[q]])
  }

  /** Rows with equal dates keep their original relative order. */
  predicate StableBy(dates: Column, s: seq<nat>)
    requires InRange(s, |dates|)
  {
    forall p, q :: 0 <= p < q < |s| && DateLe(dates[s[q]], dates[s[p]]) ==> s[p] < s[q]
  }

  predicate AllBelow(s: seq<nat>, i: nat)
  {
    forall k :: 0 <= k < |s| ==> s[k] < i
  }

  lemma InMultiset(s: seq<nat>, t: seq<nat>, i: nat, k: nat)
    requires multiset(t) == multiset(s) + multiset{i} && k < |t|
    ensures t[k] == i || t[k] in s
  {
    assert t[k] in multiset(t);
  }

  /** Insert row i after every leading listed row whose date is not later than its own. */
  function InsertByDate(dates: Column, i: nat, s: seq<nat>): (r: seq<nat>)
    requires i < |dates| && InRange(s, |dates|)
    ensures multiset(r) == multiset(s) + multiset{i}
    ensures |r| == |s| + 1 && InRange(r, |dates|)
  {
    if s == [] || !DateLe(dates[s[0]], dates[i]) then [i] + s
    else
      assert s == [s[0]] + s[1..];
      [s[0]] + InsertByDate(dates, i, s[1..])
  }

  /** Each position after an insertion holds the inserted row (-1) or the
      listed row at the returned position. */
  lemma {:induction false} InsertedFrom(dates: Column, i: nat, s: seq<nat>, q: nat) returns (k: int)
    requires i < |dates| && InRange(s, |dates|) && q < |s| + 1
    ensures -1 <= k < |s|
    ensures k == -1 ==> InsertByDate(dates, i, s)[q] == i
    ensures k >= 0 ==> InsertByDate(dates, i, s)[q] == s[k]
  {
    if s == [] || !DateLe(dates[s[0]], dates[i]) {
      k := q - 1;
    } else if q == 0 {
      k := 0;
    } else {
      var k' := InsertedFrom(dates, i, s[1..], q - 1);
      k := if k' == -1 then -1 else k' + 1;
    }
  }

  lemma {:induction false} InsertByDateSorted(dates: Column, i: nat, s: seq<nat>)
    requires i < |dates| && InRange(s, |dates|) && SortedBy(dates, s)
    ensures SortedBy(dates, InsertByDate(dates, i, s))
  {
    var r := InsertByDate(dates, i, s);
    if s == [] || !DateLe(dates[s[0]], dates[i]) {
      forall q | 0 < q < |r|
        ensures DateLe(dates[i], dates[r[q]])
      {
        DateLeTotal(dates[s[0]], dates[i]);
        if q > 1 {
          assert DateLe(dates[s[0]], dates[s[q - 1]]);
          DateLeTransitive(dates[i], dates[s[0]], dates[s[q - 1]]);
        }
      }
    } else {
      var rest := InsertByDate(dates, i, s[1..]);
      InsertByDateSorted(dates, i, s[1..]);
      forall q | 0 <= q < |rest|
        ensures DateLe(dates[s[0]], dates[rest[q]])
      {
        InMultiset(s[1..], rest, i, q);
      }
    }
  }

  lemma {:induction false} InsertByDateStable(dates: Column, i: nat, s: seq<nat>)
    requires i < |dates| && InRange(s, |dates|) && SortedBy(dates, s)
    requires AllBelow(s, i) && StableBy(dates, s)
    ensures StableBy(dates, InsertByDate(dates, i, s))
  {
    var r := InsertByDate(dates, i, s);
    if s == [] || !DateLe(dates[s[0]], dates[i]) {
      forall q | 0 < q < |r|
        ensures !DateLe(dates[r[q]], dates[i])
      {
        if DateLe(dates[r[q]], dates[i]) {
          DateLeTransitive(dates[s[0]], dates[r[q]], dates[i]);
        }
      }
    } else {
      var rest := InsertByDate(dates, i, s[1..]);
      InsertByDateStable(dates, i, s[1..]);
      forall q | 0 <= q < |rest| && DateLe(dates[rest[q]], dates[s[0]])
        ensures s[0] < rest[q]
      {
        var k := InsertedFrom(dates, i, s[1..], q);
        if k >= 0 {
          assert s[k + 1] == rest[q];
        }
      }
    }
  }

  predicate StrictlyIncreasing(s: seq<nat>)
  {
    forall p, q :: 0 <= p < q < |s| ==> s[p] < s[q]
  }

  /** `sort_values('DATE')` on the rows listed in `idxs`: insertion in listed order. */
  function StableSort(dates: Column, idxs: seq<nat>): (r: seq<nat>)
    requires InRange(idxs, |dates|)
    ensures multiset(r) == multiset(idxs) && |r| == |idxs| && InRange(r, |dates|)
  {
    if idxs == [] then []
    else
      assert idxs == idxs[..|idxs| - 1] + [idxs[|idxs| - 1]];
      InsertByDate(dates, idxs[|idxs| - 1], StableSort(dates, idxs[..|idxs| - 1]))
  }

  /** The sort puts the listed rows in date order, missing dates last, and keeps
      rows of equal date in their listed order when the list is increasing. */
  lemma {:induction false} StableSortSpec(dates: Column, idxs: seq<nat>)
    requires InRange(idxs, |dates|)
    ensures SortedBy(dates, StableSort(dates, idxs))
    ensures StrictlyIncreasing(idxs) ==> StableBy(dates, StableSort(dates, idxs))
  {
    if idxs != [] {
      var init := idxs[..|idxs| - 1];
      var last := idxs[|idxs| - 1];
      var s := StableSort(dates, init);
      StableSortSpec(dates, init);
      InsertByDateSorted(dates, last, s);
      if StrictlyIncreasing(idxs) {
        forall k | 0 <= k < |s|
          ensures s[k] < last
        {
          assert s[k] in multiset(init) by { assert s[k] in multiset(s); }
          var p :| 0 <= p < |init| && init[p] == s[k];
          assert idxs[p] == s[k];
        }
        InsertByDateStable(dates, last, s);
      }
    }
  }

  function Iota(n: nat): (r: seq<nat>)
    ensures |r| == n && forall k :: 0 <= k < n ==> r[k] == k
  {
    seq(n, k requires 0 <= k < n => k)
  }

  /** Sorting every row of a table: a permutation of the row positions that
      puts the dates in order, ties in their original order. */
  lemma SortOrdersTable(dates: Column)
    ensures var r := StableSort(dates, Iota(|dates|));
      multiset(r) == multiset(Iota(|dates|)) && DateSorted(Pick(dates, r)) && StableBy(dates, r)
  {
    var r := StableSort(dates, Iota(|dates|));
    StableSortSpec(dates, Iota(|dates|));
    forall i, j | 0 <= i < j < |r|
      ensures DateLe(Pick(dates, r)[i], Pick(dates, r)[j])
    {
    }
  }

  /** Every listed row appears in the sort at some position. */
  lemma SortHas(dates: Column, idxs: seq<nat>, j: nat) returns (p: nat)
    requires InRange(idxs, |dates|) && j in idxs
    ensures p < |StableSort(dates, idxs)| && StableSort(dates, idxs)[p] == j
  {
    var r := StableSort(dates, idxs);
    assert j in multiset(idxs);
    assert j in multiset(r);
    p :| 0 <= p < |r| && r[p] == j;
  }

  /** The last row of a stable date sort: a row of the latest date, and among
      rows of that date the one listed last. */
  lemma LastOfSort(dates: Column, idxs: seq<nat>)
    requires InRange(idxs, |dates|) && idxs != [] && StrictlyIncreasing(idxs)
    ensures var r := StableSort(dates, idxs); var last := r[|r| - 1];
      last in idxs &&
      (forall j :: j in idxs ==> DateLe(dates[j], dates[last])) &&
      (forall j :: j in idxs && DateLe(dates[last], dates[j]) ==> j <= last)
  {
    var r := StableSort(dates, idxs);
    var last := r[|r| - 1];
    assert last in multiset(idxs) by { assert r[|r| - 1] in multiset(r); }
    forall j | j in idxs
      ensures DateLe(dates[j], dates[last])
      ensures DateLe(dates[last], dates[j]) ==> j <= last
    {
      LastOfSortAt(dates, idxs, r, j);
    }
  }

  /** One listed row against the last row of the sort `r`. */
  lemma LastOfSortAt(dates: Column, idxs: seq<nat>, r: seq<nat>, j: nat)
    requires InRange(idxs, |dates|) && idxs != [] && StrictlyIncreasing(idxs) && j in idxs
    requires r == StableSort(dates, idxs)
    ensures j < |dates| && r[|r| - 1] < |dates|
    ensures DateLe(dates[j], dates[r[|r| - 1]])
    ensures DateLe(dates[r[|r| - 1]], dates[j]) ==> j <= r[|r| - 1]
  {
    StableSortSpec(dates, idxs);
    var p := SortHas(dates, idxs, j);
    if p < |r| - 1 {
      assert DateLe(dates[r[p]], dates[r[|r| - 1]]);
    }
  }

  // ---------------------------------------------------------------------------
  // Median

  predicate Ascending(s: seq<real>)
  {
    forall p, q :: 0 <= p < q < |s| ==> s[p] <= s[q]
  }

  function InsertReal(x: real, s: seq<real>): (r: seq<real>)
    ensures multiset(r) == multiset(s) + multiset{x} && |r| == |s| + 1
  {
    if s == [] || x <= s[0] then [x] + s
    else
      assert s == [s[0]] + s[1..];
      [s[0]] + InsertReal(x, s[1..])
  }

  lemma {:induction false} InsertRealAscending(x: real, s: seq<real>)
    requires Ascending(s)
    ensures Ascending(InsertReal(x, s))
  {
    if s != [] && x > s[0] {
      var tail := s[1..];
      InsertRealAscending(x, tail);
      InsertRealAbove(x, tail, s[0]);
    }
  }

  /** A lower bound of the value and of the list bounds the list after insertion. */
  lemma {:induction false} InsertRealAbove(x: real, s: seq<real>, lo: real)
    requires lo <= x && forall k :: 0 <= k < |s| ==> lo <= s[k]
    ensures forall q :: 0 <= q < |InsertReal(x, s)| ==> lo <= InsertReal(x, s)[q]
  {
    if s != [] && x > s[0] {
      InsertRealAbove(x, s[1..], lo);
    }
  }

  function SortReals(xs: seq<real>): (r: seq<real>)
    ensures multiset(r) == multiset(xs) && |r| == |xs|
  {
    if xs == [] then []
    else
      assert xs == xs[..|xs| - 1] + [xs[|xs| - 1]];
      InsertReal(xs[|xs| - 1], SortReals(xs[..|xs| - 1]))
  }

  lemma {:induction false} SortRealsAscending(xs: seq<real>)
    ensures Ascending(SortReals(xs))
  {
    if xs != [] {
      SortRealsAscending(xs[..|xs| - 1]);
      InsertRealAscending(xs[|xs| - 1], SortReals(xs[..|xs| - 1]));
    }
  }

  /** `Series.median()`: the middle defined value in sorted order, or the mean
      of the two middle ones; missing when no value is defined. Its value is
      stated in MedianValue and MedianOfSorted. */
  function Median(xs: Column): (c: Cell)
    ensures c.Missing? <==> Nums(xs) == []
    ensures c.Num? ==> c.x in multiset(Nums(xs)) || |Nums(xs)| % 2 == 0
  {
    var s := SortReals(Nums(xs));
    if s == [] then Missing
    else
      assert s[|s| / 2] in multiset(s);
      Num(Middle(s))
  }

  /** The middle value of a non-empty list, or the mean of the two middle ones. */
  function Middle(s: seq<real>): (m: real)
    requires s != []
    ensures |s| % 2 == 1 ==> m == s[|s| / 2]
    ensures |s| % 2 == 0 ==> m == (s[|s| / 2 - 1] + s[|s| / 2]) / 2.0
  {
    if |s| % 2 == 1 then s[|s| / 2] else (s[|s| / 2 - 1] + s[|s| / 2]) / 2.0
  }

  /** The median reads the defined values in ascending order: the middle one
      for an odd count, the mean of the two middle ones for an even count. */
  lemma MedianValue(xs: Column)
    requires Nums(xs) != []
    ensures var s := SortReals(Nums(xs));
      Median(xs).Num? && Ascending(s) && multiset(s) == multiset(Nums(xs)) &&
      (|s| % 2 == 1 ==> Median(xs).x == s[|s| / 2]) &&
      (|s| % 2 == 0 ==> Median(xs).x == (s[|s| / 2 - 1] + s[|s| / 2]) / 2.0)
  {
    var s := SortReals(Nums(xs));
    SortRealsAscending(Nums(xs));
    assert Median(xs) == Num(Middle(s));
  }

  /** The first value of an ascending list is its least. */
  lemma AscendingHeadLeast(a: seq<real>, y: real)
    requires Ascending(a) && y in multiset(a)
    ensures a != [] && a[0] <= y
  {
    assert y in a;
    var k :| 0 <= k < |a| && a[k] == y;
    if k > 0 {
      assert a[0] <= a[k];
    }
  }

  /** An ascending arrangement of a multiset of values is unique, so the
      sorted list the median reads is fixed by the values alone. */
  lemma {:induction false} AscendingUnique(a: seq<real>, b: seq<real>)
    requires Ascending(a) && Ascending(b) && multiset(a) == multiset(b)
    ensures a == b
    decreases |a|
  {
    assert |a| == |multiset(a)| == |multiset(b)| == |b|;
    if a != [] {
      var x := a[0];
      assert x in multiset(a);
      AscendingHeadLeast(b, x);
      assert b[0] in multiset(b);
      AscendingHeadLeast(a, b[0]);
      assert b[0] == x;
      assert a == [x] + a[1..] && b == [x] + b[1..];
      assert multiset(a[1..]) == multiset(b[1..]) by {
        var ma, mb := multiset(a[1..]), multiset(b[1..]);
        assert multiset(a) == multiset{x} + ma && multiset(b) == multiset{x} + mb;
        forall y
          ensures ma[y] == mb[y]
        {
          assert multiset(a)[y] == multiset{x}[y] + ma[y];
          assert multiset(b)[y] == multiset{x}[y] + mb[y];
        }
      }
      assert Ascending(a[1..]) && Ascending(b[1..]) by {
        forall p, q | 0 <= p < q < |a| - 1
          ensures a[1..][p] <= a[1..][q] && b[1..][p] <= b[1..][q]
        {
          assert a[1..][p] == a[p + 1] && a[1..][q] == a[q + 1];
          assert b[1..][p] == b[p + 1] && b[1..][q] == b[q + 1];
        }
      }
      AscendingUnique(a[1..], b[1..]);
    }
  }

  /** The median is the middle of any ascending arrangement of the defined
      values: the middle one for an odd count, the mean of the two middle
      ones for an even count. */
  lemma MedianOfSorted(xs: Column, t: seq<real>)
    requires Ascending(t) && multiset(t) == multiset(Nums(xs)) && t != []
    ensures Median(xs).Num?
    ensures |t| % 2 == 1 ==> Median(xs).x == t[|t| / 2]
    ensures |t| % 2 == 0 ==> Median(xs).x == (t[|t| / 2 - 1] + t[|t| / 2]) / 2.0
  {
    assert |Nums(xs)| == |multiset(Nums(xs))| == |t|;
    MedianValue(xs);
    AscendingUnique(SortReals(Nums(xs)), t);
  }

  /** On an ascending list the middle lies between the two middle values. */
  lemma MiddleBetween(s: seq<real>)
    requires s != [] && Ascending(s)
    ensures s[(|s| - 1) / 2] <= Middle(s) <= s[|s| / 2]
  {
    var n := |s|;
    var h := n / 2;
    if n % 2 == 1 {
      assert (n - 1) / 2 == h;
    } else {
      assert (n - 1) / 2 == h - 1;
      assert s[h - 1] <= s[h];
    }
  }

  /** On a sorted list the median lies between the two middle values. */
  lemma MedianIsMiddle(xs: Column)
    requires Nums(xs) != []
    ensures var s := SortReals(Nums(xs));
      Median(xs).Num? && s[(|s| - 1) / 2] <= Median(xs).x <= s[|s| / 2]
  {
    var s := SortReals(Nums(xs));
    SortRealsAscending(Nums(xs));
    MiddleBetween(s);
    assert Median(xs) == Num(Middle(s));
  }

  /** The median lies within any bounds all defined values respect. */
  lemma MedianBounds(xs: Column, lo: real, hi: real)
    requires NumsIn(xs, lo, hi)
    ensures Median(xs).Num? ==> lo <= Median(xs).x <= hi
  {
    var s := SortReals(Nums(xs));
    NumsBounds(xs, lo, hi);
    forall k | 0 <= k < |s|
      ensures lo <= s[k] <= hi
    {
      assert s[k] in multiset(Nums(xs)) by { assert s[k] in multiset(s); }
    }
  }

  /** Filling with the median, or with a default when no value is defined. */
  function MedianOr(xs: Column, default: real): (r: real)
    ensures Median(xs).Num? ==> r == Median(xs).x
    ensures Median(xs).Missing? ==> r == default
  {
    match Median(xs)
    case Num(m) => m
    case _ => default
  }
}
