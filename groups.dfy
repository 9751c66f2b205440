/** The same-slot group engine behind every historical feature.

    `df.groupby(key_col)[val_col].<op>` puts row i in the group of the rows whose
    key equals row i's key (rows with a missing key belong to no group and get a
    missing result). Each operator the pipeline uses (shift, rolling and expanding
    means, cumulative sum, forward fill, cumulative count, difference, the streak
    counter) gives row i a value computed from the group's values up to and
    including row i, in row order; `GroupApply` states exactly that. */
module Groups {
  import opened Cells
  import opened Frames
  import opened Order

  predicate Increasing(s: seq<nat>)
  {
    forall a, b :: 0 <= a < b < |s| ==> s[a] < s[b]
  }

  /** The positions j < n whose key is `key`, in increasing order. */
  function Members(keys: Column, key: Cell, n: nat): (r: seq<nat>)
    requires n <= |keys|
    ensures Increasing(r)
    ensures forall k :: 0 <= k < |r| ==> r[k] < n && keys[r[k]] == key
  {
    if n == 0 then []
    else
      var prev := Members(keys, key, n - 1);
      if keys[n - 1] == key then prev + [n - 1] else prev
  }

  /** Every row j < n with the key is listed. */
  lemma {:induction false} MembersComplete(keys: Column, key: Cell, n: nat, j: nat)
    requires n <= |keys| && j < n && keys[j] == key
    ensures j in Members(keys, key, n)
  {
    if j < n - 1 {
      MembersComplete(keys, key, n - 1, j);
    }
  }

  /** The earlier rows of row i's group: strictly before i, same key. */
  function Before(keys: Column, i: nat): (r: seq<nat>)
    requires i < |keys|
    ensures Increasing(r)
    ensures forall k :: 0 <= k < |r| ==> r[k] < i && keys[r[k]] == keys[i]
  {
    if keys[i].Missing? then [] else Members(keys, keys[i], i)
  }

  /** Row i's group up to and including row i. */
  function UpTo(keys: Column, i: nat): (r: seq<nat>)
    requires i < |keys|
    ensures Increasing(r)
    ensures forall k :: 0 <= k < |r| ==> r[k] <= i
  {
    if keys[i].Missing? then [] else Members(keys, keys[i], i + 1)
  }

  lemma UpToIsBeforeAndSelf(keys: Column, i: nat)
    requires i < |keys| && !keys[i].Missing?
    ensures UpTo(keys, i) == Before(keys, i) + [i]
  {
  }

  /** The group of a row depends only on the keys of that row and the rows above it. */
  lemma {:induction false} MembersOfPrefix(keys1: Column, keys2: Column, key: Cell, n: nat)
    requires n <= |keys1| && n <= |keys2| && keys1[..n] == keys2[..n]
    ensures Members(keys1, key, n) == Members(keys2, key, n)
  {
    if n > 0 {
      assert keys1[..n - 1] == keys2[..n - 1];
      assert keys1[n - 1] == keys1[..n][n - 1];
      MembersOfPrefix(keys1, keys2, key, n - 1);
    }
  }

  /** The group up to m is the start of the group up to n. */
  lemma {:induction false} MembersGrow(keys: Column, key: Cell, m: nat, n: nat)
    requires m <= n <= |keys|
    ensures |Members(keys, key, m)| <= |Members(keys, key, n)|
    ensures Members(keys, key, m) == Members(keys, key, n)[..|Members(keys, key, m)|]
    decreases n - m
  {
    if m < n {
      MembersGrow(keys, key, m, n - 1);
      var a := Members(keys, key, m);
      var b := Members(keys, key, n - 1);
      assert Members(keys, key, n)[..|b|] == b;
      assert b[..|a|] == Members(keys, key, n)[..|b|][..|a|];
    }
  }

  /** The last `k` elements of a series (all of it when it is shorter). */
  function LastK(s: Column, k: nat): (r: Column)
    ensures |r| == if |s| <= k then |s| else k
    ensures r == s[|s| - |r|..]
  {
    if |s| <= k then s else s[|s| - k..]
  }

  /** The last defined cell of a series, as `ffill` carries it forward. */
  function LastDefined(s: Column): (c: Cell)
    ensures c != Missing ==> c in s
  {
    if s == [] then Missing
    else if !s[|s| - 1].Missing? then s[|s| - 1]
    else LastDefined(s[..|s| - 1])
  }

  /** `LastDefined` is the defined cell at the highest position k, every cell
      after k being missing; it is missing only when every cell is. */
  lemma {:induction false} LastDefinedIsLast(s: Column) returns (k: int)
    ensures LastDefined(s) == Missing ==> forall q :: 0 <= q < |s| ==> s[q] == Missing
    ensures LastDefined(s) != Missing ==>
      0 <= k < |s| && s[k] == LastDefined(s) && forall q :: k < q < |s| ==> s[q] == Missing
  {
    if s == [] {
      k := -1;
    } else if !s[|s| - 1].Missing? {
      k := |s| - 1;
    } else {
      var t := s[..|s| - 1];
      k := LastDefinedIsLast(t);
      assert forall q :: 0 <= q < |t| ==> s[q] == t[q];
    }
  }

  /** `fillna(0.5)` then `== t`: the positions that `calc_streak` counts. */
  predicate Hit(c: Cell, t: real)
  {
    Fill(c, Num(0.5)) == Num(t)
  }

  /** `(s != t).cumsum()` evaluated after position n - 1: the number of
      positions before n that break a run. */
  function NonHits(s: Column, t: real, n: nat): nat
    requires n <= |s|
  {
    if n == 0 then 0 else NonHits(s, t, n - 1) + (if Hit(s[n - 1], t) then 0 else 1)
  }

  /** The run label of position q, `(s != t).cumsum()[q]`. */
  function RunId(s: Column, t: real, q: nat): nat
    requires q < |s|
  {
    NonHits(s, t, q + 1)
  }

  /** The number of positions before m whose run label is v. */
  function CountRun(s: Column, t: real, v: nat, m: nat): nat
    requires m <= |s|
  {
    if m == 0 then 0 else CountRun(s, t, v, m - 1) + (if RunId(s, t, m - 1) == v then 1 else 0)
  }

  /** `s.groupby(run labels).cumcount()[p]`. */
  function RunRank(s: Column, t: real, p: nat): nat
    requires p < |s|
  {
    CountRun(s, t, RunId(s, t, p), p)
  }

  /** `calc_streak`: `s.groupby((s != t).cumsum()).cumcount() * (s == t)` with
      missing entries first replaced by 0.5 (t is 1 for wins, 0 for losses). */
  function CalcStreak(s: Column, t: real): (r: seq<nat>)
    ensures |r| == |s|
  {
    seq(|s|, p requires 0 <= p < |s| => if Hit(s[p], t) then RunRank(s, t, p) else 0)
  }

  /** Reference definition: the number of consecutive hits ending at position n - 1. */
  function TrailingHits(s: Column, t: real, n: nat): nat
    requires n <= |s|
  {
    if n == 0 || !Hit(s[n - 1], t) then 0 else 1 + TrailingHits(s, t, n - 1)
  }

  /** The operators applied to a group series. */
  datatype Op =
    | Shift                 // shift(1)
    | Rolling(window: nat)  // rolling(window, min_periods=1).mean()
    | Expanding             // expanding(min_periods=1).mean()
    | ZeroFilledSum         // fillna(0).cumsum()
    | FFill                 // ffill()
    | CumCount              // cumcount()
    | Diff                  // diff()
    | Streak(target: real)  // calc_streak(win = target == 1)

  /** The value an operator gives the last position of the group series `s`. */
  function ApplyOp(op: Op, s: Column): Cell
  {
    match op
    case Shift => if |s| >= 2 then s[|s| - 2] else Missing
    case Rolling(w) => Mean(LastK(s, w))
    case Expanding => Mean(s)
    case ZeroFilledSum => Num(Sum(Nums(s)))
    case FFill => LastDefined(s)
    case CumCount => if s == [] then Missing else Num((|s| - 1) as real)
    case Diff => if |s| >= 2 then Minus(s[|s| - 1], s[|s| - 2]) else Missing
    case Streak(t) => if s == [] then Missing else Num(CalcStreak(s, t)[|s| - 1] as real)
  }

  /** `df.groupby(keys)[vals].transform(op)`. */
  function GroupApply(keys: Column, vals: Column, op: Op): (r: Column)
    requires |keys| == |vals|
    ensures |r| == |keys|
    ensures forall i :: 0 <= i < |keys| ==>
      r[i] == if keys[i].Missing? then Missing else ApplyOp(op, Pick(vals, UpTo(keys, i)))
  {
    seq(|keys|, i requires 0 <= i < |keys| =>
      if keys[i].Missing? then Missing else ApplyOp(op, Pick(vals, UpTo(keys, i))))
  }

  /** The shifted-then-aggregated historical feature of the pipeline:
      `groupby(keys)[vals].shift(1)` followed by `groupby(keys)...transform(op)`. */
  function History(keys: Column, vals: Column, op: Op): (r: Column)
    requires |keys| == |vals|
    ensures |r| == |keys|
  {
    GroupApply(keys, GroupApply(keys, vals, Shift), op)
  }

  /** The shift of a series: a missing value in front, the last value dropped. */
  function ShiftSeq(t: Column): (r: Column)
    ensures |r| == |t|
  {
    if t == [] then [] else [Missing] + t[..|t| - 1]
  }

  lemma PickAppend(col: Column, idx: seq<nat>, j: nat)
    requires forall k :: 0 <= k < |idx| ==> idx[k] < |col|
    requires j < |col|
    ensures Pick(col, idx + [j]) == Pick(col, idx) + [col[j]]
  {
  }

  lemma ShiftSeqAppend(t: Column, x: Cell)
    ensures ShiftSeq(t + [x]) == ShiftSeq(t) + [if t == [] then Missing else t[|t| - 1]]
  {
    if t != [] {
      assert (t + [x])[..|t|] == t;
      assert t == t[..|t| - 1] + [t[|t| - 1]];
    }
  }

  /** The value of the group member before row j, missing for the first member. */
  function PrevInGroup(keys: Column, v: Column, key: Cell, j: nat): Cell
    requires |keys| == |v| && j <= |keys|
  {
    var m := Members(keys, key, j);
    if m == [] then Missing else v[m[|m| - 1]]
  }

  /** The shifted value at a member row is the group's previous value. */
  lemma ShiftAtMember(keys: Column, v: Column, j: nat)
    requires |keys| == |v| && j < |keys| && !keys[j].Missing?
    ensures GroupApply(keys, v, Shift)[j] == PrevInGroup(keys, v, keys[j], j)
  {
    var m := Members(keys, keys[j], j);
    assert UpTo(keys, j) == m + [j];
    PickAppend(v, m, j);
    var s := Pick(v, UpTo(keys, j));
    assert s == Pick(v, m) + [v[j]];
    if m != [] {
      assert s[|s| - 2] == v[m[|m| - 1]];
    }
    assert GroupApply(keys, v, Shift)[j] == ApplyOp(Shift, s);
  }

  lemma ShiftExtend(s: Column, v: Column, m: seq<nat>, j: nat)
    requires forall k :: 0 <= k < |m| ==> m[k] < |s| && m[k] < |v|
    requires j < |s| && j < |v|
    requires Pick(s, m) == ShiftSeq(Pick(v, m))
    requires s[j] == if m == [] then Missing else v[m[|m| - 1]]
    ensures Pick(s, m + [j]) == ShiftSeq(Pick(v, m + [j]))
  {
    PickAppend(s, m, j);
    PickAppend(v, m, j);
    ShiftSeqAppend(Pick(v, m), v[j]);
  }

  /** Along the rows `m`, the column `s` is the shift of the column `v`. */
  predicate ShiftedAlong(s: Column, v: Column, m: seq<nat>)
    requires forall k :: 0 <= k < |m| ==> m[k] < |s| && m[k] < |v|
  {
    Pick(s, m) == ShiftSeq(Pick(v, m))
  }

  /** Any column that holds each member's previous group value is, along the
      group, the shift of the group's series. */
  lemma {:induction false} ShiftAlong(keys: Column, v: Column, s: Column, key: Cell, n: nat)
    requires |keys| == |v| == |s| && n <= |keys|
    requires forall j {:trigger PrevInGroup(keys, v, key, j)} :: 0 <= j < n && keys[j] == key ==> s[j] == PrevInGroup(keys, v, key, j)
    ensures ShiftedAlong(s, v, Members(keys, key, n))
  {
    if n > 0 {
      ShiftAlong(keys, v, s, key, n - 1);
      if keys[n - 1] == key {
        assert s[n - 1] == PrevInGroup(keys, v, key, n - 1);
      }
      ShiftStep(keys, v, s, key, n);
    }
  }

  /** One more row of the key extends the shifted series by its previous group value. */
  lemma ShiftStep(keys: Column, v: Column, s: Column, key: Cell, n: nat)
    requires |keys| == |v| == |s| && 0 < n <= |keys|
    requires ShiftedAlong(s, v, Members(keys, key, n - 1))
    requires keys[n - 1] == key ==> s[n - 1] == PrevInGroup(keys, v, key, n - 1)
    ensures ShiftedAlong(s, v, Members(keys, key, n))
  {
    var m := Members(keys, key, n - 1);
    if keys[n - 1] == key {
      assert Members(keys, key, n) == m + [n - 1];
      ShiftExtend(s, v, m, n - 1);
    } else {
      assert Members(keys, key, n) == m;
    }
  }

  /** Along one group, the grouped shift is the shift of the group's series. */
  lemma ShiftAlongGroup(keys: Column, v: Column, key: Cell, n: nat)
    requires |keys| == |v| && n <= |keys| && !key.Missing?
    ensures Pick(GroupApply(keys, v, Shift), Members(keys, key, n)) == ShiftSeq(Pick(v, Members(keys, key, n)))
  {
    var s := GroupApply(keys, v, Shift);
    forall j | 0 <= j < n && keys[j] == key
      ensures s[j] == PrevInGroup(keys, v, key, j)
    {
      ShiftAtMember(keys, v, j);
    }
    ShiftAlong(keys, v, s, key, n);
  }

  /** Row i's group series of a shifted column: missing, then the group's values
      strictly before row i. The current row's own value is gone. */
  lemma ShiftedGroupSeries(keys: Column, v: Column, i: nat)
    requires |keys| == |v| && i < |keys| && !keys[i].Missing?
    ensures Pick(GroupApply(keys, v, Shift), UpTo(keys, i)) == [Missing] + Pick(v, Before(keys, i))
  {
    ShiftAlongGroup(keys, v, keys[i], i + 1);
    UpToIsBeforeAndSelf(keys, i);
    var b := Before(keys, i);
    assert Pick(v, b + [i]) == Pick(v, b) + [v[i]];
    assert (Pick(v, b) + [v[i]])[..|b|] == Pick(v, b);
  }

  /** What a historical feature is: the operator applied to a missing value
      followed by the values of the same-slot rows strictly before row i. */
  lemma HistoryAt(keys: Column, v: Column, op: Op, i: nat)
    requires |keys| == |v| && i < |keys|
    ensures History(keys, v, op)[i] ==
      if keys[i].Missing? then Missing else ApplyOp(op, [Missing] + Pick(v, Before(keys, i)))
  {
    if !keys[i].Missing? {
      ShiftedGroupSeries(keys, v, i);
    }
  }

  /** No lookahead: a historical feature of row i is unchanged by anything in
      row i's own values or in any later row, so removing or editing later
      fights, or the current fight's outcome and statistics, leaves it as it is. */
  lemma NoLookahead(keys1: Column, v1: Column, keys2: Column, v2: Column, op: Op, i: nat)
    requires |keys1| == |v1| && |keys2| == |v2| && i < |keys1| && i < |keys2|
    requires keys1[..i + 1] == keys2[..i + 1]
    requires v1[..i] == v2[..i]
    ensures History(keys1, v1, op)[i] == History(keys2, v2, op)[i]
  {
    HistoryAt(keys1, v1, op, i);
    HistoryAt(keys2, v2, op, i);
    SameEarlierSeries(keys1, v1, keys2, v2, i);
  }

  /** Equal keys up to row i and equal values before it give row i the same key
      and the same earlier group values. */
  lemma SameEarlierSeries(keys1: Column, v1: Column, keys2: Column, v2: Column, i: nat)
    requires |keys1| == |v1| && |keys2| == |v2| && i < |keys1| && i < |keys2|
    requires keys1[..i + 1] == keys2[..i + 1]
    requires v1[..i] == v2[..i]
    ensures keys1[i] == keys2[i]
    ensures !keys1[i].Missing? ==> Pick(v1, Before(keys1, i)) == Pick(v2, Before(keys2, i))
  {
    assert keys1[i] == keys1[..i + 1][i] && keys2[i] == keys2[..i + 1][i];
    if !keys1[i].Missing? {
      assert keys1[..i] == keys2[..i] by {
        assert keys1[..i] == keys1[..i + 1][..i] && keys2[..i] == keys2[..i + 1][..i];
      }
      MembersOfPrefix(keys1, keys2, keys1[i], i);
      var b := Before(keys1, i);
      assert b == Before(keys2, i);
      forall k | 0 <= k < |b|
        ensures v1[b[k]] == v2[b[k]]
      {
        assert v1[b[k]] == v1[..i][b[k]] && v2[b[k]] == v2[..i][b[k]];
      }
    }
  }

  /** A shifted rolling mean over window w is the mean of the defined values
      among the w same-slot rows immediately before the current one. */
  lemma RollingAfterShift(t: Column, w: nat)
    ensures ApplyOp(Rolling(w), [Missing] + t) == Mean(LastK(t, w))
  {
    var s := [Missing] + t;
    if |s| <= w {
      MeanSkipsMissing(t);
    } else if w > 0 {
      assert LastK(s, w) == LastK(t, w);
    }
  }

  /** A shifted expanding mean is the mean of all earlier same-slot values. */
  lemma ExpandingAfterShift(t: Column)
    ensures ApplyOp(Expanding, [Missing] + t) == Mean(t)
  {
    MeanSkipsMissing(t);
  }

  /** A shifted zero-filled cumulative sum is the sum of the earlier values. */
  lemma SumAfterShift(t: Column)
    ensures ApplyOp(ZeroFilledSum, [Missing] + t) == Num(Sum(Nums(t)))
  {
    NumsAppend([Missing], t);
    assert Nums([Missing]) == [];
    assert Nums([Missing] + t) == Nums(t);
  }

  // ---------------------------------------------------------------------------
  // calc_streak

  lemma {:induction false} NonHitsMonotone(s: Column, t: real, m: nat, n: nat)
    requires m <= n <= |s|
    ensures NonHits(s, t, m) <= NonHits(s, t, n)
    decreases n - m
  {
    if m < n { NonHitsMonotone(s, t, m, n - 1); }
  }

  lemma {:induction false} CountRunAbove(s: Column, t: real, v: nat, m: nat)
    requires m <= |s|
    requires forall q :: 0 <= q < m ==> RunId(s, t, q) < v
    ensures CountRun(s, t, v, m) == 0
  {
    if m > 0 { CountRunAbove(s, t, v, m - 1); }
  }

  /** A position that breaks the run starts a new run label. */
  lemma RunRankAtBreak(s: Column, t: real, p: nat)
    requires p < |s| && !Hit(s[p], t)
    ensures RunRank(s, t, p) == 0
  {
    forall q | 0 <= q < p
      ensures RunId(s, t, q) < RunId(s, t, p)
    {
      NonHitsMonotone(s, t, q + 1, p);
    }
    CountRunAbove(s, t, RunId(s, t, p), p);
  }

  /** Within a run, the rank grows by one per position. */
  lemma RunRankStep(s: Column, t: real, p: nat)
    requires 0 < p < |s| && Hit(s[p], t)
    ensures RunRank(s, t, p) == RunRank(s, t, p - 1) + 1
  {
  }

  /** calc_streak as a run length: 0 off a hit; on a hit, the number of
      consecutive hits ending here when an earlier position broke the run, and
      one less (the position itself) when the run reaches back to the start. */
  lemma {:induction false} StreakIsRunLength(s: Column, t: real, p: nat)
    requires p < |s|
    ensures CalcStreak(s, t)[p] ==
      if !Hit(s[p], t) then 0
      else if NonHits(s, t, p) > 0 then TrailingHits(s, t, p + 1)
      else p
  {
    if Hit(s[p], t) && p > 0 {
      RunRankStep(s, t, p);
      StreakIsRunLength(s, t, p - 1);
      if !Hit(s[p - 1], t) {
        RunRankAtBreak(s, t, p - 1);
      }
    }
  }

  /** The recurrence of calc_streak: a hit after a hit extends the streak by one. */
  lemma StreakRecurrence(s: Column, t: real, p: nat)
    requires 0 < p < |s| && Hit(s[p], t) && Hit(s[p - 1], t)
    ensures CalcStreak(s, t)[p] == CalcStreak(s, t)[p - 1] + 1
  {
    StreakIsRunLength(s, t, p);
    StreakIsRunLength(s, t, p - 1);
  }

  /** A win streak and a loss streak are never both positive at one position. */
  lemma StreaksExclusive(s: Column, p: nat)
    requires p < |s|
    ensures CalcStreak(s, 1.0)[p] == 0 || CalcStreak(s, 0.0)[p] == 0
  {
  }

  lemma {:induction false} TrailingHitsShift(u: Column, t: real, n: nat)
    requires n <= |u| && t != 0.5
    ensures TrailingHits([Missing] + u, t, n + 1) == TrailingHits(u, t, n)
  {
    assert ([Missing] + u)[n] == if n == 0 then Missing else u[n - 1];
    if n > 0 && Hit(u[n - 1], t) {
      TrailingHitsShift(u, t, n - 1);
    }
  }

  lemma {:induction false} NonHitsPositive(s: Column, t: real, n: nat)
    requires 0 < n <= |s| && !Hit(s[0], t)
    ensures NonHits(s, t, n) > 0
  {
    NonHitsMonotone(s, t, 1, n);
  }

  /** In the pipeline the streak runs over the shifted series, whose front is
      missing: a row's streak is the number of consecutive wins (t = 1) or
      losses (t = 0) immediately before it, and 0 on a first appearance. */
  lemma StreakAfterShift(u: Column, t: real)
    requires t == 1.0 || t == 0.0
    ensures ApplyOp(Streak(t), [Missing] + u) == Num(TrailingHits(u, t, |u|) as real)
  {
    var s := [Missing] + u;
    assert !Hit(s[0], t);
    StreakIsRunLength(s, t, |u|);
    TrailingHitsShift(u, t, |u|);
    if |u| > 0 {
      NonHitsPositive(s, t, |u|);
      assert s[|u|] == u[|u| - 1];
    }
  }
  // ---------------------------------------------------------------------------
  // Reading single operators off a group

  /** Row i's value under an operator: the operator on the group's earlier
      values followed by row i's own value. */
  lemma OpAt(keys: Column, v: Column, op: Op, i: nat)
    requires |keys| == |v| && i < |keys| && !keys[i].Missing?
    ensures GroupApply(keys, v, op)[i] == ApplyOp(op, Pick(v, Before(keys, i)) + [v[i]])
  {
    UpToIsBeforeAndSelf(keys, i);
    PickAppend(v, Before(keys, i), i);
  }

  /** `groupby(keys).cumcount()`: the number of earlier rows of the group. */
  lemma CumCountAt(keys: Column, v: Column, i: nat)
    requires |keys| == |v| && i < |keys| && !keys[i].Missing?
    ensures GroupApply(keys, v, CumCount)[i] == Num(|Before(keys, i)| as real)
  {
    OpAt(keys, v, CumCount, i);
  }

  /** `groupby(keys)[v].diff()`: the difference to the previous row of the group,
      missing on the group's first row. */
  lemma DiffAt(keys: Column, v: Column, i: nat)
    requires |keys| == |v| && i < |keys| && !keys[i].Missing?
    ensures GroupApply(keys, v, Diff)[i] == Minus(v[i], PrevInGroup(keys, v, keys[i], i))
  {
    var m := Before(keys, i);
    OpAt(keys, v, Diff, i);
    var t := Pick(v, m);
    DiffOfAppend(t, v[i]);
    assert m == Members(keys, keys[i], i);
    if m != [] {
      assert t[|t| - 1] == v[m[|m| - 1]];
    }
  }

  /** The difference at the end of a series: its last value minus the one
      before, missing when there is none before. */
  lemma DiffOfAppend(t: Column, x: Cell)
    ensures ApplyOp(Diff, t + [x]) == Minus(x, if t == [] then Missing else t[|t| - 1])
  {
    var s := t + [x];
    assert s[|s| - 1] == x;
    if t != [] {
      assert s[|s| - 2] == t[|t| - 1];
    }
  }

  /** A forward fill keeps a defined value in place. */
  lemma FFillAtDefined(keys: Column, v: Column, i: nat)
    requires |keys| == |v| && i < |keys| && !keys[i].Missing? && !v[i].Missing?
    ensures GroupApply(keys, v, FFill)[i] == v[i]
  {
    UpToIsBeforeAndSelf(keys, i);
    PickAppend(v, Before(keys, i), i);
  }

  /** A forward-filled value comes from a row of the same group at or above row i. */
  lemma FFillSource(keys: Column, v: Column, i: nat) returns (j: nat)
    requires |keys| == |v| && i < |keys| && GroupApply(keys, v, FFill)[i] != Missing
    ensures j <= i && keys[j] == keys[i] && GroupApply(keys, v, FFill)[i] == v[j]
  {
    var u := UpTo(keys, i);
    var c := GroupApply(keys, v, FFill)[i];
    assert c in Pick(v, u);
    var k :| 0 <= k < |u| && Pick(v, u)[k] == c;
    j := u[k];
  }

  /** A forward fill carries the most recent defined value of the group: the
      result at row i is v[j] for the last same-group row j <= i with a defined
      value, and it is missing exactly when no same-group row up to i has one. */
  lemma FFillLatest(keys: Column, v: Column, i: nat) returns (j: nat)
    requires |keys| == |v| && i < |keys| && !keys[i].Missing?
    ensures GroupApply(keys, v, FFill)[i] == Missing ==>
      forall q :: 0 <= q <= i && keys[q] == keys[i] ==> v[q] == Missing
    ensures GroupApply(keys, v, FFill)[i] != Missing ==>
      j <= i && keys[j] == keys[i] && GroupApply(keys, v, FFill)[i] == v[j] &&
      forall q :: j < q <= i && keys[q] == keys[i] ==> v[q] == Missing
  {
    var u := UpTo(keys, i);
    FFillAt(keys, v, i);
    var c := LastDefined(Pick(v, u));
    var x0 := PickLastDefined(v, u);
    j := if c != Missing then u[x0] else 0;
    forall q | 0 <= q <= i && keys[q] == keys[i] && (c == Missing || j < q)
      ensures v[q] == Missing
    {
      var x := UpToIndex(keys, i, q);
    }
  }

  /** Over increasing positions, the last defined picked value sits at position
      u[x] and every later listed position holds a missing value. */
  lemma PickLastDefined(v: Column, u: seq<nat>) returns (x: nat)
    requires Increasing(u) && forall k :: 0 <= k < |u| ==> u[k] < |v|
    ensures LastDefined(Pick(v, u)) == Missing ==> forall y :: 0 <= y < |u| ==> v[u[y]] == Missing
    ensures LastDefined(Pick(v, u)) != Missing ==>
      x < |u| && v[u[x]] == LastDefined(Pick(v, u)) &&
      forall y :: 0 <= y < |u| && u[x] < u[y] ==> v[u[y]] == Missing
  {
    var p := Pick(v, u);
    var k := LastDefinedIsLast(p);
    if LastDefined(p) != Missing {
      x := k;
      forall y | 0 <= y < |u| && u[x] < u[y]
        ensures v[u[y]] == Missing
      {
        IncreasingIndex(u, k, y);
        assert p[y] == v[u[y]];
      }
    } else {
      x := 0;
      forall y | 0 <= y < |u|
        ensures v[u[y]] == Missing
      {
        assert p[y] == v[u[y]];
      }
    }
  }

  /** In an increasing listing, a smaller entry sits at a smaller index. */
  lemma IncreasingIndex(u: seq<nat>, a: int, b: int)
    requires Increasing(u) && 0 <= a < |u| && 0 <= b < |u| && u[a] < u[b]
    ensures a < b
  {
  }

  /** The forward fill at a keyed row is the last defined value of its group up to it. */
  lemma FFillAt(keys: Column, v: Column, i: nat)
    requires |keys| == |v| && i < |keys| && !keys[i].Missing?
    ensures GroupApply(keys, v, FFill)[i] == LastDefined(Pick(v, UpTo(keys, i)))
  {
  }

  /** The position of a same-group row q <= i within the group up to row i. */
  lemma UpToIndex(keys: Column, i: nat, q: nat) returns (x: nat)
    requires i < |keys| && !keys[i].Missing? && q <= i && keys[q] == keys[i]
    ensures x < |UpTo(keys, i)| && UpTo(keys, i)[x] == q
  {
    MembersComplete(keys, keys[i], i + 1, q);
    var m := UpTo(keys, i);
    x :| 0 <= x < |m| && m[x] == q;
  }

  // ---------------------------------------------------------------------------
  // Whole-group aggregates: groupby(keys)[v].transform('min' / 'mean')

  /** All rows of row i's group. */
  function Group(keys: Column, i: nat): (r: seq<nat>)
    requires i < |keys|
    ensures Increasing(r)
    ensures forall k :: 0 <= k < |r| ==> r[k] < |keys| && keys[r[k]] == keys[i]
    ensures !keys[i].Missing? ==> i in r
  {
    if keys[i].Missing? then [] else MembersComplete(keys, keys[i], |keys|, i); Members(keys, keys[i], |keys|)
  }

  /** The earliest date of a series, ignoring missing dates. */
  function MinDate(s: Column): (c: Cell)
    ensures c.Missing? || c.Date?
    ensures c.Date? ==> c in s && forall k :: 0 <= k < |s| && s[k].Date? ==> c.day <= s[k].day
    ensures c.Missing? ==> forall k :: 0 <= k < |s| ==> !s[k].Date?
  {
    if s == [] then Missing
    else
      var m := MinDate(s[1..]);
      assert forall k :: 1 <= k < |s| ==> s[k] == s[1..][k - 1];
      if !s[0].Date? || (m.Date? && m.day < s[0].day) then m else s[0]
  }

  /** `groupby(keys)['DATE'].transform('min')`. */
  function GroupMinDate(keys: Column, dates: Column): (r: Column)
    requires |keys| == |dates|
    ensures |r| == |keys|
    ensures forall i :: 0 <= i < |keys| ==>
      r[i] == if keys[i].Missing? then Missing else MinDate(Pick(dates, Group(keys, i)))
  {
    seq(|keys|, i requires 0 <= i < |keys| =>
      if keys[i].Missing? then Missing else MinDate(Pick(dates, Group(keys, i))))
  }

  /** `groupby(keys)[v].transform('mean')`. */
  function GroupMean(keys: Column, vals: Column): (r: Column)
    requires |keys| == |vals|
    ensures |r| == |keys|
    ensures forall i :: 0 <= i < |keys| ==>
      r[i] == if keys[i].Missing? then Missing else Mean(Pick(vals, Group(keys, i)))
  {
    seq(|keys|, i requires 0 <= i < |keys| =>
      if keys[i].Missing? then Missing else Mean(Pick(vals, Group(keys, i))))
  }

  /** On a date-sorted table the group's earliest date is the date of its first
      row, and that row is row i itself exactly when the group has no earlier row. */
  lemma GroupMinIsFirst(keys: Column, dates: Column, i: nat)
    requires |keys| == |dates| && i < |keys| && !keys[i].Missing?
    requires DateSorted(dates) && dates[i].Date?
    ensures var g := Group(keys, i);
      |g| > 0 && g[0] <= i && GroupMinDate(keys, dates)[i] == dates[g[0]] && dates[g[0]].Date? &&
      (g[0] == i <==> Before(keys, i) == [])
  {
    var g := Group(keys, i);
    var f := g[0];
    assert f <= i by {
      var k :| 0 <= k < |g| && g[k] == i;
    }
    assert DateLe(dates[f], dates[i]) by {
      if f < i { }
    }
    var c := MinDate(Pick(dates, g));
    assert Pick(dates, g)[0] == dates[f];
    var k :| 0 <= k < |g| && Pick(dates, g)[k] == c;
    if k > 0 {
      assert DateLe(dates[f], dates[g[k]]);
    }
    MembersGrow(keys, keys[i], i, |keys|);
    var b := Before(keys, i);
    if b != [] {
      assert b[0] == f;
    } else if f < i {
      MembersComplete(keys, keys[i], i, f);
      assert false;
    }
  }

  // ---------------------------------------------------------------------------
  // Counting 0/1 flags

  /** The number of cells equal to 1. */
  function Ones(s: Column): nat
  {
    if s == [] then 0 else (if s[0] == Num(1.0) then 1 else 0) + Ones(s[1..])
  }

  predicate Flags(s: Column)
  {
    forall k :: 0 <= k < |s| ==> s[k] == Num(0.0) || s[k] == Num(1.0)
  }

  /** Summing 0/1 flags counts the ones. */
  lemma {:induction false} SumOfFlags(s: Column)
    requires Flags(s)
    ensures Sum(Nums(s)) == Ones(s) as real
  {
    if s != [] {
      SumOfFlags(s[1..]);
      NumsAppend([s[0]], s[1..]);
      assert s == [s[0]] + s[1..];
      SumAppend(Nums([s[0]]), Nums(s[1..]));
    }
  }

  /** A sum of non-negative values over a prefix of the rows is at most the sum over all. */
  lemma PrefixSumLe(v: Column, bj: seq<nat>, bi: seq<nat>, hi: real)
    requires InRange(bi, |v|) && |bj| <= |bi| && bj == bi[..|bj|]
    requires NumsIn(v, 0.0, hi)
    ensures Sum(Nums(Pick(v, bj))) <= Sum(Nums(Pick(v, bi)))
  {
    var rest := bi[|bj|..];
    assert bi == bj + rest;
    assert Pick(v, bi) == Pick(v, bj) + Pick(v, rest);
    NumsAppend(Pick(v, bj), Pick(v, rest));
    SumAppend(Nums(Pick(v, bj)), Nums(Pick(v, rest)));
    assert NumsIn(Pick(v, rest), 0.0, hi);
    NumsBounds(Pick(v, rest), 0.0, hi);
    SumBounds(Nums(Pick(v, rest)), 0.0, hi);
  }

  /** Along a group with non-negative values, the sum over earlier rows never decreases. */
  lemma GroupSumMonotone(keys: Column, v: Column, j: nat, i: nat, hi: real)
    requires |keys| == |v| && j < i < |keys| && !keys[i].Missing? && keys[j] == keys[i]
    requires NumsIn(v, 0.0, hi)
    ensures Sum(Nums(Pick(v, Before(keys, j)))) <= Sum(Nums(Pick(v, Before(keys, i))))
  {
    MembersGrow(keys, keys[i], j, i);
    PrefixSumLe(v, Before(keys, j), Before(keys, i), hi);
  }
}
