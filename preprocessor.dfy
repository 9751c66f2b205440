/** Record normalisation: the raw-field parsers, the bout-name split, the
    per-fighter aggregation of round statistics, the weight-class imputation
    and the removal of duplicate rows. */
module Preprocessor {
  import opened Cells
  import opened Text
  import opened Frames
  import opened Groups
  import Helpers

  /** A parser either produces a value or raises `ValueError` (from `int()`). */
  datatype Parsed<T> = Ok(value: T) | ValueError

  /** A raw field: `None` is a missing cell (NaN in the CSV). */
  type Field = Option<string>

  function IntOrError(s: string): Parsed<int>
  {
    match ParseInt(s)
    case Some(n) => Ok(n)
    case None => ValueError
  }

  /** Two integer fields combined as `int(a) * scale + int(b)`; either failing raises. */
  function Combine(a: string, b: string, scale: int): Parsed<int>
  {
    match (IntOrError(a), IntOrError(b))
    case (Ok(x), Ok(y)) => Ok(x * scale + y)
    case _ => ValueError
  }

  lemma CombineOk(a: string, b: string, scale: int, x: int, y: int)
    requires ParseInt(a) == Some(x) && ParseInt(b) == Some(y)
    ensures Combine(a, b, scale) == Ok(x * scale + y)
  {
  }

  // ---------------------------------------------------------------------------
  // Field parsers

  /** `parse_fraction`: "17 of 26" gives (17, 26); missing, "---" and "--" give
      (0, 0), and so does any text that does not split into exactly two parts
      on " of ". */
  function ParseFraction(v: Field): (r: Parsed<(int, int)>)
    ensures v == None || v == Some("---") || v == Some("--") ==> r == Ok((0, 0))
    ensures v.Some? && v.value != "---" && v.value != "--" && |Split(v.value, " of ")| != 2 ==> r == Ok((0, 0))
    ensures v.Some? && v.value != "---" && v.value != "--" && |Split(v.value, " of ")| == 2 ==>
      var parts := Split(v.value, " of ");
      (r.ValueError? <==> ParseInt(parts[0]).None? || ParseInt(parts[1]).None?) &&
      (r.Ok? ==> r.value == (ParseInt(parts[0]).value, ParseInt(parts[1]).value))
  {
    if v == None || v.value == "---" || v.value == "--" then Ok((0, 0))
    else
      var parts := Split(v.value, " of ");
      if |parts| == 2 then
        match (IntOrError(parts[0]), IntOrError(parts[1]))
        case (Ok(a), Ok(b)) => Ok((a, b))
        case _ => ValueError
      else Ok((0, 0))
  }

  /** `parse_time_seconds`: "m:ss" gives m * 60 + ss; missing, "---", "--" and
      "0:00" give 0, and so does any text that is not exactly two ":" parts. */
  function ParseTimeSeconds(v: Field): (r: Parsed<int>)
    ensures v == None || v == Some("---") || v == Some("--") || v == Some("0:00") ==> r == Ok(0)
    ensures v.Some? && v.value != "---" && v.value != "--" && v.value != "0:00" && |Split(v.value, ":")| != 2 ==> r == Ok(0)
    ensures v.Some? && v.value != "---" && v.value != "--" && v.value != "0:00" && |Split(v.value, ":")| == 2 ==>
      var parts := Split(v.value, ":");
      (r.ValueError? <==> ParseInt(parts[0]).None? || ParseInt(parts[1]).None?) &&
      (r.Ok? ==> r.value == ParseInt(parts[0]).value * 60 + ParseInt(parts[1]).value)
  {
    if v == None || v.value == "---" || v.value == "--" || v.value == "0:00" then Ok(0)
    else
      var parts := Split(v.value, ":");
      if |parts| == 2 then
        Combine(parts[0], parts[1], 60)
      else Ok(0)
  }

  /** `parse_height_inches`: 5' 9" gives 69; missing or "--" give a missing
      height, and so does anything that is not two parts around "'" once the
      double quotes are removed. */
  function ParseHeightInches(v: Field): (r: Parsed<Option<int>>)
    ensures v == None || v == Some("--") ==> r == Ok(None)
    ensures v.Some? && v.value != "--" && |Split(Replace(v.value, "\"", ""), "'")| != 2 ==> r == Ok(None)
    ensures v.Some? && v.value != "--" && |Split(Replace(v.value, "\"", ""), "'")| == 2 ==>
      var parts := Split(Replace(v.value, "\"", ""), "'");
      (r.ValueError? <==> ParseInt(Strip(parts[0])).None? || ParseInt(Strip(parts[1])).None?) &&
      (r.Ok? ==> r.value == Some(ParseInt(Strip(parts[0])).value * 12 + ParseInt(Strip(parts[1])).value))
  {
    if v == None || v.value == "--" then Ok(None)
    else
      var parts := Split(Replace(v.value, "\"", ""), "'");
      if |parts| == 2 then
        var feet, inches := ParseInt(Strip(parts[0])), ParseInt(Strip(parts[1]));
        if feet.Some? && inches.Some? then Ok(Some(feet.value * 12 + inches.value))
        else ValueError
      else Ok(None)
  }

  /** `parse_weight_lbs`: "125 lbs." gives 125; missing or "--" give a missing weight. */
  function ParseWeightLbs(v: Field): (r: Parsed<Option<int>>)
    ensures v == None || v == Some("--") ==> r == Ok(None)
    ensures v.Some? && v.value != "--" ==>
      (r.ValueError? <==> ParseInt(Replace(v.value, " lbs.", "")).None?) &&
      (r.Ok? ==> r.value == ParseInt(Replace(v.value, " lbs.", "")))
  {
    if v == None || v.value == "--" then Ok(None)
    else
      match IntOrError(Replace(v.value, " lbs.", ""))
      case Ok(n) => Ok(Some(n))
      case ValueError => ValueError
  }

  /** `parse_reach_inches`: 68" gives 68; missing or "--" give a missing reach. */
  function ParseReachInches(v: Field): (r: Parsed<Option<int>>)
    ensures v == None || v == Some("--") ==> r == Ok(None)
    ensures v.Some? && v.value != "--" ==>
      (r.ValueError? <==> ParseInt(Replace(v.value, "\"", "")).None?) &&
      (r.Ok? ==> r.value == ParseInt(Replace(v.value, "\"", "")))
  {
    if v == None || v.value == "--" then Ok(None)
    else
      match IntOrError(Replace(v.value, "\"", ""))
      case Ok(n) => Ok(Some(n))
      case ValueError => ValueError
  }

  // ---------------------------------------------------------------------------
  // Round trips: rendering a value in the site's format and parsing it back

  /** A digit string contains no occurrence of a separator that starts with a non-digit. */
  lemma DigitsAvoid(a: string, t: string, sep: string)
    requires AllDigits(a) && |sep| > 0 && !IsDigit(sep[0])
    ensures forall k: nat :: k < |a| ==> !OccursAt(a + t, sep, k)
    ensures !Contains(a, sep)
  {
    NoStartIn(a, t, sep);
    NoCharNoContains(a, sep);
  }

  lemma SplitDigitsPair(a: string, b: string, sep: string)
    requires AllDigits(a) && AllDigits(b) && |sep| > 0 && !IsDigit(sep[0])
    ensures Split(a + sep + b, sep) == [a, b]
  {
    DigitsAvoid(a, sep + b, sep);
    assert a + sep + b == a + (sep + b);
    DigitsAvoid(b, "", sep);
    SplitPair(a, b, sep);
  }

  /** "a of b" parses back to (a, b). */
  lemma FractionRoundTrip(a: nat, b: nat)
    ensures ParseFraction(Some(NatStr(a) + " of " + NatStr(b))) == Ok((a, b))
  {
    var s := NatStr(a) + " of " + NatStr(b);
    assert s != "---" && s != "--" by { assert |s| >= 6; }
    SplitDigitsPair(NatStr(a), NatStr(b), " of ");
    ParseNatStr(a);
    ParseNatStr(b);
  }

  lemma TimeFromParts(s: string, m: string, ss: string, a: int, b: int)
    requires s != "---" && s != "--" && s != "0:00" && Split(s, ":") == [m, ss]
    requires ParseInt(m) == Some(a) && ParseInt(ss) == Some(b)
    ensures ParseTimeSeconds(Some(s)) == Ok(a * 60 + b)
  {
    CombineOk(m, ss, 60, a, b);
  }

  /** Seconds below 60 written with two digits, as in "0:04". */
  function Pad2(n: nat): (r: string)
    requires n < 60
    ensures |r| == 2 && AllDigits(r)
  {
    [DigitChar(n / 10), DigitChar(n % 10)]
  }

  lemma ParsePad2(n: nat)
    requires n < 60
    ensures ParseInt(Pad2(n)) == Some(n)
  {
    var hi, lo := n / 10, n % 10;
    assert n == 10 * hi + lo;
    var r := Pad2(n);
    assert r == [DigitChar(hi), DigitChar(lo)];
    var first := r[..1];
    assert first == [DigitChar(hi)] && first[..0] == [];
    assert DigitsValue(first) == hi;
    assert r[..|r| - 1] == first;
    assert DigitsValue(r) == 10 * hi + lo;
    ParseDigits(r);
  }

  /** Only 0 minutes and 0 seconds are written "0:00". */
  lemma ZeroTimeText(mins: nat, secs: nat)
    requires secs < 60 && NatStr(mins) + ":" + Pad2(secs) == "0:00"
    ensures mins == 0 && secs == 0
  {
    var m := NatStr(mins);
    var s := m + ":" + Pad2(secs);
    assert s[|m|] == ':';
    assert |m| == 1;
    assert m == s[..1];
    assert Pad2(secs) == s[2..];
    NatStrValue(mins);
    ParsePad2(secs);
  }

  /** Text in "m:ss" form is none of the placeholders except possibly "0:00". */
  lemma TimeTextNotPlaceholder(m: string, ss: string)
    requires |ss| == 2
    ensures m + ":" + ss != "---" && m + ":" + ss != "--"
  {
    var s := m + ":" + ss;
    assert s[|m|] == ':';
  }

  /** "m:ss" parses back to m * 60 + ss (so "0:04" gives 4, and "0:00", which
      is special-cased to 0, agrees). */
  lemma TimeRoundTrip(mins: nat, secs: nat)
    requires secs < 60
    ensures ParseTimeSeconds(Some(NatStr(mins) + ":" + Pad2(secs))) == Ok(mins * 60 + secs)
  {
    var m := NatStr(mins);
    var ss := Pad2(secs);
    var s := m + ":" + ss;
    if s == "0:00" {
      ZeroTimeText(mins, secs);
    } else {
      TimeTextNotPlaceholder(m, ss);
      SplitDigitsPair(m, ss, ":");
      ParseNatStr(mins);
      ParsePad2(secs);
      TimeFromParts(s, m, ss, mins, secs);
    }
  }

  lemma TimeExample()
    ensures ParseTimeSeconds(Some("0:04")) == Ok(4)
  {
    assert NatStr(0) == "0";
    assert Pad2(4) == "04";
    assert NatStr(0) + ":" + Pad2(4) == "0:04";
    TimeRoundTrip(0, 4);
  }

  lemma HeightFromParts(s: string, p0: string, p1: string, a: int, b: int)
    requires s != "--" && Split(Replace(s, "\"", ""), "'") == [p0, p1]
    requires ParseInt(Strip(p0)) == Some(a) && ParseInt(Strip(p1)) == Some(b)
    ensures ParseHeightInches(Some(s)) == Ok(Some(a * 12 + b))
  {
    var v: Field := Some(s);
    var parts := Split(Replace(v.value, "\"", ""), "'");
    assert |parts| == 2 && Strip(parts[0]) == Strip(p0) && Strip(parts[1]) == Strip(p1);
    var r := ParseHeightInches(v);
    assert r.Ok? && r.value == Some(a * 12 + b);
  }

  /** No character of `s` is `c`. */
  predicate Avoids(s: string, c: char)
  {
    forall k :: 0 <= k < |s| ==> s[k] != c
  }

  lemma DigitsAvoidChar(s: string, c: char)
    requires AllDigits(s) && !IsDigit(c)
    ensures Avoids(s, c)
  {
  }

  lemma AvoidsConcat(a: string, b: string, c: char)
    requires Avoids(a, c) && Avoids(b, c)
    ensures Avoids(a + b, c)
  {
    forall k | 0 <= k < |a + b|
      ensures (a + b)[k] != c
    {
      if k < |a| {
        assert (a + b)[k] == a[k];
      } else {
        assert (a + b)[k] == b[k - |a|];
      }
    }
  }

  /** The text F' I" before its closing double quote. */
  lemma HeightBody(f: string, i: string)
    requires AllDigits(f) && AllDigits(i)
    ensures Avoids(f + "'" + (" " + i), '"')
    ensures Avoids(" " + i, '\'')
  {
    DigitsAvoidChar(f, '"');
    DigitsAvoidChar(i, '"');
    DigitsAvoidChar(i, '\'');
    AvoidsConcat(f, "'", '"');
    AvoidsConcat(" ", i, '"');
    AvoidsConcat(f + "'", " " + i, '"');
    AvoidsConcat(" ", i, '\'');
  }

  lemma HeightText(f: string, i: string)
    ensures f + "' " + i + "\"" == (f + "'" + (" " + i)) + "\""
  {
    assert f + "' " + i == f + "'" + (" " + i);
  }

  lemma HeightUnquote(f: string, i: string)
    requires AllDigits(f) && AllDigits(i)
    ensures Replace(f + "' " + i + "\"", "\"", "") == f + "'" + (" " + i)
  {
    var body := f + "'" + (" " + i);
    HeightText(f, i);
    HeightBody(f, i);
    NoStartIn(body, "\"", "\"");
    ReplaceDropsSuffix(body, "\"");
  }

  lemma HeightSplit(f: string, i: string)
    requires AllDigits(f) && AllDigits(i)
    ensures Split(f + "'" + (" " + i), "'") == [f, " " + i]
  {
    HeightBody(f, i);
    DigitsAvoid(f, "'" + (" " + i), "'");
    assert f + "'" + (" " + i) == f + ("'" + (" " + i));
    NoCharNoContains(" " + i, "'");
    SplitPair(f, " " + i, "'");
  }

  lemma HeightFields(feet: nat, inches: nat)
    ensures ParseInt(Strip(NatStr(feet))) == Some(feet)
    ensures ParseInt(Strip(" " + NatStr(inches))) == Some(inches)
  {
    var f := NatStr(feet);
    var i := NatStr(inches);
    DigitsNoSpace(f);
    StripNoSpace(f);
    ParseNatStr(feet);
    StripLeadingSpace(i);
    DigitsNoSpace(i);
    StripNoSpace(i);
    ParseNatStr(inches);
  }

  /** F' I" parses back to F * 12 + I (so 5' 9" gives 69). */
  lemma HeightRoundTrip(feet: nat, inches: nat)
    ensures ParseHeightInches(Some(NatStr(feet) + "' " + NatStr(inches) + "\"")) == Ok(Some(feet * 12 + inches))
  {
    var f := NatStr(feet);
    var i := NatStr(inches);
    var s := f + "' " + i + "\"";
    assert s != "--" by { assert |s| >= 5; }
    HeightUnquote(f, i);
    HeightSplit(f, i);
    HeightFields(feet, inches);
    HeightFromParts(s, f, " " + i, feet, inches);
  }

  /** "N lbs." parses back to N. */
  lemma WeightRoundTrip(n: nat)
    ensures ParseWeightLbs(Some(NatStr(n) + " lbs.")) == Ok(Some(n))
  {
    DigitsAvoid(NatStr(n), " lbs.", " lbs.");
    ReplaceDropsSuffix(NatStr(n), " lbs.");
    ParseNatStr(n);
    assert NatStr(n) + " lbs." != "--";
  }

  /** N" parses back to N. */
  lemma ReachRoundTrip(n: nat)
    ensures ParseReachInches(Some(NatStr(n) + "\"")) == Ok(Some(n))
  {
    DigitsAvoid(NatStr(n), "\"", "\"");
    ReplaceDropsSuffix(NatStr(n), "\"");
    ParseNatStr(n);
    assert NatStr(n) + "\"" != "--";
  }

  // ---------------------------------------------------------------------------
  // Fighter names from the bout string (lines 66 and 76-78)

  const VsSep := " vs. "

  /** `str.strip()` on one cell: text loses its surrounding whitespace; any
      other cell, NaN included, becomes NaN. */
  function StripCell(c: Cell): (r: Cell)
    ensures r.Text? <==> c.Text?
    ensures !c.Text? ==> r == Missing
    ensures c.Text? ==> r.s == Strip(c.s)
  {
    if c.Text? then Text(Strip(c.s)) else Missing
  }

  function StripCol(col: Column): (r: Column)
    ensures |r| == |col|
    ensures forall i :: 0 <= i < |col| ==> r[i] == StripCell(col[i])
  {
    seq(|col|, i requires 0 <= i < |col| => StripCell(col[i]))
  }

  /** The pieces of one bout cell split on " vs. "; a cell that is not text has none. */
  function BoutParts(bout: Cell): (r: seq<string>)
    ensures bout.Text? <==> |r| >= 1
  {
    if bout.Text? then Split(bout.s, VsSep) else []
  }

  /** The number of columns `str.split(" vs. ", expand=True)` produces: the most
      pieces of any row (0 when no row is text). */
  function SplitWidth(bouts: Column): (w: nat)
    ensures forall i :: 0 <= i < |bouts| ==> |BoutParts(bouts[i])| <= w
    ensures w > 0 ==> exists i :: 0 <= i < |bouts| && |BoutParts(bouts[i])| == w
  {
    if bouts == [] then 0
    else
      var init := bouts[..|bouts| - 1];
      var w0 := SplitWidth(init);
      var n := |BoutParts(bouts[|bouts| - 1])|;
      assert forall i :: 0 <= i < |init| ==> init[i] == bouts[i];
      if n > w0 then n else w0
  }

  /** Piece k of the split, stripped; a row with fewer pieces gets NaN there. */
  function NamePart(bout: Cell, k: nat): (r: Cell)
    ensures r != Missing <==> k < |BoutParts(bout)|
    ensures r != Missing ==> r == Text(Strip(BoutParts(bout)[k]))
  {
    var parts := BoutParts(bout);
    if k < |parts| then Text(Strip(parts[k])) else Missing
  }

  /** Assigning the expanded split to the two name columns raises unless it is
      exactly two columns wide; otherwise row i gets its first and second piece. */
  function SplitBouts(bouts: Column): (r: Parsed<(Column, Column)>)
    ensures r.Ok? <==> SplitWidth(bouts) == 2
    ensures r.Ok? ==> |r.value.0| == |bouts| && |r.value.1| == |bouts|
    ensures r.Ok? ==> forall i :: 0 <= i < |bouts| ==>
      r.value.0[i] == NamePart(bouts[i], 0) && r.value.1[i] == NamePart(bouts[i], 1)
  {
    if SplitWidth(bouts) != 2 then ValueError
    else
      Ok((seq(|bouts|, i requires 0 <= i < |bouts| => NamePart(bouts[i], 0)),
          seq(|bouts|, i requires 0 <= i < |bouts| => NamePart(bouts[i], 1))))
  }

  /** "A vs. B" names A and B, each trimmed, when neither side holds the separator. */
  lemma BoutRoundTrip(a: string, b: string)
    requires !Contains(a + " vs.", VsSep) && !Contains(b, VsSep)
    ensures NamePart(Text(a + VsSep + b), 0) == Text(Strip(a))
    ensures NamePart(Text(a + VsSep + b), 1) == Text(Strip(b))
    ensures NamePart(Text(a + VsSep + b), 2) == Missing
  {
    assert VsSep[..|VsSep| - 1] == " vs.";
    NoStartBeforeSep(a, b, VsSep);
    SplitPair(a, b, VsSep);
  }

  /** A bout string without the separator names fighter 1 only; fighter 2 is NaN. */
  lemma SingleNameBout(s: string)
    requires !Contains(s, VsSep)
    ensures NamePart(Text(s), 0) == Text(Strip(s)) && NamePart(Text(s), 1) == Missing
  {
    SplitNoSep(s, VsSep);
  }

  /** A table whose bouts all read "A vs. B" splits without error into those names. */
  lemma SplitWellFormed(bouts: Column, left: seq<string>, right: seq<string>)
    requires |bouts| > 0 && |left| == |bouts| && |right| == |bouts|
    requires forall i :: 0 <= i < |bouts| ==> bouts[i] == Text(left[i] + VsSep + right[i])
    requires forall i :: 0 <= i < |bouts| ==> !Contains(left[i] + " vs.", VsSep) && !Contains(right[i], VsSep)
    ensures SplitBouts(bouts).Ok?
    ensures forall i :: 0 <= i < |bouts| ==>
      SplitBouts(bouts).value.0[i] == Text(Strip(left[i])) && SplitBouts(bouts).value.1[i] == Text(Strip(right[i]))
  {
    forall i | 0 <= i < |bouts|
      ensures |BoutParts(bouts[i])| == 2
      ensures NamePart(bouts[i], 0) == Text(Strip(left[i])) && NamePart(bouts[i], 1) == Text(Strip(right[i]))
    {
      BoutRoundTrip(left[i], right[i]);
    }
    assert |BoutParts(bouts[0])| == 2;
  }

  /** Lines 66 and 76-78: BOUT is stripped, then split into `fighter1_name` and
      `fighter2_name`; `ok` is false where the assignment raises. */
  method SplitBoutNames(f: Frame) returns (ok: bool)
    requires f.Valid() && "BOUT" in f.cols
    modifies f
    ensures f.Valid() && f.rows == old(f.rows)
    ensures var bouts := StripCol(old(f.cols)["BOUT"]);
      var r := SplitBouts(bouts);
      ok == r.Ok? &&
      f.cols == if r.Ok? then old(f.cols)["BOUT" := bouts]["fighter1_name" := r.value.0]["fighter2_name" := r.value.1]
                else old(f.cols)["BOUT" := bouts]
  {
    var bouts := StripCol(f.cols["BOUT"]);
    f.Set("BOUT", bouts);
    var r := SplitBouts(bouts);
    if r.ValueError? {
      return false;
    }
    f.Set("fighter1_name", r.value.0);
    f.Set("fighter2_name", r.value.1);
    return true;
  }

  // ---------------------------------------------------------------------------
  // Per-fighter statistics (lines 80-106 and the name-keyed merges at 107-116)

  datatype AggKind = SumAgg | MeanAgg

  /** How each per-round statistic is combined over the rounds of one bout. */
  const AggStats: map<string, AggKind> := map[
    "sig_strikes_landed" := SumAgg, "sig_strikes_attempted" := SumAgg,
    "sig_strikes_pct" := MeanAgg, "total_strikes_landed" := SumAgg,
    "total_strikes_attempted" := SumAgg, "takedowns_landed" := SumAgg,
    "takedowns_attempted" := SumAgg, "takedown_pct" := MeanAgg,
    "control_time_sec" := SumAgg, "head_landed" := SumAgg, "body_landed" := SumAgg,
    "leg_landed" := SumAgg, "distance_landed" := SumAgg, "clinch_landed" := SumAgg,
    "ground_landed" := SumAgg, "KD" := SumAgg, "SUB.ATT" := SumAgg, "REV." := SumAgg]

  /** A fraction-valued statistic: its column, the raw field it is read from, and
      whether it keeps the landed (first) or the attempted (second) number. */
  datatype FractionStat = FractionStat(name: string, field: string, landed: bool)

  const FractionStats: seq<FractionStat> := [
    FractionStat("sig_strikes_landed", "SIG.STR.", true),
    FractionStat("sig_strikes_attempted", "SIG.STR.", false),
    FractionStat("total_strikes_landed", "TOTAL STR.", true),
    FractionStat("total_strikes_attempted", "TOTAL STR.", false),
    FractionStat("takedowns_landed", "TD", true),
    FractionStat("takedowns_attempted", "TD", false),
    FractionStat("head_landed", "HEAD", true),
    FractionStat("body_landed", "BODY", true),
    FractionStat("leg_landed", "LEG", true),
    FractionStat("distance_landed", "DISTANCE", true),
    FractionStat("clinch_landed", "CLINCH", true),
    FractionStat("ground_landed", "GROUND", true)]

  /** One row of the per-round statistics file. `fields` holds the raw text
      fields (an absent name is NaN); `given` holds the columns read as numbers:
      KD, SUB.ATT, REV. and the two percentages. */
  datatype RawStat = RawStat(event: Cell, bout: Cell, fighter: Cell,
                             fields: map<string, Field>, given: map<string, Cell>)

  function FieldOf(fields: map<string, Field>, name: string): Field
  {
    if name in fields then fields[name] else None
  }

  function GivenOf(given: map<string, Cell>, name: string): Cell
  {
    if name in given then given[name] else Missing
  }

  function Side(p: (int, int), landed: bool): int
  {
    if landed then p.0 else p.1
  }

  /** The fraction columns of one row; any field that `int()` rejects raises. */
  function CleanFractions(fields: map<string, Field>, specs: seq<FractionStat>): (r: Parsed<map<string, Cell>>)
    ensures r.Ok? <==> forall k :: 0 <= k < |specs| ==> ParseFraction(FieldOf(fields, specs[k].field)).Ok?
    ensures r.Ok? ==> forall k :: 0 <= k < |specs| ==> specs[k].name in r.value
  {
    if specs == [] then Ok(map[])
    else
      var rest := CleanFractions(fields, specs[1..]);
      assert forall k :: 1 <= k < |specs| ==> specs[1..][k - 1] == specs[k];
      var first := ParseFraction(FieldOf(fields, specs[0].field));
      if first.Ok? && rest.Ok? then
        Ok(rest.value[specs[0].name := Num(Side(first.value, specs[0].landed) as real)])
      else ValueError
  }

  /** Every column of a cleaned row is one of the listed statistics. */
  lemma {:induction false} CleanFractionsKeys(fields: map<string, Field>, specs: seq<FractionStat>, x: string)
    requires CleanFractions(fields, specs).Ok? && x in CleanFractions(fields, specs).value
    ensures exists k :: 0 <= k < |specs| && specs[k].name == x
  {
    var tail := specs[1..];
    if x != specs[0].name {
      CleanFractionsKeys(fields, tail, x);
      var k :| 0 <= k < |tail| && tail[k].name == x;
      assert specs[k + 1].name == x;
    }
  }

  /** A fraction column holds the chosen side of its parsed field. */
  lemma {:induction false} CleanFractionAt(fields: map<string, Field>, specs: seq<FractionStat>, k: nat)
    requires k < |specs| && CleanFractions(fields, specs).Ok?
    requires forall j :: 0 <= j < k ==> specs[j].name != specs[k].name
    ensures ParseFraction(FieldOf(fields, specs[k].field)).Ok?
    ensures CleanFractions(fields, specs).value[specs[k].name]
         == Num(Side(ParseFraction(FieldOf(fields, specs[k].field)).value, specs[k].landed) as real)
    decreases k
  {
    var rest := CleanFractions(fields, specs[1..]);
    var first := ParseFraction(FieldOf(fields, specs[0].field));
    assert first.Ok? && rest.Ok?;
    var cell := Num(Side(first.value, specs[0].landed) as real);
    assert CleanFractions(fields, specs).value == rest.value[specs[0].name := cell];
    if k > 0 {
      var tail := specs[1..];
      assert tail[k - 1] == specs[k];
      assert forall j :: 0 <= j < k - 1 ==> tail[j] == specs[j + 1];
      assert forall j :: 0 <= j < k - 1 ==> tail[j].name != tail[k - 1].name;
      CleanFractionAt(fields, tail, k - 1);
      assert specs[k].name != specs[0].name;
    }
  }

  /** Lines 81-95: the cleaned statistics of one row. */
  function CleanStats(raw: RawStat): (r: Parsed<map<string, Cell>>)
    ensures r.Ok? <==> CleanFractions(raw.fields, FractionStats).Ok? && ParseTimeSeconds(FieldOf(raw.fields, "CTRL")).Ok?
    ensures r.Ok? ==> "control_time_sec" in r.value
    ensures r.Ok? ==> r.value["control_time_sec"] == Num(ParseTimeSeconds(FieldOf(raw.fields, "CTRL")).value as real)
  {
    match (CleanFractions(raw.fields, FractionStats), ParseTimeSeconds(FieldOf(raw.fields, "CTRL")))
    case (Ok(m), Ok(t)) =>
      Ok(m["sig_strikes_pct" := GivenOf(raw.given, "SIG.STR. %")]
          ["takedown_pct" := GivenOf(raw.given, "TD %")]
          ["KD" := GivenOf(raw.given, "KD")]
          ["SUB.ATT" := GivenOf(raw.given, "SUB.ATT")]
          ["REV." := GivenOf(raw.given, "REV.")]
          ["control_time_sec" := Num(t as real)])
    case _ => ValueError
  }

  /** A statistics row after cleaning, keyed by event, bout and fighter. */
  datatype StatRow = StatRow(event: Cell, bout: Cell, fighter: Cell, stats: map<string, Cell>)

  function Cleaned(raw: RawStat): StatRow
  {
    StatRow(raw.event, raw.bout, raw.fighter, match CleanStats(raw) case Ok(m) => m case ValueError => map[])
  }

  /** The whole cleaning pass: one row that fails to parse makes it raise. */
  function CleanTable(raws: seq<RawStat>): (r: Parsed<seq<StatRow>>)
    ensures r.Ok? <==> forall i :: 0 <= i < |raws| ==> CleanStats(raws[i]).Ok?
    ensures r.Ok? ==> |r.value| == |raws|
    ensures r.Ok? ==> forall i :: 0 <= i < |raws| ==>
      r.value[i] == StatRow(raws[i].event, raws[i].bout, raws[i].fighter, CleanStats(raws[i]).value)
  {
    if forall i :: 0 <= i < |raws| ==> CleanStats(raws[i]).Ok? then
      Ok(seq(|raws|, i requires 0 <= i < |raws| => Cleaned(raws[i])))
    else ValueError
  }

  predicate HasKey(r: StatRow, event: Cell, bout: Cell, fighter: Cell)
  {
    r.event == event && r.bout == bout && r.fighter == fighter
  }

  function StatOf(r: StatRow, stat: string): Cell
  {
    if stat in r.stats then r.stats[stat] else Missing
  }

  /** The values of one statistic on the rows with the given key, in row order. */
  function KeyValues(rows: seq<StatRow>, event: Cell, bout: Cell, fighter: Cell, stat: string): (r: Column)
    ensures |r| <= |rows|
  {
    if rows == [] then []
    else
      var init := rows[..|rows| - 1];
      assert forall i :: 0 <= i < |init| ==> init[i] == rows[i];
      KeyValues(init, event, bout, fighter, stat)
        + (if HasKey(rows[|rows| - 1], event, bout, fighter) then [StatOf(rows[|rows| - 1], stat)] else [])
  }

  /** A group's values are empty exactly when no row carries its key. */
  lemma {:induction false} KeyValuesEmpty(rows: seq<StatRow>, event: Cell, bout: Cell, fighter: Cell, stat: string)
    ensures KeyValues(rows, event, bout, fighter, stat) == [] <==>
      forall i :: 0 <= i < |rows| ==> !HasKey(rows[i], event, bout, fighter)
    decreases |rows|
  {
    if rows != [] {
      var init := rows[..|rows| - 1];
      KeyValuesEmpty(init, event, bout, fighter, stat);
      assert forall i :: 0 <= i < |init| ==> init[i] == rows[i];
    }
  }

  /** `sum` skips NaN and gives 0 for a group with no number; `mean` skips NaN
      and gives NaN for a group with no number. */
  function Aggregate(kind: AggKind, vals: Column): (r: Cell)
    ensures kind == SumAgg ==> r == Num(Sum(Nums(vals)))
    ensures kind == MeanAgg ==> r == Mean(vals)
  {
    match kind
    case SumAgg => Num(Sum(Nums(vals)))
    case MeanAgg => Mean(vals)
  }

  /** Some row carries the key; `groupby` drops keys with a NaN part, so only
      fully defined keys make a group. */
  predicate HasGroup(rows: seq<StatRow>, event: Cell, bout: Cell, fighter: Cell)
  {
    !event.Missing? && !bout.Missing? && !fighter.Missing? &&
    exists i :: 0 <= i < |rows| && HasKey(rows[i], event, bout, fighter)
  }

  /** The value the left merge brings into `fighter{n}_{stat}` for a bout row whose
      event, bout and slot-n name are given: the aggregate over that group, or
      NaN when there is no such group. */
  function MergedStat(rows: seq<StatRow>, event: Cell, bout: Cell, name: Cell, stat: string): (r: Cell)
    requires stat in AggStats
    ensures HasGroup(rows, event, bout, name) ==> r == Aggregate(AggStats[stat], KeyValues(rows, event, bout, name, stat))
    ensures !HasGroup(rows, event, bout, name) ==> r == Missing
  {
    if HasGroup(rows, event, bout, name) then Aggregate(AggStats[stat], KeyValues(rows, event, bout, name, stat))
    else Missing
  }

  lemma {:induction false} KeyValuesAppend(a: seq<StatRow>, b: seq<StatRow>, event: Cell, bout: Cell, fighter: Cell, stat: string)
    ensures KeyValues(a + b, event, bout, fighter, stat)
         == KeyValues(a, event, bout, fighter, stat) + KeyValues(b, event, bout, fighter, stat)
    decreases |b|
  {
    if b == [] {
      assert a + b == a;
    } else {
      var b0, last := b[..|b| - 1], b[|b| - 1];
      var ab := a + b;
      assert ab[..|ab| - 1] == a + b0;
      assert ab[|ab| - 1] == last;
      var tail: Column := if HasKey(last, event, bout, fighter) then [StatOf(last, stat)] else [];
      calc {
        KeyValues(ab, event, bout, fighter, stat);
        KeyValues(a + b0, event, bout, fighter, stat) + tail;
        { KeyValuesAppend(a, b0, event, bout, fighter, stat); }
        (KeyValues(a, event, bout, fighter, stat) + KeyValues(b0, event, bout, fighter, stat)) + tail;
        KeyValues(a, event, bout, fighter, stat) + (KeyValues(b0, event, bout, fighter, stat) + tail);
        KeyValues(a, event, bout, fighter, stat) + KeyValues(b, event, bout, fighter, stat);
      }
    }
  }

  /** Rows of other fighters, bouts or events do not change a group's aggregate. */
  lemma OtherKeysIgnored(a: seq<StatRow>, b: seq<StatRow>, event: Cell, bout: Cell, name: Cell, stat: string)
    requires stat in AggStats
    requires forall i :: 0 <= i < |b| ==> !HasKey(b[i], event, bout, name)
    ensures MergedStat(a + b, event, bout, name, stat) == MergedStat(a, event, bout, name, stat)
  {
    KeyValuesAppend(a, b, event, bout, name, stat);
    KeyValuesEmpty(b, event, bout, name, stat);
    assert KeyValues(a + b, event, bout, name, stat) == KeyValues(a, event, bout, name, stat);
    if HasGroup(a + b, event, bout, name) {
      var i :| 0 <= i < |a + b| && HasKey((a + b)[i], event, bout, name);
      assert HasKey(a[i], event, bout, name);
    } else {
      forall i | 0 <= i < |a| ensures !HasKey(a[i], event, bout, name) || event.Missing? || bout.Missing? || name.Missing? {
        assert (a + b)[i] == a[i];
      }
    }
  }

  /** A summed statistic adds up over any split of the rows into two blocks. */
  lemma SumAdds(a: seq<StatRow>, b: seq<StatRow>, event: Cell, bout: Cell, fighter: Cell, stat: string)
    ensures Aggregate(SumAgg, KeyValues(a + b, event, bout, fighter, stat)).x
         == Aggregate(SumAgg, KeyValues(a, event, bout, fighter, stat)).x
          + Aggregate(SumAgg, KeyValues(b, event, bout, fighter, stat)).x
  {
    var va := KeyValues(a, event, bout, fighter, stat);
    var vb := KeyValues(b, event, bout, fighter, stat);
    KeyValuesAppend(a, b, event, bout, fighter, stat);
    NumsAppend(va, vb);
    SumAppend(Nums(va), Nums(vb));
  }

  /** The aggregate does not depend on the order in which the round rows come:
      swapping two blocks of rows leaves every merged statistic unchanged. */
  lemma RowOrderIrrelevant(a: seq<StatRow>, b: seq<StatRow>, event: Cell, bout: Cell, name: Cell, stat: string)
    requires stat in AggStats
    ensures MergedStat(a + b, event, bout, name, stat) == MergedStat(b + a, event, bout, name, stat)
  {
    var va := KeyValues(a, event, bout, name, stat);
    var vb := KeyValues(b, event, bout, name, stat);
    KeyValuesAppend(a, b, event, bout, name, stat);
    KeyValuesAppend(b, a, event, bout, name, stat);
    NumsAppend(va, vb);
    NumsAppend(vb, va);
    SumAppend(Nums(va), Nums(vb));
    SumAppend(Nums(vb), Nums(va));
    assert HasGroup(a + b, event, bout, name) <==> HasGroup(b + a, event, bout, name) by {
      KeyValuesNonEmpty(a + b, event, bout, name, stat);
      KeyValuesNonEmpty(b + a, event, bout, name, stat);
    }
    MeanOfSame(va + vb, vb + va);
  }

  lemma KeyValuesNonEmpty(rows: seq<StatRow>, event: Cell, bout: Cell, name: Cell, stat: string)
    ensures HasGroup(rows, event, bout, name) <==>
      !event.Missing? && !bout.Missing? && !name.Missing? && KeyValues(rows, event, bout, name, stat) != []
  {
    KeyValuesEmpty(rows, event, bout, name, stat);
  }

  /** Two columns with the same number of numbers and the same total have the same mean. */
  lemma MeanOfSame(xs: Column, ys: Column)
    requires |Nums(xs)| == |Nums(ys)| && Sum(Nums(xs)) == Sum(Nums(ys))
    ensures Mean(xs) == Mean(ys)
  {
    if Nums(xs) != [] {
      var n := |Nums(xs)| as real;
      assert Mean(xs).x * n == Mean(ys).x * n;
    }
  }

  /** A mean-aggregated percentage stays within the range of its round values. */
  lemma MeanStatBounds(rows: seq<StatRow>, event: Cell, bout: Cell, name: Cell, stat: string, lo: real, hi: real)
    requires stat in AggStats && AggStats[stat] == MeanAgg
    requires NumsIn(KeyValues(rows, event, bout, name, stat), lo, hi)
    ensures MergedStat(rows, event, bout, name, stat).Num? ==> lo <= MergedStat(rows, event, bout, name, stat).x <= hi
  {
    MeanBounds(KeyValues(rows, event, bout, name, stat), lo, hi);
  }

  // ---------------------------------------------------------------------------
  // Mode of a text column (lines 138-140)

  /** The text values of a column, in row order; NaN is skipped. */
  function Texts(s: Column): (r: seq<string>)
    ensures forall i :: 0 <= i < |s| && s[i].Text? ==> s[i].s in r
    ensures forall x :: x in r ==> exists i :: 0 <= i < |s| && s[i] == Text(x)
  {
    if s == [] then []
    else
      var init := s[..|s| - 1];
      assert forall i :: 0 <= i < |init| ==> init[i] == s[i];
      Texts(init) + (if s[|s| - 1].Text? then [s[|s| - 1].s] else [])
  }

  /** How often `v` occurs in the column. */
  function Count(s: Column, v: string): (n: nat)
    ensures n > 0 ==> exists i :: 0 <= i < |s| && s[i] == Text(v)
  {
    if s == [] then 0
    else
      var init := s[..|s| - 1];
      assert forall i :: 0 <= i < |init| ==> init[i] == s[i];
      Count(init, v) + (if s[|s| - 1] == Text(v) then 1 else 0)
  }

  /** The first (smallest) value of a sorted vocabulary with the highest count. */
  function Best(s: Column, vocab: seq<string>): (r: string)
    requires vocab != [] && StrictlySorted(vocab)
    ensures r in vocab
    ensures forall v :: v in vocab ==> Count(s, v) <= Count(s, r)
    ensures forall v :: v in vocab && Count(s, v) == Count(s, r) ==> v == r || StrLess(r, v)
  {
    if |vocab| == 1 then vocab[0]
    else
      var init := vocab[..|vocab| - 1];
      var last := vocab[|vocab| - 1];
      assert StrictlySorted(init);
      assert forall v :: v in vocab ==> v in init || v == last;
      var b := Best(s, init);
      assert StrLess(b, last) by {
        var k :| 0 <= k < |init| && init[k] == b;
        assert vocab[k] == b;
      }
      if Count(s, last) > Count(s, b) then last else b
  }

  /** `get_mode`: NaN for a column without text; otherwise the most frequent
      value, ties going to the smallest, as `Series.mode()` lists its modes sorted. */
  function Mode(s: Column): (r: Cell)
    ensures r == Missing <==> Texts(s) == []
    ensures r != Missing ==> r.Text? && r.s in Texts(s)
  {
    var vocab := SortedDistinct(Texts(s));
    if vocab == [] then Missing
    else
      assert Best(s, vocab) in vocab;
      Text(Best(s, vocab))
  }

  lemma {:induction false} CountInTexts(s: Column, v: string)
    requires Count(s, v) > 0
    ensures v in Texts(s)
  {
  }

  /** The mode occurs at least as often as any other value, and every value that
      occurs exactly as often is not smaller in string order. */
  lemma ModeIsMostFrequent(s: Column, v: string)
    requires Mode(s) != Missing
    ensures Count(s, v) <= Count(s, Mode(s).s)
    ensures Count(s, v) == Count(s, Mode(s).s) ==> !StrLess(v, Mode(s).s)
  {
    var vocab := SortedDistinct(Texts(s));
    var m := Mode(s).s;
    assert m == Best(s, vocab);
    assert Count(s, m) > 0 by {
      assert m in Texts(s);
      var i :| 0 <= i < |s| && s[i] == Text(m);
      CountPositive(s, m, i);
    }
    if Count(s, v) > 0 {
      CountInTexts(s, v);
      if Count(s, v) == Count(s, m) && v != m {
        assert v in vocab;
        assert StrLess(m, v);
        StrLessAsymmetric(m, v);
      } else if v == m {
        StrLessIrreflexive(m);
      }
    }
  }

  lemma {:induction false} CountPositive(s: Column, v: string, i: nat)
    requires i < |s| && s[i] == Text(v)
    ensures Count(s, v) > 0
    decreases |s|
  {
    var init := s[..|s| - 1];
    if i < |s| - 1 {
      assert init[i] == s[i];
      CountPositive(init, v, i);
    }
  }

  lemma StrLessAsymmetric(a: string, b: string)
    requires StrLess(a, b)
    ensures !StrLess(b, a)
  {
    if StrLess(b, a) {
      StrLessTransitive(a, b, a);
      StrLessIrreflexive(a);
    }
  }

  /** A column with any text value has a mode. */
  lemma ModeDefined(s: Column, i: nat)
    requires i < |s| && s[i].Text?
    ensures Mode(s).Text?
  {
    assert s[i].s in Texts(s);
  }

  // ---------------------------------------------------------------------------
  // Imputation by weight class (lines 143-160)

  const ClassCol := "WEIGHTCLASS"

  /** Height, weight and reach are filled with means, stance with modes. */
  datatype Imputation = ByMean | ByMode

  /** Each row's class value: the mean or the mode of its weight class's cells
      (`transform('mean')`, or `map` of the per-class `get_mode`); NaN for a row
      whose class is NaN, since `groupby` drops that group. */
  function ClassValue(how: Imputation, keys: Column, col: Column): (r: Column)
    requires |keys| == |col|
    ensures |r| == |col|
    ensures forall i :: 0 <= i < |col| && keys[i].Missing? ==> r[i] == Missing
    ensures forall i :: 0 <= i < |col| && !keys[i].Missing? && how == ByMean ==> r[i] == Mean(Pick(col, Group(keys, i)))
    ensures forall i :: 0 <= i < |col| && !keys[i].Missing? && how == ByMode ==> r[i] == Mode(Pick(col, Group(keys, i)))
  {
    match how
    case ByMean => GroupMean(keys, col)
    case ByMode =>
      seq(|col|, i requires 0 <= i < |col| =>
        if keys[i].Missing? then Missing else Mode(Pick(col, Group(keys, i))))
  }

  /** The column after its first `fillna`, from the class values. */
  function ClassFilled(how: Imputation, keys: Column, col: Column): (r: Column)
    requires |keys| == |col|
    ensures |r| == |col|
  {
    FillFrom(col, ClassValue(how, keys, col))
  }

  /** The whole-column fallback, computed on the class-filled column. */
  function Overall(how: Imputation, c: Column): Cell
  {
    match how
    case ByMean => Mean(c)
    case ByMode => Mode(c)
  }

  /** Both `fillna` steps for one column: a missing cell takes its class value,
      or failing that the whole-column value; other cells are kept. */
  function Impute(how: Imputation, keys: Column, col: Column): (r: Column)
    requires |keys| == |col|
    ensures |r| == |col|
    ensures forall i :: 0 <= i < |col| && col[i] != Missing ==> r[i] == col[i]
    ensures forall i :: 0 <= i < |col| && col[i] == Missing && ClassValue(how, keys, col)[i] != Missing ==>
      r[i] == ClassValue(how, keys, col)[i]
    ensures forall i :: 0 <= i < |col| && col[i] == Missing && ClassValue(how, keys, col)[i] == Missing ==>
      r[i] == Overall(how, ClassFilled(how, keys, col))
  {
    var c1 := ClassFilled(how, keys, col);
    var v := Overall(how, c1);
    if how == ByMode && v == Missing then c1 else FillCol(c1, v)
  }

  lemma {:induction false} NumsNonEmpty(xs: Column, i: nat)
    requires i < |xs| && xs[i].Num?
    ensures Nums(xs) != []
    decreases |xs|
  {
    if xs[0].Num? {
    } else {
      assert xs[1..][i - 1] == xs[i];
      NumsNonEmpty(xs[1..], i - 1);
    }
  }

  /** One defined value anywhere in the column leaves no cell missing: a value
      of the right kind (a number for the means, a text for the modes). */
  lemma ImputeComplete(how: Imputation, keys: Column, col: Column, i: nat)
    requires |keys| == |col| && i < |col|
    requires how == ByMean ==> col[i].Num?
    requires how == ByMode ==> col[i].Text?
    ensures forall j :: 0 <= j < |col| ==> Impute(how, keys, col)[j] != Missing
  {
    var c1 := ClassFilled(how, keys, col);
    assert c1[i] == col[i];
    if how == ByMean {
      NumsNonEmpty(c1, i);
    } else {
      ModeDefined(c1, i);
    }
  }

  lemma NumsInPick(col: Column, idx: seq<nat>, lo: real, hi: real)
    requires forall k :: 0 <= k < |idx| ==> idx[k] < |col|
    requires NumsIn(col, lo, hi)
    ensures NumsIn(Pick(col, idx), lo, hi)
  {
    forall k | 0 <= k < |idx| && Pick(col, idx)[k].Num?
      ensures lo <= Pick(col, idx)[k].x <= hi
    {
      assert Pick(col, idx)[k] == col[idx[k]];
    }
  }

  /** Imputed means stay within the range of the observed values. */
  lemma ImputeWithinRange(keys: Column, col: Column, lo: real, hi: real)
    requires |keys| == |col| && NumsIn(col, lo, hi)
    ensures NumsIn(Impute(ByMean, keys, col), lo, hi)
  {
    var cv := ClassValue(ByMean, keys, col);
    forall i | 0 <= i < |col| && cv[i].Num?
      ensures lo <= cv[i].x <= hi
    {
      var g := Group(keys, i);
      NumsInPick(col, g, lo, hi);
      MeanBounds(Pick(col, g), lo, hi);
    }
    var c1 := ClassFilled(ByMean, keys, col);
    assert NumsIn(c1, lo, hi);
    MeanBounds(c1, lo, hi);
  }

  /** The imputed columns in loop order: height, weight, reach, each for slot 1 then 2. */
  const NumericAttrs: seq<string> := ["height", "weight", "reach"]

  function NumericNames(): (r: seq<string>)
    ensures |r| == 6
    ensures forall a, n :: 0 <= a < 3 && 1 <= n <= 2 ==> r[2 * a + n - 1] == Helpers.SlotName(n, NumericAttrs[a])
  {
    [Helpers.SlotName(1, "height"), Helpers.SlotName(2, "height"),
     Helpers.SlotName(1, "weight"), Helpers.SlotName(2, "weight"),
     Helpers.SlotName(1, "reach"), Helpers.SlotName(2, "reach")]
  }

  function StanceNames(): (r: seq<string>)
    ensures |r| == 2
    ensures forall n :: 1 <= n <= 2 ==> r[n - 1] == Helpers.SlotName(n, "stance")
  {
    [Helpers.SlotName(1, "stance"), Helpers.SlotName(2, "stance")]
  }

  /** In a slot column name, position 7 is the slot digit and position 9 the
      first letter of the attribute. */
  lemma SlotNameChars(n: nat, x: string)
    requires n < 10 && x != []
    ensures var s := Helpers.SlotName(n, x);
      |s| > 9 && s[0] == 'f' && s[7] == DigitChar(n) && s[9] == x[0]
  {
    assert NatStr(n) == [DigitChar(n)];
  }

  /** Every imputed column is a distinct slot column, none of them the class column. */
  lemma FillNamesDistinct()
    ensures forall j, k :: 0 <= j < k < 6 ==> NumericNames()[j] != NumericNames()[k]
    ensures StanceNames()[0] != StanceNames()[1]
    ensures forall k :: 0 <= k < 6 ==> NumericNames()[k] != ClassCol
    ensures forall k :: 0 <= k < 2 ==> StanceNames()[k] != ClassCol
    ensures forall j, k :: 0 <= j < 6 && 0 <= k < 2 ==> NumericNames()[j] != StanceNames()[k]
  {
    var names := NumericNames();
    var stances := StanceNames();
    SlotNameChars(1, "height");
    SlotNameChars(2, "height");
    SlotNameChars(1, "weight");
    SlotNameChars(2, "weight");
    SlotNameChars(1, "reach");
    SlotNameChars(2, "reach");
    SlotNameChars(1, "stance");
    SlotNameChars(2, "stance");
    var digits, letters := "121212", "hhwwrr";
    assert forall k :: 0 <= k < 6 ==>
      |names[k]| > 9 && names[k][0] == 'f' && names[k][7] == digits[k] && names[k][9] == letters[k];
    assert forall k :: 0 <= k < 2 ==>
      |stances[k]| > 9 && stances[k][0] == 'f' && stances[k][7] == digits[k] && stances[k][9] == 's';
    forall j, k | 0 <= j < k < 6
      ensures names[j] != names[k]
    {
      assert digits[j] != digits[k] || letters[j] != letters[k];
    }
    assert stances[0][7] != stances[1][7];
    assert ClassCol[0] == 'W';
  }

  /** The columns a frame must hold for the imputation to run. */
  predicate FillReady(cols: map<string, Column>, rows: nat)
  {
    Shaped(cols, rows) && ClassCol in cols &&
    (forall k :: 0 <= k < 6 ==> NumericNames()[k] in cols) &&
    (forall k :: 0 <= k < 2 ==> StanceNames()[k] in cols)
  }

  /** Imputing the given columns one after another, in order. */
  function ImputeAll(cols: map<string, Column>, rows: nat, how: Imputation, names: seq<string>): (r: map<string, Column>)
    requires Shaped(cols, rows) && ClassCol in cols
    requires forall k :: 0 <= k < |names| ==> names[k] in cols && names[k] != ClassCol
    ensures Shaped(r, rows) && r.Keys == cols.Keys && r[ClassCol] == cols[ClassCol]
    decreases |names|
  {
    if names == [] then cols
    else
      var prev := ImputeAll(cols, rows, how, names[..|names| - 1]);
      var c := names[|names| - 1];
      prev[c := Impute(how, prev[ClassCol], prev[c])]
  }

  /** Columns outside the list are untouched. */
  lemma {:induction false} ImputeAllUntouched(cols: map<string, Column>, rows: nat, how: Imputation, names: seq<string>, c: string)
    requires Shaped(cols, rows) && ClassCol in cols
    requires forall k :: 0 <= k < |names| ==> names[k] in cols && names[k] != ClassCol
    requires c in cols && c !in names
    ensures ImputeAll(cols, rows, how, names)[c] == cols[c]
    decreases |names|
  {
    if names != [] {
      ImputeAllUntouched(cols, rows, how, names[..|names| - 1], c);
    }
  }

  /** A listed column (listed once) is imputed from its own original cells and
      the original classes. */
  lemma {:induction false} ImputeAllAt(cols: map<string, Column>, rows: nat, how: Imputation, names: seq<string>, k: nat)
    requires Shaped(cols, rows) && ClassCol in cols
    requires forall j :: 0 <= j < |names| ==> names[j] in cols && names[j] != ClassCol
    requires k < |names| && forall j :: 0 <= j < |names| && j != k ==> names[j] != names[k]
    ensures ImputeAll(cols, rows, how, names)[names[k]] == Impute(how, cols[ClassCol], cols[names[k]])
    decreases |names|
  {
    var init := names[..|names| - 1];
    if k == |names| - 1 {
      ImputeAllUntouched(cols, rows, how, init, names[k]);
    } else {
      assert init[k] == names[k];
      ImputeAllAt(cols, rows, how, init, k);
    }
  }

  /** Imputation changes a cell only where it was missing. */
  lemma {:induction false} ImputeAllOnlyMissing(cols: map<string, Column>, rows: nat, how: Imputation, names: seq<string>, c: string, i: nat)
    requires Shaped(cols, rows) && ClassCol in cols
    requires forall k :: 0 <= k < |names| ==> names[k] in cols && names[k] != ClassCol
    requires c in cols && i < rows
    ensures ImputeAll(cols, rows, how, names)[c][i] == cols[c][i] || cols[c][i] == Missing
    decreases |names|
  {
    if names != [] {
      ImputeAllOnlyMissing(cols, rows, how, names[..|names| - 1], c, i);
    }
  }

  /** `fill_nan_values` as a function of the table. */
  function FillNanSpec(cols: map<string, Column>, rows: nat): (r: map<string, Column>)
    requires FillReady(cols, rows)
    ensures FillReady(r, rows) && r.Keys == cols.Keys
  {
    FillNamesDistinct();
    var numeric := ImputeAll(cols, rows, ByMean, NumericNames());
    ImputeAll(numeric, rows, ByMode, StanceNames())
  }

  /** Only missing cells change. */
  lemma FillOnlyMissing(cols: map<string, Column>, rows: nat, c: string, i: nat)
    requires FillReady(cols, rows) && c in cols && i < rows
    ensures FillNanSpec(cols, rows)[c][i] == cols[c][i] || cols[c][i] == Missing
  {
    FillNamesDistinct();
    var numeric := ImputeAll(cols, rows, ByMean, NumericNames());
    ImputeAllOnlyMissing(cols, rows, ByMean, NumericNames(), c, i);
    ImputeAllOnlyMissing(numeric, rows, ByMode, StanceNames(), c, i);
  }

  /** Each numeric slot column is imputed by class mean, then column mean. */
  lemma FillNumericColumn(cols: map<string, Column>, rows: nat, k: nat)
    requires FillReady(cols, rows) && k < 6
    ensures FillNanSpec(cols, rows)[NumericNames()[k]]
         == Impute(ByMean, cols[ClassCol], cols[NumericNames()[k]])
  {
    FillNamesDistinct();
    var names := NumericNames();
    var numeric := ImputeAll(cols, rows, ByMean, names);
    ImputeAllAt(cols, rows, ByMean, names, k);
    assert names[k] !in StanceNames();
    ImputeAllUntouched(numeric, rows, ByMode, StanceNames(), names[k]);
  }

  /** Each stance column is imputed by class mode, then column mode; the height,
      weight and reach passes before it leave it and the classes alone. */
  lemma FillStanceColumn(cols: map<string, Column>, rows: nat, k: nat)
    requires FillReady(cols, rows) && k < 2
    ensures FillNanSpec(cols, rows)[StanceNames()[k]]
         == Impute(ByMode, cols[ClassCol], cols[StanceNames()[k]])
  {
    FillNamesDistinct();
    var c := StanceNames()[k];
    var numeric := ImputeAll(cols, rows, ByMean, NumericNames());
    assert c !in NumericNames();
    ImputeAllUntouched(cols, rows, ByMean, NumericNames(), c);
    ImputeAllAt(numeric, rows, ByMode, StanceNames(), k);
  }

  /** One more listed column imputed. */
  lemma ImputeAllStep(cols: map<string, Column>, rows: nat, how: Imputation, names: seq<string>, k: nat)
    requires Shaped(cols, rows) && ClassCol in cols
    requires forall j :: 0 <= j < |names| ==> names[j] in cols && names[j] != ClassCol
    requires k < |names|
    ensures var prev := ImputeAll(cols, rows, how, names[..k]);
      ImputeAll(cols, rows, how, names[..k + 1]) == prev[names[k] := Impute(how, cols[ClassCol], prev[names[k]])]
  {
    assert names[..k + 1][..k] == names[..k];
  }

  /** Lines 148-149 or 154-158 for one column: the class fill, then the
      whole-column fill (for the mode, only when a mode exists). */
  method ImputeColumn(f: Frame, how: Imputation, col: string)
    requires f.Valid() && ClassCol in f.cols && col in f.cols
    modifies f
    ensures f.Valid() && f.rows == old(f.rows)
    ensures f.cols == old(f.cols)[col := Impute(how, old(f.cols)[ClassCol], old(f.cols)[col])]
  {
    var keys := f.cols[ClassCol];
    f.Set(col, ClassFilled(how, keys, f.cols[col]));
    var overall := Overall(how, f.cols[col]);
    if how == ByMean || overall != Missing {
      f.Set(col, FillCol(f.cols[col], overall));
    }
  }

  /** Lines 145-149: height, weight and reach for both slots. */
  method ImputeNumeric(f: Frame)
    requires f.Valid() && FillReady(f.cols, f.rows)
    modifies f
    ensures f.Valid() && f.rows == old(f.rows)
    ensures f.cols == ImputeAll(old(f.cols), old(f.rows), ByMean, NumericNames())
  {
    FillNamesDistinct();
    ghost var start := f.cols;
    assert NumericNames()[..0] == [];
    var a := 0;
    while a < 3
      invariant 0 <= a <= 3 && f.Valid() && f.rows == old(f.rows)
      invariant f.cols == ImputeAll(start, f.rows, ByMean, NumericNames()[..2 * a])
    {
      var n := 1;
      while n <= 2
        invariant 1 <= n <= 3 && f.Valid() && f.rows == old(f.rows)
        invariant f.cols == ImputeAll(start, f.rows, ByMean, NumericNames()[..2 * a + n - 1])
      {
        var col := Helpers.SlotName(n, NumericAttrs[a]);
        assert col == NumericNames()[2 * a + n - 1];
        ImputeAllStep(start, f.rows, ByMean, NumericNames(), 2 * a + n - 1);
        assert ClassCol in f.cols && col in f.cols;
        ImputeColumn(f, ByMean, col);
        n := n + 1;
      }
      assert 2 * a + n - 1 == 2 * (a + 1);
      a := a + 1;
    }
    assert NumericNames()[..6] == NumericNames();
  }

  /** Lines 152-158: stance for both slots. */
  method ImputeStances(f: Frame)
    requires f.Valid() && FillReady(f.cols, f.rows)
    modifies f
    ensures f.Valid() && f.rows == old(f.rows)
    ensures f.cols == ImputeAll(old(f.cols), old(f.rows), ByMode, StanceNames())
  {
    FillNamesDistinct();
    ghost var start := f.cols;
    assert StanceNames()[..0] == [];
    var n := 1;
    while n <= 2
      invariant 1 <= n <= 3 && f.Valid() && f.rows == old(f.rows)
      invariant f.cols == ImputeAll(start, f.rows, ByMode, StanceNames()[..n - 1])
    {
      var col := Helpers.SlotName(n, "stance");
      assert col == StanceNames()[n - 1];
      ImputeAllStep(start, f.rows, ByMode, StanceNames(), n - 1);
      assert ClassCol in f.cols && col in f.cols;
      ImputeColumn(f, ByMode, col);
      n := n + 1;
    }
    assert StanceNames()[..2] == StanceNames();
  }

  /** `fill_nan_values(df)`. */
  method FillNanValues(f: Frame)
    requires f.Valid() && FillReady(f.cols, f.rows)
    modifies f
    ensures f.Valid() && f.rows == old(f.rows)
    ensures f.cols == FillNanSpec(old(f.cols), old(f.rows))
  {
    ImputeNumeric(f);
    ImputeStances(f);
  }

  // ---------------------------------------------------------------------------
  // Duplicate rows (line 167)

  /** Row i equals some earlier row in every column (NaN equal to NaN). */
  predicate Repeats(cols: map<string, Column>, rows: nat, i: nat)
    requires Shaped(cols, rows) && i < rows
  {
    exists j :: 0 <= j < i && RowAt(cols, rows, j) == RowAt(cols, rows, i)
  }

  /** The rows `drop_duplicates()` keeps among the first n: the first occurrence of each. */
  function FirstOccurrences(cols: map<string, Column>, rows: nat, n: nat): (r: seq<nat>)
    requires Shaped(cols, rows) && n <= rows
    ensures Increasing(r)
    ensures forall k :: 0 <= k < |r| ==> r[k] < n
    ensures forall i :: 0 <= i < n ==> (i in r <==> !Repeats(cols, rows, i))
  {
    if n == 0 then []
    else
      var prev := FirstOccurrences(cols, rows, n - 1);
      if Repeats(cols, rows, n - 1) then prev else prev + [n - 1]
  }

  /** The kept rows are pairwise different. */
  lemma KeptDistinct(cols: map<string, Column>, rows: nat, p: nat, q: nat)
    requires Shaped(cols, rows)
    requires p < q < |FirstOccurrences(cols, rows, rows)|
    ensures RowAt(cols, rows, FirstOccurrences(cols, rows, rows)[p])
         != RowAt(cols, rows, FirstOccurrences(cols, rows, rows)[q])
  {
    var r := FirstOccurrences(cols, rows, rows);
    assert r[q] in r;
    assert !Repeats(cols, rows, r[q]);
  }

  /** Every row equals a kept row at or before it. */
  lemma {:induction false} KeptCovers(cols: map<string, Column>, rows: nat, i: nat) returns (k: nat)
    requires Shaped(cols, rows) && i < rows
    ensures k < |FirstOccurrences(cols, rows, rows)|
    ensures FirstOccurrences(cols, rows, rows)[k] <= i
    ensures RowAt(cols, rows, FirstOccurrences(cols, rows, rows)[k]) == RowAt(cols, rows, i)
    decreases i
  {
    var r := FirstOccurrences(cols, rows, rows);
    if Repeats(cols, rows, i) {
      var j :| 0 <= j < i && RowAt(cols, rows, j) == RowAt(cols, rows, i);
      k := KeptCovers(cols, rows, j);
    } else {
      assert i in r;
      k :| 0 <= k < |r| && r[k] == i;
    }
  }

  /** After deduplication no two rows are equal, and every original row is
      still present, at a position no later than its first occurrence. */
  lemma DedupTable(cols: map<string, Column>, rows: nat)
    requires Shaped(cols, rows)
    ensures var keep := FirstOccurrences(cols, rows, rows);
      var out := TakeRows(cols, rows, keep);
      (forall p, q :: 0 <= p < q < |keep| ==> RowAt(out, |keep|, p) != RowAt(out, |keep|, q)) &&
      (forall i :: 0 <= i < rows ==> exists k :: 0 <= k < |keep| && keep[k] <= i && RowAt(out, |keep|, k) == RowAt(cols, rows, i))
  {
    var keep := FirstOccurrences(cols, rows, rows);
    var out := TakeRows(cols, rows, keep);
    forall p, q | 0 <= p < q < |keep|
      ensures RowAt(out, |keep|, p) != RowAt(out, |keep|, q)
    {
      DedupPairDistinct(cols, rows, p, q);
    }
    forall i | 0 <= i < rows
      ensures exists k :: 0 <= k < |keep| && keep[k] <= i && RowAt(out, |keep|, k) == RowAt(cols, rows, i)
    {
      var k := DedupRowKept(cols, rows, i);
      assert k < |keep| && keep[k] <= i && RowAt(out, |keep|, k) == RowAt(cols, rows, i);
    }
  }

  /** Two rows of the deduplicated table differ. */
  lemma DedupPairDistinct(cols: map<string, Column>, rows: nat, p: nat, q: nat)
    requires Shaped(cols, rows)
    requires p < q < |FirstOccurrences(cols, rows, rows)|
    ensures var keep := FirstOccurrences(cols, rows, rows);
      RowAt(TakeRows(cols, rows, keep), |keep|, p) != RowAt(TakeRows(cols, rows, keep), |keep|, q)
  {
    var keep := FirstOccurrences(cols, rows, rows);
    RowOfTake(cols, rows, keep, p);
    RowOfTake(cols, rows, keep, q);
    KeptDistinct(cols, rows, p, q);
  }

  /** An original row reappears in the deduplicated table, no later than its own position. */
  lemma DedupRowKept(cols: map<string, Column>, rows: nat, i: nat) returns (k: nat)
    requires Shaped(cols, rows) && i < rows
    ensures var keep := FirstOccurrences(cols, rows, rows);
      k < |keep| && keep[k] <= i && RowAt(TakeRows(cols, rows, keep), |keep|, k) == RowAt(cols, rows, i)
  {
    var keep := FirstOccurrences(cols, rows, rows);
    k := KeptCovers(cols, rows, i);
    RowOfTake(cols, rows, keep, k);
  }

  /** `df.drop_duplicates(inplace=True)`: the first occurrences, in their order. */
  method DropDuplicates(f: Frame)
    requires f.Valid()
    modifies f
    ensures f.Valid()
    ensures f.cols == TakeRows(old(f.cols), old(f.rows), FirstOccurrences(old(f.cols), old(f.rows), old(f.rows)))
    ensures f.rows == |FirstOccurrences(old(f.cols), old(f.rows), old(f.rows))|
  {
    var keep := FirstOccurrences(f.cols, f.rows, f.rows);
    f.Take(keep);
  }

  /** `preprocess_data` from the joined table on: imputation, then deduplication. */
  method PreprocessData(f: Frame)
    requires f.Valid() && FillReady(f.cols, f.rows)
    modifies f
    ensures f.Valid()
    ensures var filled := FillNanSpec(old(f.cols), old(f.rows));
      var keep := FirstOccurrences(filled, old(f.rows), old(f.rows));
      f.cols == TakeRows(filled, old(f.rows), keep) && f.rows == |keep|
  {
    FillNanValues(f);
    DropDuplicates(f);
  }
}
