/** The number helpers shared by the browser games (src/static/js/main.js). */
module MainUtils {
  import opened Common

  /** The regular expression `\B(?=(\d{3})+(?!\d))` on the decimal digits `d` of
      an integer: it matches before position i when i is not the first digit
      (between two digits there is no word boundary) and a positive multiple of
      three digits follows up to the end. A leading '-' is followed by a word
      boundary, so the sign never receives a comma. */
  predicate CommaBefore(d: string, i: int) {
    0 < i < |d| && (|d| - i) % 3 == 0
  }

  /** The text the global replace produces from position i on. */
  function ReplaceFrom(d: string, i: nat): string
    requires i <= |d|
    decreases |d| - i
  {
    if i == |d| then "" else (if CommaBefore(d, i) then "," else "") + [d[i]] + ReplaceFrom(d, i + 1)
  }

  /** `formatNumber`: `num.toString()` with a comma before each group of three
      digits counted from the right. */
  function FormatNumber(n: int): string {
    var d := NatToString(if n < 0 then -n else n);
    if n < 0 then "-" + ReplaceFrom(d, 0) else ReplaceFrom(d, 0)
  }

  /** Dropping the commas gives back `toString`; a non-negative number is grouped
      in threes from the right; below a thousand in size nothing is inserted. */
  lemma FormatNumberMeaning(n: int)
    ensures RemoveCommas(FormatNumber(n)) == IntToString(n)
    ensures n >= 0 ==> WellGrouped(FormatNumber(n))
    ensures -1000 < n < 1000 ==> forall j :: 0 <= j < |FormatNumber(n)| ==> FormatNumber(n)[j] != ','
  {
    var m := if n < 0 then -n else n;
    var d := NatToString(m);
    ReplaceIsGrouped(d);
    GroupedRemoveCommas(d);
    GroupedIsWellGrouped(d);
    SmallHasFewDigits(m);
    if n < 0 {
      RemoveCommasAppend("-", ReplaceFrom(d, 0));
    }
  }

  lemma SmallHasFewDigits(m: nat)
    ensures m < 1000 ==> |NatToString(m)| <= 3
  {
    if m < 1000 {
      NatToStringLength(m, 3, 1000);
    }
  }

  function RemoveCommas(t: string): (r: string)
    ensures forall j :: 0 <= j < |r| ==> r[j] != ','
  {
    if t == [] then [] else (if t[0] == ',' then [] else [t[0]]) + RemoveCommas(t[1..])
  }

  lemma {:induction false} RemoveCommasAppend(a: string, b: string)
    ensures RemoveCommas(a + b) == RemoveCommas(a) + RemoveCommas(b)
    decreases |a|
  {
    if a != [] {
      assert (a + b)[0] == a[0] && (a + b)[1..] == a[1..] + b;
      RemoveCommasAppend(a[1..], b);
      assert RemoveCommas(a) == (if a[0] == ',' then [] else [a[0]]) + RemoveCommas(a[1..]);
    } else {
      assert a + b == b;
    }
  }

  lemma {:induction false} RemoveCommasNone(t: string)
    requires forall j :: 0 <= j < |t| ==> t[j] != ','
    ensures RemoveCommas(t) == t
    decreases |t|
  {
    if t != [] {
      RemoveCommasNone(t[1..]);
    }
  }

  /** The reference grouping: the last three digits are split off, recursively. */
  function Grouped(d: string): string
    decreases |d|
  {
    if |d| <= 3 then d else Grouped(d[..|d| - 3]) + "," + d[|d| - 3..]
  }

  predicate AllDigits(d: string) {
    forall j :: 0 <= j < |d| ==> IsDigit(d[j])
  }

  /** Each comma is followed by exactly three digits and then a comma or the end. */
  predicate GroupAfter(t: string, j: nat)
    requires j < |t|
  {
    && j + 3 < |t| && IsDigit(t[j + 1]) && IsDigit(t[j + 2]) && IsDigit(t[j + 3])
    && (j + 4 == |t| || t[j + 4] == ',')
  }

  /** Digits in comma-separated groups: the first group has one to three digits and
      every later group exactly three. */
  predicate WellGrouped(t: string) {
    && |t| > 0 && IsDigit(t[0])
    && (forall j :: 0 <= j < |t| ==> IsDigit(t[j]) || t[j] == ',')
    && (forall j :: 0 <= j < |t| && t[j] == ',' ==> GroupAfter(t, j))
    && FirstGroupShort(t)
  }

  predicate FirstGroupShort(t: string) {
    if forall j :: 0 <= j < |t| ==> t[j] != ',' then |t| <= 3
    else exists j :: 1 <= j <= 3 && j < |t| && t[j] == ','
  }

  /** Splitting off the last three digits: commas before them do not move. */
  lemma {:induction false} ReplaceSplit(p: string, q: string, i: nat)
    requires |q| == 3 && |p| >= 1 && i <= |p|
    ensures ReplaceFrom(p + q, i) == ReplaceFrom(p, i) + "," + q
    decreases |p| - i
  {
    var s := p + q;
    if i == |p| {
      assert !CommaBefore(s, i + 1) && !CommaBefore(s, i + 2);
      assert ReplaceFrom(s, i + 2) == [q[2]];
      assert ReplaceFrom(s, i + 1) == [q[1], q[2]];
    } else {
      ReplaceSplit(p, q, i + 1);
      assert CommaBefore(s, i) == CommaBefore(p, i);
    }
  }

  lemma {:induction false} ReplaceShort(d: string, i: nat)
    requires |d| <= 3 && i <= |d|
    ensures ReplaceFrom(d, i) == d[i..]
    decreases |d| - i
  {
    if i < |d| {
      ReplaceShort(d, i + 1);
    }
  }

  /** The regular expression and the reference grouping agree. */
  lemma {:induction false} ReplaceIsGrouped(d: string)
    ensures ReplaceFrom(d, 0) == Grouped(d)
    decreases |d|
  {
    if |d| <= 3 {
      ReplaceShort(d, 0);
    } else {
      var p := d[..|d| - 3];
      var q := d[|d| - 3..];
      assert d == p + q;
      ReplaceSplit(p, q, 0);
      ReplaceIsGrouped(p);
    }
  }

  lemma {:induction false} GroupedRemoveCommas(d: string)
    requires forall j :: 0 <= j < |d| ==> d[j] != ','
    ensures RemoveCommas(Grouped(d)) == d
    decreases |d|
  {
    if |d| <= 3 {
      RemoveCommasNone(d);
    } else {
      var p := d[..|d| - 3];
      var q := d[|d| - 3..];
      GroupedRemoveCommas(p);
      RemoveCommasAppend(Grouped(p) + ",", q);
      RemoveCommasAppend(Grouped(p), ",");
      RemoveCommasNone(q);
      assert d == p + q;
    }
  }

  lemma {:induction false} GroupedIsWellGrouped(d: string)
    requires |d| >= 1 && AllDigits(d)
    ensures WellGrouped(Grouped(d))
    decreases |d|
  {
    if |d| > 3 {
      var p := d[..|d| - 3];
      var q := d[|d| - 3..];
      var g := Grouped(p);
      GroupedIsWellGrouped(p);
      var t := g + "," + q;
      assert Grouped(d) == t;
      forall j | 0 <= j < |t| && t[j] == ','
        ensures GroupAfter(t, j)
      {
        if j < |g| {
          assert GroupAfter(g, j);
        }
      }
      if forall j :: 0 <= j < |g| ==> g[j] != ',' {
        assert t[|g|] == ',';
      } else {
        var j :| 1 <= j <= 3 && j < |g| && g[j] == ',';
        assert t[j] == ',';
      }
    }
  }

  /** `calculatePercentage`: `Math.round(part / total * 100)`, and 0 for a zero
      total. `Math.round` rounds halves up. */
  function CalculatePercentage(part: real, total: real): (r: int)
    ensures total == 0.0 ==> r == 0
    ensures total != 0.0 ==> r as real - 0.5 <= part / total * 100.0 < r as real + 0.5
  {
    if total == 0.0 then 0 else (part / total * 100.0 + 0.5).Floor
  }

  lemma WholeIsHundredPercent(total: real)
    requires total != 0.0
    ensures CalculatePercentage(total, total) == 100
  {
  }

  lemma PercentageOfPartIsBounded(part: real, total: real)
    requires 0.0 <= part <= total && total != 0.0
    ensures 0 <= CalculatePercentage(part, total) <= 100
  {
    var x := part / total;
    assert 0.0 <= x <= 1.0 by {
      assert x * total == part;
      assert x < 0.0 ==> x * total < 0.0;
      assert x > 1.0 ==> x * total > total;
    }
  }
}
