/** The five regular expressions of the transaction parser, each written out
    as an explicit scanner that returns what `re.search` / `re.split` return
    under Python's leftmost, backtracking semantics. */
module Patterns {
  import opened Wrappers
  import opened Text

  // ---------------------------------------------------------------------
  // Facts about the whitespace scanner

  /** `SkipSpaces` is the first non-whitespace index at or after `i`. */
  lemma {:induction false} SkipSpacesUnique(s: string, i: nat, r: nat)
    requires i <= r <= |s|
    requires forall k :: i <= k < r ==> IsSpace(s[k])
    requires r == |s| || !IsSpace(s[r])
    ensures SkipSpaces(s, i) == r
    decreases r - i
  {
    if i < r {
      SkipSpacesUnique(s, i + 1, r);
    }
  }

  /** Skipping whitespace in `x + y` from inside `y` is skipping it in `y`. */
  lemma SkipSpacesShift(x: string, y: string, i: nat)
    requires i <= |y|
    ensures SkipSpaces(x + y, |x| + i) == |x| + SkipSpaces(y, i)
  {
    var s := x + y;
    var r := SkipSpaces(y, i);
    assert forall k :: |x| + i <= k < |x| + r ==> s[k] == y[k - |x|];
    SkipSpacesUnique(s, |x| + i, |x| + r);
  }

  // ---------------------------------------------------------------------
  // re.split(r'\s+and\s+', text)

  /** A match of `\s+and\s+` starts at `p`. The leading `\s+` must take the
      whole whitespace run (a shorter one leaves whitespace where "and" must
      start), then come "and" and at least one more whitespace character. */
  predicate AndAt(s: string, p: nat) {
    && p < |s| && IsSpace(s[p])
    && var w := SkipSpaces(s, p);
    && w + 3 < |s| && s[w..w + 3] == "and" && IsSpace(s[w + 3])
  }

  /** Where a separator match that starts at `p` ends: the trailing `\s+` is greedy. */
  function AndEnd(s: string, p: nat): (r: nat)
    requires AndAt(s, p)
    ensures p < r <= |s|
  {
    SkipSpaces(s, SkipSpaces(s, p) + 3)
  }

  /** The pieces of `s[start..]`, the scan for the next separator being at `p`. */
  function SplitFrom(s: string, start: nat, p: nat): (r: seq<string>)
    requires start <= p <= |s|
    requires forall k :: start <= k < p ==> !AndAt(s, k)
    ensures |r| >= 1
    decreases |s| - p
  {
    if p == |s| then
      [s[start..]]
    else if AndAt(s, p) then
      var q := AndEnd(s, p);
      [s[start..p]] + SplitFrom(s, q, q)
    else
      SplitFrom(s, start, p + 1)
  }

  /** `re.split(r'\s+and\s+', s)`: the text between successive
      non-overlapping separator matches, scanned left to right. */
  function SplitOnAnd(s: string): (r: seq<string>)
    ensures |r| >= 1
  {
    SplitFrom(s, 0, 0)
  }

  predicate NoDigits(s: string) {
    forall k :: 0 <= k < |s| ==> !IsDigit(s[k])
  }

  /** The pieces are cut out of the text: text without digits gives pieces without digits. */
  lemma {:induction false} NoDigitsInPieces(s: string, start: nat, p: nat)
    requires start <= p <= |s|
    requires forall k :: start <= k < p ==> !AndAt(s, k)
    requires NoDigits(s)
    ensures forall i :: 0 <= i < |SplitFrom(s, start, p)| ==> NoDigits(SplitFrom(s, start, p)[i])
    decreases |s| - p
  {
    if p == |s| {
      assert forall k :: 0 <= k < |s[start..]| ==> s[start..][k] == s[start + k];
    } else if AndAt(s, p) {
      var q := AndEnd(s, p);
      NoDigitsInPieces(s, q, q);
      assert forall k :: 0 <= k < |s[start..p]| ==> s[start..p][k] == s[start + k];
    } else {
      NoDigitsInPieces(s, start, p + 1);
    }
  }

  /** A separator match preceded by whitespace starts one earlier: `\s+` takes the whole run. */
  lemma AndAtEarlier(s: string, p: nat)
    requires 0 < p && AndAt(s, p) && IsSpace(s[p - 1])
    ensures AndAt(s, p - 1)
  {
    assert SkipSpaces(s, p - 1) == SkipSpaces(s, p);
  }

  /** The text is empty or its last character is not whitespace. */
  predicate EndsInNonSpace(s: string) {
    s == [] || !IsSpace(s[|s| - 1])
  }

  /** A piece never ends in whitespace when the text does not: a separator
      is cut at the start of its whitespace run. */
  lemma {:induction false} PiecesEndInNonSpace(s: string, start: nat, p: nat)
    requires start <= p <= |s|
    requires forall k :: start <= k < p ==> !AndAt(s, k)
    requires EndsInNonSpace(s)
    ensures forall i :: 0 <= i < |SplitFrom(s, start, p)| ==> EndsInNonSpace(SplitFrom(s, start, p)[i])
    decreases |s| - p
  {
    if p == |s| {
    } else if AndAt(s, p) {
      var q := AndEnd(s, p);
      PiecesEndInNonSpace(s, q, q);
      if start < p && IsSpace(s[p - 1]) {
        AndAtEarlier(s, p);
      }
    } else {
      PiecesEndInNonSpace(s, start, p + 1);
    }
  }

  /** A separator match inside `y` is one inside `x + y`, and conversely. */
  lemma AndAtShift(x: string, y: string, k: nat)
    ensures AndAt(x + y, |x| + k) <==> AndAt(y, k)
  {
    var s := x + y;
    if k < |y| {
      SkipSpacesShift(x, y, k);
      var w := SkipSpaces(y, k);
      if w + 3 < |y| {
        assert s[|x| + w..|x| + w + 3] == y[w..w + 3];
        assert s[|x| + w + 3] == y[w + 3];
      }
    }
  }

  /** Splitting `x + y` once the scan is inside `y` splits `y`. */
  lemma {:induction false} SplitFromShift(x: string, y: string, start: nat, p: nat)
    requires start <= p <= |y|
    requires forall k :: start <= k < p ==> !AndAt(y, k)
    requires forall k :: |x| + start <= k < |x| + p ==> !AndAt(x + y, k)
    ensures SplitFrom(x + y, |x| + start, |x| + p) == SplitFrom(y, start, p)
    decreases |y| - p, 2
  {
    if p == |y| {
      assert (x + y)[|x| + start..] == y[start..];
    } else {
      AndAtShift(x, y, p);
      if AndAt(y, p) {
        ShiftSep(x, y, start, p);
      } else {
        ShiftScan(x, y, start, p);
      }
    }
  }

  /** The scan step past a position where no separator starts. */
  lemma ShiftScan(x: string, y: string, start: nat, p: nat)
    requires start <= p < |y|
    requires forall k :: start <= k < p ==> !AndAt(y, k)
    requires forall k :: |x| + start <= k < |x| + p ==> !AndAt(x + y, k)
    requires !AndAt(y, p) && !AndAt(x + y, |x| + p)
    ensures SplitFrom(x + y, |x| + start, |x| + p) == SplitFrom(y, start, p)
    decreases |y| - p, 0
  {
    NoSeparatorExtends(y, start, p);
    NoSeparatorExtends(x + y, |x| + start, |x| + p);
    SplitFromShift(x, y, start, p + 1);
  }

  lemma NoSeparatorExtends(s: string, lo: nat, hi: nat)
    requires forall k :: lo <= k < hi ==> !AndAt(s, k)
    requires !AndAt(s, hi)
    ensures forall k :: lo <= k < hi + 1 ==> !AndAt(s, k)
  {
  }

  /** The scan step at a separator. */
  lemma ShiftSep(x: string, y: string, start: nat, p: nat)
    requires start <= p < |y|
    requires forall k :: start <= k < p ==> !AndAt(y, k)
    requires forall k :: |x| + start <= k < |x| + p ==> !AndAt(x + y, k)
    requires AndAt(y, p) && AndAt(x + y, |x| + p)
    ensures SplitFrom(x + y, |x| + start, |x| + p) == SplitFrom(y, start, p)
    decreases |y| - p, 0
  {
    var q := AndEnd(y, p);
    ShiftedPiece(x, y, start, p);
    SplitAtSeparator(y, start, p);
    ShiftRestart(x, y, q);
  }

  /** The piece cut before a separator of `x + y` that lies inside `y`. */
  lemma ShiftedPiece(x: string, y: string, start: nat, p: nat)
    requires start <= p < |y|
    requires forall k :: |x| + start <= k < |x| + p ==> !AndAt(x + y, k)
    requires AndAt(y, p) && AndAt(x + y, |x| + p)
    ensures SplitFrom(x + y, |x| + start, |x| + p) ==
      [y[start..p]] + SplitFrom(x + y, |x| + AndEnd(y, p), |x| + AndEnd(y, p))
  {
    AndEndShift(x, y, p);
    SplitAtSeparator(x + y, |x| + start, |x| + p);
    assert (x + y)[|x| + start..|x| + p] == y[start..p];
  }

  /** The scan restarted after a separator. */
  lemma ShiftRestart(x: string, y: string, q: nat)
    requires q <= |y|
    ensures SplitFrom(x + y, |x| + q, |x| + q) == SplitFrom(y, q, q)
    decreases |y| - q, 3
  {
    NoSeparatorBefore(y, q);
    NoSeparatorBefore(x + y, |x| + q);
    SplitFromShift(x, y, q, q);
  }

  lemma NoSeparatorBefore(s: string, lo: nat)
    ensures forall k: nat :: lo <= k < lo ==> !AndAt(s, k)
  {
  }

  lemma AndEndShift(x: string, y: string, p: nat)
    requires AndAt(y, p) && AndAt(x + y, |x| + p)
    ensures AndEnd(x + y, |x| + p) == |x| + AndEnd(y, p)
  {
    SkipSpacesShift(x, y, p);
    SkipSpacesShift(x, y, SkipSpaces(y, p) + 3);
  }

  /** At a separator the scan emits the piece before it and restarts after it. */
  lemma SplitAtSeparator(s: string, start: nat, p: nat)
    requires start <= p < |s|
    requires forall k :: start <= k < p ==> !AndAt(s, k)
    requires AndAt(s, p)
    ensures SplitFrom(s, start, p) == [s[start..p]] + SplitFrom(s, AndEnd(s, p), AndEnd(s, p))
  {
  }

  /** Text with no separator match is one piece. */
  lemma NoSeparatorOnePiece(s: string)
    requires forall k :: !AndAt(s, k)
    ensures SplitOnAnd(s) == [s]
  {
    NoSeparatorScan(s, 0);
  }

  lemma {:induction false} NoSeparatorScan(s: string, p: nat)
    requires p <= |s|
    requires forall k :: !AndAt(s, k)
    ensures SplitFrom(s, 0, p) == [s]
    decreases |s| - p
  {
    if p < |s| {
      NoSeparatorScan(s, p + 1);
    }
  }

  /** Joining a clause to the rest with " and " and splitting again gives the
      clause back as the first piece, provided the clause holds no "and",
      does not end in whitespace, and the rest does not start with it. */
  lemma SplitJoinedClause(a: string, b: string)
    requires !Contains(a, "and")
    requires a == [] || !IsSpace(a[|a| - 1])
    requires b == [] || !IsSpace(b[0])
    ensures SplitOnAnd(a + " and " + b) == [a] + SplitOnAnd(b)
  {
    var x := a + " and ";
    var s := x + b;
    assert s == a + " and " + b;
    NoSeparatorInClause(a, b);
    SeparatorAfterClause(a, b);
    ScanToSeparator(s, 0, |a|);
    assert SplitFrom(s, 0, |a|) == [s[0..|a|]] + SplitFrom(s, |x|, |x|);
    assert s[0..|a|] == a;
    SplitFromShift(x, b, 0, 0);
  }

  /** The scan moves over positions where no separator starts. */
  lemma {:induction false} ScanToSeparator(s: string, start: nat, p: nat)
    requires start <= p <= |s|
    requires forall k :: start <= k < p ==> !AndAt(s, k)
    ensures SplitFrom(s, start, start) == SplitFrom(s, start, p)
    decreases p - start
  {
    if p > start {
      ScanAhead(s, start, start, p);
    }
  }

  lemma {:induction false} ScanAhead(s: string, start: nat, i: nat, p: nat)
    requires start <= i <= p <= |s|
    requires forall k :: start <= k < p ==> !AndAt(s, k)
    ensures SplitFrom(s, start, i) == SplitFrom(s, start, p)
    decreases p - i
  {
    if i < p {
      ScanAhead(s, start, i + 1, p);
    }
  }

  /** No separator starts inside a clause without "and" that does not end in whitespace. */
  lemma NoSeparatorInClause(a: string, b: string)
    requires !Contains(a, "and")
    requires a == [] || !IsSpace(a[|a| - 1])
    ensures forall k :: 0 <= k < |a| ==> !AndAt(a + " and " + b, k)
  {
    ContainsIff(a, "and");
    forall k | 0 <= k < |a| ensures !AndAt(a + " and " + b, k) {
      NoSeparatorAt(a, b, k);
    }
  }

  lemma NoSeparatorAt(a: string, b: string, k: nat)
    requires forall i :: !OccursAt(a, "and", i)
    requires a == [] || !IsSpace(a[|a| - 1])
    requires k < |a|
    ensures !AndAt(a + " and " + b, k)
  {
    var s := a + " and " + b;
    if IsSpace(s[k]) {
      var w := SkipSpaces(s, k);
      assert w < |a| by {
        assert s[|a| - 1] == a[|a| - 1];
      }
      if w + 3 <= |a| {
        PrefixSlice(a, " and " + b, w, w + 3);
        assert s[w..w + 3] == a[w..w + 3];
        assert !OccursAt(a, "and", w);
      } else if w + 3 <= |s| {
        SliceChar(s, w, |a|);
        assert s[|a|] == ' ';
        assert s[w..w + 3] != "and";
      }
    }
  }

  lemma PrefixSlice(a: string, t: string, i: nat, j: nat)
    requires i <= j <= |a|
    ensures (a + t)[i..j] == a[i..j]
  {
    assert (a + t)[..|a|] == a;
  }

  lemma SliceChar(s: string, w: nat, j: nat)
    ensures w <= j < w + 3 <= |s| ==> s[w..w + 3][j - w] == s[j]
  {
  }

  /** The " and " after the clause is a separator match ending where the rest begins. */
  lemma SeparatorAfterClause(a: string, b: string)
    requires b == [] || !IsSpace(b[0])
    ensures AndAt(a + " and " + b, |a|)
    ensures AndEnd(a + " and " + b, |a|) == |a| + 5
  {
    var s := a + " and " + b;
    SkipSpacesUnique(s, |a|, |a| + 1);
    assert s[|a| + 1..|a| + 4] == "and";
    SkipSpacesUnique(s, |a| + 4, |a| + 5);
  }

  // ---------------------------------------------------------------------
  // Keyword tables: the first key, in table order, occurring in the text

  /** Index of the first entry of `table`, from `i` on, whose key is a substring of `text`. */
  function FirstKeyFrom<T>(text: string, table: seq<(string, T)>, i: nat): (r: Option<nat>)
    requires i <= |table|
    ensures r.Some? ==> i <= r.value < |table| && Contains(text, table[r.value].0)
    ensures r.Some? ==> forall j :: i <= j < r.value ==> !Contains(text, table[j].0)
    ensures r.None? ==> forall j :: i <= j < |table| ==> !Contains(text, table[j].0)
    decreases |table| - i
  {
    if i == |table| then None
    else if Contains(text, table[i].0) then Some(i)
    else FirstKeyFrom(text, table, i + 1)
  }

  /** `for key in table: if key in text: ...; break` */
  function FirstKey<T>(text: string, table: seq<(string, T)>): (r: Option<nat>)
    ensures r.Some? ==> r.value < |table| && Contains(text, table[r.value].0)
    ensures r.Some? ==> forall j :: 0 <= j < r.value ==> !Contains(text, table[j].0)
    ensures r.None? ==> forall j :: 0 <= j < |table| ==> !Contains(text, table[j].0)
  {
    FirstKeyFrom(text, table, 0)
  }

  /** `table[key]` on a dictionary: the value of the entry whose key is `key`. */
  function Lookup<T>(table: seq<(string, T)>, key: string): (r: Option<T>)
    ensures r.Some? ==> exists j :: 0 <= j < |table| && table[j] == (key, r.value)
    ensures r.None? ==> forall j :: 0 <= j < |table| ==> table[j].0 != key
  {
    if table == [] then None
    else if table[0].0 == key then Some(table[0].1)
    else
      var r := Lookup(table[1..], key);
      assert forall j :: 1 <= j < |table| ==> table[1..][j - 1] == table[j];
      r
  }

  // ---------------------------------------------------------------------
  // re.search(r'(\d+\.?\d*)\s*(rupees)?', text).group(1)

  /** Leftmost digit at or after `i`. */
  function FirstDigitFrom(s: string, i: nat): (r: Option<nat>)
    requires i <= |s|
    ensures r.Some? ==> i <= r.value < |s| && IsDigit(s[r.value])
    ensures r.Some? ==> forall k :: i <= k < r.value ==> !IsDigit(s[k])
    ensures r.None? ==> forall k :: i <= k < |s| ==> !IsDigit(s[k])
    decreases |s| - i
  {
    if i == |s| then None
    else if IsDigit(s[i]) then Some(i)
    else FirstDigitFrom(s, i + 1)
  }

  /** The first digit of `s` is at `p`. */
  predicate LeftmostDigit(s: string, p: nat) {
    p < |s| && IsDigit(s[p]) && forall k :: 0 <= k < p ==> !IsDigit(s[k])
  }

  /** What `\d+\.?\d*` matches greedily at `p`: the whole digit run, then, if
      a point follows it, the whole digit run after the point. */
  predicate NumberAt(s: string, p: nat, intDigits: string, fracDigits: string) {
    var d := p + |intDigits|;
    && |intDigits| > 0 && d <= |s| && s[p..d] == intDigits
    && (forall k :: 0 <= k < |intDigits| ==> IsDigit(intDigits[k]))
    && (d == |s| || !IsDigit(s[d]))
    && if d < |s| && s[d] == '.' then
         var f := d + 1 + |fracDigits|;
         && f <= |s| && s[d + 1..f] == fracDigits
         && (forall k :: 0 <= k < |fracDigits| ==> IsDigit(fracDigits[k]))
         && (f == |s| || !IsDigit(s[f]))
       else fracDigits == []
  }

  /** A digit run that starts at `p` and stops at a non-digit or the end is
      the whole run from `p`. */
  lemma RunIsSkipDigits(s: string, p: nat, n: nat)
    requires p + n <= |s|
    requires forall k :: p <= k < p + n ==> IsDigit(s[k])
    requires p + n == |s| || !IsDigit(s[p + n])
    ensures SkipDigits(s, p) == p + n
  {
  }

  /** At a given position the greedy number is determined. */
  lemma NumberAtUnique(s: string, p: nat, i: string, f: string, i': string, f': string)
    requires NumberAt(s, p, i, f) && NumberAt(s, p, i', f')
    ensures i == i' && f == f'
  {
    RunIsSkipDigits(s, p, |i|);
    RunIsSkipDigits(s, p, |i'|);
    var d := p + |i|;
    if d < |s| && s[d] == '.' {
      forall k | d + 1 <= k < d + 1 + |f| ensures IsDigit(s[k]) {
        assert s[k] == f[k - (d + 1)];
      }
      forall k | d + 1 <= k < d + 1 + |f'| ensures IsDigit(s[k]) {
        assert s[k] == f'[k - (d + 1)];
      }
      RunIsSkipDigits(s, d + 1, |f|);
      RunIsSkipDigits(s, d + 1, |f'|);
    }
  }

  /** The captured number, as its integer digits and its fraction digits. The
      pattern can only start on a digit; `\d+` takes the whole run, `\.?` the
      point if there is one, `\d*` the digits after it, and the rest of the
      pattern always matches, so nothing is given back. */
  function AmountDigits(s: string): (r: Option<(string, string)>)
    ensures r.None? <==> forall k :: 0 <= k < |s| ==> !IsDigit(s[k])
    ensures r.Some? ==> |r.value.0| > 0
    ensures r.Some? ==> forall k :: 0 <= k < |r.value.0| ==> IsDigit(r.value.0[k])
    ensures r.Some? ==> forall k :: 0 <= k < |r.value.1| ==> IsDigit(r.value.1[k])
  {
    match FirstDigitFrom(s, 0)
    case None => None
    case Some(p) =>
      var d := SkipDigits(s, p);
      if d < |s| && s[d] == '.' then
        var f := SkipDigits(s, d + 1);
        Some((s[p..d], s[d + 1..f]))
      else
        Some((s[p..d], ""))
  }

  /** The captured parts are what the pattern matches at the first digit. */
  lemma AmountDigitsFirstNumber(s: string)
    ensures AmountDigits(s).Some? ==>
      exists p: nat :: LeftmostDigit(s, p) && NumberAt(s, p, AmountDigits(s).value.0, AmountDigits(s).value.1)
  {
    var first := FirstDigitFrom(s, 0);
    if first.Some? {
      var p := first.value;
      var d := SkipDigits(s, p);
      assert LeftmostDigit(s, p);
      if d < |s| && s[d] == '.' {
        var f := SkipDigits(s, d + 1);
        assert NumberAt(s, p, s[p..d], s[d + 1..f]);
      } else {
        assert NumberAt(s, p, s[p..d], []);
      }
    }
  }

  /** `float()` of "<int digits>.<fraction digits>" (no rounding: reals). */
  function DecimalValue(intDigits: string, fracDigits: string): (r: real)
    ensures r >= DigitsValue(intDigits) as real
  {
    DigitsValue(intDigits) as real + DigitsValue(fracDigits) as real / Pow10(|fracDigits|) as real
  }

  /** The amount the parser reads from a clause: the value of the first number in it. */
  function AmountMatch(s: string): (r: Option<real>)
    ensures r.None? <==> forall k :: 0 <= k < |s| ==> !IsDigit(s[k])
    ensures r.Some? ==> r.value >= 0.0
  {
    match AmountDigits(s)
    case None => None
    case Some((i, f)) => Some(DecimalValue(i, f))
  }

  /** The amount is the value of the number at the first digit, however
      that number is read off, and there is one exactly when a digit is. */
  lemma AmountMatchFirstNumber(s: string)
    ensures AmountMatch(s).Some? <==> exists p: nat :: LeftmostDigit(s, p)
    ensures forall p: nat, i, f :: LeftmostDigit(s, p) && NumberAt(s, p, i, f) ==>
              AmountMatch(s) == Some(DecimalValue(i, f))
  {
    AmountDigitsFirstNumber(s);
    forall p: nat, i, f | LeftmostDigit(s, p) && NumberAt(s, p, i, f)
      ensures AmountMatch(s) == Some(DecimalValue(i, f))
    {
      var r := AmountDigits(s);
      assert r.Some?;
      var p': nat :| LeftmostDigit(s, p') && NumberAt(s, p', r.value.0, r.value.1);
      NumberAtUnique(s, p, i, f, r.value.0, r.value.1);
    }
    if exists p: nat :: LeftmostDigit(s, p) {
      var p: nat :| LeftmostDigit(s, p);
      assert IsDigit(s[p]);
    }
  }

  /** Decimal rendering of a natural number. */
  function DecimalString(n: nat): (r: string)
    ensures |r| > 0
    ensures forall k :: 0 <= k < |r| ==> IsDigit(r[k])
  {
    var d := [(('0' as int) + n % 10) as char];
    if n < 10 then d else DecimalString(n / 10) + d
  }

  /** Reading back a rendered number gives the number. */
  lemma {:induction false} DecimalStringValue(n: nat)
    ensures DigitsValue(DecimalString(n)) == n
  {
    var s := DecimalString(n);
    assert s[..|s| - 1] == (if n < 10 then [] else DecimalString(n / 10));
    if n >= 10 {
      DecimalStringValue(n / 10);
    }
  }

  /** "paid 250 rupees ...": a whole number written after text without digits,
      and not followed by a digit or a point, is the amount read. */
  lemma AmountOfWrittenNumber(pre: string, n: nat, post: string)
    requires forall k :: 0 <= k < |pre| ==> !IsDigit(pre[k])
    requires post == [] || (!IsDigit(post[0]) && post[0] != '.')
    ensures AmountMatch(pre + DecimalString(n) + post) == Some(n as real)
  {
    var ds := DecimalString(n);
    var s := pre + ds + post;
    assert s[|pre|] == ds[0];
    var first := FirstDigitFrom(s, 0);
    assert first.Some?;
    var p := first.value;
    assert forall k :: 0 <= k < |pre| ==> s[k] == pre[k];
    assert p == |pre|;
    var d := SkipDigits(s, p);
    assert forall k :: |pre| <= k < |pre| + |ds| ==> s[k] == ds[k - |pre|];
    assert |post| > 0 ==> s[|pre| + |ds|] == post[0];
    assert d == |pre| + |ds|;
    assert s[p..d] == ds;
    DecimalStringValue(n);
    assert AmountDigits(s) == Some((ds, ""));
  }

  // ---------------------------------------------------------------------
  // re.search(r'(?:for|on|from|of|worth of)\s+(.+?)(?:\s+(?:by|for|with|from|and|$))', text)

  const ItemOpeners: seq<string> := ["for", "on", "from", "of", "worth of"]
  const ItemClosers: seq<string> := ["by", "for", "with", "from", "and"]

  predicate WordAt(s: string, words: seq<string>, i: nat) {
    exists k :: 0 <= k < |words| && OccursAt(s, words[k], i)
  }

  /** The closing group matches at `e`: whitespace, then after the whole run a
      closing word or the end of the text. A shorter run would leave
      whitespace where the word must start, and `$` before a final newline
      only arises where the end of the text is reached as well. */
  predicate ClosesAt(s: string, e: nat) {
    && e < |s| && IsSpace(s[e])
    && var f := SkipSpaces(s, e);
    && (f == |s| || WordAt(s, ItemClosers, f))
  }

  /** The lazy `(.+?)` begun at `st`, now trying to stop at `e`: the least
      end from `e` on at which the closing group matches, every character
      taken being other than a newline. */
  function LazyEnd(s: string, st: nat, e: nat): (r: Option<nat>)
    requires st < e
    ensures r.Some? ==> e <= r.value < |s| && ClosesAt(s, r.value)
    ensures r.Some? ==> forall k :: e - 1 <= k < r.value ==> s[k] != '\n'
    ensures r.Some? ==> forall j :: e <= j < r.value ==> !ClosesAt(s, j)
    ensures r.None? ==> forall j :: e <= j <= |s| && (forall k :: e - 1 <= k < j ==> s[k] != '\n') ==> !ClosesAt(s, j)
    decreases |s| + 1 - e
  {
    if e > |s| || s[e - 1] == '\n' then None
    else if ClosesAt(s, e) then Some(e)
    else LazyEnd(s, st, e + 1)
  }

  /** The opener's `\s+` ending at `w` and, when the item cannot be closed
      from there, given back one whitespace character at a time down to `q + 1`. */
  function BacktrackSpaces(s: string, q: nat, w: nat): (r: Option<(nat, nat)>)
    requires q <= w <= |s|
    requires forall k :: q <= k < w ==> IsSpace(s[k])
    ensures r.Some? ==> q < r.value.0 <= w && r.value.0 < r.value.1 < |s|
    ensures r.Some? ==> forall k :: q <= k < r.value.0 ==> IsSpace(s[k])
    ensures r.Some? ==> ClosesAt(s, r.value.1)
    ensures r.Some? ==> forall k :: r.value.0 <= k < r.value.1 ==> s[k] != '\n'
    decreases w
  {
    if w <= q then None
    else
      match LazyEnd(s, w, w + 1)
      case Some(e) => Some((w, e))
      case None => BacktrackSpaces(s, q, w - 1)
  }

  /** The opening alternatives, from the `k`-th on, tried in order at `p`. */
  function TryOpeners(s: string, p: nat, k: nat): (r: Option<(nat, nat)>)
    requires k <= |ItemOpeners|
    ensures r.Some? ==> 0 < r.value.0 < r.value.1 < |s|
    ensures r.Some? ==> ClosesAt(s, r.value.1)
    ensures r.Some? ==> forall j :: r.value.0 <= j < r.value.1 ==> s[j] != '\n'
    ensures r.Some? ==> exists i ::
              && k <= i < |ItemOpeners| && OccursAt(s, ItemOpeners[i], p)
              && p + |ItemOpeners[i]| < r.value.0
              && forall j :: p + |ItemOpeners[i]| <= j < r.value.0 ==> IsSpace(s[j])
    decreases |ItemOpeners| - k
  {
    if k == |ItemOpeners| then None
    else if OccursAt(s, ItemOpeners[k], p) then
      var q := p + |ItemOpeners[k]|;
      match BacktrackSpaces(s, q, SkipSpaces(s, q))
      case Some(m) => Some(m)
      case None => TryOpeners(s, p, k + 1)
    else TryOpeners(s, p, k + 1)
  }

  /** The leftmost start position, from `p` on, at which the pattern matches. */
  function ItemSearchFrom(s: string, p: nat): (r: Option<(nat, nat)>)
    requires p <= |s|
    ensures r.Some? ==> 0 < r.value.0 < r.value.1 < |s|
    ensures r.Some? ==> ClosesAt(s, r.value.1)
    ensures r.Some? ==> forall j :: r.value.0 <= j < r.value.1 ==> s[j] != '\n'
    decreases |s| - p
  {
    match TryOpeners(s, p, 0)
    case Some(m) => Some(m)
    case None => if p == |s| then None else ItemSearchFrom(s, p + 1)
  }

  /** `ItemSearchFrom` answers with the alternatives tried at the leftmost
      position from `p` on where one of them matches, and with none when no
      position has a match. */
  /** The search from `p` answers with the alternatives tried at `q`, the
      first position from `p` on where one of them matches, or with none
      when no position from `p` on has a match. */
  predicate ItemLeftmostFrom(s: string, p: nat, q: nat)
    requires p <= |s|
  {
    && (ItemSearchFrom(s, p).Some? ==>
          && p <= q <= |s| && ItemSearchFrom(s, p) == TryOpeners(s, q, 0)
          && forall q' :: p <= q' < q ==> TryOpeners(s, q', 0).None?)
    && (ItemSearchFrom(s, p).None? ==> forall q :: p <= q <= |s| ==> TryOpeners(s, q, 0).None?)
  }

  /** The search stops at the first position with a match, or at the end. */
  lemma ItemLeftmostHere(s: string, p: nat)
    requires p <= |s|
    requires p == |s| || TryOpeners(s, p, 0).Some?
    ensures ItemLeftmostFrom(s, p, p)
  {
    assert ItemSearchFrom(s, p) == TryOpeners(s, p, 0);
  }

  /** Without a match at `p` the search goes on from `p + 1`. */
  lemma ItemLeftmostStep(s: string, p: nat, q: nat)
    requires p < |s| && TryOpeners(s, p, 0).None?
    requires ItemLeftmostFrom(s, p + 1, q)
    ensures ItemLeftmostFrom(s, p, q)
  {
    assert ItemSearchFrom(s, p) == ItemSearchFrom(s, p + 1);
  }

  lemma {:induction false} ItemSearchFromLeftmost(s: string, p: nat) returns (q: nat)
    requires p <= |s|
    ensures ItemLeftmostFrom(s, p, q)
    decreases |s| - p
  {
    if p < |s| && TryOpeners(s, p, 0).None? {
      q := ItemSearchFromLeftmost(s, p + 1);
      ItemLeftmostStep(s, p, q);
    } else {
      q := p;
      ItemLeftmostHere(s, p);
    }
  }

  /** Where group 1 of the item pattern lies in `s`, if the pattern matches. */
  function ItemSearch(s: string): (r: Option<(nat, nat)>)
    ensures r.Some? ==> 0 < r.value.0 < r.value.1 < |s|
  {
    ItemSearchFrom(s, 0)
  }

  /** The item pattern matches at its leftmost possible start: `re.search`
      tries every start from 0, and every alternative in order at each. */
  lemma ItemSearchLeftmost(s: string)
    ensures ItemSearch(s).Some? ==>
      exists q :: 0 <= q <= |s| && ItemSearch(s) == TryOpeners(s, q, 0) &&
        forall q' :: 0 <= q' < q ==> TryOpeners(s, q', 0).None?
    ensures ItemSearch(s).None? ==> forall q :: 0 <= q <= |s| ==> TryOpeners(s, q, 0).None?
  {
    var q := ItemSearchFromLeftmost(s, 0);
  }

  /** A captured item lies after an opening word and whitespace, before
      whitespace and a closing word or the end, with no newline inside. */
  lemma ItemMatchShape(s: string)
    ensures var r := ItemSearch(s);
      && (r.Some? ==> ClosesAt(s, r.value.1))
      && (r.Some? ==> forall j :: r.value.0 <= j < r.value.1 ==> s[j] != '\n')
      && (r.Some? ==> exists q, i ::
            && 0 <= i < |ItemOpeners| && OccursAt(s, ItemOpeners[i], q)
            && q + |ItemOpeners[i]| < r.value.0
            && forall j :: q + |ItemOpeners[i]| <= j < r.value.0 ==> IsSpace(s[j]))
  {
    var q := ItemSearchFromLeftmost(s, 0);
  }

  /** The `$` alternative never closes an item in text that does not end in
      whitespace (every clause the parser builds is such a text, see
      `NlpParser.ClausesEndInNonSpace`): a captured item is always
      followed by whitespace and one of by/for/with/from/and, so an item
      that ends the clause is never captured. */
  lemma ItemNeverEndsClause(s: string)
    requires |s| > 0 && EndsInNonSpace(s)
    requires ItemSearch(s).Some?
    ensures var e := ItemSearch(s).value.1;
      SkipSpaces(s, e) < |s| && WordAt(s, ItemClosers, SkipSpaces(s, e))
  {
    var e := ItemSearch(s).value.1;
    ItemMatchShape(s);
  }

  // ---------------------------------------------------------------------
  // re.search(r'(?:by|from)\s+([a-z]+)', text).group(1)

  /** The name captured by a match starting at `p`, if one starts there. */
  function PersonAt(s: string, p: nat): (r: Option<string>)
    ensures r.Some? ==> |r.value| > 0 && forall k :: 0 <= k < |r.value| ==> IsLowerLetter(r.value[k])
  {
    var q := if OccursAt(s, "by", p) then p + 2 else if OccursAt(s, "from", p) then p + 4 else p;
    if q == p then None
    else
      var w := SkipSpaces(s, q);
      if w == q || w == |s| || !IsLowerLetter(s[w]) then None
      else Some(s[w..SkipLowerLetters(s, w)])
  }

  /** The leftmost match from `p` on. */
  function PersonSearchFrom(s: string, p: nat): (r: Option<string>)
    requires p <= |s|
    ensures r.Some? ==> |r.value| > 0 && forall k :: 0 <= k < |r.value| ==> IsLowerLetter(r.value[k])
    ensures r.None? ==> forall q :: p <= q <= |s| ==> PersonAt(s, q).None?
    decreases |s| - p
  {
    var here := PersonAt(s, p);
    if here.Some? || p == |s| then here else PersonSearchFrom(s, p + 1)
  }

  function PersonSearch(s: string): (r: Option<string>)
    ensures r.Some? ==> |r.value| > 0 && forall k :: 0 <= k < |r.value| ==> IsLowerLetter(r.value[k])
    ensures r.None? ==> forall q :: 0 <= q <= |s| ==> PersonAt(s, q).None?
  {
    PersonSearchFrom(s, 0)
  }

  /** The search from `p` answers with the name at `q`, the first position
      from `p` on that has a match. */
  predicate PersonLeftmostFrom(s: string, p: nat, q: nat)
    requires p <= |s|
  {
    PersonSearchFrom(s, p).Some? ==>
      && p <= q <= |s| && PersonSearchFrom(s, p) == PersonAt(s, q)
      && forall q' :: p <= q' < q ==> PersonAt(s, q').None?
  }

  /** The search stops at the first position with a match, or at the end. */
  lemma PersonLeftmostHere(s: string, p: nat)
    requires p <= |s|
    requires p == |s| || PersonAt(s, p).Some?
    ensures PersonLeftmostFrom(s, p, p)
  {
    assert PersonSearchFrom(s, p) == PersonAt(s, p);
  }

  /** Without a match at `p` the search goes on from `p + 1`. */
  lemma PersonLeftmostStep(s: string, p: nat, q: nat)
    requires p < |s| && PersonAt(s, p).None?
    requires PersonLeftmostFrom(s, p + 1, q)
    ensures PersonLeftmostFrom(s, p, q)
  {
    assert PersonSearchFrom(s, p) == PersonSearchFrom(s, p + 1);
  }

  lemma {:induction false} PersonSearchFromLeftmost(s: string, p: nat) returns (q: nat)
    requires p <= |s|
    ensures PersonLeftmostFrom(s, p, q)
    decreases |s| - p
  {
    if p < |s| && PersonAt(s, p).None? {
      q := PersonSearchFromLeftmost(s, p + 1);
      PersonLeftmostStep(s, p, q);
    } else {
      q := p;
      PersonLeftmostHere(s, p);
    }
  }

  /** The name comes from the leftmost "by" or "from" that whitespace and a
      lower-case letter follow. */
  lemma PersonSearchLeftmost(s: string)
    ensures PersonSearch(s).Some? ==>
      exists q :: 0 <= q <= |s| && PersonSearch(s) == PersonAt(s, q) &&
        forall q' :: 0 <= q' < q ==> PersonAt(s, q').None?
  {
    var q := PersonSearchFromLeftmost(s, 0);
  }

  // ---------------------------------------------------------------------
  // re.search(r'(\d+)\s*(?:people|persons|members)', text).group(1)

  const CountWords: seq<string> := ["people", "persons", "members"]

  /** The count captured by a match starting at `p`: a digit run, optional
      whitespace, then one of the words. Neither quantifier can give anything
      back usefully, since a digit or a whitespace character would then stand
      where the next part must start. */
  function CountAt(s: string, p: nat): (r: Option<nat>)
  {
    if p < |s| && IsDigit(s[p]) then
      var d := SkipDigits(s, p);
      if WordAt(s, CountWords, SkipSpaces(s, d)) then Some(DigitsValue(s[p..d])) else None
    else None
  }

  function CountSearchFrom(s: string, p: nat): (r: Option<nat>)
    requires p <= |s|
    ensures r.Some? ==> exists q :: p <= q < |s| && r == CountAt(s, q)
    ensures r.None? ==> forall q :: p <= q ==> CountAt(s, q).None?
    decreases |s| - p
  {
    if p == |s| then None
    else
      var here := CountAt(s, p);
      if here.Some? then here else CountSearchFrom(s, p + 1)
  }

  /** The group size written as "N people", "N persons" or "N members", leftmost. */
  function CountSearch(s: string): (r: Option<nat>)
    ensures r.Some? ==> exists q :: 0 <= q < |s| && IsDigit(s[q]) && r == CountAt(s, q)
    ensures r.None? ==> forall q :: CountAt(s, q).None?
  {
    CountSearchFrom(s, 0)
  }

  /** The search from `p` answers with the count at `q`, the first position
      from `p` on that has a match. */
  predicate CountLeftmostFrom(s: string, p: nat, q: nat)
    requires p <= |s|
  {
    CountSearchFrom(s, p).Some? ==>
      && p <= q < |s| && CountSearchFrom(s, p) == CountAt(s, q)
      && forall q' :: p <= q' < q ==> CountAt(s, q').None?
  }

  /** The search stops at the first position with a match, or at the end. */
  lemma CountLeftmostHere(s: string, p: nat)
    requires p <= |s|
    requires p == |s| || CountAt(s, p).Some?
    ensures CountLeftmostFrom(s, p, p)
  {
    assert p < |s| ==> CountSearchFrom(s, p) == CountAt(s, p);
  }

  /** Without a match at `p` the search goes on from `p + 1`. */
  lemma CountLeftmostStep(s: string, p: nat, q: nat)
    requires p < |s| && CountAt(s, p).None?
    requires CountLeftmostFrom(s, p + 1, q)
    ensures CountLeftmostFrom(s, p, q)
  {
    assert CountSearchFrom(s, p) == CountSearchFrom(s, p + 1);
  }

  lemma {:induction false} CountSearchFromLeftmost(s: string, p: nat) returns (q: nat)
    requires p <= |s|
    ensures CountLeftmostFrom(s, p, q)
    decreases |s| - p
  {
    if p < |s| && CountAt(s, p).None? {
      q := CountSearchFromLeftmost(s, p + 1);
      CountLeftmostStep(s, p, q);
    } else {
      q := p;
      CountLeftmostHere(s, p);
    }
  }

  /** The count is read at the leftmost digit run that whitespace and one of
      the words follow: in "split 12 people" the run "2" also has the shape,
      but the match at "12" starts first. */
  lemma CountSearchLeftmost(s: string)
    ensures CountSearch(s).Some? ==>
      exists q :: 0 <= q < |s| && CountSearch(s) == CountAt(s, q) &&
        forall q' :: 0 <= q' < q ==> CountAt(s, q').None?
  {
    var q := CountSearchFromLeftmost(s, 0);
  }

  /** "split 12 people" is read as 12. */
  lemma CountSearchTwelve()
    ensures CountSearch("split 12 people") == Some(12)
  {
    var s := "split 12 people";
    assert SkipDigits(s, 6) == 8;
    assert SkipSpaces(s, 8) == 9;
    assert OccursAt(s, CountWords[0], 9);
    assert s[6..8] == "12";
    assert DigitsValue("12") == 12;
    assert CountAt(s, 6) == Some(12);
    assert forall q :: 0 <= q < 6 ==> !IsDigit(s[q]);
  }
}
