/** The Python string built-ins the core relies on (`lower`, `strip`, `split`,
    `in`, `capitalize`, `isalpha`) and the character classes of its regular
    expressions (`\s`, `\d`, `[a-z]`). Case mapping, letters and digits are
    ASCII; whitespace is Python's full `str.isspace` set. */
module Text {
  import opened Wrappers

  /** `str.isspace()`, which is also what `\s` and the argument-less `split()`
      and `strip()` treat as whitespace. */
  predicate IsSpace(c: char) {
    var n := c as int;
    n == 0x20 || (0x09 <= n <= 0x0D) || (0x1C <= n <= 0x1F) || n == 0x85 || n == 0xA0
    || n == 0x1680 || (0x2000 <= n <= 0x200A) || n == 0x2028 || n == 0x2029
    || n == 0x202F || n == 0x205F || n == 0x3000
  }

  /** `\d` */
  predicate IsDigit(c: char) { '0' <= c <= '9' }

  /** `[a-z]` */
  predicate IsLowerLetter(c: char) { 'a' <= c <= 'z' }

  predicate IsUpperLetter(c: char) { 'A' <= c <= 'Z' }

  /** `str.isalpha()`, per character */
  predicate IsAlpha(c: char) { IsLowerLetter(c) || IsUpperLetter(c) }

  /** `str.isalpha()`: non-empty and letters only */
  predicate AllAlpha(s: string) {
    |s| > 0 && forall i :: 0 <= i < |s| ==> IsAlpha(s[i])
  }

  function LowerChar(c: char): char {
    if IsUpperLetter(c) then (c as int + 32) as char else c
  }

  function UpperChar(c: char): char {
    if IsLowerLetter(c) then (c as int - 32) as char else c
  }

  /** `str.lower()` */
  function Lower(s: string): (r: string)
    ensures |r| == |s|
    ensures forall i :: 0 <= i < |r| ==> !IsUpperLetter(r[i])
  {
    seq(|s|, i requires 0 <= i < |s| => LowerChar(s[i]))
  }

  /** `str.capitalize()`: the first character upper-cased, the rest lower-cased. */
  function Capitalize(s: string): (r: string)
    ensures |r| == |s|
    ensures |s| > 0 ==> !IsLowerLetter(r[0]) && r[1..] == Lower(s[1..])
  {
    if s == [] then [] else [UpperChar(s[0])] + Lower(s[1..])
  }

  predicate StartsWith(s: string, p: string) {
    |p| <= |s| && s[..|p|] == p
  }

  /** Python's `k in s` on strings: `k` occurs in `s` as a substring. */
  predicate Contains(s: string, k: string)
    decreases |s|
  {
    StartsWith(s, k) || (|s| > 0 && Contains(s[1..], k))
  }

  predicate OccursAt(s: string, k: string, i: int) {
    0 <= i && i + |k| <= |s| && s[i..i + |k|] == k
  }

  /** `k in s` holds exactly when `k` occurs at some index of `s`. */
  lemma {:induction false} ContainsIff(s: string, k: string)
    ensures Contains(s, k) <==> exists i :: OccursAt(s, k, i)
    decreases |s|
  {
    if StartsWith(s, k) {
      assert OccursAt(s, k, 0);
    } else if |s| > 0 {
      ContainsIff(s[1..], k);
      if Contains(s[1..], k) {
        var i :| OccursAt(s[1..], k, i);
        assert s[i + 1..i + 1 + |k|] == s[1..][i..i + |k|];
        assert OccursAt(s, k, i + 1);
      }
      forall i | OccursAt(s, k, i) ensures Contains(s[1..], k) {
        assert i != 0;
        assert s[1..][i - 1..i - 1 + |k|] == s[i..i + |k|];
        assert OccursAt(s[1..], k, i - 1);
      }
    } else {
      forall i | OccursAt(s, k, i) ensures false {
      }
    }
  }

  /** First index at or after `i` that is not whitespace (or `|s|`). */
  function SkipSpaces(s: string, i: nat): (r: nat)
    requires i <= |s|
    ensures i <= r <= |s|
    ensures forall k :: i <= k < r ==> IsSpace(s[k])
    ensures r == |s| || !IsSpace(s[r])
    decreases |s| - i
  {
    if i == |s| || !IsSpace(s[i]) then i else SkipSpaces(s, i + 1)
  }

  /** First index at or after `i` that is whitespace (or `|s|`). */
  function SkipNonSpaces(s: string, i: nat): (r: nat)
    requires i <= |s|
    ensures i <= r <= |s|
    ensures forall k :: i <= k < r ==> !IsSpace(s[k])
    ensures r == |s| || IsSpace(s[r])
    decreases |s| - i
  {
    if i == |s| || IsSpace(s[i]) then i else SkipNonSpaces(s, i + 1)
  }

  /** End of the run of `\d` that starts at `i`. */
  function SkipDigits(s: string, i: nat): (r: nat)
    requires i <= |s|
    ensures i <= r <= |s|
    ensures forall k :: i <= k < r ==> IsDigit(s[k])
    ensures r == |s| || !IsDigit(s[r])
    decreases |s| - i
  {
    if i == |s| || !IsDigit(s[i]) then i else SkipDigits(s, i + 1)
  }

  /** End of the run of `[a-z]` that starts at `i`. */
  function SkipLowerLetters(s: string, i: nat): (r: nat)
    requires i <= |s|
    ensures i <= r <= |s|
    ensures forall k :: i <= k < r ==> IsLowerLetter(s[k])
    ensures r == |s| || !IsLowerLetter(s[r])
    decreases |s| - i
  {
    if i == |s| || !IsLowerLetter(s[i]) then i else SkipLowerLetters(s, i + 1)
  }

  /** Index just past the last non-whitespace character of `s[..j]` (0 if none). */
  function TrimEndIndex(s: string, j: nat): (r: nat)
    requires j <= |s|
    ensures r <= j
    ensures forall k :: r <= k < j ==> IsSpace(s[k])
    ensures r == 0 || !IsSpace(s[r - 1])
    decreases j
  {
    if j == 0 || !IsSpace(s[j - 1]) then j else TrimEndIndex(s, j - 1)
  }

  /** `str.strip()`: the slice of `s` left once leading and trailing whitespace are removed. */
  function Strip(s: string): (r: string)
    ensures exists i, j ::
              && 0 <= i <= j <= |s| && r == s[i..j]
              && (forall k :: 0 <= k < i ==> IsSpace(s[k]))
              && (forall k :: j <= k < |s| ==> IsSpace(s[k]))
    ensures r == [] || (!IsSpace(r[0]) && !IsSpace(r[|r| - 1]))
  {
    var i := SkipSpaces(s, 0);
    var j := TrimEndIndex(s, |s|);
    if j <= i then
      assert forall k :: 0 <= k < |s| ==> IsSpace(s[k]) by {
        forall k | 0 <= k < |s| ensures IsSpace(s[k]) {
          if k >= j {} else {
            assert k < i;
          }
        }
      }
      assert s[|s|..|s|] == [];
      []
    else
      s[i..j]
  }

  /** `split()` with no argument, continued from index `i`. */
  function WordsFrom(s: string, i: nat): (r: seq<string>)
    requires i <= |s|
    ensures forall w :: w in r ==> |w| > 0 && forall k :: 0 <= k < |w| ==> !IsSpace(w[k])
    ensures r == [] <==> forall k :: i <= k < |s| ==> IsSpace(s[k])
    decreases |s| - i
  {
    var start := SkipSpaces(s, i);
    if start == |s| then []
    else
      var end := SkipNonSpaces(s, start);
      [s[start..end]] + WordsFrom(s, end)
  }

  /** `s.split()`: the maximal runs of non-whitespace characters, in order. */
  function Words(s: string): (r: seq<string>)
    ensures forall w :: w in r ==> |w| > 0 && forall k :: 0 <= k < |w| ==> !IsSpace(w[k])
    ensures r == [] <==> forall k :: 0 <= k < |s| ==> IsSpace(s[k])
  {
    WordsFrom(s, 0)
  }

  /** Leftmost occurrence of `sep` in `s` at or after `i`. */
  function FindFrom(s: string, sep: string, i: nat): (r: Option<nat>)
    requires i <= |s|
    ensures r.Some? ==>
              && i <= r.value && OccursAt(s, sep, r.value)
              && forall k :: i <= k < r.value ==> !OccursAt(s, sep, k)
    ensures r.None? ==> forall k :: i <= k ==> !OccursAt(s, sep, k)
    decreases |s| - i
  {
    if i + |sep| > |s| then None
    else if s[i..i + |sep|] == sep then Some(i)
    else if i == |s| then None
    else FindFrom(s, sep, i + 1)
  }

  /** Where the last piece of `s.split(sep)` starts, scanning from `i`: past
      each of the left-to-right, non-overlapping occurrences of `sep` in turn. */
  function LastPieceStart(s: string, sep: string, i: nat): (r: nat)
    requires |sep| > 0 && i <= |s|
    ensures i <= r <= |s|
    ensures forall k :: r <= k ==> !OccursAt(s, sep, k)
    ensures r == i || (r >= |sep| && OccursAt(s, sep, r - |sep|))
    decreases |s| - i
  {
    match FindFrom(s, sep, i)
    case None => i
    case Some(j) => LastPieceStart(s, sep, j + |sep|)
  }

  /** `s.split(sep)[-1]` for a non-empty `sep`: what follows the last of the
      left-to-right, non-overlapping occurrences of `sep`, or the whole text
      when there is none. */
  function LastPiece(s: string, sep: string): (r: string)
    requires |sep| > 0
    ensures |r| <= |s| && r == s[|s| - |r|..]
    ensures forall k :: !OccursAt(r, sep, k)
    ensures (forall k :: !OccursAt(s, sep, k)) ==> r == s
    ensures r == s || exists p :: OccursAt(s, sep, p) && r == s[p + |sep|..]
  {
    var start := LastPieceStart(s, sep, 0);
    forall k ensures !OccursAt(s[start..], sep, k) {
      if OccursAt(s[start..], sep, k) {
        OccursAtShift(s, sep, start, k);
      }
    }
    assert start > 0 ==> OccursAt(s, sep, start - |sep|) && s[start..] == s[start - |sep| + |sep|..];
    s[start..]
  }

  /** An occurrence in a suffix is an occurrence in the text. */
  lemma OccursAtShift(s: string, sep: string, d: nat, p: nat)
    requires d <= |s| && OccursAt(s[d..], sep, p)
    ensures OccursAt(s, sep, d + p)
  {
    assert s[d..][p..p + |sep|] == s[d + p..d + p + |sep|];
  }

  /** Value of a string of decimal digits (as `int()` reads it). */
  function DigitsValue(ds: string): nat
    decreases |ds|
  {
    if ds == [] then 0
    else
      var d := ds[|ds| - 1];
      var v := if IsDigit(d) then d as int - '0' as int else 0;
      DigitsValue(ds[..|ds| - 1]) * 10 + v
  }

  function Pow10(n: nat): (r: nat)
    ensures r >= 1
  {
    if n == 0 then 1 else 10 * Pow10(n - 1)
  }
}
