/**
 * Text primitives shared by the agent samples, with the meaning JavaScript
 * gives them: the whitespace class of `\s` and `String.prototype.trim`,
 * `String.prototype.includes`, `Array.prototype.join`, lower-casing and the
 * decimal rendering of integral numbers.
 */
module TextUtil {

  datatype Option<+T> = None | Some(value: T)

  /** A character of ECMAScript's WhiteSpace or LineTerminator sets: what `\s`
      matches and what `trim` removes. */
  predicate IsBlank(c: char) {
    ('\t' <= c <= '\r') || c == ' ' || c == '\U{A0}' || c == '\U{1680}'
    || ('\U{2000}' <= c <= '\U{200A}') || c == '\U{2028}' || c == '\U{2029}'
    || c == '\U{202F}' || c == '\U{205F}' || c == '\U{3000}' || c == '\U{FEFF}'
  }

  predicate AllBlank(s: string) {
    forall k :: 0 <= k < |s| ==> IsBlank(s[k])
  }

  /** The end of the longest run of blanks that starts at `i`: what a greedy `\s*` consumes. */
  function SkipBlanks(s: string, i: nat): (j: nat)
    requires i <= |s|
    ensures i <= j <= |s|
    ensures AllBlank(s[i..j])
    ensures j < |s| ==> !IsBlank(s[j])
    decreases |s| - i
  {
    if i < |s| && IsBlank(s[i]) then
      var j := SkipBlanks(s, i + 1);
      assert s[i..j] == [s[i]] + s[i + 1..j];
      j
    else i
  }

  /** A greedy `\s*` stops exactly where the blanks stop. */
  lemma {:induction false} SkipBlanksStopsAt(s: string, i: nat, j: nat)
    requires i <= j <= |s|
    requires AllBlank(s[i..j])
    requires j < |s| ==> !IsBlank(s[j])
    ensures SkipBlanks(s, i) == j
    decreases j - i
  {
    if i < j {
      assert IsBlank(s[i..j][0]);
      assert s[i + 1..j] == s[i..j][1..];
      SkipBlanksStopsAt(s, i + 1, j);
    }
  }

  lemma AllBlankExtend(s: string, e: nat, f: nat)
    requires e < f <= |s| && AllBlank(s[e..f - 1]) && IsBlank(s[f - 1])
    ensures AllBlank(s[e..f])
  {
    assert forall k :: 0 <= k < f - 1 - e ==> s[e..f][k] == s[e..f - 1][k];
  }

  /** The start of the run of blanks that ends at `f`, not going below `b`:
      what a lazy group gives up to a following `\s*`. */
  function SkipBlanksBack(s: string, b: nat, f: nat): (e: nat)
    requires b <= f <= |s|
    ensures b <= e <= f
    ensures AllBlank(s[e..f])
    ensures e == b || !IsBlank(s[e - 1])
    decreases f - b
  {
    if b < f && IsBlank(s[f - 1]) then
      var e := SkipBlanksBack(s, b, f - 1);
      AllBlankExtend(s, e, f);
      e
    else f
  }

  /** JavaScript `s.trim()`: the text without its leading and trailing blanks.
      The result is a slice of `s` with only blanks before and after it, and
      it neither begins nor ends with a blank, which fixes it uniquely. */
  function Trim(s: string): (r: string)
    ensures |r| <= |s|
    ensures r == [] || (!IsBlank(r[0]) && !IsBlank(r[|r| - 1]))
    ensures exists i, j :: 0 <= i <= j <= |s| && r == s[i..j] && AllBlank(s[..i]) && AllBlank(s[j..])
  {
    var i := SkipBlanks(s, 0);
    var j := SkipBlanksBack(s, i, |s|);
    assert s[..i] == s[0..i] && s[j..] == s[j..|s|];
    s[i..j]
  }

  /** Trimming changes nothing when the text neither starts nor ends with a blank. */
  lemma TrimKeeps(s: string)
    requires s == [] || (!IsBlank(s[0]) && !IsBlank(s[|s| - 1]))
    ensures Trim(s) == s
  {
  }

  /** JavaScript `haystack.includes(needle)`. */
  predicate Contains(haystack: string, needle: string)
    decreases |haystack|
  {
    needle <= haystack || (|haystack| > 0 && Contains(haystack[1..], needle))
  }

  /** `needle` occurs in `haystack` starting at index `i`. */
  predicate OccursAt(haystack: string, needle: string, i: nat) {
    i + |needle| <= |haystack| && haystack[i..i + |needle|] == needle
  }

  /** `Contains` holds exactly when the needle occurs at some index of the haystack. */
  lemma {:induction false} ContainsAt(haystack: string, needle: string)
    ensures Contains(haystack, needle) <==> exists i: nat :: OccursAt(haystack, needle, i)
    decreases |haystack|
  {
    if needle <= haystack {
      assert OccursAt(haystack, needle, 0);
    } else if |haystack| > 0 {
      ContainsAt(haystack[1..], needle);
      if Contains(haystack[1..], needle) {
        var i: nat :| OccursAt(haystack[1..], needle, i);
        assert haystack[i + 1..i + 1 + |needle|] == haystack[1..][i..i + |needle|];
        assert OccursAt(haystack, needle, i + 1);
      }
      if i: nat :| OccursAt(haystack, needle, i) {
        assert i != 0;
        assert haystack[1..][i - 1..i - 1 + |needle|] == haystack[i..i + |needle|];
        assert OccursAt(haystack[1..], needle, i - 1);
      }
    }
  }

  /** An occurrence at a known index makes `Contains` hold. */
  lemma ContainsFromOccurrence(haystack: string, needle: string, i: nat)
    requires OccursAt(haystack, needle, i)
    ensures Contains(haystack, needle)
  {
    ContainsAt(haystack, needle);
  }

  /** The pieces of a concatenation occur in it. */
  lemma ContainsPiece(before: string, piece: string, after: string)
    ensures Contains(before + piece + after, piece)
  {
    var whole := before + piece + after;
    assert whole[|before|..|before| + |piece|] == piece;
    ContainsFromOccurrence(whole, piece, |before|);
  }

  /** What occurs in a text occurs in any text that has it as a prefix or a suffix. */
  lemma ContainsWithin(front: string, s: string, back: string, needle: string)
    requires Contains(s, needle)
    ensures Contains(front + s + back, needle)
  {
    ContainsAt(s, needle);
    var i: nat :| OccursAt(s, needle, i);
    var whole := front + s + back;
    assert whole[|front| + i..|front| + i + |needle|] == s[i..i + |needle|];
    ContainsFromOccurrence(whole, needle, |front| + i);
  }

  /** Every string contains itself (both sides of a `includes` test agree on equal strings). */
  lemma ContainsSelf(s: string)
    ensures Contains(s, s)
  {
  }

  /** JavaScript `parts.join(sep)`. */
  function Join(parts: seq<string>, sep: string): string
    decreases |parts|
  {
    if |parts| == 0 then ""
    else if |parts| == 1 then parts[0]
    else parts[0] + sep + Join(parts[1..], sep)
  }

  /** Every part of a join occurs in the joined text. */
  lemma {:induction false} JoinContainsEach(parts: seq<string>, sep: string, k: nat)
    requires k < |parts|
    ensures Contains(Join(parts, sep), parts[k])
    decreases |parts|
  {
    if |parts| == 1 {
      ContainsSelf(parts[0]);
    } else if k == 0 {
      ContainsPiece("", parts[0], sep + Join(parts[1..], sep));
      assert "" + parts[0] + (sep + Join(parts[1..], sep)) == Join(parts, sep);
    } else {
      JoinContainsEach(parts[1..], sep, k - 1);
      ContainsWithin(parts[0] + sep, Join(parts[1..], sep), "", parts[k]);
      assert parts[0] + sep + Join(parts[1..], sep) + "" == Join(parts, sep);
    }
  }

  /** Joining the first `n` parts gives a prefix of joining them all. */
  lemma {:induction false} JoinPrefix(parts: seq<string>, sep: string, n: nat)
    requires 1 <= n <= |parts|
    ensures Join(parts[..n], sep) <= Join(parts, sep)
    decreases |parts|
  {
    if n == |parts| {
      assert parts[..n] == parts;
    } else if n == 1 {
      assert parts[..n] == [parts[0]];
    } else {
      JoinPrefix(parts[1..], sep, n - 1);
      assert parts[..n][1..] == parts[1..][..n - 1];
    }
  }

  /** The capitals lower-casing maps: ASCII `A`-`Z` and the Latin-1 capitals
      `À`-`Þ` except `×`. */
  predicate IsCapital(c: char) {
    ('A' <= c <= 'Z') || ('\U{C0}' <= c <= '\U{DE}' && c != '\U{D7}')
  }

  /** Lower-case form of one character: a capital becomes the small letter
      32 code points above it, everything else is kept. */
  function LowerChar(c: char): (r: char)
    ensures !IsCapital(r)
    ensures IsCapital(c) ==> r as int == c as int + 32
    ensures !IsCapital(c) ==> r == c
  {
    if IsCapital(c) then (c as int + 32) as char else c
  }

  /** `s.toLowerCase()`, character by character. */
  function ToLower(s: string): (r: string)
    ensures |r| == |s|
    ensures forall k :: 0 <= k < |s| ==> r[k] == LowerChar(s[k])
    ensures forall k :: 0 <= k < |r| ==> !IsCapital(r[k])
  {
    seq(|s|, k requires 0 <= k < |s| => LowerChar(s[k]))
  }

  /** Text without capitals is its own lower-case form. */
  lemma ToLowerKeeps(s: string)
    requires forall k :: 0 <= k < |s| ==> !IsCapital(s[k])
    ensures ToLower(s) == s
  {
    assert forall k :: 0 <= k < |s| ==> ToLower(s)[k] == s[k];
  }

  /** Lower-casing twice is lower-casing once. */
  lemma ToLowerIdempotent(s: string)
    ensures ToLower(ToLower(s)) == ToLower(s)
  {
    ToLowerKeeps(ToLower(s));
  }

  function DigitChar(d: nat): (c: char)
    requires d < 10
    ensures '0' <= c <= '9'
  {
    ('0' as int + d) as char
  }

  /** Decimal numeral of a natural number, without leading zeros. */
  function NatToDecimal(n: nat): (r: string)
    ensures |r| > 0
    ensures forall k :: 0 <= k < |r| ==> '0' <= r[k] <= '9'
    ensures |r| > 1 ==> r[0] != '0'
  {
    if n < 10 then [DigitChar(n)] else NatToDecimal(n / 10) + [DigitChar(n % 10)]
  }

  /** How a template literal renders an integral JavaScript number. */
  function IntToDecimal(i: int): string {
    if i < 0 then "-" + NatToDecimal(-i) else NatToDecimal(i)
  }
}
