/**
 * The dummy agent library's `parseAction` and `getWeather`.
 *
 * `parseAction` applies the regular expression
 *   ``` \s* (?:json)? \s* ([\s\S]*?) \s* ```
 * (spaces added for reading) and hands the trimmed group to `JSON.parse`,
 * turning any failure into `null`. Here the match is computed by scanning:
 * the leftmost fence opens the block, blanks and an optional `json` tag
 * after it are skipped, and the lazy group ends before the blanks that
 * precede the first fence after the body's start. `JSON.parse` is a
 * parameter that returns `None` where the real one throws.
 */
module ActionParser {
  import opened TextUtil

  /** Three backticks start at index `p`. */
  predicate FenceAt(s: string, p: int) {
    0 <= p && p + 3 <= |s| && s[p] == '`' && s[p + 1] == '`' && s[p + 2] == '`'
  }

  /** The lowercase tag `json` starts at index `p`. */
  predicate JsonTagAt(s: string, p: int) {
    0 <= p && p + 4 <= |s| && s[p] == 'j' && s[p + 1] == 's' && s[p + 2] == 'o' && s[p + 3] == 'n'
  }

  /** The first fence that starts at or after `from`. */
  function FirstFence(s: string, from: nat): (r: Option<nat>)
    requires from <= |s|
    ensures r.Some? ==> from <= r.value && FenceAt(s, r.value)
    ensures r.Some? ==> forall p :: from <= p < r.value ==> !FenceAt(s, p)
    ensures r.None? ==> forall p :: from <= p < |s| ==> !FenceAt(s, p)
    decreases |s| - from
  {
    if from + 3 > |s| then None
    else if FenceAt(s, from) then Some(from)
    else FirstFence(s, from + 1)
  }

  /** `s[j..b]` is blanks, the `json` tag at `k`, then blanks. */
  predicate TaggedOpening(s: string, j: nat, k: nat, b: nat) {
    j <= k && k + 4 <= b <= |s| && AllBlank(s[j..k]) && JsonTagAt(s, k) && AllBlank(s[k + 4..b])
  }

  /** What `\s* (?:json)? \s*` matches: `s[j..b]` is blanks, possibly with the tag among them. */
  ghost predicate OpeningTail(s: string, j: nat, b: nat)
    requires j <= b <= |s|
  {
    AllBlank(s[j..b]) || exists k :: TaggedOpening(s, j, k, b)
  }

  /** The greedy `(?:json)?` has taken the tag: a body that begins with `json`
      does so only because a first tag was already consumed before it. */
  ghost predicate TagConsumed(s: string, j: nat, b: nat) {
    JsonTagAt(s, b) ==> exists k :: TaggedOpening(s, j, k, b)
  }

  /** Where the body starts when the opening fence ends at `j`: after
      `\s* (?:json)? \s*`, each part taking as much as it can. */
  function BodyStart(s: string, j: nat): (b: nat)
    requires j <= |s|
    ensures j <= b <= |s|
    ensures b < |s| ==> !IsBlank(s[b])
    ensures OpeningTail(s, j, b)
    ensures TagConsumed(s, j, b)
    ensures forall p :: j <= p < b ==> s[p] != '`'
  {
    var k := SkipBlanks(s, j);
    if JsonTagAt(s, k) then
      var b := SkipBlanks(s, k + 4);
      assert TaggedOpening(s, j, k, b);
      forall p | j <= p < b
        ensures s[p] != '`'
      {
        if p < k {
          assert IsBlank(s[j..k][p - j]);
        } else if p >= k + 4 {
          assert IsBlank(s[k + 4..b][p - (k + 4)]);
        }
      }
      b
    else
      assert forall p :: j <= p < k ==> s[p] == s[j..k][p - j];
      k
  }

  /** The contract of `BodyStart` has one solution: any index that follows
      an opening tail, stops at a non-blank and has consumed a leading tag is
      the body's start. */
  lemma BodyStartUnique(s: string, j: nat, b: nat)
    requires j <= b <= |s| && OpeningTail(s, j, b) && (b < |s| ==> !IsBlank(s[b]))
    requires TagConsumed(s, j, b)
    ensures b == BodyStart(s, j)
  {
    if AllBlank(s[j..b]) {
      SkipBlanksStopsAt(s, j, b);
      forall k | j <= k && k + 4 <= b
        ensures !TaggedOpening(s, j, k, b)
      {
        assert IsBlank(s[j..b][k - j]);
      }
    } else {
      var k: nat :| TaggedOpening(s, j, k, b);
      SkipBlanksStopsAt(s, j, k);
      SkipBlanksStopsAt(s, k + 4, b);
    }
  }

  const TaggedSample := "```json {}```"

  /** In the sample, the blanks and the tag after the opening fence are skipped. */
  lemma TaggedSampleOpening()
    ensures FirstFence(TaggedSample, 0) == Some(0) && BodyStart(TaggedSample, 3) == 8
  {
    var s := TaggedSample;
    assert FenceAt(s, 0);
    assert SkipBlanks(s, 3) == 3 && JsonTagAt(s, 3);
    assert SkipBlanks(s, 7) == 8;
  }

  /** In the sample, the body runs up to the closing fence. */
  lemma TaggedSampleClosing()
    ensures FirstFence(TaggedSample, 8) == Some(10) && SkipBlanksBack(TaggedSample, 8, 10) == 10
  {
    var s := TaggedSample;
    assert FirstFence(s, 9) == Some(10);
  }

  /** A block tagged `json` yields its body without the tag. */
  lemma TaggedBlockExample()
    ensures FencedBody(TaggedSample) == Some("{}")
  {
    TaggedSampleOpening();
    TaggedSampleClosing();
    assert FindBlock(TaggedSample) == Some(Block(0, 8, 10, 10));
    assert TaggedSample[8..10] == "{}";
  }



  /** Where the block sits in the text: the opening fence at `open`, the
      body `start`..`end`, the closing fence at `fence`. */
  datatype Block = Block(open: nat, start: nat, end: nat, fence: nat)

  /** The match of the fence expression, if there is one. */
  function FindBlock(s: string): (r: Option<Block>)
    ensures r.Some? ==> r.value.open + 3 <= r.value.start <= r.value.end <= r.value.fence && r.value.fence + 3 <= |s|
  {
    match FirstFence(s, 0)
    case None => None
    case Some(i) =>
      var b := BodyStart(s, i + 3);
      match FirstFence(s, b)
      case None => None
      case Some(f) => Some(Block(i, b, SkipBlanksBack(s, b, f), f))
  }

  /** The fenced body of `content`: what the capture group of the expression holds. */
  function FencedBody(content: string): Option<string> {
    match FindBlock(content)
    case None => None
    case Some(blk) => Some(content[blk.start..blk.end])
  }

  /** `parseAction(content)`: the fenced body, trimmed, handed to `JSON.parse`;
      no block or a body that does not parse gives `None`. */
  function ParseAction<V>(content: string, jsonParse: string -> Option<V>): (r: Option<V>)
    ensures FencedBody(content).None? ==> r.None?
  {
    match FencedBody(content)
    case None => None
    case Some(body) => jsonParse(Trim(body))
  }

  /** There is no block exactly when no two fences lie three or more characters apart. */
  lemma FindBlockNoneIff(s: string)
    ensures FindBlock(s).None? <==> forall i, f :: FenceAt(s, i) && FenceAt(s, f) ==> f < i + 3
  {
    match FirstFence(s, 0)
    case None =>
    case Some(i) =>
      var b := BodyStart(s, i + 3);
      if FirstFence(s, b).None? {
        forall i0, f | FenceAt(s, i0) && FenceAt(s, f)
          ensures f < i0 + 3
        {
        }
      }
  }

  /** The layout of a block: the opening fence is the leftmost fence, the
      closing fence the first one at or after the body's start, the body has
      only blanks (and possibly the `json` tag) before it and only blanks
      after it, and neither begins nor ends with a blank. */
  lemma FindBlockLayout(s: string)
    requires FindBlock(s).Some?
    ensures var blk := FindBlock(s).value;
      && FenceAt(s, blk.open) && (forall p :: 0 <= p < blk.open ==> !FenceAt(s, p))
      && FenceAt(s, blk.fence) && (forall p :: blk.start <= p < blk.fence ==> !FenceAt(s, p))
      && OpeningTail(s, blk.open + 3, blk.start)
      && (blk.start < |s| ==> !IsBlank(s[blk.start]))
      && TagConsumed(s, blk.open + 3, blk.start)
      && AllBlank(s[blk.end..blk.fence])
      && var body := s[blk.start..blk.end];
         body == [] || (!IsBlank(body[0]) && !IsBlank(body[|body| - 1]))
  {
    var blk := FindBlock(s).value;
    var body := s[blk.start..blk.end];
    if body != [] {
      assert body[0] == s[blk.start];
      assert body[|body| - 1] == s[blk.end - 1];
    }
  }

  /** The `.trim()` of the source never changes the body: the expression has
      already left the blanks on both sides out of the group. */
  lemma FencedBodyIsTrimmed(content: string)
    requires FencedBody(content).Some?
    ensures Trim(FencedBody(content).value) == FencedBody(content).value
  {
    FindBlockLayout(content);
    TrimKeeps(FencedBody(content).value);
  }

  /** `parseAction` returns exactly what `JSON.parse` makes of the fenced body:
      `None` when there is no block or the body does not parse, and otherwise
      the parsed value, unchanged. */
  lemma ParseActionResult<V>(content: string, jsonParse: string -> Option<V>)
    ensures FencedBody(content).None? ==> ParseAction(content, jsonParse).None?
    ensures FencedBody(content).Some? ==>
      ParseAction(content, jsonParse) == jsonParse(FencedBody(content).value)
  {
    if FencedBody(content).Some? {
      FencedBodyIsTrimmed(content);
    }
  }

  /** The texts `s` and `t` agree on their first `n` characters. */
  predicate AgreeUpTo(s: string, t: string, n: nat) {
    n <= |s| && n <= |t| && forall p :: 0 <= p < n ==> s[p] == t[p]
  }

  /** A greedy `\s*` that stops inside the shared prefix stops at the same place in both texts. */
  lemma SkipBlanksAgree(s: string, t: string, n: nat, i: nat)
    requires i <= |s| && i <= |t| && AgreeUpTo(s, t, n) && SkipBlanks(s, i) < n
    ensures SkipBlanks(t, i) == SkipBlanks(s, i)
  {
    var j := SkipBlanks(s, i);
    assert forall p :: i <= p < j ==> s[p] == s[i..j][p - i] && t[p] == s[p];
    assert t[i..j] == s[i..j];
    SkipBlanksStopsAt(t, i, j);
  }

  /** A first fence found inside the shared prefix is the first fence of both texts. */
  lemma FirstFenceAgree(s: string, t: string, from: nat, f: nat)
    requires from <= |s| && from <= |t| && FirstFence(s, from) == Some(f) && AgreeUpTo(s, t, f + 3)
    ensures FirstFence(t, from) == Some(f)
  {
    assert FenceAt(t, f);
    forall p | from <= p < f
      ensures !FenceAt(t, p)
    {
      assert !FenceAt(s, p);
    }
  }

  /** The body's start inside the shared prefix is the same in both texts. */
  lemma BodyStartAgree(s: string, t: string, j: nat, f: nat)
    requires j <= |s| && j <= |t| && BodyStart(s, j) <= f && FenceAt(s, f) && AgreeUpTo(s, t, f + 3)
    ensures BodyStart(t, j) == BodyStart(s, j)
  {
    var k := SkipBlanks(s, j);
    SkipBlanksAgree(s, t, f + 3, j);
    if JsonTagAt(s, k) {
      SkipBlanksAgree(s, t, f + 3, k + 4);
    } else if k < f {
      assert JsonTagAt(s, k) == JsonTagAt(t, k);
    }
  }

  /** Only the characters between `b` and `f` decide where the group ends. */
  lemma SkipBlanksBackAgree(s: string, t: string, b: nat, f: nat)
    requires b <= f && AgreeUpTo(s, t, f)
    ensures SkipBlanksBack(t, b, f) == SkipBlanksBack(s, b, f)
  {
    var e, e' := SkipBlanksBack(s, b, f), SkipBlanksBack(t, b, f);
    assert forall p :: e <= p < f ==> s[p] == s[e..f][p - e];
    assert forall p :: e' <= p < f ==> t[p] == t[e'..f][p - e'];
  }

  /** A text that agrees with `s` up to the end of the closing fence of
      `s`'s block holds the same block. */
  lemma FindBlockAgree(s: string, t: string)
    requires FindBlock(s).Some? && AgreeUpTo(s, t, FindBlock(s).value.fence + 3)
    ensures FindBlock(t) == FindBlock(s)
  {
    var blk := FindBlock(s).value;
    FirstFenceAgree(s, t, 0, blk.open);
    BodyStartAgree(s, t, blk.open + 3, blk.fence);
    FirstFenceAgree(s, t, blk.start, blk.fence);
    SkipBlanksBackAgree(s, t, blk.start, blk.fence);
  }

  /** Slices inside a common prefix agree. */
  lemma SliceAgree(s: string, t: string, a: nat, b: nat, n: nat)
    requires a <= b <= n && AgreeUpTo(s, t, n)
    ensures t[a..b] == s[a..b]
  {
    assert forall p :: 0 <= p < b - a ==> t[a..b][p] == t[a + p];
  }

  /** Only the first block counts: whatever follows its closing fence, other
      fenced blocks included, leaves the result unchanged. */
  lemma FencedBodyIgnoresRest(s: string, rest: string)
    requires FindBlock(s).Some?
    ensures FencedBody(s[..FindBlock(s).value.fence + 3] + rest) == FencedBody(s)
  {
    var blk := FindBlock(s).value;
    var t := s[..blk.fence + 3] + rest;
    assert AgreeUpTo(s, t, blk.fence + 3);
    FindBlockAgree(s, t);
    SliceAgree(s, t, blk.start, blk.end, blk.fence + 3);
  }

  /** `getWeather(location)`. */
  function GetWeather(location: string): (r: string) {
    "o clima em " + location + " está ensolarado com temperaturas baixas.\n"
  }

  /** The weather sentence names the location, ends with a line break, and
      different locations give different sentences. */
  lemma GetWeatherShape(location: string, other: string)
    ensures Contains(GetWeather(location), location)
    ensures |GetWeather(location)| > 0 && GetWeather(location)[|GetWeather(location)| - 1] == '\n'
    ensures GetWeather(location) == GetWeather(other) ==> location == other
  {
    var tail := " está ensolarado com temperaturas baixas.\n";
    ContainsPiece("o clima em ", location, tail);
    if GetWeather(location) == GetWeather(other) {
      assert |location| == |other|;
      assert location == GetWeather(location)[11..11 + |location|];
      assert other == GetWeather(other)[11..11 + |other|];
    }
  }
}
