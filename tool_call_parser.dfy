/**
 * `parseToolCall` of the book agent: finding a call such as
 * `book_lookup(title="Dom Casmurro")` in free text returned by the model.
 *
 * The source does this with the case-insensitive regular expression
 *   book_lookup \s* ( \s* title \s* = \s* ["'] ([^"']+) ["'] \s* )
 * (spaces added for reading). Here that pattern is a list of tokens,
 * `ToolCallPattern`, and two things are defined over it: `Generates`, the
 * language of the pattern (which texts it matches whole, and what its group
 * captures), and `Scan`, a greedy left-to-right scanner. `ScanSound` and
 * `ScanComplete` prove that they agree on every pattern whose greedy choices
 * are forced, which `ToolCallPattern` is; `ParseToolCall` then returns the
 * capture of the leftmost match, as `String.prototype.match` does.
 */
module ToolCallParser {
  import opened TextUtil

  /** One element of a pattern. */
  datatype Token =
    | Word(text: string) // literal text; under the `i` flag an ASCII letter matches either case
    | Blanks             // \s*
    | QuoteMark          // ["']
    | Capture            // ([^"']+)

  const ToolCallPattern: seq<Token> := [
    Word("book_lookup"), Blanks, Word("("), Blanks, Word("title"), Blanks, Word("="), Blanks,
    QuoteMark, Capture, QuoteMark, Blanks, Word(")")
  ]

  /** The only tool name the parser ever reports. */
  const BookLookupName := "book_lookup"

  /** A detected call: the tool's name and its one argument, `title`. */
  datatype ToolCall = ToolCall(toolName: string, title: string)

  predicate IsQuote(c: char) {
    c == '"' || c == '\''
  }

  predicate NoQuotes(s: string) {
    forall k :: 0 <= k < |s| ==> !IsQuote(s[k])
  }

  /** Character comparison under the `i` flag without `u`: ASCII letters are
      folded; the pattern's literals are ASCII, so no other character can
      fold onto them. */
  predicate CharMatches(c: char, lit: char) {
    c == lit
    || ('a' <= lit <= 'z' && c as int == lit as int - 32)
    || ('A' <= lit <= 'Z' && c as int == lit as int + 32)
  }

  predicate WordMatches(m: string, w: string) {
    |m| == |w| && forall k :: 0 <= k < |w| ==> CharMatches(m[k], w[k])
  }

  /** `p` matches the whole of `m`, and its capture group (if any) captures `t`. */
  ghost predicate Generates(p: seq<Token>, m: string, t: string)
    decreases |p|, |m|
  {
    if p == [] then m == []
    else match p[0]
      case Word(w) => |w| <= |m| && WordMatches(m[..|w|], w) && Generates(p[1..], m[|w|..], t)
      case Blanks => Generates(p[1..], m, t) || (|m| > 0 && IsBlank(m[0]) && Generates(p, m[1..], t))
      case QuoteMark => |m| > 0 && IsQuote(m[0]) && Generates(p[1..], m[1..], t)
      case Capture => 0 < |t| <= |m| && m[..|t|] == t && NoQuotes(t) && Generates(p[1..], m[|t|..], t)
  }

  function CaptureCount(p: seq<Token>): nat {
    if p == [] then 0 else (if p[0].Capture? then 1 else 0) + CaptureCount(p[1..])
  }

  /** Every text that `tok` matches begins with a non-blank character. */
  predicate StartsNonBlank(tok: Token) {
    match tok
    case Word(w) => |w| > 0 && '!' <= w[0] <= '~' && !('A' <= w[0] <= 'Z')
    case QuoteMark => true
    case _ => false
  }

  /** Patterns on which a greedy scan never needs to backtrack: every `\s*`
      is followed by something that cannot start with a blank, the capture is
      followed by a quote, and there is at most one capture. */
  predicate Greedy(p: seq<Token>) {
    CaptureCount(p) <= 1 && Forced(p)
  }

  predicate Forced(p: seq<Token>) {
    if p == [] then true
    else match p[0]
      case Blanks => |p| > 1 && StartsNonBlank(p[1]) && Forced(p[1..])
      case Capture => |p| > 1 && p[1].QuoteMark? && Forced(p[1..])
      case _ => Forced(p[1..])
  }

  predicate ForcedHead(p: seq<Token>)
    requires p != []
  {
    && (p[0].Blanks? ==> |p| > 1 && StartsNonBlank(p[1]))
    && (p[0].Capture? ==> |p| > 1 && p[1].QuoteMark?)
  }

  lemma ToolCallPatternCaptureCount()
    ensures CaptureCount(ToolCallPattern) == 1
  {
  }

  /** `Forced` of a suffix from its first token and the suffix after it. */
  lemma ForcedStep(p: seq<Token>, i: nat)
    requires i < |p|
    requires p[i].Blanks? ==> i + 1 < |p| && StartsNonBlank(p[i + 1])
    requires p[i].Capture? ==> i + 1 < |p| && p[i + 1].QuoteMark?
    requires Forced(p[i + 1..])
    ensures Forced(p[i..])
  {
    assert p[i..][0] == p[i];
    assert p[i..][1..] == p[i + 1..];
  }

  /** `Forced` for any pattern laid out token by token as `ToolCallPattern` is. */
  lemma {:induction false} ToolCallShapeForced(p: seq<Token>)
    requires |p| == 13 && p[0].Word? && p[1] == Blanks && p[2] == Word("(") && p[3] == Blanks
    requires p[4] == Word("title") && p[5] == Blanks && p[6] == Word("=") && p[7] == Blanks
    requires p[8] == QuoteMark && p[9] == Capture && p[10] == QuoteMark && p[11] == Blanks
    requires p[12] == Word(")")
    ensures Forced(p)
  {
    assert p[13..] == [];
    ForcedStep(p, 12);
    ForcedStep(p, 11);
    ForcedStep(p, 10);
    ForcedStep(p, 9);
    ForcedStep(p, 8);
    ForcedStep(p, 7);
    ForcedStep(p, 6);
    ForcedStep(p, 5);
    ForcedStep(p, 4);
    ForcedStep(p, 3);
    ForcedStep(p, 2);
    ForcedStep(p, 1);
    ForcedStep(p, 0);
    assert p[0..] == p;
  }

  lemma ToolCallPatternForced()
    ensures Forced(ToolCallPattern)
  {
    ToolCallShapeForced(ToolCallPattern);
  }

  lemma ToolCallPatternIsGreedy()
    ensures Greedy(ToolCallPattern) && CaptureCount(ToolCallPattern) == 1
  {
    ToolCallPatternCaptureCount();
    ToolCallPatternForced();
  }

  /** The end of the longest run of non-quote characters from `i`: what a greedy `[^"']+` consumes. */
  function SkipNonQuotes(s: string, i: nat): (j: nat)
    requires i <= |s|
    ensures i <= j <= |s|
    ensures NoQuotes(s[i..j])
    ensures j < |s| ==> IsQuote(s[j])
    decreases |s| - i
  {
    if i < |s| && !IsQuote(s[i]) then
      var j := SkipNonQuotes(s, i + 1);
      assert s[i..j] == [s[i]] + s[i + 1..j];
      j
    else i
  }

  lemma {:induction false} SkipNonQuotesStopsAt(s: string, i: nat, j: nat)
    requires i <= j < |s| && NoQuotes(s[i..j]) && IsQuote(s[j])
    ensures SkipNonQuotes(s, i) == j
    decreases j - i
  {
    if i < j {
      assert !IsQuote(s[i..j][0]);
      assert s[i + 1..j] == s[i..j][1..];
      SkipNonQuotesStopsAt(s, i + 1, j);
    }
  }

  /** Where a match of `p` at `i` ends, and what its group captured. */
  datatype Hit = Hit(end: nat, capture: string)

  /** The greedy scan of `p` starting at index `i` of `s`. */
  function Scan(p: seq<Token>, s: string, i: nat): (r: Option<Hit>)
    requires i <= |s|
    ensures r.Some? ==> i <= r.value.end <= |s|
    decreases |p|
  {
    if p == [] then Some(Hit(i, ""))
    else match p[0]
      case Word(w) =>
        if i + |w| <= |s| && WordMatches(s[i..i + |w|], w) then Scan(p[1..], s, i + |w|) else None
      case Blanks => Scan(p[1..], s, SkipBlanks(s, i))
      case QuoteMark => if i < |s| && IsQuote(s[i]) then Scan(p[1..], s, i + 1) else None
      case Capture =>
        var j := SkipNonQuotes(s, i);
        if j == i then None
        else match Scan(p[1..], s, j)
          case None => None
          case Some(h) => Some(Hit(h.end, s[i..j]))
  }

  /** A `\s*` at the head of a pattern may be fed any run of blanks. */
  lemma {:induction false} BlanksAbsorb(p: seq<Token>, w: string, m: string, t: string)
    requires p != [] && p[0].Blanks? && AllBlank(w) && Generates(p[1..], m, t)
    ensures Generates(p, w + m, t)
    decreases |w|
  {
    if w == [] {
      assert w + m == m;
    } else {
      BlanksAbsorb(p, w[1..], m, t);
      assert (w + m)[1..] == w[1..] + m;
    }
  }

  /** Without a capture group the captured text is irrelevant. */
  lemma {:induction false} NoCaptureAnyText(p: seq<Token>, m: string, t: string, t': string)
    requires CaptureCount(p) == 0 && Generates(p, m, t)
    ensures Generates(p, m, t')
    decreases |p|, |m|
  {
    if p != [] {
      match p[0]
      case Word(w) => NoCaptureAnyText(p[1..], m[|w|..], t, t');
      case QuoteMark => NoCaptureAnyText(p[1..], m[1..], t, t');
      case Blanks =>
        if Generates(p[1..], m, t) {
          NoCaptureAnyText(p[1..], m, t, t');
        } else {
          NoCaptureAnyText(p, m[1..], t, t');
        }
    }
  }

  lemma MatchWordStep(p: seq<Token>, s: string, i: nat, e: nat, c: string)
    requires p != [] && p[0].Word? && i + |p[0].text| <= e <= |s|
    requires WordMatches(s[i..i + |p[0].text|], p[0].text)
    requires Generates(p[1..], s[i + |p[0].text|..e], c)
    ensures Generates(p, s[i..e], c)
  {
    var w := p[0].text;
    assert s[i..e][..|w|] == s[i..i + |w|];
    assert s[i..e][|w|..] == s[i + |w|..e];
  }

  lemma MatchQuoteStep(p: seq<Token>, s: string, i: nat, e: nat, c: string)
    requires p != [] && p[0].QuoteMark? && i < e <= |s| && IsQuote(s[i])
    requires Generates(p[1..], s[i + 1..e], c)
    ensures Generates(p, s[i..e], c)
  {
    assert s[i..e][1..] == s[i + 1..e];
  }

  lemma MatchBlanksStep(p: seq<Token>, s: string, i: nat, j: nat, e: nat, c: string)
    requires p != [] && p[0].Blanks? && i <= j <= e <= |s| && AllBlank(s[i..j])
    requires Generates(p[1..], s[j..e], c)
    ensures Generates(p, s[i..e], c)
  {
    BlanksAbsorb(p, s[i..j], s[j..e], c);
    assert s[i..j] + s[j..e] == s[i..e];
  }

  lemma MatchCaptureStep(p: seq<Token>, s: string, i: nat, j: nat, e: nat, c: string)
    requires p != [] && p[0].Capture? && i < j <= e <= |s| && NoQuotes(s[i..j])
    requires CaptureCount(p[1..]) == 0 && Generates(p[1..], s[j..e], c)
    ensures Generates(p, s[i..e], s[i..j])
  {
    NoCaptureAnyText(p[1..], s[j..e], c, s[i..j]);
    assert s[i..e][..j - i] == s[i..j];
    assert s[i..e][j - i..] == s[j..e];
  }

  /** What the scanner finds is matched by the pattern, with the same capture. */
  lemma {:induction false} ScanSound(p: seq<Token>, s: string, i: nat)
    requires i <= |s| && CaptureCount(p) <= 1 && Scan(p, s, i).Some?
    ensures Generates(p, s[i..Scan(p, s, i).value.end], Scan(p, s, i).value.capture)
    decreases |p|
  {
    var h := Scan(p, s, i).value;
    if p != [] {
      match p[0]
      case Word(w) =>
        ScanSound(p[1..], s, i + |w|);
        MatchWordStep(p, s, i, h.end, h.capture);
      case QuoteMark =>
        ScanSound(p[1..], s, i + 1);
        MatchQuoteStep(p, s, i, h.end, h.capture);
      case Blanks =>
        var j := SkipBlanks(s, i);
        ScanSound(p[1..], s, j);
        MatchBlanksStep(p, s, i, j, h.end, h.capture);
      case Capture =>
        var j := SkipNonQuotes(s, i);
        var rest := Scan(p[1..], s, j).value;
        ScanSound(p[1..], s, j);
        MatchCaptureStep(p, s, i, j, h.end, rest.capture);
    }
  }

  /** A match of `\s*` followed by the rest of the pattern splits into a run of blanks and the rest. */
  lemma {:induction false} BlankRun(p: seq<Token>, m: string, t: string) returns (n: nat)
    requires p != [] && p[0].Blanks? && Generates(p, m, t)
    ensures n <= |m| && AllBlank(m[..n]) && Generates(p[1..], m[n..], t)
    decreases |m|
  {
    if Generates(p[1..], m, t) {
      n := 0;
    } else {
      var n' := BlankRun(p, m[1..], t);
      n := n' + 1;
      assert m[n..] == m[1..][n'..];
      assert m[..n] == [m[0]] + m[1..][..n'];
    }
  }

  /** What a token that starts non-blank matches starts with a non-blank character. */
  lemma FirstNotBlank(p: seq<Token>, m: string, t: string)
    requires p != [] && StartsNonBlank(p[0]) && Generates(p, m, t)
    ensures |m| > 0 && !IsBlank(m[0])
  {
    match p[0]
    case Word(w) => assert CharMatches(m[..|w|][0], w[0]);
    case QuoteMark =>
  }

  /** `m` sits at index `i` of `s`; so do its first `n` characters and the rest. */
  lemma SliceSplit(s: string, i: nat, m: string, n: nat)
    requires i + |m| <= |s| && s[i..i + |m|] == m && n <= |m|
    ensures s[i..i + n] == m[..n]
    ensures s[i + n..i + n + |m[n..]|] == m[n..]
    ensures n < |m| ==> s[i + n] == m[n]
  {
  }

  /** A leading `\s*` is scanned by skipping blanks. */
  lemma ScanBlanksStep(p: seq<Token>, s: string, i: nat)
    requires p != [] && p[0].Blanks? && i <= |s|
    ensures Scan(p, s, i) == Scan(p[1..], s, SkipBlanks(s, i))
  {
  }

  lemma CaptureCountTail(p: seq<Token>)
    requires p != [] && !p[0].Capture?
    ensures CaptureCount(p) == CaptureCount(p[1..])
  {
  }

  lemma GreedyTail(p: seq<Token>)
    requires p != [] && Greedy(p)
    ensures Greedy(p[1..])
  {
  }

  /** Whatever the pattern matches at `i`, the scanner finds, with the same end and capture. */
  lemma {:induction false} ScanComplete(p: seq<Token>, s: string, i: nat, m: string, t: string)
    requires Greedy(p) && i + |m| <= |s| && s[i..i + |m|] == m && Generates(p, m, t)
    ensures Scan(p, s, i) == Some(Hit(i + |m|, if CaptureCount(p) == 1 then t else ""))
    decreases |p|, 1
  {
    if p != [] {
      match p[0]
      case Word(_) => CompleteWord(p, s, i, m, t);
      case QuoteMark => CompleteQuote(p, s, i, m, t);
      case Blanks => CompleteBlanks(p, s, i, m, t);
      case Capture => CompleteCapture(p, s, i, m, t);
    }
  }

  lemma {:induction false} CompleteWord(p: seq<Token>, s: string, i: nat, m: string, t: string)
    requires Greedy(p) && i + |m| <= |s| && s[i..i + |m|] == m && Generates(p, m, t)
    requires p != [] && p[0].Word?
    ensures Scan(p, s, i) == Some(Hit(i + |m|, if CaptureCount(p) == 1 then t else ""))
    decreases |p|, 0
  {
    GreedyTail(p);
    var w := p[0].text;
    SliceSplit(s, i, m, |w|);
    ScanComplete(p[1..], s, i + |w|, m[|w|..], t);
  }

  lemma {:induction false} CompleteQuote(p: seq<Token>, s: string, i: nat, m: string, t: string)
    requires Greedy(p) && i + |m| <= |s| && s[i..i + |m|] == m && Generates(p, m, t)
    requires p != [] && p[0].QuoteMark?
    ensures Scan(p, s, i) == Some(Hit(i + |m|, if CaptureCount(p) == 1 then t else ""))
    decreases |p|, 0
  {
    GreedyTail(p);
    SliceSplit(s, i, m, 1);
    ScanComplete(p[1..], s, i + 1, m[1..], t);
  }

  lemma {:induction false} CompleteBlanks(p: seq<Token>, s: string, i: nat, m: string, t: string)
    requires Greedy(p) && i + |m| <= |s| && s[i..i + |m|] == m && Generates(p, m, t)
    requires p != [] && p[0].Blanks?
    ensures Scan(p, s, i) == Some(Hit(i + |m|, if CaptureCount(p) == 1 then t else ""))
    decreases |p|, 0
  {
    var n := BlanksSplit(p, s, i, m, t);
    ScanComplete(p[1..], s, i + n, m[n..], t);
    BlanksAssemble(p, s, i, n, |m[n..]|, t);
  }

  /** A match of a pattern that starts with `\s*` is a run of blanks, which
      the greedy `\s*` consumes whole, then a match of the rest. */
  lemma BlanksSplit(p: seq<Token>, s: string, i: nat, m: string, t: string) returns (n: nat)
    requires Greedy(p) && i + |m| <= |s| && s[i..i + |m|] == m && Generates(p, m, t)
    requires p != [] && p[0].Blanks?
    ensures n <= |m| && SkipBlanks(s, i) == i + n && Greedy(p[1..])
    ensures s[i + n..i + n + |m[n..]|] == m[n..] && Generates(p[1..], m[n..], t)
  {
    GreedyTail(p);
    assert ForcedHead(p);
    n := BlankRun(p, m, t);
    FirstNotBlank(p[1..], m[n..], t);
    SliceSplit(s, i, m, n);
    SkipBlanksStopsAt(s, i, i + n);
  }

  /** A leading `\s*` that skips `n` blanks, then the rest of the pattern
      found by the scan, make up the scan of the whole pattern. */
  lemma BlanksAssemble(p: seq<Token>, s: string, i: nat, n: nat, len: nat, t: string)
    requires p != [] && p[0].Blanks? && i + n <= |s| && SkipBlanks(s, i) == i + n
    requires Scan(p[1..], s, i + n) == Some(Hit(i + n + len, if CaptureCount(p[1..]) == 1 then t else ""))
    ensures Scan(p, s, i) == Some(Hit(i + n + len, if CaptureCount(p) == 1 then t else ""))
  {
    ScanBlanksStep(p, s, i);
    CaptureCountTail(p);
  }

  lemma {:induction false} CompleteCapture(p: seq<Token>, s: string, i: nat, m: string, t: string)
    requires Greedy(p) && i + |m| <= |s| && s[i..i + |m|] == m && Generates(p, m, t)
    requires p != [] && p[0].Capture?
    ensures Scan(p, s, i) == Some(Hit(i + |m|, if CaptureCount(p) == 1 then t else ""))
    decreases |p|, 0
  {
    GreedyTail(p);
    var rest := m[|t|..];
    assert ForcedHead(p);
    assert |rest| > 0 && IsQuote(rest[0]);
    SliceSplit(s, i, m, |t|);
    SkipNonQuotesStopsAt(s, i, i + |t|);
    ScanComplete(p[1..], s, i + |t|, rest, t);
  }

  /** The capture of a pattern with a capture group is non-empty and quote-free. */
  lemma {:induction false} CaptureShape(p: seq<Token>, m: string, t: string)
    requires CaptureCount(p) >= 1 && Generates(p, m, t)
    ensures |t| > 0 && NoQuotes(t)
    decreases |p|, |m|
  {
    match p[0]
    case Word(w) => CaptureShape(p[1..], m[|w|..], t);
    case QuoteMark => CaptureShape(p[1..], m[1..], t);
    case Blanks =>
      if Generates(p[1..], m, t) {
        CaptureShape(p[1..], m, t);
      } else {
        CaptureShape(p, m[1..], t);
      }
    case Capture =>
  }

  /** The leftmost index at or after `i` where the scan succeeds, with its hit. */
  function FirstMatch(p: seq<Token>, s: string, i: nat): (r: Option<(nat, Hit)>)
    requires i <= |s|
    ensures r.Some? ==> i <= r.value.0 <= |s| && Scan(p, s, r.value.0) == Some(r.value.1)
    ensures r.Some? ==> forall k :: i <= k < r.value.0 ==> Scan(p, s, k).None?
    ensures r.None? ==> forall k :: i <= k <= |s| ==> Scan(p, s, k).None?
    decreases |s| - i
  {
    match Scan(p, s, i)
    case Some(h) => Some((i, h))
    case None => if i == |s| then None else FirstMatch(p, s, i + 1)
  }

  /** The pattern `p` matches `s[i..j]` whole, capturing `t`. */
  ghost predicate MatchesAt(p: seq<Token>, s: string, i: int, j: int, t: string) {
    0 <= i <= j <= |s| && Generates(p, s[i..j], t)
  }

  /** `content.match(toolCallRegex)`, turned into a tool call. */
  function ParseToolCall(content: string): (r: Option<ToolCall>)
    ensures r.Some? ==> r.value.toolName == BookLookupName
  {
    match FirstMatch(ToolCallPattern, content, 0)
    case None => None
    case Some((_, h)) => Some(ToolCall(BookLookupName, h.capture))
  }

  /** The leftmost scan finds nothing exactly when the pattern matches nowhere. */
  lemma FirstMatchNoneIff(p: seq<Token>, s: string)
    requires Greedy(p)
    ensures FirstMatch(p, s, 0).None? <==> forall i, j, t :: !MatchesAt(p, s, i, j, t)
  {
    match FirstMatch(p, s, 0)
    case None =>
      forall i, j, t | MatchesAt(p, s, i, j, t)
        ensures false
      {
        ScanComplete(p, s, i, s[i..j], t);
      }
    case Some((i, h)) =>
      ScanSound(p, s, i);
      assert MatchesAt(p, s, i, h.end, h.capture);
  }

  /** `p` matches `s[i..j]` capturing `t`, no match starts before `i`, and no
      other match starts at `i`. */
  ghost predicate LeftmostMatch(p: seq<Token>, s: string, i: int, j: int, t: string) {
    && MatchesAt(p, s, i, j, t)
    && (forall i', j', t' :: MatchesAt(p, s, i', j', t') ==> i <= i')
    && (forall j', t' :: MatchesAt(p, s, i, j', t') ==> j' == j && t' == t)
  }

  /** What the leftmost scan finds is the leftmost match, the only one at its
      start, and its capture is non-empty and quote-free. */
  lemma FirstMatchIsLeftmost(p: seq<Token>, s: string)
    requires Greedy(p) && CaptureCount(p) == 1 && FirstMatch(p, s, 0).Some?
    ensures var (i, h) := FirstMatch(p, s, 0).value;
      LeftmostMatch(p, s, i, h.end, h.capture) && |h.capture| > 0 && NoQuotes(h.capture)
  {
    var (i, h) := FirstMatch(p, s, 0).value;
    ScanSound(p, s, i);
    CaptureShape(p, s[i..h.end], h.capture);
    forall i', j', t' | MatchesAt(p, s, i', j', t')
      ensures i <= i' && (i' == i ==> j' == h.end && t' == h.capture)
    {
      ScanComplete(p, s, i', s[i'..j'], t');
    }
  }

  /** No tool call is detected exactly when the pattern matches nowhere in the text. */
  lemma ParseToolCallNoneIff(content: string)
    ensures ParseToolCall(content).None? <==> forall i, j, t :: !MatchesAt(ToolCallPattern, content, i, j, t)
  {
    ToolCallPatternIsGreedy();
    FirstMatchNoneIff(ToolCallPattern, content);
  }

  /** A detected call always names `book_lookup`; its title is the non-empty,
      quote-free capture of the leftmost match. */
  lemma ParseToolCallFound(content: string)
    requires ParseToolCall(content).Some?
    ensures var call := ParseToolCall(content).value;
      && call.toolName == "book_lookup"
      && |call.title| > 0 && NoQuotes(call.title)
      && exists i, j :: LeftmostMatch(ToolCallPattern, content, i, j, call.title)
  {
    ToolCallPatternIsGreedy();
    FirstMatchIsLeftmost(ToolCallPattern, content);
    var (i, h) := FirstMatch(ToolCallPattern, content, 0).value;
    assert LeftmostMatch(ToolCallPattern, content, i, h.end, h.capture);
  }
}
