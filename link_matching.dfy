/**
 * The anchor matcher of the internal-link miner: tokenizing, the confidence
 * score, the context snippet, whole-word case-insensitive anchor occurrences,
 * and `findMatchesForTarget`, which collects one match per occurrence of each
 * anchor and orders them by confidence, highest first.
 *
 * The regex `\b<anchor>\b` with flags `gi` is specified directly: `MatchAt`
 * says where it matches, and `Occurrences` lists the positions a global
 * `exec` loop reports, each search starting where the previous match ended.
 * Case-insensitivity is ASCII only.
 */
module LinkMatching {
  import opened Strings
  import opened Sequences

  /** A keyword that points at a money page, with the anchors to look for. */
  datatype MoneyTarget = MoneyTarget(
    keywordId: string, targetPageId: string, targetUrl: string, targetTitle: string, anchors: seq<string>)

  /** One occurrence of an anchor in a blog text, with its context and score. */
  datatype Match = Match(anchor: string, snippet: string, confidence: real, target: MoneyTarget)

  /** `clamp(value)`: `Math.min(1, Math.max(0, value))`. */
  function Clamp(x: real): (r: real)
    ensures 0.0 <= r <= 1.0
    ensures 0.0 <= x <= 1.0 ==> r == x
    ensures x <= 0.0 ==> r == 0.0
    ensures x >= 1.0 ==> r == 1.0
  {
    if x < 0.0 then 0.0 else if x > 1.0 then 1.0 else x
  }

  lemma ClampMonotone(x: real, y: real)
    requires x <= y
    ensures Clamp(x) <= Clamp(y)
  {
  }

  predicate IsTokenSeparator(c: char) {
    !IsLowerAlnum(c)
  }

  predicate IsLongToken(t: string) {
    |t| > 2
  }

  /** `tokenize`: the lowercased text split at runs of characters outside `[a-z0-9]`, keeping pieces longer than 2. */
  function Tokenize(value: string): (tokens: seq<string>)
    ensures forall i :: 0 <= i < |tokens| ==> |tokens[i]| > 2
    ensures forall i, k :: 0 <= i < |tokens| && 0 <= k < |tokens[i]| ==> IsLowerAlnum(tokens[i][k])
  {
    var pieces := SplitRuns(Lower(value), IsTokenSeparator);
    var tokens := Filter(pieces, IsLongToken);
    assert forall i :: 0 <= i < |tokens| ==> tokens[i] in pieces;
    tokens
  }

  /**
   * Whatever way the lowercased text is cut into maximal `[a-z0-9]` runs and
   * the separator runs between them, the tokens are exactly the runs longer
   * than 2, in the order of the text.
   */
  lemma TokenizeIsLongRuns(value: string, runs: seq<string>, seps: seq<string>)
    requires IsSplit(Lower(value), IsTokenSeparator, runs, seps)
    ensures Tokenize(value) == Filter(runs, IsLongToken)
  {
    SplitRunsUnique(Lower(value), IsTokenSeparator, runs, seps);
  }

  /** A token is a maximal `[a-z0-9]` run of the lowercased text. */
  lemma TokenizeSplitsText(value: string)
    ensures IsSplit(Lower(value), IsTokenSeparator, SplitRuns(Lower(value), IsTokenSeparator), SepRuns(Lower(value), IsTokenSeparator))
    ensures Tokenize(value) == Filter(SplitRuns(Lower(value), IsTokenSeparator), IsLongToken)
  {
    SplitRunsIsSplit(Lower(value), IsTokenSeparator);
  }

  /** The title tokens as a set, in first-occurrence order (`new Set(tokenize(targetTitle))`). */
  function TopicTokens(targetTitle: string): (r: seq<string>)
    ensures Distinct(r)
    ensures forall t :: t in r <==> t in Tokenize(targetTitle)
  {
    var tokens := Tokenize(targetTitle);
    var r := Unique(tokens);
    assert forall t :: t in tokens ==> t in r;
    r
  }

  /** Membership in the title's token set. */
  function InTopic(topic: seq<string>): string -> bool {
    t => t in topic
  }

  /** `snippetTokens.filter((token) => topicTokens.has(token)).length`: the snippet tokens that are title tokens, counting repeats. */
  function TopicalHits(snippetTokens: seq<string>, topic: seq<string>): (n: nat)
    ensures n <= |snippetTokens|
    ensures n == |Filter(snippetTokens, InTopic(topic))|
    decreases |snippetTokens|
  {
    if snippetTokens == [] then 0
    else
      var x, rest := snippetTokens[0], snippetTokens[1..];
      assert snippetTokens == [x] + rest;
      FilterAppend([x], rest, InTopic(topic));
      FilterSingle(x, InTopic(topic));
      (if x in topic then 1 else 0) + TopicalHits(rest, topic)
  }

  /** `topicalFactor`: hits per distinct title token, or 0.3 when the title has no token. */
  function TopicalFactor(snippet: string, targetTitle: string): (f: real)
    ensures f >= 0.0
    ensures TopicTokens(targetTitle) == [] ==> f == 0.3
  {
    var topic := TopicTokens(targetTitle);
    if |topic| > 0 then Ratio(TopicalHits(Tokenize(snippet), topic), |topic|) else 0.3
  }

  function Ratio(n: nat, d: nat): (r: real)
    requires d > 0
    ensures r >= 0.0
  {
    n as real / d as real
  }

  function AnchorFactor(anchor: string): real {
    Clamp(|anchor| as real / 30.0)
  }

  function SnippetFactor(snippet: string): real {
    Clamp(|Tokenize(snippet)| as real / 60.0)
  }

  /** `computeConfidence`: always between 0.35 and 1. */
  function ComputeConfidence(anchor: string, snippet: string, targetTitle: string): (c: real)
    ensures 0.35 <= c <= 1.0
  {
    Clamp(0.35 + AnchorFactor(anchor) * 0.35 + SnippetFactor(snippet) * 0.15 + TopicalFactor(snippet, targetTitle) * 0.15)
  }

  /** With the snippet and title fixed, a longer anchor never scores lower. */
  lemma ConfidenceAnchorMonotone(a1: string, a2: string, snippet: string, targetTitle: string)
    requires |a1| <= |a2|
    ensures ComputeConfidence(a1, snippet, targetTitle) <= ComputeConfidence(a2, snippet, targetTitle)
  {
    ClampMonotone(|a1| as real / 30.0, |a2| as real / 30.0);
    var rest := 0.35 + SnippetFactor(snippet) * 0.15 + TopicalFactor(snippet, targetTitle) * 0.15;
    ClampMonotone(rest + AnchorFactor(a1) * 0.35, rest + AnchorFactor(a2) * 0.35);
  }

  const Padding: nat := 80

  function Min(a: int, b: int): int {
    if a <= b then a else b
  }

  /** `s.slice(start, end)` for non-negative bounds: both are cut back to the length, and an empty range gives "". */
  function Slice(s: string, start: nat, end: nat): (r: string)
    ensures |r| <= |s| && (start <= end ==> |r| <= end - start)
    ensures start < Min(end, |s|) ==> r == s[start..Min(end, |s|)]
    ensures start >= Min(end, |s|) ==> r == []
  {
    var e := Min(end, |s|);
    if start < e then s[start..e] else []
  }

  /** `extractSnippet`: up to 80 characters on each side of the match, whitespace runs made one space, ends trimmed. */
  function ExtractSnippet(content: string, index: nat, length: nat): (r: string)
    ensures |r| <= length + 2 * Padding && |r| <= |content|
    ensures r == [] || (!IsWhitespace(r[0]) && !IsWhitespace(r[|r| - 1]))
    ensures forall k :: 0 <= k < |r| && IsWhitespace(r[k]) ==> r[k] == ' '
    ensures SingleSpaced(r)
  {
    var collapsed := CollapseWhitespace(SnippetWindow(content, index, length));
    TrimKeepsCollapsed(collapsed);
    Trim(collapsed)
  }

  /** The window `extractSnippet` cuts: 80 characters on each side of the match, cut back to the text. */
  function SnippetWindow(content: string, index: nat, length: nat): (w: string)
    ensures var start := if index >= Padding then index - Padding else 0;
      start < |content| && index + length + Padding > start ==>
        w == content[start..Min(index + length + Padding, |content|)]
  {
    Slice(content, if index >= Padding then index - Padding else 0, index + length + Padding)
  }

  /**
   * The snippet has every non-whitespace character of its window, in order,
   * and nothing else but single spaces; it is empty only when the window is
   * all whitespace.
   */
  lemma ExtractSnippetKeepsText(content: string, index: nat, length: nat)
    ensures var r, w := ExtractSnippet(content, index, length), SnippetWindow(content, index, length);
      && Filter(r, NotWhitespace) == Filter(w, NotWhitespace)
      && (r == [] <==> Filter(w, NotWhitespace) == [])
  {
    CleanKeepsText(SnippetWindow(content, index, length));
  }

  /**
   * The snippet is the window's words joined by single spaces: no word is
   * lost, split or merged, so splitting the snippet on whitespace gives the
   * window's words back.
   */
  lemma ExtractSnippetWords(content: string, index: nat, length: nat)
    ensures var r, w := ExtractSnippet(content, index, length), SnippetWindow(content, index, length);
      && r == Join(Words(w), " ")
      && Words(r) == Words(w)
  {
    var w := SnippetWindow(content, index, length);
    CleanIsWords(w);
    WordsOfJoin(Words(w));
  }

  /** Collapsing and trimming keep every non-whitespace character, so the result is empty only for an all-whitespace window. */
  lemma CleanKeepsText(window: string)
    ensures var r := Trim(CollapseWhitespace(window));
      && Filter(r, NotWhitespace) == Filter(window, NotWhitespace)
      && (r == [] <==> Filter(window, NotWhitespace) == [])
  {
    var r := Trim(CollapseWhitespace(window));
    CollapseKeepsText(window);
    TrimKeepsText(CollapseWhitespace(window));
    if r != [] {
      FilterHead(r, NotWhitespace);
    }
  }

  /** Trimming a collapsed string keeps it collapsed. */
  lemma TrimKeepsCollapsed(c: string)
    requires forall k :: 0 <= k < |c| && IsWhitespace(c[k]) ==> c[k] == ' '
    requires SingleSpaced(c)
    ensures var r := Trim(c);
      && (forall k :: 0 <= k < |r| && IsWhitespace(r[k]) ==> r[k] == ' ')
      && SingleSpaced(r)
  {
    var r := Trim(c);
    var off := |c| - |TrimStart(c)|;
    assert r == c[off..off + |r|];
    forall k | 0 <= k < |r| && IsWhitespace(r[k]) ensures r[k] == ' ' {
      assert r[k] == c[off + k];
    }
    forall i, j | 0 <= i < j < |r| && j == i + 1 ensures !(IsWhitespace(r[i]) && IsWhitespace(r[j])) {
      assert r[i] == c[off + i] && r[j] == c[off + j];
    }
  }

  /** `\w` at position `i`; outside the string there is no word character. */
  predicate WordAt(s: string, i: int) {
    0 <= i < |s| && IsWordChar(s[i])
  }

  /** `\b` at position `i`: exactly one of the characters around it is a word character. */
  predicate Boundary(s: string, i: nat) {
    WordAt(s, i - 1) != WordAt(s, i)
  }

  /** The characters of `content` from `i` on equal those of `anchor`, ignoring ASCII case. */
  predicate EqualIgnoringCaseAt(content: string, anchor: string, i: nat)
    requires i + |anchor| <= |content|
  {
    forall k :: 0 <= k < |anchor| ==> LowerChar(content[i + k]) == LowerChar(anchor[k])
  }

  /** `\b<anchor>\b` with the `i` flag matches at `i`. */
  predicate MatchAt(content: string, anchor: string, i: nat) {
    && i + |anchor| <= |content|
    && EqualIgnoringCaseAt(content, anchor, i)
    && Boundary(content, i) && Boundary(content, i + |anchor|)
  }

  /** The positions a global `exec` loop reports from `from` on: the leftmost match, then the search resumes after it. */
  function Occurrences(content: string, anchor: string, from: nat): seq<nat>
    requires |anchor| > 0
    decreases |content| - from
  {
    if from + |anchor| > |content| then []
    else if MatchAt(content, anchor, from) then [from] + Occurrences(content, anchor, from + |anchor|)
    else Occurrences(content, anchor, from + 1)
  }

  /** The reported positions are matches at or after `from`, increasing and non-overlapping. */
  lemma {:induction false} OccurrencesSound(content: string, anchor: string, from: nat)
    requires |anchor| > 0
    ensures forall k :: 0 <= k < |Occurrences(content, anchor, from)| ==>
      from <= Occurrences(content, anchor, from)[k] && MatchAt(content, anchor, Occurrences(content, anchor, from)[k])
    ensures forall a, b :: 0 <= a < b < |Occurrences(content, anchor, from)| ==>
      Occurrences(content, anchor, from)[a] + |anchor| <= Occurrences(content, anchor, from)[b]
    decreases |content| - from
  {
    var r := Occurrences(content, anchor, from);
    if from + |anchor| <= |content| {
      if MatchAt(content, anchor, from) {
        var next := from + |anchor|;
        OccurrencesSound(content, anchor, next);
        var rest := Occurrences(content, anchor, next);
        assert r == [from] + rest;
        forall k | 0 <= k < |r| ensures from <= r[k] && MatchAt(content, anchor, r[k]) {
          if k == 0 {
            assert r[k] == from;
          } else {
            assert r[k] == rest[k - 1];
            assert next <= rest[k - 1] && MatchAt(content, anchor, rest[k - 1]);
          }
        }
        forall a, b | 0 <= a < b < |r| ensures r[a] + |anchor| <= r[b] {
          assert r[b] == rest[b - 1];
          if a > 0 {
            assert r[a] == rest[a - 1];
          }
        }
      } else {
        assert r == Occurrences(content, anchor, from + 1);
        OccurrencesSound(content, anchor, from + 1);
      }
    }
  }

  /** Every match at or after `from` is reported, or overlaps a reported one. */
  lemma {:induction false} OccurrencesComplete(content: string, anchor: string, from: nat, j: nat)
    requires |anchor| > 0 && from <= j && MatchAt(content, anchor, j)
    ensures var r := Occurrences(content, anchor, from);
      j in r || exists k :: 0 <= k < |r| && r[k] < j < r[k] + |anchor|
    decreases |content| - from
  {
    var r := Occurrences(content, anchor, from);
    if MatchAt(content, anchor, from) {
      var next := from + |anchor|;
      var rest := Occurrences(content, anchor, next);
      assert r == [from] + rest;
      if j == from {
        assert r[0] == j;
      } else if j < next {
        assert r[0] < j < r[0] + |anchor|;
      } else {
        OccurrencesComplete(content, anchor, next, j);
        if j !in rest {
          var k :| 0 <= k < |rest| && rest[k] < j < rest[k] + |anchor|;
          assert r[k + 1] == rest[k];
        }
      }
    } else {
      assert r == Occurrences(content, anchor, from + 1);
      OccurrencesComplete(content, anchor, from + 1, j);
    }
  }

  /** The match an occurrence of `anchor` at `i` produces. */
  function MatchOf(content: string, anchor: string, i: nat, target: MoneyTarget): Match {
    var snippet := ExtractSnippet(content, i, |anchor|);
    Match(anchor, snippet, ComputeConfidence(anchor, snippet, target.targetTitle), target)
  }

  /** The matches for one anchor, in the order the `exec` loop pushes them; an empty anchor is skipped. */
  function AnchorMatches(content: string, anchor: string, target: MoneyTarget): seq<Match> {
    if anchor == [] then [] else MatchesAt(content, anchor, Occurrences(content, anchor, 0), target)
  }

  /** The matches at the given positions, in order. */
  function MatchesAt(content: string, anchor: string, positions: seq<nat>, target: MoneyTarget): (r: seq<Match>)
    ensures |r| == |positions|
  {
    MapSeq(positions, Builder(content, anchor, target))
  }

  /** `MatchOf` as a function of the position. */
  function Builder(content: string, anchor: string, target: MoneyTarget): nat -> Match {
    (i: nat) => MatchOf(content, anchor, i, target)
  }

  /** `results` after the `forEach` over `anchors`: each anchor's matches in turn. */
  function AllMatches(content: string, anchors: seq<string>, target: MoneyTarget): seq<Match>
    decreases |anchors|
  {
    if anchors == [] then []
    else
      var n := |anchors| - 1;
      AllMatches(content, anchors[..n], target) + AnchorMatches(content, anchors[n], target)
  }

  /** The sort key for `b.confidence - a.confidence`: ascending in the negated confidence. */
  function NegConfidence(m: Match): real {
    -m.confidence
  }

  /** The result of `findMatchesForTarget`: all matches, stably sorted by confidence, highest first. */
  function MatchesFor(content: string, target: MoneyTarget): seq<Match> {
    SortBy(AllMatches(content, target.anchors, target), NegConfidence)
  }

  /** `findMatchesForTarget`. */
  method FindMatchesForTarget(content: string, target: MoneyTarget) returns (matches: seq<Match>)
    ensures matches == MatchesFor(content, target)
  {
    var results: seq<Match> := [];
    var a := 0;
    while a < |target.anchors|
      invariant 0 <= a <= |target.anchors|
      invariant results == AllMatches(content, target.anchors[..a], target)
    {
      ghost var before, prev := results, a;
      var anchor := target.anchors[a];
      if anchor != [] {
        var found := ExecLoop(content, anchor, target);
        results := results + found;
      }
      a := a + 1;
      AllMatchesStep(content, target.anchors, target, before, prev, results, a);
    }
    assert target.anchors[..a] == target.anchors;
    matches := SortBy(results, NegConfidence);
  }

  /** Adding the matches of one more anchor keeps the loop invariant of `FindMatchesForTarget`. */
  lemma AllMatchesStep(content: string, anchors: seq<string>, target: MoneyTarget,
                       before: seq<Match>, prev: nat, after: seq<Match>, next: nat)
    requires prev < |anchors| && next == prev + 1
    requires before == AllMatches(content, anchors[..prev], target)
    requires after == before + AnchorMatches(content, anchors[prev], target)
    ensures after == AllMatches(content, anchors[..next], target)
  {
    var s := anchors[..next];
    assert |s| - 1 == prev;
    assert s[..prev] == anchors[..prev];
    assert s[prev] == anchors[prev];
    assert AllMatches(content, s, target) == AllMatches(content, s[..prev], target) + AnchorMatches(content, s[prev], target);
  }

  /** The `while (regex.exec(content))` loop for one non-empty anchor. */
  method ExecLoop(content: string, anchor: string, target: MoneyTarget) returns (results: seq<Match>)
    requires |anchor| > 0
    ensures results == AnchorMatches(content, anchor, target)
  {
    results := [];
    var pos: nat := 0;
    while pos + |anchor| <= |content|
      invariant ExecProgress(content, anchor, target, results, pos)
      decreases |content| - pos
    {
      ghost var before, prev := results, pos;
      if MatchAt(content, anchor, pos) {
        results := results + [MatchOf(content, anchor, pos, target)];
        pos := pos + |anchor|;
        ExecMatchStep(content, anchor, target, before, prev, results, pos);
      } else {
        pos := pos + 1;
        ExecSkipStep(content, anchor, target, results, prev, pos);
      }
    }
  }

  /** The loop invariant of `ExecLoop`: the matches pushed so far, followed by those still to come from `pos`, are all of them. */
  predicate ExecProgress(content: string, anchor: string, target: MoneyTarget, results: seq<Match>, pos: nat)
    requires |anchor| > 0
  {
    results + AnchorTail(content, anchor, pos, target) == AnchorMatches(content, anchor, target)
  }

  /** Pushing the match at `prev` and resuming after it keeps the loop invariant of `ExecLoop`. */
  lemma ExecMatchStep(content: string, anchor: string, target: MoneyTarget,
                      before: seq<Match>, prev: nat, after: seq<Match>, next: nat)
    requires |anchor| > 0 && MatchAt(content, anchor, prev)
    requires ExecProgress(content, anchor, target, before, prev)
    requires after == before + [MatchOf(content, anchor, prev, target)] && next == prev + |anchor|
    ensures ExecProgress(content, anchor, target, after, next)
  {
    var m := MatchOf(content, anchor, prev, target);
    var tail := AnchorTail(content, anchor, next, target);
    AnchorTailMatch(content, anchor, prev, next, target);
    assert AnchorTail(content, anchor, prev, target) == [m] + tail;
    ConcatAssoc(before, [m], tail);
    assert after + tail == before + ([m] + tail);
  }

  /** Moving past a position where the anchor does not match keeps the loop invariant of `ExecLoop`. */
  lemma ExecSkipStep(content: string, anchor: string, target: MoneyTarget, results: seq<Match>, prev: nat, next: nat)
    requires |anchor| > 0 && prev + |anchor| <= |content| && !MatchAt(content, anchor, prev)
    requires ExecProgress(content, anchor, target, results, prev)
    requires next == prev + 1
    ensures ExecProgress(content, anchor, target, results, next)
  {
    AnchorTailSkip(content, anchor, prev, target);
  }

  /** The matches the `exec` loop still has to push once it searches from `pos`. */
  function AnchorTail(content: string, anchor: string, pos: nat, target: MoneyTarget): seq<Match>
    requires |anchor| > 0
  {
    MatchesAt(content, anchor, Occurrences(content, anchor, pos), target)
  }

  lemma AnchorTailMatch(content: string, anchor: string, pos: nat, next: nat, target: MoneyTarget)
    requires |anchor| > 0 && MatchAt(content, anchor, pos) && next == pos + |anchor|
    ensures AnchorTail(content, anchor, pos, target)
      == [MatchOf(content, anchor, pos, target)] + AnchorTail(content, anchor, next, target)
  {
    var rest := Occurrences(content, anchor, next);
    var f := Builder(content, anchor, target);
    assert Occurrences(content, anchor, pos) == [pos] + rest;
    MapConcat([pos], rest, f);
    assert MapSeq([pos], f) == [f(pos)];
  }

  lemma AnchorTailSkip(content: string, anchor: string, pos: nat, target: MoneyTarget)
    requires |anchor| > 0 && pos + |anchor| <= |content| && !MatchAt(content, anchor, pos)
    ensures AnchorTail(content, anchor, pos, target) == AnchorTail(content, anchor, pos + 1, target)
  {
  }

  lemma ConcatAssoc<T>(a: seq<T>, b: seq<T>, c: seq<T>)
    ensures (a + b) + c == a + (b + c)
  {
  }

  // Properties of `findMatchesForTarget`.

  /** Every match built from a list of positions is the match at one of them. */
  lemma MatchesAtSound(content: string, anchor: string, positions: seq<nat>, target: MoneyTarget, m: Match)
    requires m in MatchesAt(content, anchor, positions, target)
    ensures exists k :: 0 <= k < |positions| && m == MatchOf(content, anchor, positions[k], target)
  {
    var f := Builder(content, anchor, target);
    var r := MapSeq(positions, f);
    var k :| 0 <= k < |r| && r[k] == m;
    assert r[k] == f(positions[k]);
  }

  /** The match at every listed position is built. */
  lemma MatchesAtComplete(content: string, anchor: string, positions: seq<nat>, target: MoneyTarget, p: nat)
    requires p in positions
    ensures MatchOf(content, anchor, p, target) in MatchesAt(content, anchor, positions, target)
  {
    var f := Builder(content, anchor, target);
    var r := MapSeq(positions, f);
    var k :| 0 <= k < |positions| && positions[k] == p;
    assert r[k] == f(p);
  }

  /** Every collected match is for a non-empty anchor of the list, at a position the `exec` loop reports. */
  lemma {:induction false} AllMatchesSound(content: string, anchors: seq<string>, target: MoneyTarget, m: Match)
    requires m in AllMatches(content, anchors, target)
    ensures m.anchor in anchors && m.anchor != []
    ensures exists i :: i in Occurrences(content, m.anchor, 0) && m == MatchOf(content, m.anchor, i, target)
    decreases |anchors|
  {
    var n := |anchors| - 1;
    var anchor := anchors[n];
    if m in AllMatches(content, anchors[..n], target) {
      AllMatchesSound(content, anchors[..n], target, m);
      assert m.anchor in anchors[..n];
    } else {
      assert m in AnchorMatches(content, anchor, target);
      assert anchor != [];
      var positions := Occurrences(content, anchor, 0);
      MatchesAtSound(content, anchor, positions, target, m);
      var k :| 0 <= k < |positions| && m == MatchOf(content, anchor, positions[k], target);
      assert m.anchor == anchor;
      assert positions[k] in positions;
    }
  }

  /** The match at every reported position of every non-empty anchor is collected. */
  lemma {:induction false} AllMatchesComplete(content: string, anchors: seq<string>, target: MoneyTarget, anchor: string, i: nat)
    requires anchor in anchors && anchor != [] && i in Occurrences(content, anchor, 0)
    ensures MatchOf(content, anchor, i, target) in AllMatches(content, anchors, target)
    decreases |anchors|
  {
    var n := |anchors| - 1;
    if anchor != anchors[n] {
      assert anchors == anchors[..n] + [anchors[n]];
      assert anchor in anchors[..n];
      AllMatchesComplete(content, anchors[..n], target, anchor, i);
    } else {
      MatchesAtComplete(content, anchor, Occurrences(content, anchor, 0), target, i);
    }
  }

  /**
   * Every result of `findMatchesForTarget` is a whole-word, case-insensitive
   * occurrence of one of the target's anchors, carrying that occurrence's
   * snippet, a confidence in [0.35, 1] computed from it, and the target.
   */
  lemma MatchesForSound(content: string, target: MoneyTarget, m: Match)
    requires m in MatchesFor(content, target)
    ensures m.anchor in target.anchors && m.target == target
    ensures 0.35 <= m.confidence <= 1.0
    ensures exists i ::
      && MatchAt(content, m.anchor, i)
      && m.snippet == ExtractSnippet(content, i, |m.anchor|)
      && m.confidence == ComputeConfidence(m.anchor, m.snippet, target.targetTitle)
  {
    var all := AllMatches(content, target.anchors, target);
    assert m in multiset(MatchesFor(content, target));
    assert m in all;
    AllMatchesSound(content, target.anchors, target, m);
    var i :| i in Occurrences(content, m.anchor, 0) && m == MatchOf(content, m.anchor, i, target);
    OccurrencesSound(content, m.anchor, 0);
    var positions := Occurrences(content, m.anchor, 0);
    var k :| 0 <= k < |positions| && positions[k] == i;
    assert MatchAt(content, m.anchor, positions[k]);
  }

  /** Every occurrence the `exec` loop reports for a non-empty anchor of the target yields a result. */
  lemma MatchesForComplete(content: string, target: MoneyTarget, anchor: string, i: nat)
    requires anchor in target.anchors && anchor != [] && i in Occurrences(content, anchor, 0)
    ensures MatchOf(content, anchor, i, target) in MatchesFor(content, target)
  {
    AllMatchesComplete(content, target.anchors, target, anchor, i);
    var all := AllMatches(content, target.anchors, target);
    assert MatchOf(content, anchor, i, target) in multiset(all);
    assert MatchOf(content, anchor, i, target) in multiset(MatchesFor(content, target));
  }

  /** The results are ordered by confidence, highest first. */
  lemma MatchesForOrdered(content: string, target: MoneyTarget)
    ensures var r := MatchesFor(content, target);
      forall i, j :: 0 <= i < j < |r| ==> r[i].confidence >= r[j].confidence
  {
    var r := MatchesFor(content, target);
    assert SortedBy(r, NegConfidence);
    forall i, j | 0 <= i < j < |r| ensures r[i].confidence >= r[j].confidence {
      assert NegConfidence(r[i]) <= NegConfidence(r[j]);
    }
  }

  /**
   * `matches[0]`, the match the miner keeps, is the earliest collected match
   * with the highest confidence (the sort is stable).
   */
  lemma BestMatchIsFirstHighest(content: string, target: MoneyTarget)
    requires MatchesFor(content, target) != []
    ensures exists k :: IsFirstHighest(AllMatches(content, target.anchors, target), k, MatchesFor(content, target)[0])
  {
    var all := AllMatches(content, target.anchors, target);
    assert MatchesFor(content, target) == SortBy(all, NegConfidence);
    var k := SortedHeadIsFirstHighest(all);
    assert IsFirstHighest(all, k, MatchesFor(content, target)[0]);
  }

  /** `best` is `all[k]`, no element of `all` has a higher confidence, and every earlier one has a lower one. */
  predicate IsFirstHighest(all: seq<Match>, k: int, best: Match) {
    && 0 <= k < |all| && all[k] == best
    && (forall j :: 0 <= j < |all| ==> all[j].confidence <= best.confidence)
    && (forall j :: 0 <= j < k ==> all[j].confidence < best.confidence)
  }

  /** The head of the confidence sort of `all` is its first element of highest confidence. */
  lemma SortedHeadIsFirstHighest(all: seq<Match>) returns (k: nat)
    requires all != []
    ensures IsFirstHighest(all, k, SortBy(all, NegConfidence)[0])
  {
    SortByHead(all, NegConfidence);
    k := FirstMinIndex(all, NegConfidence);
    forall j | 0 <= j < |all| ensures all[j].confidence <= all[k].confidence {
      assert NegConfidence(all[k]) <= NegConfidence(all[j]);
    }
    forall j | 0 <= j < k ensures all[j].confidence < all[k].confidence {
      assert NegConfidence(all[j]) > NegConfidence(all[k]);
    }
  }

  /** There is no result exactly when no non-empty anchor occurs as a whole word. */
  lemma NoMatchesIff(content: string, target: MoneyTarget)
    ensures MatchesFor(content, target) == [] <==>
      forall a :: a in target.anchors && a != [] ==> Occurrences(content, a, 0) == []
  {
    var r := MatchesFor(content, target);
    if r != [] {
      assert r[0] in r;
      MatchesForSound(content, target, r[0]);
      var i :| MatchAt(content, r[0].anchor, i) && r[0].snippet == ExtractSnippet(content, i, |r[0].anchor|);
      AllMatchesSound(content, target.anchors, target, r[0]) by {
        assert r[0] in multiset(r);
      }
      var p :| p in Occurrences(content, r[0].anchor, 0) && r[0] == MatchOf(content, r[0].anchor, p, target);
    } else {
      forall a | a in target.anchors && a != [] ensures Occurrences(content, a, 0) == [] {
        var positions := Occurrences(content, a, 0);
        if positions != [] {
          assert positions[0] in positions;
          MatchesForComplete(content, target, a, positions[0]);
        }
      }
    }
  }

  /** `\b` keeps an anchor from matching inside a longer word, in any letter case. */
  lemma WholeWordExamples()
    ensures !MatchAt("SEOPlatform", "seo", 0)
    ensures MatchAt("SEO platform", "seo", 0)
  {
    assert !Boundary("SEOPlatform", 3) by {
      assert WordAt("SEOPlatform", 2) && WordAt("SEOPlatform", 3);
    }
    assert EqualIgnoringCaseAt("SEO platform", "seo", 0) by {
      assert LowerChar('S') == 's' && LowerChar('E') == 'e' && LowerChar('O') == 'o';
    }
    assert Boundary("SEO platform", 0) && Boundary("SEO platform", 3) by {
      assert !WordAt("SEO platform", -1) && WordAt("SEO platform", 0);
      assert WordAt("SEO platform", 2) && !WordAt("SEO platform", 3);
    }
  }
}
