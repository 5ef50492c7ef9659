/**
 * The internal-link miner around the matcher: money targets built from the
 * keywords, the blog-page filter, the `[link-scout:…]` signatures that keep a
 * run from suggesting a link twice, the selection loop with its per-blog and
 * per-project caps, and the LINK task each accepted suggestion becomes.
 * Database reads are input sequences and the created tasks an output list.
 */
module LinkOpportunities {
  import opened Wrappers
  import opened Strings
  import opened Sequences
  import opened Numbers
  import opened TaskConstants
  import opened LinkMatching

  /** `BLOG_PAGE_TYPES`. */
  const BlogPageTypes: seq<string> := ["blog", "article", "guide", "content", "news"]

  /** `SIGNATURE_PREFIX`. */
  const SignaturePrefix: string := "[link-scout:"

  /** The caps used when the options leave them out. */
  const DefaultMaxPerBlog: int := 3
  const DefaultMaxPerProject: int := 40

  // ---------------------------------------------------------------------------
  // Money targets (`fetchMoneyTargets`)
  // ---------------------------------------------------------------------------

  datatype TargetPage = TargetPage(url: string, title: Option<string>)

  /** A keyword row with its target page included, as the keyword query returns it. */
  datatype Keyword = Keyword(
    id: string,
    phrase: string,
    secondaryTerms: Option<seq<string>>,
    targetPageId: Option<string>,
    targetPage: Option<TargetPage>)

  /** The query's `targetPageId: { not: null }` and the filter on a target page with a non-empty URL. */
  predicate IsMoneyKeyword(k: Keyword) {
    k.targetPageId.Some? && k.targetPage.Some? && k.targetPage.value.url != ""
  }

  /** The phrase and then the secondary terms, each trimmed, empty ones dropped, duplicates removed. */
  function AnchorsOf(k: Keyword): (anchors: seq<string>)
    ensures Distinct(anchors)
  {
    Unique(Filter(MapSeq([k.phrase] + k.secondaryTerms.GetOr([]), Trim), NonEmpty))
  }

  /**
   * The anchors are exactly the non-empty trimmed phrase and secondary terms,
   * with the trimmed phrase first whenever it is non-empty.
   */
  lemma AnchorsOfSpec(k: Keyword)
    ensures forall a :: a in AnchorsOf(k) <==>
      a != "" && (a == Trim(k.phrase) || exists t :: t in k.secondaryTerms.GetOr([]) && a == Trim(t))
    ensures Trim(k.phrase) != "" ==> AnchorsOf(k) != [] && AnchorsOf(k)[0] == Trim(k.phrase)
  {
    var trimmed := MapSeq([k.phrase] + k.secondaryTerms.GetOr([]), Trim);
    var kept := Filter(trimmed, NonEmpty);
    assert AnchorsOf(k) == Unique(kept);
    UniqueSameElements(kept);
    FilterMembers(trimmed, NonEmpty);
    MapConsMembers(k.phrase, k.secondaryTerms.GetOr([]), Trim);
    forall a ensures a in AnchorsOf(k) <==>
      a != "" && (a == Trim(k.phrase) || exists t :: t in k.secondaryTerms.GetOr([]) && a == Trim(t))
    {
      assert a in Unique(kept) <==> a in kept;
      assert a in kept <==> a in trimmed && NonEmpty(a);
    }
    if Trim(k.phrase) != "" {
      UniqueHead(trimmed);
    }
  }

  /** A non-empty first term is the first anchor. */
  lemma UniqueHead(trimmed: seq<string>)
    requires trimmed != [] && trimmed[0] != ""
    ensures Unique(Filter(trimmed, NonEmpty)) != [] && Unique(Filter(trimmed, NonEmpty))[0] == trimmed[0]
  {
    var kept := Filter(trimmed, NonEmpty);
    FilterHead(trimmed, NonEmpty);
    UniquePrefix(kept, 1);
    assert kept[..1] == [kept[0]];
  }

  /** The target built from a money keyword; the title falls back to the URL only when it is null. */
  function MoneyTargetOf(k: Keyword): (t: MoneyTarget)
    requires IsMoneyKeyword(k)
    ensures t.keywordId == k.id && Some(t.targetPageId) == k.targetPageId
    ensures t.targetUrl != "" && t.targetUrl == k.targetPage.value.url
    ensures k.targetPage.value.title.None? ==> t.targetTitle == t.targetUrl
    ensures k.targetPage.value.title.Some? ==> t.targetTitle == k.targetPage.value.title.value
    ensures t.anchors == AnchorsOf(k) && Distinct(t.anchors)
  {
    var page := k.targetPage.value;
    MoneyTarget(k.id, k.targetPageId.value, page.url, page.title.GetOr(page.url), AnchorsOf(k))
  }

  /** `fetchMoneyTargets`: the money keywords, in order, as targets. */
  function MoneyTargets(keywords: seq<Keyword>): (targets: seq<MoneyTarget>)
    ensures |targets| <= |keywords|
    ensures forall t :: t in targets <==> exists k :: k in keywords && IsMoneyKeyword(k) && t == MoneyTargetOf(k)
    decreases |keywords|
  {
    if keywords == [] then []
    else
      var rest := MoneyTargets(keywords[1..]);
      assert forall k :: k in keywords <==> k == keywords[0] || k in keywords[1..];
      MoneyTargetHead(keywords[0]) + rest
  }

  /** The target of one keyword, if it is a money keyword. */
  function MoneyTargetHead(k: Keyword): seq<MoneyTarget> {
    if IsMoneyKeyword(k) then [MoneyTargetOf(k)] else []
  }

  /** The targets keep the keyword order: the targets of a concatenation are the concatenated targets. */
  lemma {:induction false} MoneyTargetsAppend(a: seq<Keyword>, b: seq<Keyword>)
    ensures MoneyTargets(a + b) == MoneyTargets(a) + MoneyTargets(b)
    decreases |a|
  {
    if a == [] {
      assert a + b == b;
    } else {
      MoneyTargetsAppend(a[1..], b);
      MoneyTargetsAppendStep(a, b);
    }
  }

  lemma MoneyTargetsAppendStep(a: seq<Keyword>, b: seq<Keyword>)
    requires a != []
    requires MoneyTargets(a[1..] + b) == MoneyTargets(a[1..]) + MoneyTargets(b)
    ensures MoneyTargets(a + b) == MoneyTargets(a) + MoneyTargets(b)
  {
    AppendTail(a, b);
    MoneyTargetsCons(a + b, a[0], a[1..] + b);
    MoneyTargetsCons(a, a[0], a[1..]);
    AppendAssoc(MoneyTargetHead(a[0]), MoneyTargets(a[1..]), MoneyTargets(b));
  }

  lemma MoneyTargetsCons(s: seq<Keyword>, k: Keyword, rest: seq<Keyword>)
    requires s != [] && s[0] == k && s[1..] == rest
    ensures MoneyTargets(s) == MoneyTargetHead(k) + MoneyTargets(rest)
  {
  }

  /** One keyword gives its target exactly when it is a money keyword. */
  lemma MoneyTargetsSingle(k: Keyword)
    ensures MoneyTargets([k]) == if IsMoneyKeyword(k) then [MoneyTargetOf(k)] else []
  {
    assert [k][1..] == [];
  }

  // ---------------------------------------------------------------------------
  // Blog pages (`fetchBlogPages`)
  // ---------------------------------------------------------------------------

  /** A page row with its content's text; `contentText` is None when the content is missing. */
  datatype Page = Page(
    id: string, url: string, title: Option<string>, pageType: Option<string>, contentText: Option<string>)

  /** `blog.content?.contentText ?? ""`. */
  function ContentOf(p: Page): string {
    p.contentText.GetOr("")
  }

  /** The lower-cased page type is a blog type and the page has a non-empty text. */
  predicate IsBlogPage(p: Page) {
    Lower(p.pageType.GetOr("")) in BlogPageTypes && ContentOf(p) != ""
  }

  function BlogPages(pages: seq<Page>): (blogs: seq<Page>)
    ensures |blogs| <= |pages|
    ensures forall p :: p in blogs <==> p in pages && IsBlogPage(p)
    ensures Distinct(pages) ==> Distinct(blogs)
  {
    if Distinct(pages) then FilterDistinct(pages, IsBlogPage); Filter(pages, IsBlogPage)
    else Filter(pages, IsBlogPage)
  }

  /** The blog pages keep the order of the page list: selecting from a concatenation concatenates the selections. */
  lemma BlogPagesAppend(a: seq<Page>, b: seq<Page>)
    ensures BlogPages(a + b) == BlogPages(a) + BlogPages(b)
  {
    FilterAppend(a, b, IsBlogPage);
  }

  /** A single page is kept exactly when it is a blog page. */
  lemma BlogPagesSingle(p: Page)
    ensures BlogPages([p]) == if IsBlogPage(p) then [p] else []
  {
    FilterSingle(p, IsBlogPage);
  }

  /** Page types compare case-insensitively; a missing type or an empty text is never a blog. */
  lemma BlogPageExamples(id: string, url: string, text: string)
    requires text != ""
    ensures IsBlogPage(Page(id, url, None, Some("Guide"), Some(text)))
    ensures IsBlogPage(Page(id, url, None, Some("NEWS"), Some(text)))
    ensures !IsBlogPage(Page(id, url, None, None, Some(text)))
    ensures !IsBlogPage(Page(id, url, None, Some("landing"), Some(text)))
    ensures !IsBlogPage(Page(id, url, None, Some("blog"), Some("")))
    ensures !IsBlogPage(Page(id, url, None, Some("blog"), None))
  {
    assert Lower("Guide") == "guide";
    assert Lower("NEWS") == "news";
    assert Lower("landing") == "landing";
    assert Lower("") == "";
  }

  // ---------------------------------------------------------------------------
  // Signatures (`buildSignature` and the regex of `collectExistingSignatures`)
  // ---------------------------------------------------------------------------

  /** `buildSignature`. */
  function BuildSignature(blogId: string, targetPageId: string, anchor: string): (signature: string)
    ensures |signature| == |blogId| + |targetPageId| + |anchor| + |SignaturePrefix| + 3
    ensures signature[..|SignaturePrefix|] == SignaturePrefix && signature[|signature| - 1] == ']'
  {
    SignaturePrefix + blogId + ":" + targetPageId + ":" + Lower(anchor) + "]"
  }

  /** A string `/\[link-scout:[^\]]+\]/` matches in full. */
  predicate IsSignature(s: string) {
    && |s| > |SignaturePrefix| + 1
    && s[..|SignaturePrefix|] == SignaturePrefix
    && s[|s| - 1] == ']'
    && forall k :: |SignaturePrefix| <= k < |s| - 1 ==> s[k] != ']'
  }

  /** The prefix `[link-scout:` starts at index `i` of `s`. */
  predicate PrefixAt(s: string, i: nat) {
    i + |SignaturePrefix| <= |s| && s[i..i + |SignaturePrefix|] == SignaturePrefix
  }

  /** The query's `description: { contains: SIGNATURE_PREFIX }`. */
  predicate ContainsPrefix(s: string) {
    exists i :: 0 <= i < |s| && PrefixAt(s, i)
  }

  /** The first index at or after `k` that holds `]`, or `|s|` when there is none. */
  function CloseFrom(s: string, k: nat): (j: nat)
    requires k <= |s|
    ensures k <= j <= |s|
    ensures j < |s| ==> s[j] == ']'
    ensures forall m :: k <= m < j ==> s[m] != ']'
    decreases |s| - k
  {
    if k == |s| || s[k] == ']' then k else CloseFrom(s, k + 1)
  }

  /**
   * The end (exclusive) of the regex match that starts at `i`, if there is
   * one: after the prefix, `[^\]]+` takes every character up to the first `]`,
   * which must come after at least one character.
   */
  function SignatureEnd(s: string, i: nat): (e: Option<nat>)
    ensures e.Some? ==> i < e.value <= |s| && IsSignature(s[i..e.value])
  {
    if !PrefixAt(s, i) then None
    else
      var j := CloseFrom(s, i + |SignaturePrefix|);
      if j < |s| && j > i + |SignaturePrefix| then
        var x := s[i..j + 1];
        assert x[..|SignaturePrefix|] == s[i..i + |SignaturePrefix|];
        assert forall k :: |SignaturePrefix| <= k < |x| - 1 ==> x[k] == s[i + k];
        Some(j + 1)
      else None
  }

  /** The regex matches at `i` exactly the signature that starts there. */
  lemma SignatureEndComplete(s: string, i: nat, e: nat)
    requires i < e <= |s| && IsSignature(s[i..e])
    ensures SignatureEnd(s, i) == Some(e)
  {
    var x := s[i..e];
    assert s[i..i + |SignaturePrefix|] == x[..|SignaturePrefix|];
    var j := CloseFrom(s, i + |SignaturePrefix|);
  }

  /** The matches of `/\[link-scout:[^\]]+\]/g` from index `from` on, left to right. */
  function ScanFrom(s: string, from: nat): (found: seq<string>)
    ensures forall k :: 0 <= k < |found| ==> IsSignature(found[k])
    decreases |s| - from
  {
    if from >= |s| then []
    else
      match SignatureEnd(s, from)
      case Some(e) => [s[from..e]] + ScanFrom(s, e)
      case None => ScanFrom(s, from + 1)
  }

  /** `description.match(regex) ?? []`. */
  function ScanSignatures(s: string): (found: seq<string>)
    ensures forall k :: 0 <= k < |found| ==> IsSignature(found[k])
  {
    ScanFrom(s, 0)
  }

  /** Positions where no match starts are passed over. */
  lemma {:induction false} ScanSkip(s: string, from: nat, to: nat)
    requires from <= to <= |s|
    requires forall i :: from <= i < to ==> SignatureEnd(s, i).None?
    ensures ScanFrom(s, from) == ScanFrom(s, to)
    decreases (to as int) - (from as int)
  {
    if from < to {
      ScanSkip(s, from + 1, to);
    }
  }

  /** A text without the prefix holds no signature, so the query's `contains` filter drops nothing. */
  lemma NoPrefixNoSignatures(s: string)
    requires !ContainsPrefix(s)
    ensures ScanSignatures(s) == []
  {
    ScanSkip(s, 0, |s|);
  }

  /** `[` occurs in the prefix only as its first character. */
  lemma PrefixOpensOnce(d: int)
    requires 0 < d < |SignaturePrefix|
    ensures SignaturePrefix[d] != '['
  {
  }

  /** A signature after a text without the prefix is found, and it is the only match. */
  lemma ScanFindsLast(head: string, signature: string)
    requires !ContainsPrefix(head) && IsSignature(signature)
    ensures ScanSignatures(head + signature) == [signature]
  {
    var s := head + signature;
    forall i | 0 <= i < |head| ensures !PrefixAt(s, i) {
      if i + |SignaturePrefix| <= |head| {
        assert s[i..i + |SignaturePrefix|] == head[i..i + |SignaturePrefix|];
        assert !PrefixAt(head, i);
      } else if i + |SignaturePrefix| <= |s| {
        var d := |head| - i;
        assert s[i..i + |SignaturePrefix|][d] == signature[0] == '[';
        PrefixOpensOnce(d);
      }
    }
    ScanSkip(s, 0, |head|);
    assert s[|head|..|s|] == signature;
    SignatureEndComplete(s, |head|, |s|);
  }

  /** No `]` in `s`. */
  predicate NoBracket(s: string) {
    forall k :: 0 <= k < |s| ==> s[k] != ']'
  }

  /**
   * The round trip of the signature: when no component holds `]`, the regex
   * recovers the whole signature, and nothing else, from it.
   */
  lemma SignatureRoundTrip(blogId: string, targetPageId: string, anchor: string)
    requires NoBracket(blogId) && NoBracket(targetPageId) && NoBracket(anchor)
    ensures IsSignature(BuildSignature(blogId, targetPageId, anchor))
    ensures ScanSignatures(BuildSignature(blogId, targetPageId, anchor)) == [BuildSignature(blogId, targetPageId, anchor)]
  {
    var sig := BuildSignature(blogId, targetPageId, anchor);
    var inner := blogId + ":" + targetPageId + ":" + Lower(anchor);
    assert sig == SignaturePrefix + inner + "]";
    InnerNoBracket(blogId, targetPageId, anchor);
    assert forall k :: |SignaturePrefix| <= k < |sig| - 1 ==> sig[k] == inner[k - |SignaturePrefix|];
    assert !ContainsPrefix("");
    assert "" + sig == sig;
    ScanFindsLast("", sig);
  }

  /** The ids and the lower-cased anchor, joined by colons, contain no `]` when none of them does. */
  lemma InnerNoBracket(blogId: string, targetPageId: string, anchor: string)
    requires NoBracket(blogId) && NoBracket(targetPageId) && NoBracket(anchor)
    ensures NoBracket(blogId + ":" + targetPageId + ":" + Lower(anchor))
  {
    var inner := blogId + ":" + targetPageId + ":" + Lower(anchor);
    forall k | 0 <= k < |inner| ensures inner[k] != ']' {
      if k >= |blogId| + |targetPageId| + 2 {
        assert inner[k] == Lower(anchor)[k - |blogId| - |targetPageId| - 2];
      } else if k > |blogId| && k != |blogId| + |targetPageId| + 1 {
        assert inner[k] == targetPageId[k - |blogId| - 1];
      }
    }
  }

  /** A `]` inside the anchor cuts the recovered signature short, so it no longer matches the stored one. */
  lemma BracketInAnchorTruncates()
    ensures BuildSignature("b", "t", "a]c") == "[link-scout:b:t:a]c]"
    ensures ScanSignatures("[link-scout:b:t:a]c]") == ["[link-scout:b:t:a]"]
  {
    var s := "[link-scout:b:t:a]c]";
    assert Lower("a]c") == "a]c";
    SignatureEndComplete(s, 0, 18);
    assert s[0..18] == "[link-scout:b:t:a]";
    assert !PrefixAt(s, 18) && !PrefixAt(s, 19);
  }

  // ---------------------------------------------------------------------------
  // Existing signatures (`collectExistingSignatures`)
  // ---------------------------------------------------------------------------

  /** A task row of the project: its type and its description. */
  datatype TaskRow = TaskRow(taskType: TaskType, description: Option<string>)

  /** The task query's filter: LINK tasks whose description contains the prefix. */
  predicate IsLinkScoutTask(t: TaskRow) {
    t.taskType == LINK && t.description.Some? && ContainsPrefix(t.description.value)
  }

  /** The signatures one task contributes. */
  function TaskSignatures(t: TaskRow): (sigs: set<string>)
    ensures forall x :: x in sigs ==> IsSignature(x)
  {
    if IsLinkScoutTask(t) && t.description.value != "" then
      set x | x in ScanSignatures(t.description.value)
    else {}
  }

  /** Every signature found in the selected tasks' descriptions. */
  function ExistingSignatures(tasks: seq<TaskRow>): set<string>
    decreases |tasks|
  {
    if tasks == [] then {}
    else ExistingSignatures(tasks[..|tasks| - 1]) + TaskSignatures(tasks[|tasks| - 1])
  }

  /** `collectExistingSignatures`: the set of signatures already recorded in LINK tasks. */
  method CollectExistingSignatures(tasks: seq<TaskRow>) returns (signatures: set<string>)
    ensures signatures == ExistingSignatures(tasks)
  {
    signatures := {};
    for i := 0 to |tasks|
      invariant signatures == ExistingSignatures(tasks[..i])
    {
      var task := tasks[i];
      assert tasks[..i + 1][..i] == tasks[..i];
      if IsLinkScoutTask(task) && task.description.value != "" {
        var matches := ScanSignatures(task.description.value);
        for j := 0 to |matches|
          invariant signatures == ExistingSignatures(tasks[..i]) + set x | x in matches[..j]
        {
          assert matches[..j + 1] == matches[..j] + [matches[j]];
          signatures := signatures + {matches[j]};
        }
        assert matches[..|matches|] == matches;
      }
    }
    assert tasks[..|tasks|] == tasks;
  }

  /**
   * The set holds exactly the matches found in LINK task descriptions: the
   * query's `contains` filter and the null or empty description check drop no
   * signature.
   */
  lemma {:induction false} ExistingSignaturesSpec(tasks: seq<TaskRow>, x: string)
    ensures x in ExistingSignatures(tasks) <==>
      exists i :: 0 <= i < |tasks| && tasks[i].taskType == LINK && tasks[i].description.Some? &&
        x in ScanSignatures(tasks[i].description.value)
    decreases |tasks|
  {
    if tasks != [] {
      var n := |tasks| - 1;
      var t := tasks[n];
      ExistingSignaturesSpec(tasks[..n], x);
      assert forall i :: 0 <= i < n ==> tasks[..n][i] == tasks[i];
      if t.taskType == LINK && t.description.Some? && !IsLinkScoutTask(t) {
        NoPrefixNoSignatures(t.description.value);
      }
      if t.description.Some? && t.description.value == "" {
        assert ScanSignatures("") == [];
      }
    }
  }

  /** Signatures of appended tasks add to those of the earlier ones. */
  lemma {:induction false} ExistingSignaturesAppend(a: seq<TaskRow>, b: seq<TaskRow>)
    ensures ExistingSignatures(a + b) == ExistingSignatures(a) + ExistingSignatures(b)
    decreases |b|
  {
    if b == [] {
      assert a + b == a;
    } else {
      var n := |b| - 1;
      assert (a + b)[..|a + b| - 1] == a + b[..n];
      ExistingSignaturesAppend(a, b[..n]);
    }
  }

  // ---------------------------------------------------------------------------
  // Selection (the loops of `generateLinkSuggestionsForProject`)
  // ---------------------------------------------------------------------------

  /** `SuggestionCandidate`: the kept match, the blog page it is in, and the pair's signature. */
  datatype Suggestion = Suggestion(m: Match, blog: Page, signature: string)

  /** The loop's state: the accepted suggestions and the signature set it extends. */
  datatype Selection = Selection(suggestions: seq<Suggestion>, signatures: set<string>)

  /** The match the loop keeps for a blog text and a target: the first of `findMatchesForTarget`'s. */
  function BestMatch(content: string, target: MoneyTarget): (best: Option<Match>)
    ensures best.None? <==> MatchesFor(content, target) == []
    ensures best.Some? ==> best.value in MatchesFor(content, target) && best.value.target == target
    ensures best.Some? ==> best.value.anchor in target.anchors && 0.35 <= best.value.confidence <= 1.0
    ensures best.Some? ==> forall m :: m in MatchesFor(content, target) ==> m.confidence <= best.value.confidence
  {
    var matches := MatchesFor(content, target);
    if matches == [] then None
    else
      MatchesForSound(content, target, matches[0]);
      MatchesForOrdered(content, target);
      Some(matches[0])
  }

  /**
   * The inner loop over the targets for one blog page, as a fold: `best`
   * stands for the best-match function (BestMatch in the miner) so that the
   * properties below hold for any matcher.
   */
  function SelectTargets(blog: Page, targets: seq<MoneyTarget>, best: (string, MoneyTarget) -> Option<Match>,
                         maxPerBlog: int, maxPerProject: int, sel: Selection, added: nat): Selection
    decreases |targets|
  {
    if targets == [] then sel
    else
      var target := targets[0];
      if blog.id == target.targetPageId then
        SelectTargets(blog, targets[1..], best, maxPerBlog, maxPerProject, sel, added)
      else if added >= maxPerBlog || |sel.suggestions| >= maxPerProject then sel
      else
        match best(ContentOf(blog), target)
        case None => SelectTargets(blog, targets[1..], best, maxPerBlog, maxPerProject, sel, added)
        case Some(m) =>
          var signature := BuildSignature(blog.id, target.targetPageId, m.anchor);
          if signature in sel.signatures then
            SelectTargets(blog, targets[1..], best, maxPerBlog, maxPerProject, sel, added)
          else
            var next := Selection(sel.suggestions + [Suggestion(m, blog, signature)], sel.signatures + {signature});
            if |next.suggestions| >= maxPerProject then next
            else SelectTargets(blog, targets[1..], best, maxPerBlog, maxPerProject, next, added + 1)
  }

  /** The outer loop over the blog pages, as a fold. */
  function SelectBlogs(blogs: seq<Page>, targets: seq<MoneyTarget>, best: (string, MoneyTarget) -> Option<Match>,
                       maxPerBlog: int, maxPerProject: int, sel: Selection): Selection
    decreases |blogs|
  {
    if blogs == [] then sel
    else if ContentOf(blogs[0]) == "" then
      SelectBlogs(blogs[1..], targets, best, maxPerBlog, maxPerProject, sel)
    else
      var next := SelectTargets(blogs[0], targets, best, maxPerBlog, maxPerProject, sel, 0);
      if |next.suggestions| >= maxPerProject then next
      else SelectBlogs(blogs[1..], targets, best, maxPerBlog, maxPerProject, next)
  }

  // Steps of the folds, one per branch of the loops.

  lemma TargetPass(blog: Page, targets: seq<MoneyTarget>, t: nat, best: (string, MoneyTarget) -> Option<Match>,
                   maxPerBlog: int, maxPerProject: int, sel: Selection, added: nat)
    requires t < |targets|
    requires blog.id == targets[t].targetPageId ||
      (!(added >= maxPerBlog || |sel.suggestions| >= maxPerProject) &&
       (best(ContentOf(blog), targets[t]).None? ||
        BuildSignature(blog.id, targets[t].targetPageId, best(ContentOf(blog), targets[t]).value.anchor) in sel.signatures))
    ensures SelectTargets(blog, targets[t..], best, maxPerBlog, maxPerProject, sel, added) ==
            SelectTargets(blog, targets[t + 1..], best, maxPerBlog, maxPerProject, sel, added)
  {
    assert targets[t..][0] == targets[t] && targets[t..][1..] == targets[t + 1..];
  }

  lemma TargetStop(blog: Page, targets: seq<MoneyTarget>, t: nat, best: (string, MoneyTarget) -> Option<Match>,
                   maxPerBlog: int, maxPerProject: int, sel: Selection, added: nat)
    requires t < |targets|
    requires blog.id != targets[t].targetPageId && (added >= maxPerBlog || |sel.suggestions| >= maxPerProject)
    ensures SelectTargets(blog, targets[t..], best, maxPerBlog, maxPerProject, sel, added) == sel
  {
    assert targets[t..][0] == targets[t];
  }

  lemma TargetAccept(blog: Page, targets: seq<MoneyTarget>, t: nat, best: (string, MoneyTarget) -> Option<Match>,
                     maxPerBlog: int, maxPerProject: int, before: Selection, added: nat, m: Match, after: Selection)
    requires t < |targets|
    requires blog.id != targets[t].targetPageId && !(added >= maxPerBlog || |before.suggestions| >= maxPerProject)
    requires best(ContentOf(blog), targets[t]) == Some(m)
    requires BuildSignature(blog.id, targets[t].targetPageId, m.anchor) !in before.signatures
    requires after == Selection(
      before.suggestions + [Suggestion(m, blog, BuildSignature(blog.id, targets[t].targetPageId, m.anchor))],
      before.signatures + {BuildSignature(blog.id, targets[t].targetPageId, m.anchor)})
    ensures SelectTargets(blog, targets[t..], best, maxPerBlog, maxPerProject, before, added) ==
            if |after.suggestions| >= maxPerProject then after
            else SelectTargets(blog, targets[t + 1..], best, maxPerBlog, maxPerProject, after, added + 1)
  {
    assert targets[t..][0] == targets[t] && targets[t..][1..] == targets[t + 1..];
  }

  lemma TargetsDone(blog: Page, targets: seq<MoneyTarget>, best: (string, MoneyTarget) -> Option<Match>,
                    maxPerBlog: int, maxPerProject: int, sel: Selection, added: nat)
    ensures SelectTargets(blog, targets[|targets|..], best, maxPerBlog, maxPerProject, sel, added) == sel
  {
    assert targets[|targets|..] == [];
  }

  lemma BlogPass(blogs: seq<Page>, b: nat, targets: seq<MoneyTarget>, best: (string, MoneyTarget) -> Option<Match>,
                 maxPerBlog: int, maxPerProject: int, sel: Selection)
    requires b < |blogs| && ContentOf(blogs[b]) == ""
    ensures SelectBlogs(blogs[b..], targets, best, maxPerBlog, maxPerProject, sel) ==
            SelectBlogs(blogs[b + 1..], targets, best, maxPerBlog, maxPerProject, sel)
  {
    assert blogs[b..][0] == blogs[b] && blogs[b..][1..] == blogs[b + 1..];
  }

  lemma BlogAdvance(blogs: seq<Page>, b: nat, targets: seq<MoneyTarget>, best: (string, MoneyTarget) -> Option<Match>,
                    maxPerBlog: int, maxPerProject: int, sel: Selection, next: Selection)
    requires b < |blogs| && ContentOf(blogs[b]) != ""
    requires next == SelectTargets(blogs[b], targets, best, maxPerBlog, maxPerProject, sel, 0)
    ensures SelectBlogs(blogs[b..], targets, best, maxPerBlog, maxPerProject, sel) ==
            if |next.suggestions| >= maxPerProject then next
            else SelectBlogs(blogs[b + 1..], targets, best, maxPerBlog, maxPerProject, next)
  {
    assert blogs[b..][0] == blogs[b] && blogs[b..][1..] == blogs[b + 1..];
  }

  lemma BlogsDone(blogs: seq<Page>, targets: seq<MoneyTarget>, best: (string, MoneyTarget) -> Option<Match>,
                  maxPerBlog: int, maxPerProject: int, sel: Selection)
    ensures SelectBlogs(blogs[|blogs|..], targets, best, maxPerBlog, maxPerProject, sel) == sel
  {
    assert blogs[|blogs|..] == [];
  }

  /** The selection loop of `generateLinkSuggestionsForProject`, with its `continue`s and `break`s. */
  method SelectSuggestions(blogs: seq<Page>, targets: seq<MoneyTarget>, existing: set<string>,
                           maxPerBlog: int, maxPerProject: int)
    returns (suggestions: seq<Suggestion>, signatures: set<string>)
    ensures Selection(suggestions, signatures) ==
      SelectBlogs(blogs, targets, BestMatch, maxPerBlog, maxPerProject, Selection([], existing))
  {
    ghost var goal := SelectBlogs(blogs, targets, BestMatch, maxPerBlog, maxPerProject, Selection([], existing));
    suggestions, signatures := [], existing;
    var b := 0;
    while b < |blogs|
      invariant b <= |blogs|
      invariant SelectBlogs(blogs[b..], targets, BestMatch, maxPerBlog, maxPerProject,
                            Selection(suggestions, signatures)) == goal
      decreases |blogs| - b
    {
      var blog := blogs[b];
      var addedForBlog: nat := 0;
      var content := blog.contentText.GetOr("");
      if content == "" {
        BlogPass(blogs, b, targets, BestMatch, maxPerBlog, maxPerProject, Selection(suggestions, signatures));
        b := b + 1;
        continue;
      }
      ghost var start := Selection(suggestions, signatures);
      var t := 0;
      while t < |targets|
        invariant t <= |targets|
        invariant SelectTargets(blog, targets[t..], BestMatch, maxPerBlog, maxPerProject,
                                Selection(suggestions, signatures), addedForBlog) ==
                  SelectTargets(blog, targets, BestMatch, maxPerBlog, maxPerProject, start, 0)
        decreases |targets| - t
      {
        var target := targets[t];
        if blog.id == target.targetPageId {
          TargetPass(blog, targets, t, BestMatch, maxPerBlog, maxPerProject, Selection(suggestions, signatures), addedForBlog);
          t := t + 1;
          continue;
        }
        if addedForBlog >= maxPerBlog || |suggestions| >= maxPerProject {
          TargetStop(blog, targets, t, BestMatch, maxPerBlog, maxPerProject, Selection(suggestions, signatures), addedForBlog);
          break;
        }
        var matches := FindMatchesForTarget(content, target);
        if |matches| == 0 {
          TargetPass(blog, targets, t, BestMatch, maxPerBlog, maxPerProject, Selection(suggestions, signatures), addedForBlog);
          t := t + 1;
          continue;
        }
        var best := matches[0];
        var signature := BuildSignature(blog.id, target.targetPageId, best.anchor);
        if signature in signatures {
          TargetPass(blog, targets, t, BestMatch, maxPerBlog, maxPerProject, Selection(suggestions, signatures), addedForBlog);
          t := t + 1;
          continue;
        }
        ghost var before := Selection(suggestions, signatures);
        suggestions := suggestions + [Suggestion(best, blog, signature)];
        signatures := signatures + {signature};
        TargetAccept(blog, targets, t, BestMatch, maxPerBlog, maxPerProject, before, addedForBlog, best,
                     Selection(suggestions, signatures));
        addedForBlog := addedForBlog + 1;
        if |suggestions| >= maxPerProject {
          break;
        }
        t := t + 1;
      }
      if t == |targets| {
        TargetsDone(blog, targets, BestMatch, maxPerBlog, maxPerProject, Selection(suggestions, signatures), addedForBlog);
      }
      BlogAdvance(blogs, b, targets, BestMatch, maxPerBlog, maxPerProject, start, Selection(suggestions, signatures));
      if |suggestions| >= maxPerProject {
        break;
      }
      b := b + 1;
    }
    if b == |blogs| {
      BlogsDone(blogs, targets, BestMatch, maxPerBlog, maxPerProject, Selection(suggestions, signatures));
    }
  }

  // ---------------------------------------------------------------------------
  // Properties of the selection, for any best-match function
  // ---------------------------------------------------------------------------

  function Max(a: int, b: int): int {
    if a >= b then a else b
  }

  /** The signatures of a list of suggestions. */
  function SignatureSet(s: seq<Suggestion>): set<string> {
    set i | 0 <= i < |s| :: s[i].signature
  }

  /**
   * The signature bookkeeping the loop keeps: accepted signatures are new and
   * pairwise distinct, and the set is the pre-existing one plus them.
   */
  predicate Ledger(sel: Selection, existing: set<string>) {
    && (forall i :: 0 <= i < |sel.suggestions| ==> sel.suggestions[i].signature !in existing)
    && (forall i, j :: 0 <= i < j < |sel.suggestions| ==>
          sel.suggestions[i].signature != sel.suggestions[j].signature)
    && sel.signatures == existing + SignatureSet(sel.suggestions)
  }

  /** The matcher only returns matches for the target it was asked about. */
  ghost predicate KeepsTarget(best: (string, MoneyTarget) -> Option<Match>) {
    forall c, t :: best(c, t).Some? ==> best(c, t).value.target == t
  }

  /**
   * An accepted suggestion: a blog page with text, one of the targets, the
   * best match for that pair, never a link from a page to itself, and the
   * signature of the pair and the match's anchor.
   */
  predicate Proper(x: Suggestion, blogs: seq<Page>, targets: seq<MoneyTarget>, best: (string, MoneyTarget) -> Option<Match>) {
    && x.blog in blogs && x.m.target in targets && ContentOf(x.blog) != ""
    && best(ContentOf(x.blog), x.m.target) == Some(x.m)
    && x.blog.id != x.m.target.targetPageId
    && x.signature == BuildSignature(x.blog.id, x.m.target.targetPageId, x.m.anchor)
  }

  lemma LedgerAccept(sel: Selection, existing: set<string>, x: Suggestion)
    requires Ledger(sel, existing) && x.signature !in sel.signatures
    ensures Ledger(Selection(sel.suggestions + [x], sel.signatures + {x.signature}), existing)
  {
    var s := sel.suggestions + [x];
    forall i | 0 <= i < |sel.suggestions| ensures s[i].signature != x.signature {
      assert sel.suggestions[i].signature in SignatureSet(sel.suggestions);
    }
    assert SignatureSet(s) == SignatureSet(sel.suggestions) + {x.signature} by {
      forall y | y in SignatureSet(s) ensures y in SignatureSet(sel.suggestions) + {x.signature} {
        var i :| 0 <= i < |s| && s[i].signature == y;
        if i < |sel.suggestions| {
          assert sel.suggestions[i].signature == y;
        }
      }
      forall y | y in SignatureSet(sel.suggestions) ensures y in SignatureSet(s) {
        var i :| 0 <= i < |sel.suggestions| && sel.suggestions[i].signature == y;
        assert s[i].signature == y;
      }
      assert s[|s| - 1].signature == x.signature;
    }
  }

  /**
   * One blog page's pass only appends suggestions for that page: at most
   * `maxPerBlog - added` of them, never past `maxPerProject` in total, and the
   * signature set only grows.
   */
  lemma {:induction false} TargetsExtend(blog: Page, targets: seq<MoneyTarget>, best: (string, MoneyTarget) -> Option<Match>,
                                         maxPerBlog: int, maxPerProject: int, sel: Selection, added: nat, r: Selection)
    requires r == SelectTargets(blog, targets, best, maxPerBlog, maxPerProject, sel, added)
    ensures |sel.suggestions| <= |r.suggestions| && r.suggestions[..|sel.suggestions|] == sel.suggestions
    ensures forall i :: |sel.suggestions| <= i < |r.suggestions| ==> r.suggestions[i].blog == blog
    ensures |r.suggestions| - |sel.suggestions| <= Max(0, maxPerBlog - added)
    ensures |r.suggestions| <= Max(|sel.suggestions|, maxPerProject)
    ensures sel.signatures <= r.signatures
    decreases |targets|
  {
    if targets != [] {
      var target := targets[0];
      if blog.id == target.targetPageId {
        TargetsExtend(blog, targets[1..], best, maxPerBlog, maxPerProject, sel, added, r);
      } else if !(added >= maxPerBlog || |sel.suggestions| >= maxPerProject) {
        match best(ContentOf(blog), target)
        case None =>
          TargetsExtend(blog, targets[1..], best, maxPerBlog, maxPerProject, sel, added, r);
        case Some(m) =>
          var signature := BuildSignature(blog.id, target.targetPageId, m.anchor);
          if signature in sel.signatures {
            TargetsExtend(blog, targets[1..], best, maxPerBlog, maxPerProject, sel, added, r);
          } else {
            var next := Selection(sel.suggestions + [Suggestion(m, blog, signature)], sel.signatures + {signature});
            assert next.suggestions[..|sel.suggestions|] == sel.suggestions;
            if |next.suggestions| < maxPerProject {
              TargetsExtend(blog, targets[1..], best, maxPerBlog, maxPerProject, next, added + 1, r);
              assert r.suggestions[..|sel.suggestions|] == r.suggestions[..|next.suggestions|][..|sel.suggestions|];
            }
          }
      }
    }
  }

  /** One blog page's pass keeps the ledger and accepts only proper suggestions. */
  lemma {:induction false} TargetsSound(blog: Page, targets: seq<MoneyTarget>, best: (string, MoneyTarget) -> Option<Match>,
                                        maxPerBlog: int, maxPerProject: int, sel: Selection, added: nat, r: Selection,
                                        existing: set<string>, blogs: seq<Page>, all: seq<MoneyTarget>)
    requires r == SelectTargets(blog, targets, best, maxPerBlog, maxPerProject, sel, added)
    requires KeepsTarget(best) && blog in blogs && ContentOf(blog) != ""
    requires forall k :: 0 <= k < |targets| ==> targets[k] in all
    requires Ledger(sel, existing)
    requires forall i :: 0 <= i < |sel.suggestions| ==> Proper(sel.suggestions[i], blogs, all, best)
    ensures Ledger(r, existing)
    ensures forall i :: 0 <= i < |r.suggestions| ==> Proper(r.suggestions[i], blogs, all, best)
    decreases |targets|
  {
    if targets != [] {
      var target := targets[0];
      assert forall k :: 0 <= k < |targets| - 1 ==> targets[1..][k] == targets[k + 1];
      if blog.id == target.targetPageId {
        TargetsSound(blog, targets[1..], best, maxPerBlog, maxPerProject, sel, added, r, existing, blogs, all);
      } else if !(added >= maxPerBlog || |sel.suggestions| >= maxPerProject) {
        match best(ContentOf(blog), target)
        case None =>
          TargetsSound(blog, targets[1..], best, maxPerBlog, maxPerProject, sel, added, r, existing, blogs, all);
        case Some(m) =>
          var signature := BuildSignature(blog.id, target.targetPageId, m.anchor);
          if signature in sel.signatures {
            TargetsSound(blog, targets[1..], best, maxPerBlog, maxPerProject, sel, added, r, existing, blogs, all);
          } else {
            var x := Suggestion(m, blog, signature);
            var next := Selection(sel.suggestions + [x], sel.signatures + {signature});
            LedgerAccept(sel, existing, x);
            assert m.target == target;
            assert Proper(x, blogs, all, best);
            assert forall i :: 0 <= i < |next.suggestions| ==> Proper(next.suggestions[i], blogs, all, best) by {
              forall i | 0 <= i < |next.suggestions| ensures Proper(next.suggestions[i], blogs, all, best) {
                if i < |sel.suggestions| {
                  assert next.suggestions[i] == sel.suggestions[i];
                }
              }
            }
            if |next.suggestions| < maxPerProject {
              TargetsSound(blog, targets[1..], best, maxPerBlog, maxPerProject, next, added + 1, r, existing, blogs, all);
            }
          }
      }
    }
  }

  /** The signatures every (blog page, target) pair with a match would take. */
  function TargetPairSignatures(blog: Page, targets: seq<MoneyTarget>, best: (string, MoneyTarget) -> Option<Match>): set<string>
    decreases |targets|
  {
    if targets == [] then {}
    else
      var target := targets[0];
      var here :=
        if blog.id != target.targetPageId && best(ContentOf(blog), target).Some? then
          {BuildSignature(blog.id, target.targetPageId, best(ContentOf(blog), target).value.anchor)}
        else {};
      here + TargetPairSignatures(blog, targets[1..], best)
  }

  function PairSignatures(blogs: seq<Page>, targets: seq<MoneyTarget>, best: (string, MoneyTarget) -> Option<Match>): set<string>
    decreases |blogs|
  {
    if blogs == [] then {}
    else
      (if ContentOf(blogs[0]) == "" then {} else TargetPairSignatures(blogs[0], targets, best)) +
      PairSignatures(blogs[1..], targets, best)
  }

  /** A pass whose every pair signature is already known accepts nothing. */
  lemma {:induction false} TargetsRerun(blog: Page, targets: seq<MoneyTarget>, best: (string, MoneyTarget) -> Option<Match>,
                                        maxPerBlog: int, maxPerProject: int, sel: Selection, added: nat)
    requires TargetPairSignatures(blog, targets, best) <= sel.signatures
    ensures SelectTargets(blog, targets, best, maxPerBlog, maxPerProject, sel, added) == sel
    decreases |targets|
  {
    if targets != [] {
      TargetsRerun(blog, targets[1..], best, maxPerBlog, maxPerProject, sel, added);
    }
  }

  /** A pass that no cap cuts short records every pair signature of its blog page. */
  lemma {:induction false} TargetsCover(blog: Page, targets: seq<MoneyTarget>, best: (string, MoneyTarget) -> Option<Match>,
                                        maxPerBlog: int, maxPerProject: int, sel: Selection, added: nat, r: Selection)
    requires r == SelectTargets(blog, targets, best, maxPerBlog, maxPerProject, sel, added)
    requires added + |targets| <= maxPerBlog && |sel.suggestions| + |targets| < maxPerProject
    ensures TargetPairSignatures(blog, targets, best) <= r.signatures
    ensures |r.suggestions| <= |sel.suggestions| + |targets|
    decreases |targets|
  {
    if targets != [] {
      var target := targets[0];
      var rest := targets[1..];
      if blog.id == target.targetPageId {
        TargetsCover(blog, rest, best, maxPerBlog, maxPerProject, sel, added, r);
      } else {
        match best(ContentOf(blog), target)
        case None =>
          TargetsCover(blog, rest, best, maxPerBlog, maxPerProject, sel, added, r);
        case Some(m) =>
          var signature := BuildSignature(blog.id, target.targetPageId, m.anchor);
          if signature in sel.signatures {
            TargetsCover(blog, rest, best, maxPerBlog, maxPerProject, sel, added, r);
            TargetsExtend(blog, rest, best, maxPerBlog, maxPerProject, sel, added, r);
          } else {
            var next := Selection(sel.suggestions + [Suggestion(m, blog, signature)], sel.signatures + {signature});
            TargetsCover(blog, rest, best, maxPerBlog, maxPerProject, next, added + 1, r);
            TargetsExtend(blog, rest, best, maxPerBlog, maxPerProject, next, added + 1, r);
          }
      }
    }
  }

  lemma {:induction false} BlogsExtend(blogs: seq<Page>, targets: seq<MoneyTarget>, best: (string, MoneyTarget) -> Option<Match>,
                                       maxPerBlog: int, maxPerProject: int, sel: Selection, r: Selection)
    requires r == SelectBlogs(blogs, targets, best, maxPerBlog, maxPerProject, sel)
    ensures |sel.suggestions| <= |r.suggestions| && r.suggestions[..|sel.suggestions|] == sel.suggestions
    ensures forall i :: |sel.suggestions| <= i < |r.suggestions| ==> r.suggestions[i].blog in blogs
    ensures |r.suggestions| <= Max(|sel.suggestions|, maxPerProject)
    ensures sel.signatures <= r.signatures
    decreases |blogs|
  {
    if blogs != [] {
      if ContentOf(blogs[0]) == "" {
        BlogsExtend(blogs[1..], targets, best, maxPerBlog, maxPerProject, sel, r);
      } else {
        var next := SelectTargets(blogs[0], targets, best, maxPerBlog, maxPerProject, sel, 0);
        TargetsExtend(blogs[0], targets, best, maxPerBlog, maxPerProject, sel, 0, next);
        if |next.suggestions| < maxPerProject {
          BlogsExtend(blogs[1..], targets, best, maxPerBlog, maxPerProject, next, r);
          assert r.suggestions[..|sel.suggestions|] == r.suggestions[..|next.suggestions|][..|sel.suggestions|];
          forall i | |sel.suggestions| <= i < |r.suggestions| ensures r.suggestions[i].blog in blogs {
            if i < |next.suggestions| {
              assert r.suggestions[i] == r.suggestions[..|next.suggestions|][i];
            }
          }
        }
      }
    }
  }

  /** How many suggestions link from page `b`. */
  function BlogCount(s: seq<Suggestion>, b: Page): nat
    decreases |s|
  {
    if s == [] then 0 else BlogCount(s[..|s| - 1], b) + (if s[|s| - 1].blog == b then 1 else 0)
  }

  lemma {:induction false} BlogCountAppend(x: seq<Suggestion>, y: seq<Suggestion>, blog: Page, b: Page)
    requires forall i :: 0 <= i < |y| ==> y[i].blog == blog
    ensures BlogCount(x + y, b) == BlogCount(x, b) + (if b == blog then |y| else 0)
    decreases |y|
  {
    if y == [] {
      assert x + y == x;
    } else {
      var n := |y| - 1;
      assert (x + y)[..|x + y| - 1] == x + y[..n];
      BlogCountAppend(x, y[..n], blog, b);
    }
  }

  /** Each blog page of a list without repeats gets at most `maxPerBlog` suggestions. */
  lemma {:induction false} BlogsPerBlogCap(blogs: seq<Page>, targets: seq<MoneyTarget>, best: (string, MoneyTarget) -> Option<Match>,
                                           maxPerBlog: int, maxPerProject: int, sel: Selection, r: Selection)
    requires r == SelectBlogs(blogs, targets, best, maxPerBlog, maxPerProject, sel)
    requires Distinct(blogs)
    requires forall i :: 0 <= i < |sel.suggestions| ==> sel.suggestions[i].blog !in blogs
    ensures forall b :: BlogCount(r.suggestions, b) <= BlogCount(sel.suggestions, b) + (if b in blogs then Max(0, maxPerBlog) else 0)
    decreases |blogs|
  {
    if blogs != [] {
      var rest := blogs[1..];
      assert Distinct(rest) by {
        forall i, j | 0 <= i < j < |rest| ensures rest[i] != rest[j] {
          assert rest[i] == blogs[i + 1] && rest[j] == blogs[j + 1];
        }
      }
      assert blogs[0] !in rest by {
        forall j | 0 <= j < |rest| ensures rest[j] != blogs[0] {
          assert rest[j] == blogs[j + 1];
        }
      }
      if ContentOf(blogs[0]) == "" {
        BlogsPerBlogCap(rest, targets, best, maxPerBlog, maxPerProject, sel, r);
      } else {
        var next := SelectTargets(blogs[0], targets, best, maxPerBlog, maxPerProject, sel, 0);
        TargetsExtend(blogs[0], targets, best, maxPerBlog, maxPerProject, sel, 0, next);
        var added := next.suggestions[|sel.suggestions|..];
        assert next.suggestions == sel.suggestions + added;
        forall b ensures BlogCount(next.suggestions, b) == BlogCount(sel.suggestions, b) + (if b == blogs[0] then |added| else 0) {
          BlogCountAppend(sel.suggestions, added, blogs[0], b);
        }
        if |next.suggestions| < maxPerProject {
          forall i | 0 <= i < |next.suggestions| ensures next.suggestions[i].blog !in rest {
            if i < |sel.suggestions| {
              assert next.suggestions[i] == sel.suggestions[i];
            }
          }
          BlogsPerBlogCap(rest, targets, best, maxPerBlog, maxPerProject, next, r);
        }
      }
    }
  }

  lemma {:induction false} BlogsSound(blogs: seq<Page>, targets: seq<MoneyTarget>, best: (string, MoneyTarget) -> Option<Match>,
                                      maxPerBlog: int, maxPerProject: int, sel: Selection, r: Selection,
                                      existing: set<string>, all: seq<Page>)
    requires r == SelectBlogs(blogs, targets, best, maxPerBlog, maxPerProject, sel)
    requires KeepsTarget(best) && forall k :: 0 <= k < |blogs| ==> blogs[k] in all
    requires Ledger(sel, existing)
    requires forall i :: 0 <= i < |sel.suggestions| ==> Proper(sel.suggestions[i], all, targets, best)
    ensures Ledger(r, existing)
    ensures forall i :: 0 <= i < |r.suggestions| ==> Proper(r.suggestions[i], all, targets, best)
    decreases |blogs|
  {
    if blogs != [] {
      assert forall k :: 0 <= k < |blogs| - 1 ==> blogs[1..][k] == blogs[k + 1];
      if ContentOf(blogs[0]) == "" {
        BlogsSound(blogs[1..], targets, best, maxPerBlog, maxPerProject, sel, r, existing, all);
      } else {
        var next := SelectTargets(blogs[0], targets, best, maxPerBlog, maxPerProject, sel, 0);
        assert blogs[0] in all;
        TargetsSound(blogs[0], targets, best, maxPerBlog, maxPerProject, sel, 0, next, existing, all, targets);
        if |next.suggestions| < maxPerProject {
          BlogsSound(blogs[1..], targets, best, maxPerBlog, maxPerProject, next, r, existing, all);
        }
      }
    }
  }

  lemma {:induction false} BlogsRerun(blogs: seq<Page>, targets: seq<MoneyTarget>, best: (string, MoneyTarget) -> Option<Match>,
                                      maxPerBlog: int, maxPerProject: int, sel: Selection)
    requires PairSignatures(blogs, targets, best) <= sel.signatures
    ensures SelectBlogs(blogs, targets, best, maxPerBlog, maxPerProject, sel) == sel
    decreases |blogs|
  {
    if blogs != [] {
      if ContentOf(blogs[0]) != "" {
        TargetsRerun(blogs[0], targets, best, maxPerBlog, maxPerProject, sel, 0);
      }
      BlogsRerun(blogs[1..], targets, best, maxPerBlog, maxPerProject, sel);
    }
  }

  lemma {:induction false} BlogsCover(blogs: seq<Page>, targets: seq<MoneyTarget>, best: (string, MoneyTarget) -> Option<Match>,
                                      maxPerBlog: int, maxPerProject: int, sel: Selection, r: Selection)
    requires r == SelectBlogs(blogs, targets, best, maxPerBlog, maxPerProject, sel)
    requires |targets| <= maxPerBlog && |sel.suggestions| + |blogs| * |targets| < maxPerProject
    ensures PairSignatures(blogs, targets, best) <= r.signatures
    decreases |blogs|
  {
    if blogs != [] {
      var rest := blogs[1..];
      assert |blogs| * |targets| == |rest| * |targets| + |targets|;
      if ContentOf(blogs[0]) == "" {
        BlogsCover(rest, targets, best, maxPerBlog, maxPerProject, sel, r);
      } else {
        var next := SelectTargets(blogs[0], targets, best, maxPerBlog, maxPerProject, sel, 0);
        TargetsCover(blogs[0], targets, best, maxPerBlog, maxPerProject, sel, 0, next);
        BlogsCover(rest, targets, best, maxPerBlog, maxPerProject, next, r);
        BlogsExtend(rest, targets, best, maxPerBlog, maxPerProject, next, r);
      }
    }
  }

  /**
   * Idempotence: when the first run was cut short by neither cap, a later run
   * that knows the first run's signatures accepts nothing, whatever its caps.
   */
  lemma RerunAcceptsNothing(blogs: seq<Page>, targets: seq<MoneyTarget>, best: (string, MoneyTarget) -> Option<Match>,
                            existing: set<string>, maxPerBlog: int, maxPerProject: int,
                            later: set<string>, laterMaxPerBlog: int, laterMaxPerProject: int)
    requires |targets| <= maxPerBlog && |blogs| * |targets| < maxPerProject
    requires SelectBlogs(blogs, targets, best, maxPerBlog, maxPerProject, Selection([], existing)).signatures <= later
    ensures SelectBlogs(blogs, targets, best, laterMaxPerBlog, laterMaxPerProject, Selection([], later)).suggestions == []
  {
    var first := SelectBlogs(blogs, targets, best, maxPerBlog, maxPerProject, Selection([], existing));
    BlogsCover(blogs, targets, best, maxPerBlog, maxPerProject, Selection([], existing), first);
    BlogsRerun(blogs, targets, best, laterMaxPerBlog, laterMaxPerProject, Selection([], later));
  }

  // ---------------------------------------------------------------------------
  // The created tasks
  // ---------------------------------------------------------------------------

  /** `pickPriority`. */
  function PickPriority(confidence: real): (p: TaskPriority)
    ensures p != CRITICAL
    ensures p == HIGH <==> confidence >= 0.75
    ensures p == MEDIUM <==> 0.55 <= confidence < 0.75
    ensures p == LOW <==> confidence < 0.55
  {
    if confidence >= 0.75 then HIGH
    else if confidence >= 0.55 then MEDIUM
    else LOW
  }

  function PriorityRank(p: TaskPriority): nat {
    match p
    case LOW => 0
    case MEDIUM => 1
    case HIGH => 2
    case CRITICAL => 3
  }

  /** A more confident suggestion never gets a lower priority; the bands start at 0.55 and 0.75. */
  lemma PickPriorityMonotone(c1: real, c2: real)
    requires c1 <= c2
    ensures PriorityRank(PickPriority(c1)) <= PriorityRank(PickPriority(c2))
    ensures PickPriority(0.75) == HIGH && PickPriority(0.7499) == MEDIUM
    ensures PickPriority(0.55) == MEDIUM && PickPriority(0.5499) == LOW
  {
  }

  /** `x.toFixed(0)`: the nearest integer in decimal, halves away from zero. */
  function FixedZero(x: real): (r: string)
    ensures x >= 0.0 ==> (forall k :: 0 <= k < |r| ==> '0' <= r[k] <= '9') && DecimalValue(r) == Round(x)
    ensures x < 0.0 ==> r != [] && r[0] == '-'
  {
    if x < 0.0 then "-" + NatToString(Round(-x))
    else
      NatToStringRoundTrip(Round(x));
      NatToString(Round(x))
  }

  /** `blog.title ?? blog.url`. */
  function SourceName(blog: Page): string {
    blog.title.GetOr(blog.url)
  }

  /** `descriptionLines`. */
  function DescriptionLines(x: Suggestion): seq<string> {
    [ "Anchor suggestion: \"" + x.m.anchor + "\"",
      "Source: " + SourceName(x.blog),
      "Target: " + x.m.target.targetTitle + " (" + x.m.target.targetUrl + ")",
      "Confidence: " + FixedZero(x.m.confidence * 100.0) + "%",
      "Context: " + x.m.snippet,
      x.signature ]
  }

  /** The description lines before the signature, each followed by its line break. */
  function DescriptionHead(x: Suggestion): string {
    Join(DescriptionLines(x)[..5], "\n") + "\n"
  }

  /** `descriptionLines.join("\n")`, whose last line is the signature. */
  function Description(x: Suggestion): (d: string)
    ensures d == DescriptionHead(x) + x.signature
  {
    var lines := DescriptionLines(x);
    assert lines == lines[..5] + [x.signature];
    JoinSnoc(lines[..5], x.signature, "\n");
    Join(lines, "\n")
  }

  /** The data of `prisma.task.create`. */
  datatype NewTask = NewTask(
    projectId: string, title: string, description: string, status: TaskStatus,
    priority: TaskPriority, taskType: TaskType, scoreCurrent: int, scorePotential: int)

  /** The task one accepted suggestion becomes. */
  function TaskFor(projectId: string, x: Suggestion): (t: NewTask)
    ensures t.projectId == projectId && t.taskType == LINK && t.status == OPEN && t.scoreCurrent == 0
    ensures t.title == "Link " + x.blog.title.GetOr(x.blog.url) + " to " + x.m.target.targetTitle
    ensures t.priority == PickPriority(x.m.confidence)
    ensures t.description == DescriptionHead(x) + x.signature
    ensures 0.35 <= x.m.confidence <= 1.0 ==> 35 <= t.scorePotential <= 100
    ensures x.m.confidence >= 0.0 ==> DecimalValue(FixedZero(x.m.confidence * 100.0)) == t.scorePotential
  {
    NewTask(projectId, "Link " + SourceName(x.blog) + " to " + x.m.target.targetTitle, Description(x),
            OPEN, PickPriority(x.m.confidence), LINK, 0, Round(x.m.confidence * 100.0))
  }

  /** `LinkSuggestionResult`. */
  datatype LinkSuggestionResult = LinkSuggestionResult(
    taskId: string, anchor: string, targetUrl: string, blogUrl: string, confidence: real)

  function ResultFor(taskId: string, x: Suggestion): LinkSuggestionResult {
    LinkSuggestionResult(taskId, x.m.anchor, x.m.target.targetUrl, x.blog.url, x.m.confidence)
  }

  /** The task loop: one task per suggestion, in order; `taskId(i)` is the id the store gives the i-th. */
  method CreateTasks(projectId: string, suggestions: seq<Suggestion>, taskId: nat -> string)
    returns (created: seq<NewTask>, results: seq<LinkSuggestionResult>)
    ensures |created| == |suggestions| && |results| == |suggestions|
    ensures forall i :: 0 <= i < |suggestions| ==>
      created[i] == TaskFor(projectId, suggestions[i]) && results[i] == ResultFor(taskId(i), suggestions[i])
  {
    created, results := [], [];
    for i := 0 to |suggestions|
      invariant |created| == i && |results| == i
      invariant forall k :: 0 <= k < i ==>
        created[k] == TaskFor(projectId, suggestions[k]) && results[k] == ResultFor(taskId(k), suggestions[k])
    {
      created := created + [TaskFor(projectId, suggestions[i])];
      results := results + [ResultFor(taskId(i), suggestions[i])];
    }
  }

  /** A created task as a row of the task table, where a later run finds its signature. */
  function RowOf(t: NewTask): TaskRow {
    TaskRow(t.taskType, Some(t.description))
  }

  function CreatedRows(projectId: string, suggestions: seq<Suggestion>): (rows: seq<TaskRow>)
    ensures |rows| == |suggestions|
    ensures forall i :: 0 <= i < |rows| ==> rows[i] == RowOf(TaskFor(projectId, suggestions[i]))
  {
    seq(|suggestions|, i requires 0 <= i < |suggestions| => RowOf(TaskFor(projectId, suggestions[i])))
  }

  /** What a later run needs to read a suggestion's signature back from its task. */
  predicate Recoverable(x: Suggestion) {
    && NoBracket(x.blog.id) && NoBracket(x.m.target.targetPageId) && NoBracket(x.m.anchor)
    && !ContainsPrefix(DescriptionHead(x))
    && x.signature == BuildSignature(x.blog.id, x.m.target.targetPageId, x.m.anchor)
  }

  /** The task of a recoverable suggestion yields its signature to `collectExistingSignatures`. */
  lemma TaskYieldsSignature(projectId: string, x: Suggestion)
    requires Recoverable(x)
    ensures x.signature in TaskSignatures(RowOf(TaskFor(projectId, x)))
  {
    SignatureRoundTrip(x.blog.id, x.m.target.targetPageId, x.m.anchor);
    LastLineYields(DescriptionHead(x), x.signature, RowOf(TaskFor(projectId, x)));
  }

  /** A LINK row whose description ends with a signature after a text without the prefix yields it. */
  lemma LastLineYields(head: string, signature: string, row: TaskRow)
    requires !ContainsPrefix(head) && IsSignature(signature)
    requires row == TaskRow(LINK, Some(head + signature))
    ensures signature in TaskSignatures(row)
  {
    var d := head + signature;
    ScanFindsLast(head, signature);
    assert d[|head|..|head| + |SignaturePrefix|] == signature[..|SignaturePrefix|];
    assert PrefixAt(d, |head|);
  }

  /** Each created row yields the signature of its suggestion. */
  lemma CreatedRowsYield(projectId: string, suggestions: seq<Suggestion>)
    requires forall i :: 0 <= i < |suggestions| ==> Recoverable(suggestions[i])
    ensures forall i :: 0 <= i < |suggestions| ==>
      suggestions[i].signature in TaskSignatures(CreatedRows(projectId, suggestions)[i])
  {
    forall i | 0 <= i < |suggestions|
      ensures suggestions[i].signature in TaskSignatures(CreatedRows(projectId, suggestions)[i])
    {
      TaskYieldsSignature(projectId, suggestions[i]);
    }
  }

  /** A signature one row yields is among the existing signatures of any list holding that row. */
  lemma {:induction false} RowSignatureExists(rows: seq<TaskRow>, i: nat, y: string)
    requires i < |rows| && y in TaskSignatures(rows[i])
    ensures y in ExistingSignatures(rows)
    decreases |rows|
  {
    var n := |rows| - 1;
    assert ExistingSignatures(rows) == ExistingSignatures(rows[..n]) + TaskSignatures(rows[n]);
    if i < n {
      assert rows[..n][i] == rows[i];
      RowSignatureExists(rows[..n], i, y);
    }
  }

  /** Rows that each yield their suggestion's signature yield all of them. */
  lemma RowsSignatures(suggestions: seq<Suggestion>, rows: seq<TaskRow>)
    requires |rows| == |suggestions|
    requires forall i :: 0 <= i < |rows| ==> suggestions[i].signature in TaskSignatures(rows[i])
    ensures SignatureSet(suggestions) <= ExistingSignatures(rows)
  {
    forall y | y in SignatureSet(suggestions) ensures y in ExistingSignatures(rows) {
      var i :| 0 <= i < |suggestions| && suggestions[i].signature == y;
      RowSignatureExists(rows, i, y);
    }
  }

  /**
   * A run after the tasks of an uncapped first run were stored accepts nothing,
   * whatever its caps, when the stored descriptions give the signatures back.
   */
  lemma RerunAfterTasks(blogs: seq<Page>, targets: seq<MoneyTarget>, best: (string, MoneyTarget) -> Option<Match>,
                        projectId: string, tasks: seq<TaskRow>, maxPerBlog: int, maxPerProject: int,
                        laterMaxPerBlog: int, laterMaxPerProject: int, first: Selection)
    requires KeepsTarget(best)
    requires |targets| <= maxPerBlog && |blogs| * |targets| < maxPerProject
    requires first == SelectBlogs(blogs, targets, best, maxPerBlog, maxPerProject, Selection([], ExistingSignatures(tasks)))
    requires forall i :: 0 <= i < |first.suggestions| ==> Recoverable(first.suggestions[i])
    ensures SelectBlogs(blogs, targets, best, laterMaxPerBlog, laterMaxPerProject,
                        Selection([], ExistingSignatures(tasks + CreatedRows(projectId, first.suggestions)))).suggestions == []
  {
    var existing := ExistingSignatures(tasks);
    var rows := CreatedRows(projectId, first.suggestions);
    assert forall k :: 0 <= k < |blogs| ==> blogs[k] in blogs;
    BlogsSound(blogs, targets, best, maxPerBlog, maxPerProject, Selection([], existing), first, existing, blogs);
    CreatedRowsYield(projectId, first.suggestions);
    RowsSignatures(first.suggestions, rows);
    ExistingSignaturesAppend(tasks, rows);
    RerunAcceptsNothing(blogs, targets, best, existing, maxPerBlog, maxPerProject,
                        ExistingSignatures(tasks + rows), laterMaxPerBlog, laterMaxPerProject);
  }

  // ---------------------------------------------------------------------------
  // The whole run (`generateLinkSuggestionsForProject`)
  // ---------------------------------------------------------------------------

  /** The accepted suggestions of one run over the given keywords, pages and existing tasks. */
  function Suggestions(keywords: seq<Keyword>, pages: seq<Page>, tasks: seq<TaskRow>,
                       maxPerBlog: int, maxPerProject: int): seq<Suggestion>
  {
    var targets := MoneyTargets(keywords);
    var blogs := BlogPages(pages);
    if |targets| == 0 || |blogs| == 0 then []
    else SelectBlogs(blogs, targets, BestMatch, maxPerBlog, maxPerProject, Selection([], ExistingSignatures(tasks))).suggestions
  }

  lemma BestMatchKeepsTarget()
    ensures KeepsTarget(BestMatch)
  {
  }

  /**
   * Every accepted suggestion links a blog page to a money target other than
   * itself through the pair's best match, and carries the pair's signature,
   * which was not known before and is not repeated within the run.
   */
  lemma SuggestionsSound(keywords: seq<Keyword>, pages: seq<Page>, tasks: seq<TaskRow>,
                         maxPerBlog: int, maxPerProject: int, i: nat)
    requires i < |Suggestions(keywords, pages, tasks, maxPerBlog, maxPerProject)|
    ensures var x := Suggestions(keywords, pages, tasks, maxPerBlog, maxPerProject)[i];
      && x.blog in pages && IsBlogPage(x.blog) && x.m.target in MoneyTargets(keywords)
      && x.blog.id != x.m.target.targetPageId
      && BestMatch(ContentOf(x.blog), x.m.target) == Some(x.m)
      && x.signature == BuildSignature(x.blog.id, x.m.target.targetPageId, x.m.anchor)
      && x.signature !in ExistingSignatures(tasks)
    ensures forall j :: 0 <= j < |Suggestions(keywords, pages, tasks, maxPerBlog, maxPerProject)| && j != i ==>
      Suggestions(keywords, pages, tasks, maxPerBlog, maxPerProject)[j].signature !=
      Suggestions(keywords, pages, tasks, maxPerBlog, maxPerProject)[i].signature
  {
    var targets := MoneyTargets(keywords);
    var blogs := BlogPages(pages);
    var existing := ExistingSignatures(tasks);
    var r := SelectBlogs(blogs, targets, BestMatch, maxPerBlog, maxPerProject, Selection([], existing));
    BestMatchKeepsTarget();
    assert forall k :: 0 <= k < |blogs| ==> blogs[k] in blogs;
    BlogsSound(blogs, targets, BestMatch, maxPerBlog, maxPerProject, Selection([], existing), r, existing, blogs);
  }

  /**
   * At most `maxPerProject` suggestions in all, and at most `maxPerBlog` for
   * each page when the pages are distinct rows; none without a target or a blog page.
   */
  lemma SuggestionsBounded(keywords: seq<Keyword>, pages: seq<Page>, tasks: seq<TaskRow>,
                           maxPerBlog: int, maxPerProject: int)
    ensures |Suggestions(keywords, pages, tasks, maxPerBlog, maxPerProject)| <= Max(0, maxPerProject)
    ensures Distinct(pages) ==> forall b :: BlogCount(Suggestions(keywords, pages, tasks, maxPerBlog, maxPerProject), b) <= Max(0, maxPerBlog)
    ensures |MoneyTargets(keywords)| == 0 || |BlogPages(pages)| == 0 ==> Suggestions(keywords, pages, tasks, maxPerBlog, maxPerProject) == []
  {
    var targets := MoneyTargets(keywords);
    var blogs := BlogPages(pages);
    var start := Selection([], ExistingSignatures(tasks));
    var r := SelectBlogs(blogs, targets, BestMatch, maxPerBlog, maxPerProject, start);
    BlogsExtend(blogs, targets, BestMatch, maxPerBlog, maxPerProject, start, r);
    if Distinct(pages) {
      BlogsPerBlogCap(blogs, targets, BestMatch, maxPerBlog, maxPerProject, start, r);
    }
  }

  lemma MulMonotone(a: nat, b: nat, c: nat, d: nat)
    requires a <= c && b <= d
    ensures a * b <= c * d
  {
    assert a * b <= c * b;
    assert c * b <= c * d;
  }

  /**
   * Re-running the miner after its tasks were created accepts nothing, when
   * the first run was cut short by neither cap and its signatures can be read
   * back from the task descriptions.
   */
  lemma SecondRunAcceptsNothing(projectId: string, keywords: seq<Keyword>, pages: seq<Page>, tasks: seq<TaskRow>,
                                maxPerBlog: int, maxPerProject: int, laterMaxPerBlog: int, laterMaxPerProject: int)
    requires |keywords| <= maxPerBlog && |pages| * |keywords| < maxPerProject
    requires forall x :: x in Suggestions(keywords, pages, tasks, maxPerBlog, maxPerProject) ==> Recoverable(x)
    ensures Suggestions(keywords, pages,
                        tasks + CreatedRows(projectId, Suggestions(keywords, pages, tasks, maxPerBlog, maxPerProject)),
                        laterMaxPerBlog, laterMaxPerProject) == []
  {
    var targets := MoneyTargets(keywords);
    var blogs := BlogPages(pages);
    if |targets| > 0 && |blogs| > 0 {
      var first := SelectBlogs(blogs, targets, BestMatch, maxPerBlog, maxPerProject, Selection([], ExistingSignatures(tasks)));
      assert forall i :: 0 <= i < |first.suggestions| ==> first.suggestions[i] in first.suggestions;
      BestMatchKeepsTarget();
      MulMonotone(|blogs|, |targets|, |pages|, |keywords|);
      RerunAfterTasks(blogs, targets, BestMatch, projectId, tasks, maxPerBlog, maxPerProject,
                      laterMaxPerBlog, laterMaxPerProject, first);
    }
  }

  /**
   * `generateLinkSuggestionsForProject`: load, select, and create one LINK task
   * per accepted suggestion; absent options take the defaults 3 and 40.
   */
  method GenerateLinkSuggestionsForProject(projectId: string, keywords: seq<Keyword>, pages: seq<Page>,
                                           tasks: seq<TaskRow>, maxPerBlogOption: Option<int>,
                                           maxPerProjectOption: Option<int>, taskId: nat -> string)
    returns (created: seq<NewTask>, results: seq<LinkSuggestionResult>)
    ensures var suggestions := Suggestions(keywords, pages, tasks,
                                           maxPerBlogOption.GetOr(DefaultMaxPerBlog),
                                           maxPerProjectOption.GetOr(DefaultMaxPerProject));
      && |created| == |suggestions| && |results| == |suggestions|
      && forall i :: 0 <= i < |suggestions| ==>
           created[i] == TaskFor(projectId, suggestions[i]) && results[i] == ResultFor(taskId(i), suggestions[i])
  {
    var maxPerBlog := maxPerBlogOption.GetOr(DefaultMaxPerBlog);
    var maxPerProject := maxPerProjectOption.GetOr(DefaultMaxPerProject);
    var moneyTargets := MoneyTargets(keywords);
    var blogPages := BlogPages(pages);
    var existing := CollectExistingSignatures(tasks);
    if |moneyTargets| == 0 || |blogPages| == 0 {
      return [], [];
    }
    var suggestions, _ := SelectSuggestions(blogPages, moneyTargets, existing, maxPerBlog, maxPerProject);
    if |suggestions| == 0 {
      return [], [];
    }
    created, results := CreateTasks(projectId, suggestions, taskId);
  }
}
