/**
 * The content brief generator: a keyword becomes a brief with a title, a fixed
 * four-section outline, reader questions, entities and competitor angles.
 * Everything is string templating over the trimmed, lower-cased keyword.
 */
module ContentGenerator {
  import opened Wrappers
  import opened Strings
  import opened Sequences

  /** The callback of `capitalize`: `word.charAt(0).toUpperCase() + word.slice(1)`. */
  function CapitalizeWord(w: string): (r: string)
    ensures |r| == |w|
    ensures w != [] ==> r[0] == UpperChar(w[0]) && r[1..] == w[1..]
  {
    if w == [] then [] else [UpperChar(w[0])] + w[1..]
  }

  /** `words.map(capitalizeWord)`. */
  function CapitalizeWords(ws: seq<string>): (r: seq<string>)
    ensures |r| == |ws|
    ensures forall i :: 0 <= i < |ws| ==> r[i] == CapitalizeWord(ws[i])
  {
    if ws == [] then [] else [CapitalizeWord(ws[0])] + CapitalizeWords(ws[1..])
  }

  /** `capitalize`: split on single spaces, upper-case each segment's first character, join with spaces. */
  function Capitalize(s: string): string {
    Join(CapitalizeWords(Split(s, ' ')), " ")
  }

  /**
   * The character-level reading of `capitalize`: a character is upper-cased
   * exactly when it starts the string (if `atStart`) or follows a space.
   */
  function CapitalizedFrom(s: string, atStart: bool): (r: string)
    ensures |r| == |s|
  {
    seq(|s|, i requires 0 <= i < |s| =>
      if (i == 0 && atStart) || (i > 0 && s[i - 1] == ' ') then UpperChar(s[i]) else s[i])
  }

  lemma CapitalizedFromCons(s: string, atStart: bool)
    requires s != []
    ensures CapitalizedFrom(s, atStart)
            == [if atStart then UpperChar(s[0]) else s[0]] + CapitalizedFrom(s[1..], s[0] == ' ')
  {
    var l := CapitalizedFrom(s, atStart);
    var r := [if atStart then UpperChar(s[0]) else s[0]] + CapitalizedFrom(s[1..], s[0] == ' ');
    assert |l| == |r|;
    forall i | 0 <= i < |l| ensures l[i] == r[i] {
      if i > 0 {
        assert r[i] == CapitalizedFrom(s[1..], s[0] == ' ')[i - 1];
        assert s[1..][i - 1] == s[i];
        if i > 1 {
          assert s[1..][i - 2] == s[i - 1];
        }
      }
    }
  }

  /**
   * Both readings at once: with every segment capitalized the join is
   * `CapitalizedFrom(s, true)`; with the first segment left alone it is
   * `CapitalizedFrom(s, false)`.
   */
  lemma {:induction false} CapitalizeSplit(s: string)
    ensures var parts := Split(s, ' ');
      && Join(CapitalizeWords(parts), " ") == CapitalizedFrom(s, true)
      && Join([parts[0]] + CapitalizeWords(parts[1..]), " ") == CapitalizedFrom(s, false)
    decreases |s|
  {
    if s == [] {
      assert CapitalizeWords([""]) == [""];
    } else {
      var rest := Split(s[1..], ' ');
      CapitalizeSplit(s[1..]);
      CapitalizedFromCons(s, true);
      CapitalizedFromCons(s, false);
      var tail := CapitalizeWords(rest[1..]);
      if s[0] == ' ' {
        var parts := [""] + rest;
        assert Split(s, ' ') == parts;
        assert parts[1..] == rest;
        assert CapitalizeWords(parts) == [""] + CapitalizeWords(rest);
        JoinEmptyHead(CapitalizeWords(rest), " ");
        assert [parts[0]] + CapitalizeWords(parts[1..]) == [""] + CapitalizeWords(rest);
      } else {
        var parts := [[s[0]] + rest[0]] + rest[1..];
        assert Split(s, ' ') == parts;
        assert parts[1..] == rest[1..];
        assert CapitalizeWords(parts) == [[UpperChar(s[0])] + rest[0]] + tail;
        assert CapitalizeWords(rest) == [CapitalizeWord(rest[0])] + tail;
        JoinConsHead(UpperChar(s[0]), rest[0], tail, " ");
        JoinConsHead(s[0], rest[0], tail, " ");
      }
    }
  }

  /** `capitalize` upper-cases exactly the first character and every character after a space. */
  lemma CapitalizeAt(s: string)
    ensures |Capitalize(s)| == |s|
    ensures forall i :: 0 <= i < |s| ==>
      Capitalize(s)[i] == (if i == 0 || s[i - 1] == ' ' then UpperChar(s[i]) else s[i])
  {
    CapitalizeSplit(s);
  }

  lemma {:induction false} CountSame(a: string, b: string, c: char)
    requires |a| == |b|
    requires forall i :: 0 <= i < |a| ==> (a[i] == c <==> b[i] == c)
    ensures Count(a, c) == Count(b, c)
    decreases |a|
  {
    if a != [] {
      CountSame(a[1..], b[1..], c);
    }
  }

  lemma UpperSpace(c: char)
    ensures UpperChar(c) == ' ' <==> c == ' '
  {
    if 'a' <= c <= 'z' {
      assert UpperChar(c) as int >= 'A' as int;
    }
  }

  /** `capitalize` keeps the number of `" "`-separated segments. */
  lemma CapitalizeSegments(s: string)
    ensures |Split(Capitalize(s), ' ')| == |Split(s, ' ')|
  {
    CapitalizeAt(s);
    var c := Capitalize(s);
    forall i | 0 <= i < |s| ensures (c[i] == ' ' <==> s[i] == ' ') {
      assert c[i] == (if i == 0 || s[i - 1] == ' ' then UpperChar(s[i]) else s[i]);
      UpperSpace(s[i]);
    }
    CountSame(Capitalize(s), s, ' ');
    SplitLength(Capitalize(s), ' ');
    SplitLength(s, ' ');
  }

  datatype OutlineSection = OutlineSection(title: string, h3: seq<string>)
  datatype Outline = Outline(h1: string, h2: seq<OutlineSection>)
  datatype InternalLink = InternalLink(title: string, url: string)
  datatype CompetitorOutline = CompetitorOutline(name: string, headline: string, angle: string, cta: string)
  datatype Brief = Brief(
    title: string,
    outline: Outline,
    questions: seq<string>,
    entities: seq<string>,
    internalLinks: seq<InternalLink>,
    competitorOutlines: seq<CompetitorOutline>)

  /** The optional `options` argument; `None` fields are absent (null or undefined). */
  datatype BriefOptions = BriefOptions(intent: Option<string>, audience: Option<string>,
                                       internalLinks: Option<seq<InternalLink>>)

  const DefaultIntent: string := "drive qualified traffic"
  const DefaultAudience: string := "growth teams"
  const CompetitorNames: seq<string> := ["Competitor A", "Competitor B", "Competitor C"]
  const CompetitorAngles: seq<string> := ["KPI-first", "Workflow-focused", "Automation-centric"]
  const CompetitorCtas: seq<string> := ["Book demo", "Download template", "Start free trial"]

  /** `keyword.trim().toLowerCase()` */
  function NormalizedKeyword(keyword: string): string {
    Lower(Trim(keyword))
  }

  function OptionIntent(options: Option<BriefOptions>): string {
    if options.Some? && options.value.intent.Some? then options.value.intent.value else DefaultIntent
  }

  function OptionAudience(options: Option<BriefOptions>): string {
    if options.Some? && options.value.audience.Some? then options.value.audience.value else DefaultAudience
  }

  function OptionLinks(options: Option<BriefOptions>): seq<InternalLink> {
    if options.Some? && options.value.internalLinks.Some? then options.value.internalLinks.value else []
  }

  /** The four h2 sections, each with its three h3 entries. */
  function OutlineSections(topic: string, keyword: string, audience: string): (r: seq<OutlineSection>)
    ensures |r| == 4 && forall i :: 0 <= i < 4 ==> |r[i].h3| == 3
  {
    [ OutlineSection("Why " + topic + " matters for " + audience,
        ["Business value of " + keyword, "Signals that " + keyword + " improves", "KPIs to measure"]),
      OutlineSection("Building a " + topic + " framework",
        ["Key components", "Workflows", "Automation opportunities"]),
      OutlineSection("How to implement " + topic,
        ["Step-by-step process", "Common blockers", "Playbooks to accelerate results"]),
      OutlineSection("Success metrics & optimization",
        ["Dashboards", "Experiments", "Iteration cadence"]) ]
  }

  function QuestionTemplates(keyword: string, audience: string): seq<string> {
    [ "What is " + keyword + "?",
      "How does " + keyword + " help " + audience + "?",
      "Which metrics prove " + keyword + " success?",
      "What tools or workflows support " + keyword + "?" ]
  }

  /** `normalizedKeyword.split(/\s+/).map(capitalize)` */
  function KeywordTokens(keyword: string): (r: seq<string>)
    ensures |r| == |SplitRuns(keyword, IsWhitespace)|
    ensures forall i :: 0 <= i < |r| ==> r[i] == Capitalize(SplitRuns(keyword, IsWhitespace)[i])
  {
    var parts := SplitRuns(keyword, IsWhitespace);
    seq(|parts|, i requires 0 <= i < |parts| => Capitalize(parts[i]))
  }

  function EntityCandidates(keyword: string, topic: string, intent: string): seq<string> {
    KeywordTokens(keyword) + [topic, "Search Console", "GA4", "Core Web Vitals", intent]
  }

  /** `competitorNames.map(...)` with the angle and call to action of the same index. */
  function Competitors(topic: string): (r: seq<CompetitorOutline>)
    ensures |r| == 3
    ensures forall i :: 0 <= i < 3 ==>
      r[i] == CompetitorOutline(CompetitorNames[i], CompetitorNames[i] + " on " + topic,
                                CompetitorAngles[i], CompetitorCtas[i])
  {
    seq(3, i requires 0 <= i < 3 =>
      CompetitorOutline(CompetitorNames[i], CompetitorNames[i] + " on " + topic, CompetitorAngles[i], CompetitorCtas[i]))
  }

  /** `buildBrief(keyword, options)` */
  function BuildBrief(keyword: string, options: Option<BriefOptions>): (b: Brief)
    ensures b.title == b.outline.h1 == Capitalize(NormalizedKeyword(keyword)) + ": Complete Brief"
    ensures |b.outline.h2| == 4 && forall i :: 0 <= i < 4 ==> |b.outline.h2[i].h3| == 3
    ensures |b.competitorOutlines| == 3
    ensures b.outline.h2[0].title == "Why " + Capitalize(NormalizedKeyword(keyword)) + " matters for " + OptionAudience(options)
  {
    var normalized := NormalizedKeyword(keyword);
    var topic := Capitalize(normalized);
    var h1 := topic + ": Complete Brief";
    var audience := OptionAudience(options);
    Brief(h1, Outline(h1, OutlineSections(topic, normalized, audience)),
          Unique(QuestionTemplates(normalized, audience)),
          Unique(EntityCandidates(normalized, topic, OptionIntent(options))),
          OptionLinks(options), Competitors(topic))
  }

  /** The questions are the four templates, each once. */
  lemma BriefQuestions(keyword: string, options: Option<BriefOptions>)
    ensures var b := BuildBrief(keyword, options);
      && Distinct(b.questions)
      && forall q :: q in b.questions <==> q in QuestionTemplates(NormalizedKeyword(keyword), OptionAudience(options))
  {
    UniqueSameElements(QuestionTemplates(NormalizedKeyword(keyword), OptionAudience(options)));
  }

  /**
   * The entities are the capitalized keyword tokens, the topic, the three fixed
   * product names and the intent, each once.
   */
  lemma BriefEntities(keyword: string, options: Option<BriefOptions>)
    ensures var b := BuildBrief(keyword, options);
      var topic := Capitalize(NormalizedKeyword(keyword));
      && Distinct(b.entities)
      && topic in b.entities && "Search Console" in b.entities && "GA4" in b.entities
      && "Core Web Vitals" in b.entities && OptionIntent(options) in b.entities
      && forall e :: e in b.entities <==> e in EntityCandidates(NormalizedKeyword(keyword), topic, OptionIntent(options))
  {
    var normalized := NormalizedKeyword(keyword);
    var topic := Capitalize(normalized);
    var candidates := EntityCandidates(normalized, topic, OptionIntent(options));
    assert BuildBrief(keyword, options).entities == Unique(candidates);
    UniqueSameElements(candidates);
    CandidatesInclude(normalized, topic, OptionIntent(options));
  }

  /** The topic, the three product names and the intent follow the keyword tokens. */
  lemma CandidatesInclude(normalized: string, topic: string, intent: string)
    ensures var c := EntityCandidates(normalized, topic, intent);
      && topic in c && "Search Console" in c && "GA4" in c && "Core Web Vitals" in c && intent in c
  {
    var c := EntityCandidates(normalized, topic, intent);
    var k := |KeywordTokens(normalized)|;
    assert c[k] == topic && c[k + 1] == "Search Console" && c[k + 2] == "GA4";
    assert c[k + 3] == "Core Web Vitals" && c[k + 4] == intent;
  }

  /** The links are the ones given, or none. */
  lemma BriefLinks(keyword: string, options: Option<BriefOptions>)
    ensures var b := BuildBrief(keyword, options);
      && (options.Some? && options.value.internalLinks.Some? ==> b.internalLinks == options.value.internalLinks.value)
      && (options.None? || options.value.internalLinks.None? ==> b.internalLinks == [])
  {
  }

  /** With no options the documented defaults apply. */
  lemma BriefDefaults(keyword: string)
    ensures var b := BuildBrief(keyword, None);
      && b.internalLinks == []
      && DefaultIntent in b.entities
      && b.outline.h2[0].title == "Why " + Capitalize(NormalizedKeyword(keyword)) + " matters for " + DefaultAudience
  {
    BriefEntities(keyword, None);
  }

  /** The three competitor outlines are A, B and C with their fixed angle and call to action. */
  lemma CompetitorTable(topic: string)
    ensures var c := Competitors(topic);
      && c[0] == CompetitorOutline("Competitor A", "Competitor A on " + topic, "KPI-first", "Book demo")
      && c[1] == CompetitorOutline("Competitor B", "Competitor B on " + topic, "Workflow-focused", "Download template")
      && c[2] == CompetitorOutline("Competitor C", "Competitor C on " + topic, "Automation-centric", "Start free trial")
  {
    var c := Competitors(topic);
    assert c[0] == CompetitorOutline(CompetitorNames[0], CompetitorNames[0] + " on " + topic, CompetitorAngles[0], CompetitorCtas[0]);
    assert c[1] == CompetitorOutline(CompetitorNames[1], CompetitorNames[1] + " on " + topic, CompetitorAngles[1], CompetitorCtas[1]);
    assert c[2] == CompetitorOutline(CompetitorNames[2], CompetitorNames[2] + " on " + topic, CompetitorAngles[2], CompetitorCtas[2]);
  }
}
