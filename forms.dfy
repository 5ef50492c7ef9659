/**
 * The form schemas: the workspace slug rule, and the length, number and enum
 * constraints of the workspace, project, keyword, page, keyword-mapping,
 * task, task-status and audit schemas.
 *
 * Each `Parse…` returns the typed value the schema produces, or `None` when
 * any constraint fails. Zod's `.cuid()` and `.url()` checks are passed in as
 * the predicates `isCuid` and `isUrl`. Numbers arrive already coerced: a
 * number field is a `real`.
 *
 * A create schema carries the owning project or workspace id; its update
 * schema drops that id and adds the record's own `id`. Both are modelled as a
 * `Keyed` pair of a cuid-checked id and the shared fields, so the update
 * schema accepts exactly the fields the create schema accepts
 * (UpdateSharesFields).
 */
module Forms {
  import opened Wrappers
  import opened Strings
  import opened TaskConstants

  /** The state of a matcher for `^[a-z0-9]+(?:-[a-z0-9]+)*$`: a letter or digit is required next, or a run is open. */
  datatype SlugState = Expect | InRun

  function SlugStep(st: SlugState, c: char): Option<SlugState> {
    if IsLowerAlnum(c) then Some(InRun)
    else if c == '-' && st == InRun then Some(Expect)
    else None
  }

  /** The matcher's state after reading `s`, or `None` once a character is refused. */
  function SlugRun(st: SlugState, s: string): Option<SlugState>
    decreases |s|
  {
    if s == [] then Some(st)
    else match SlugStep(st, s[0])
      case None => None
      case Some(next) => SlugRun(next, s[1..])
  }

  /** `slugRegex.test(s)`: the whole string is read and the last run is open. */
  predicate SlugRegex(s: string) {
    SlugRun(Expect, s) == Some(InRun)
  }

  /** Only letters, digits and dashes, with no double dash and no dash at the end. */
  predicate SlugTail(s: string) {
    && (forall i :: 0 <= i < |s| ==> IsLowerAlnum(s[i]) || s[i] == '-')
    && (forall i :: 0 <= i < |s| - 1 ==> !(s[i] == '-' && s[i + 1] == '-'))
    && (s == [] || s[|s| - 1] != '-')
  }

  /**
   * The slug shape in words: non-empty runs of lowercase letters and digits
   * joined by single dashes, so no leading, trailing or double dash.
   */
  predicate SlugShape(s: string) {
    s != [] && s[0] != '-' && SlugTail(s)
  }

  /** How `SlugTail` of a string follows from its first character and `SlugTail` of the rest. */
  lemma SlugTailCons(c: char, r: string)
    ensures IsLowerAlnum(c) ==> (SlugTail([c] + r) <==> SlugTail(r))
    ensures c == '-' ==> (SlugTail([c] + r) <==> r != [] && r[0] != '-' && SlugTail(r))
    ensures !IsLowerAlnum(c) && c != '-' ==> !SlugTail([c] + r)
  {
    assert ([c] + r)[0] == c;
    if SlugTail(r) && (IsLowerAlnum(c) || (c == '-' && r != [] && r[0] != '-')) {
      SlugTailGrows(c, r);
    }
    if SlugTail([c] + r) {
      SlugTailShrinks(c, r);
    }
  }

  lemma SlugTailGrows(c: char, r: string)
    requires SlugTail(r) && (IsLowerAlnum(c) || (c == '-' && r != [] && r[0] != '-'))
    ensures SlugTail([c] + r)
  {
    var s := [c] + r;
    forall i | 0 <= i < |s| - 1 ensures !(s[i] == '-' && s[i + 1] == '-') {
      if i > 0 {
        assert s[i] == r[i - 1] && s[i + 1] == r[i];
      }
    }
    forall i | 0 <= i < |s| ensures IsLowerAlnum(s[i]) || s[i] == '-' {
      if i > 0 {
        assert s[i] == r[i - 1];
      }
    }
  }

  lemma SlugTailShrinks(c: char, r: string)
    requires SlugTail([c] + r)
    ensures SlugTail(r)
    ensures c == '-' ==> r != [] && r[0] != '-'
  {
    var s := [c] + r;
    assert forall i :: 0 <= i < |r| ==> s[i + 1] == r[i];
    forall i | 0 <= i < |r| - 1 ensures !(r[i] == '-' && r[i + 1] == '-') {
      assert s[i + 1] == r[i] && s[i + 2] == r[i + 1];
    }
    if c == '-' && r != [] {
      assert s[0] == '-' && s[1] == r[0];
    }
  }

  /** The matcher from an open run accepts exactly the slug tails; from `Expect`, exactly the slug shapes. */
  lemma {:induction false} SlugRunAccepts(s: string)
    ensures SlugRun(InRun, s) == Some(InRun) <==> SlugTail(s)
    ensures SlugRun(Expect, s) == Some(InRun) <==> SlugShape(s)
    decreases |s|
  {
    if s != [] {
      var c, r := s[0], s[1..];
      assert s == [c] + r;
      SlugRunAccepts(r);
      SlugTailCons(c, r);
    }
  }

  /** The regex accepts exactly the strings of slug shape. */
  lemma SlugRegexShape(s: string)
    ensures SlugRegex(s) <==> SlugShape(s)
  {
    SlugRunAccepts(s);
  }

  /** The workspace slug: at least 2 and at most 50 characters, matching the slug regex. */
  predicate ValidSlug(s: string) {
    2 <= |s| <= 50 && SlugRegex(s)
  }

  lemma SlugExamples()
    ensures ValidSlug("acme-seo-2")
    ensures ValidSlug("ab")
    ensures !ValidSlug("a")
    ensures !ValidSlug("-ab") && !ValidSlug("ab-") && !ValidSlug("a--b")
    ensures !ValidSlug("Acme") && !ValidSlug("a_b")
  {
    SlugRegexShape("acme-seo-2");
    SlugRegexShape("ab");
    SlugRegexShape("-ab");
    SlugRegexShape("ab-");
    SlugRegexShape("a--b");
    SlugRegexShape("Acme");
    SlugRegexShape("a_b");
    assert "a--b"[1] == '-' && "a--b"[2] == '-';
    assert !IsLowerAlnum("Acme"[0]) && "Acme"[0] != '-';
    assert !IsLowerAlnum("a_b"[1]) && "a_b"[1] != '-';
  }

  /** `z.number().int()`: a whole number. */
  predicate IsInteger(x: real) {
    x.Floor as real == x
  }

  /** A record id (`id`, `projectId` or `workspaceId`, always `.cuid()`) and the schema's other fields. */
  datatype Keyed<T> = Keyed(key: string, fields: T)

  /** A create or update schema: the id is a cuid and the fields parse. */
  function ParseKeyed<A, B>(input: Keyed<A>, isCuid: string -> bool, parseFields: A -> Option<B>): (r: Option<Keyed<B>>)
    ensures r.Some? <==> isCuid(input.key) && parseFields(input.fields).Some?
    ensures r.Some? ==> r.value.key == input.key && Some(r.value.fields) == parseFields(input.fields)
  {
    if isCuid(input.key) then
      match parseFields(input.fields)
      case None => None
      case Some(b) => Some(Keyed(input.key, b))
    else None
  }

  /** An update replaces the owner id by the record id: with both ids cuids, it accepts the same fields with the same result. */
  lemma UpdateSharesFields<A, B>(ownerId: string, id: string, fields: A, isCuid: string -> bool, parseFields: A -> Option<B>)
    requires isCuid(ownerId) && isCuid(id)
    ensures ParseKeyed(Keyed(ownerId, fields), isCuid, parseFields).Some? <==> ParseKeyed(Keyed(id, fields), isCuid, parseFields).Some?
    ensures ParseKeyed(Keyed(ownerId, fields), isCuid, parseFields).Some? ==>
      ParseKeyed(Keyed(ownerId, fields), isCuid, parseFields).value.fields == ParseKeyed(Keyed(id, fields), isCuid, parseFields).value.fields
  {
  }

  /** `workspaceFormSchema`; `workspaceUpdateSchema` adds a cuid `id` (as `Keyed`). */
  datatype Workspace = Workspace(name: string, slug: string)

  function ParseWorkspace(w: Workspace): (r: Option<Workspace>)
    ensures r.Some? ==> r == Some(w) && |w.name| >= 2 && SlugShape(w.slug) && 2 <= |w.slug| <= 50
    ensures r.None? ==> |w.name| < 2 || !SlugShape(w.slug) || |w.slug| < 2 || |w.slug| > 50
  {
    SlugRegexShape(w.slug);
    if |w.name| >= 2 && ValidSlug(w.slug) then Some(w) else None
  }

  /** The fields of `projectFormSchema` other than `workspaceId`, which are those of `projectUpdateSchema` other than `id`. */
  datatype Project = Project(name: string, domain: string, gscSiteUrl: string, ga4PropertyId: string, targetMarket: Option<string>)

  function ParseProject(p: Project, isUrl: string -> bool): (r: Option<Project>)
    ensures r.Some? <==> |p.name| >= 2 && |p.domain| >= 2 && isUrl(p.gscSiteUrl) && |p.ga4PropertyId| >= 3
    ensures r.Some? ==> r.value == p
  {
    if |p.name| >= 2 && |p.domain| >= 2 && isUrl(p.gscSiteUrl) && |p.ga4PropertyId| >= 3 then Some(p) else None
  }

  /** A complete project is accepted; a one-letter name, a two-character property id or a non-URL site is refused. */
  lemma ProjectExamples(isUrl: string -> bool)
    requires isUrl("https://acme.example/") && !isUrl("acme")
    ensures ParseProject(Project("Acme", "acme.example", "https://acme.example/", "123", None), isUrl).Some?
    ensures ParseProject(Project("A", "acme.example", "https://acme.example/", "123", None), isUrl).None?
    ensures ParseProject(Project("Acme", "acme.example", "https://acme.example/", "12", None), isUrl).None?
    ensures ParseProject(Project("Acme", "acme.example", "acme", "123", Some("US")), isUrl).None?
  {
  }

  /** The keyword fields as submitted, the numbers already coerced. */
  datatype KeywordInput = KeywordInput(phrase: string, intent: string, cluster: string, searchVolume: real, difficulty: real)

  /** The parsed keyword: the volume is a whole number of at least 0, the difficulty a whole number in 0..100. */
  datatype Keyword = Keyword(phrase: string, intent: string, cluster: string, searchVolume: nat, difficulty: int)

  function ParseKeyword(k: KeywordInput): (r: Option<Keyword>)
    ensures r.Some? <==> && |k.phrase| >= 2 && |k.intent| >= 2 && |k.cluster| >= 2
                         && IsInteger(k.searchVolume) && k.searchVolume >= 0.0
                         && IsInteger(k.difficulty) && 0.0 <= k.difficulty <= 100.0
    ensures r.Some? ==> && r.value.phrase == k.phrase && r.value.intent == k.intent && r.value.cluster == k.cluster
                        && r.value.searchVolume as real == k.searchVolume
                        && r.value.difficulty as real == k.difficulty && 0 <= r.value.difficulty <= 100
  {
    if && |k.phrase| >= 2 && |k.intent| >= 2 && |k.cluster| >= 2
       && IsInteger(k.searchVolume) && k.searchVolume >= 0.0
       && IsInteger(k.difficulty) && 0.0 <= k.difficulty <= 100.0
    then Some(Keyword(k.phrase, k.intent, k.cluster, k.searchVolume.Floor, k.difficulty.Floor))
    else None
  }

  /** Fractional and out-of-range numbers are refused. */
  lemma KeywordNumberExamples()
    ensures ParseKeyword(KeywordInput("seo", "informational", "core", 0.0, 100.0)).Some?
    ensures ParseKeyword(KeywordInput("seo", "informational", "core", 1.5, 50.0)).None?
    ensures ParseKeyword(KeywordInput("seo", "informational", "core", -1.0, 50.0)).None?
    ensures ParseKeyword(KeywordInput("seo", "informational", "core", 10.0, 101.0)).None?
  {
    assert (1.5).Floor == 1;
  }

  /** The fields of `pageFormSchema` other than `projectId`. */
  datatype Page = Page(url: string, pageType: string, status: string, owner: Option<string>, lastCrawl: Option<string>)

  function ParsePage(p: Page, isUrl: string -> bool): (r: Option<Page>)
    ensures r.Some? <==> isUrl(p.url) && |p.pageType| >= 2 && |p.status| >= 2
    ensures r.Some? ==> r.value == p
  {
    if isUrl(p.url) && |p.pageType| >= 2 && |p.status| >= 2 then Some(p) else None
  }

  /** A page with a URL, a type and a status is accepted; a non-URL or a one-letter status is refused. */
  lemma PageExamples(isUrl: string -> bool)
    requires isUrl("https://acme.example/blog") && !isUrl("/blog")
    ensures ParsePage(Page("https://acme.example/blog", "BLOG", "LIVE", None, None), isUrl).Some?
    ensures ParsePage(Page("/blog", "BLOG", "LIVE", None, None), isUrl).None?
    ensures ParsePage(Page("https://acme.example/blog", "BLOG", "L", Some("ana"), None), isUrl).None?
  {
  }

  datatype KeywordPageRole = PRIMARY | SECONDARY

  /** `keywordMappingSchema`: two cuids and a role from `keywordPageRoles`. */
  function ParseKeywordMapping(keywordId: string, pageId: string, role: string, isCuid: string -> bool): (r: Option<KeywordPageRole>)
    ensures r.Some? <==> isCuid(keywordId) && isCuid(pageId) && (role == "PRIMARY" || role == "SECONDARY")
    ensures r == Some(PRIMARY) ==> role == "PRIMARY"
    ensures r == Some(SECONDARY) ==> role == "SECONDARY"
  {
    if !(isCuid(keywordId) && isCuid(pageId)) then None
    else if role == "PRIMARY" then Some(PRIMARY)
    else if role == "SECONDARY" then Some(SECONDARY)
    else None
  }

  /** A score field: `z.coerce.number().min(0).max(100)`, whole numbers not required. */
  predicate IsScore(x: real) {
    0.0 <= x <= 100.0
  }

  /** The task fields as submitted. `contentBriefId` is optional and nullable: absent, `Some(None)` for null, or a value. */
  datatype TaskInput = TaskInput(
    title: string, description: Option<string>, status: string, priority: string, taskType: string,
    scoreCurrent: real, scorePotential: real, dueDate: Option<string>, contentBriefId: Option<Option<string>>)

  datatype Task = Task(
    title: string, description: Option<string>, status: TaskStatus, priority: TaskPriority, taskType: TaskType,
    scoreCurrent: real, scorePotential: real, dueDate: Option<string>, contentBriefId: Option<Option<string>>)

  /** An optional, nullable cuid: absent or null, or a cuid. */
  predicate OptionalCuid(v: Option<Option<string>>, isCuid: string -> bool) {
    v.None? || v.value.None? || isCuid(v.value.value)
  }

  /** The fields of `taskFormSchema` other than `projectId`, which are those of `taskUpdateSchema` other than `id`. */
  function ParseTask(t: TaskInput, isCuid: string -> bool): (r: Option<Task>)
    ensures r.Some? <==> && |t.title| >= 2
                         && t.status in MapNames(TaskStatuses, TaskStatusName)
                         && t.priority in MapNames(TaskPriorities, TaskPriorityName)
                         && t.taskType in MapNames(TaskTypes, TaskTypeName)
                         && IsScore(t.scoreCurrent) && IsScore(t.scorePotential)
                         && OptionalCuid(t.contentBriefId, isCuid)
    ensures r.Some? ==> && TaskStatusName(r.value.status) == t.status
                        && TaskPriorityName(r.value.priority) == t.priority
                        && TaskTypeName(r.value.taskType) == t.taskType
                        && r.value.title == t.title && r.value.description == t.description
                        && r.value.scoreCurrent == t.scoreCurrent && r.value.scorePotential == t.scorePotential
                        && r.value.dueDate == t.dueDate && r.value.contentBriefId == t.contentBriefId
  {
    StatusNames(t.status);
    PriorityNames(t.priority);
    TypeNames(t.taskType);
    var status, priority, taskType := ParseTaskStatus(t.status), ParseTaskPriority(t.priority), ParseTaskType(t.taskType);
    if && |t.title| >= 2 && status.Some? && priority.Some? && taskType.Some?
       && IsScore(t.scoreCurrent) && IsScore(t.scorePotential) && OptionalCuid(t.contentBriefId, isCuid)
    then Some(Task(t.title, t.description, status.value, priority.value, taskType.value,
                   t.scoreCurrent, t.scorePotential, t.dueDate, t.contentBriefId))
    else None
  }

  /** The names of an enumeration's values, in order. */
  function MapNames<E>(values: seq<E>, name: E -> string): (r: seq<string>)
    ensures |r| == |values| && forall i :: 0 <= i < |values| ==> r[i] == name(values[i])
  {
    seq(|values|, i requires 0 <= i < |values| => name(values[i]))
  }

  lemma StatusNames(s: string)
    ensures s in MapNames(TaskStatuses, TaskStatusName) <==> ParseTaskStatus(s).Some?
  {
    var names := MapNames(TaskStatuses, TaskStatusName);
    assert names == ["OPEN", "IN_PROGRESS", "REVIEW", "DONE", "BLOCKED"];
  }

  lemma PriorityNames(s: string)
    ensures s in MapNames(TaskPriorities, TaskPriorityName) <==> ParseTaskPriority(s).Some?
  {
    var names := MapNames(TaskPriorities, TaskPriorityName);
    assert names == ["LOW", "MEDIUM", "HIGH", "CRITICAL"];
  }

  lemma TypeNames(s: string)
    ensures s in MapNames(TaskTypes, TaskTypeName) <==> ParseTaskType(s).Some?
  {
    var names := MapNames(TaskTypes, TaskTypeName);
    assert names == ["ONPAGE", "CONTENT", "TECH", "LINK", "LOCAL"];
  }

  lemma AuditNames(s: string)
    ensures s in MapNames(AuditStatuses, AuditStatusName) <==> ParseAuditStatus(s).Some?
  {
    var names := MapNames(AuditStatuses, AuditStatusName);
    assert names == ["QUEUED", "RUNNING", "PASSED", "FAILED"];
  }

  /** Scores need not be whole numbers, but must lie in [0, 100]; enum names are case-sensitive. */
  lemma TaskExamples(isCuid: string -> bool)
    ensures ParseTask(TaskInput("Fix", None, "OPEN", "HIGH", "LINK", 0.0, 72.5, None, None), isCuid).Some?
    ensures ParseTask(TaskInput("Fix", None, "OPEN", "HIGH", "LINK", 0.0, 100.5, None, None), isCuid).None?
    ensures ParseTask(TaskInput("Fix", None, "open", "HIGH", "LINK", 0.0, 50.0, None, None), isCuid).None?
    ensures ParseTask(TaskInput("Fix", None, "OPEN", "HIGH", "LINK", 0.0, 50.0, None, Some(None)), isCuid).Some?
  {
    StatusNames("open");
  }

  /** `taskStatusSchema`: the board move of one task. */
  datatype TaskMove = TaskMove(id: string, status: TaskStatus, order: nat)

  function ParseTaskMove(id: string, status: string, order: real, isCuid: string -> bool): (r: Option<TaskMove>)
    ensures r.Some? <==> isCuid(id) && ParseTaskStatus(status).Some? && IsInteger(order) && order >= 0.0
    ensures r.Some? ==> r.value.id == id && TaskStatusName(r.value.status) == status && r.value.order as real == order
  {
    var parsed := ParseTaskStatus(status);
    if isCuid(id) && parsed.Some? && IsInteger(order) && order >= 0.0
    then Some(TaskMove(id, parsed.value, order.Floor))
    else None
  }

  /** The audit fields as submitted (other than `projectId`). */
  datatype AuditInput = AuditInput(
    title: string, auditType: string, status: string, score: Option<real>,
    impact: string, recommendation: string, notes: Option<string>, detectedAt: Option<string>)

  datatype Audit = Audit(
    title: string, auditType: string, status: AuditStatus, score: Option<real>,
    impact: string, recommendation: string, notes: Option<string>, detectedAt: Option<string>)

  function ParseAudit(a: AuditInput): (r: Option<Audit>)
    ensures r.Some? <==> && |a.title| >= 2 && |a.auditType| >= 2
                         && a.status in MapNames(AuditStatuses, AuditStatusName)
                         && (a.score.None? || IsScore(a.score.value))
                         && |a.impact| >= 2 && |a.recommendation| >= 2
    ensures r.Some? ==> && AuditStatusName(r.value.status) == a.status && r.value.score == a.score
                        && r.value.title == a.title && r.value.auditType == a.auditType
                        && r.value.impact == a.impact && r.value.recommendation == a.recommendation
                        && r.value.notes == a.notes && r.value.detectedAt == a.detectedAt
  {
    AuditNames(a.status);
    var status := ParseAuditStatus(a.status);
    if && |a.title| >= 2 && |a.auditType| >= 2 && status.Some?
       && (a.score.None? || IsScore(a.score.value))
       && |a.impact| >= 2 && |a.recommendation| >= 2
    then Some(Audit(a.title, a.auditType, status.value, a.score, a.impact, a.recommendation, a.notes, a.detectedAt))
    else None
  }

  /** A missing score is accepted; a present one must lie in [0, 100]. */
  lemma AuditScoreExamples()
    ensures ParseAudit(AuditInput("LCP", "performance", "QUEUED", None, "slow", "cache", None, None)).Some?
    ensures ParseAudit(AuditInput("LCP", "performance", "QUEUED", Some(101.0), "slow", "cache", None, None)).None?
    ensures ParseAudit(AuditInput("LCP", "performance", "QUEUED", Some(0.0), "slow", "cache", None, None)).Some?
  {
  }
}
