/** The task enumerations and the audit status list, with their source-form names. */
module TaskConstants {
  import opened Wrappers

  datatype TaskType = ONPAGE | CONTENT | TECH | LINK | LOCAL
  datatype TaskPriority = LOW | MEDIUM | HIGH | CRITICAL
  datatype TaskStatus = OPEN | IN_PROGRESS | REVIEW | DONE | BLOCKED
  datatype AuditStatus = QUEUED | RUNNING | PASSED | FAILED

  /** `TASK_TYPES`, in declaration order: `TASK_TYPES[0]` is ONPAGE. */
  const TaskTypes: seq<TaskType> := [ONPAGE, CONTENT, TECH, LINK, LOCAL]
  const TaskPriorities: seq<TaskPriority> := [LOW, MEDIUM, HIGH, CRITICAL]
  const TaskStatuses: seq<TaskStatus> := [OPEN, IN_PROGRESS, REVIEW, DONE, BLOCKED]
  const AuditStatuses: seq<AuditStatus> := [QUEUED, RUNNING, PASSED, FAILED]

  function TaskTypeName(t: TaskType): string {
    match t
    case ONPAGE => "ONPAGE"
    case CONTENT => "CONTENT"
    case TECH => "TECH"
    case LINK => "LINK"
    case LOCAL => "LOCAL"
  }

  function TaskPriorityName(p: TaskPriority): string {
    match p
    case LOW => "LOW"
    case MEDIUM => "MEDIUM"
    case HIGH => "HIGH"
    case CRITICAL => "CRITICAL"
  }

  function TaskStatusName(s: TaskStatus): string {
    match s
    case OPEN => "OPEN"
    case IN_PROGRESS => "IN_PROGRESS"
    case REVIEW => "REVIEW"
    case DONE => "DONE"
    case BLOCKED => "BLOCKED"
  }

  function AuditStatusName(s: AuditStatus): string {
    match s
    case QUEUED => "QUEUED"
    case RUNNING => "RUNNING"
    case PASSED => "PASSED"
    case FAILED => "FAILED"
  }

  /** `z.enum(TASK_TYPES)`: accepts exactly the listed names. */
  function ParseTaskType(s: string): (r: Option<TaskType>)
    ensures forall t: TaskType :: TaskTypeName(t) == s ==> r == Some(t)
    ensures r.Some? ==> TaskTypeName(r.value) == s
  {
    if s == "ONPAGE" then Some(ONPAGE)
    else if s == "CONTENT" then Some(CONTENT)
    else if s == "TECH" then Some(TECH)
    else if s == "LINK" then Some(LINK)
    else if s == "LOCAL" then Some(LOCAL)
    else None
  }

  function ParseTaskPriority(s: string): (r: Option<TaskPriority>)
    ensures forall p: TaskPriority :: TaskPriorityName(p) == s ==> r == Some(p)
    ensures r.Some? ==> TaskPriorityName(r.value) == s
  {
    if s == "LOW" then Some(LOW)
    else if s == "MEDIUM" then Some(MEDIUM)
    else if s == "HIGH" then Some(HIGH)
    else if s == "CRITICAL" then Some(CRITICAL)
    else None
  }

  function ParseTaskStatus(s: string): (r: Option<TaskStatus>)
    ensures forall t: TaskStatus :: TaskStatusName(t) == s ==> r == Some(t)
    ensures r.Some? ==> TaskStatusName(r.value) == s
  {
    if s == "OPEN" then Some(OPEN)
    else if s == "IN_PROGRESS" then Some(IN_PROGRESS)
    else if s == "REVIEW" then Some(REVIEW)
    else if s == "DONE" then Some(DONE)
    else if s == "BLOCKED" then Some(BLOCKED)
    else None
  }

  function ParseAuditStatus(s: string): (r: Option<AuditStatus>)
    ensures forall a: AuditStatus :: AuditStatusName(a) == s ==> r == Some(a)
    ensures r.Some? ==> AuditStatusName(r.value) == s
  {
    if s == "QUEUED" then Some(QUEUED)
    else if s == "RUNNING" then Some(RUNNING)
    else if s == "PASSED" then Some(PASSED)
    else if s == "FAILED" then Some(FAILED)
    else None
  }

  /** Every enumeration value is listed, and parsing its name gives it back. */
  lemma EnumRoundTrips(t: TaskType, p: TaskPriority, s: TaskStatus, a: AuditStatus)
    ensures t in TaskTypes && ParseTaskType(TaskTypeName(t)) == Some(t)
    ensures p in TaskPriorities && ParseTaskPriority(TaskPriorityName(p)) == Some(p)
    ensures s in TaskStatuses && ParseTaskStatus(TaskStatusName(s)) == Some(s)
    ensures a in AuditStatuses && ParseAuditStatus(AuditStatusName(a)) == Some(a)
  {
  }
}
