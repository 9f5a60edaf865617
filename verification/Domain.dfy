/** Records and constants of the domain layer (internal/domain). */
module Domain {
  import opened Wrappers

  const MIN_INT64: int := -0x8000_0000_0000_0000
  const MAX_INT64: int := 0x7fff_ffff_ffff_ffff

  /** Go's int64, the type of every identifier. */
  type Int64 = x: int | MIN_INT64 <= x <= MAX_INT64

  type Role = string

  const ROLE_OWNER: Role := "owner"
  const ROLE_ADMIN: Role := "admin"
  const ROLE_MEMBER: Role := "member"

  predicate ValidRole(r: Role) {
    r == ROLE_OWNER || r == ROLE_ADMIN || r == ROLE_MEMBER
  }

  predicate CanManageMembers(r: Role) {
    r == ROLE_OWNER || r == ROLE_ADMIN
  }

  type TaskStatus = string

  const STATUS_TODO: TaskStatus := "todo"
  const STATUS_IN_PROGRESS: TaskStatus := "in_progress"
  const STATUS_DONE: TaskStatus := "done"

  predicate ValidStatus(s: TaskStatus) {
    s == STATUS_TODO || s == STATUS_IN_PROGRESS || s == STATUS_DONE
  }

  /** Go's zero time.Time, in seconds relative to 1970. */
  const ZERO_TIME: int := -62_135_596_800

  datatype Error = NotFound | Conflict | Forbidden | Validation | Database | EmailFailed

  datatype Team = Team(id: Int64, name: string, createdBy: Int64)

  datatype TeamMember = TeamMember(teamId: Int64, userId: Int64, role: Role)

  datatype Task = Task(
    id: Int64,
    teamId: Int64,
    title: string,
    description: string,
    status: TaskStatus,
    assignee: Option<Int64>,
    createdBy: Int64,
    createdAt: int,
    updatedAt: int)

  /** One audit row: the change of one field of one task. */
  datatype TaskHistory = TaskHistory(
    id: nat,
    taskId: Int64,
    changedBy: Int64,
    field: string,
    oldValue: Option<string>,
    newValue: Option<string>,
    changedAt: int)

  datatype TaskFilter = TaskFilter(
    teamId: Int64,
    status: Option<TaskStatus>,
    assignee: Option<Int64>,
    limit: int,
    offset: int)
}
