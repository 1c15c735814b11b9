/**
 * TasksController: the argument records of its list endpoints, the
 * completion stamp of `update`, and the mapping of a missing result to an
 * HTTP error. The tasks and subtasks services are not modelled; a call to
 * one enters as the value it returns (None for null), or, where the
 * controller prepares an argument first, as a function of that argument.
 */
module TasksController {
  import opened Outcomes
  import opened QueryParams

  /** Task.OrderBy.DEFAULT */
  const DEFAULT_ORDER_FIELD: string := "createdAt"
  const PROJECT_DOES_NOT_EXIST: string := "Project does not exist."

  /** The query fields filterByDate and getSubtasks read. */
  datatype TasksQuery = TasksQuery(
    skip: Option<int>,
    take: Option<int>,
    orderBy: Option<string>,
    dir: Option<SortOrder>,
    start: Option<string>,
    end: Option<string>)

  /** The argument record of a subtask list query. */
  datatype SubtaskFindArgs = SubtaskFindArgs(skip: int, take: int, taskId: nat, orderBy: OrderBy)

  /** The update body; `projectId` is required, every other field optional. */
  datatype UpdateTaskDto = UpdateTaskDto(
    title: Option<string>,
    completed: Option<bool>,
    deleted: Option<bool>,
    isAllDay: Option<bool>,
    projectId: nat,
    sectionId: Option<nat>,
    content: Option<string>,
    dueDate: Option<string>,
    startedOn: Option<string>,
    completedOn: Option<string>,
    priority: Option<string>)

  /**
   * filterByDate: the tasks of one project, within the given due-date
   * bounds. `??` defaults only a missing skip or take (0 is kept); the
   * order is the requested field (createdAt by default), ascending by
   * default.
   */
  function FilterByDate(projectId: nat, query: TasksQuery): (args: TaskFindArgs)
    ensures args.where == TaskWhere(None, Some(projectId), DueDateRange(query.start, query.end))
    ensures args.orderBy.field == (if query.orderBy.Some? then query.orderBy.value else DEFAULT_ORDER_FIELD)
    ensures args.orderBy.dir == (if query.dir.Some? then query.dir.value else Asc)
    ensures args.skip == (if query.skip.Some? then query.skip.value else SKIP_DEFAULT)
    ensures args.take == (if query.take.Some? then query.take.value else TAKE_DEFAULT)
  {
    var skip := query.skip.GetOr(SKIP_DEFAULT);
    var take := query.take.GetOr(TAKE_DEFAULT);
    var orderBy := OrderBy(query.orderBy.GetOr(DEFAULT_ORDER_FIELD), query.dir.GetOr(Asc));
    var where := TaskWhere(None, Some(projectId), None);
    var filtered :=
      if DateGiven(query.start) && DateGiven(query.end) then where.(dueDate := Some(DateFilter(query.start, query.end)))
      else if DateGiven(query.start) && !DateGiven(query.end) then where.(dueDate := Some(DateFilter(query.start, None)))
      else if !DateGiven(query.start) && DateGiven(query.end) then where.(dueDate := Some(DateFilter(None, query.end)))
      else where;
    TaskFindArgs(filtered, orderBy, skip, take)
  }

  /**
   * getSubtasks: the subtasks of one task, 0 skipped and 30 taken by
   * default. The ordering it computes from the query is never used: the
   * call always orders by createdAt, newest first.
   */
  function GetSubtasks(taskId: nat, query: TasksQuery): (args: SubtaskFindArgs)
    ensures args.taskId == taskId
    ensures args.orderBy == OrderBy("createdAt", Desc)
    ensures args.skip == (if query.skip.Some? then query.skip.value else 0)
    ensures args.take == (if query.take.Some? then query.take.value else 30)
  {
    SubtaskFindArgs(query.skip.GetOr(0), query.take.GetOr(30), taskId, OrderBy("createdAt", Desc))
  }

  /** The requested ordering makes no difference to getSubtasks. */
  lemma GetSubtasksIgnoresOrdering(taskId: nat, query: TasksQuery, orderBy: Option<string>, dir: Option<SortOrder>)
    ensures GetSubtasks(taskId, query.(orderBy := orderBy, dir := dir)) == GetSubtasks(taskId, query)
  {
  }

  /** create: a null task means the project does not exist. */
  function Create<T>(created: Option<T>): (r: Result<T, HttpError>)
    ensures r.Err? <==> created.None?
    ensures r.Err? ==> r.error == BadRequest(Some(PROJECT_DOES_NOT_EXIST))
    ensures r.Ok? ==> r.value == created.value
  {
    if created.None? then Err(BadRequest(Some(PROJECT_DOES_NOT_EXIST))) else Ok(created.value)
  }

  /** findOne: a null task is NotFound. */
  function FindOne<T>(found: Option<T>): (r: Result<T, HttpError>)
    ensures r.Err? <==> found.None?
    ensures r.Err? ==> r.error == NotFound
    ensures r.Ok? ==> r.value == found.value
  {
    if found.None? then Err(NotFound) else Ok(found.value)
  }

  /**
   * update: when `completed` is true, stamp `completedOn` with the current
   * time; forward the body, otherwise unchanged, to the service; a null
   * result is NotFound. `sent` is the body the service receives.
   */
  method Update<T>(id: nat, dto: UpdateTaskDto, now: string, update: (nat, UpdateTaskDto) -> Option<T>)
    returns (r: Result<T, HttpError>, sent: UpdateTaskDto)
    ensures sent.completedOn == (if dto.completed == Some(true) then Some(now) else dto.completedOn)
    ensures sent.(completedOn := dto.completedOn) == dto
    ensures r.Err? <==> update(id, sent).None?
    ensures r.Err? ==> r.error == NotFound
    ensures r.Ok? ==> r.value == update(id, sent).value
  {
    sent := dto;
    if sent.completed == Some(true) {
      sent := sent.(completedOn := Some(now));
    }
    var task := update(id, sent);
    if task.None? {
      return Err(NotFound), sent;
    }
    return Ok(task.value), sent;
  }

  /** remove: NO_CONTENT once the task is deleted, NotFound for a null result. */
  function Remove<T>(removed: Option<T>): (r: Result<int, HttpError>)
    ensures r.Err? <==> removed.None?
    ensures r.Err? ==> r.error == NotFound
    ensures r.Ok? ==> r.value == NO_CONTENT
  {
    if removed.None? then Err(NotFound) else Ok(NO_CONTENT)
  }
}
