/**
 * SubtasksController: the ownership check in front of create, list and
 * update, the list query it builds, and the mapping of service errors to
 * HTTP errors. The ownership check calls `tasksService.exists({where: {id:
 * taskId, userId}})`, a method TasksService does not define; the model
 * reads the call by its arguments, as "a task with this id belongs to this
 * user", over the task table's owner column `owners` (task id to user id).
 * The subtasks service is a stub and is not modelled: each call to it
 * enters as a function of the arguments the controller passes.
 */
module SubtasksController {
  import opened Outcomes
  import opened QueryParams

  /** The values of the Priority enum. Its file is not part of this model, so the set is left open. */
  const PRIORITY_VALUES: set<string>

  /** TaskAttributes.OrderBy.CREATED_AT */
  const CREATED_AT: string := "createdAt"

  /** Any error the subtasks service throws. */
  datatype ServiceFault = ServiceFault

  /** `{title: {contains}}` */
  datatype TitleFilter = Contains(text: string)

  datatype SubtaskWhere = SubtaskWhere(taskId: nat, priority: Option<string>, title: Option<TitleFilter>)

  datatype SubtaskFindArgs = SubtaskFindArgs(skip: int, take: int, where: SubtaskWhere, orderBy: OrderBy)

  /** The query of getSubtasks; a missing orderBy, dir, skip or take takes the parameter's default. */
  datatype SubtasksQuery = SubtasksQuery(
    orderBy: Option<string>,
    dir: Option<SortOrder>,
    skip: Option<int>,
    take: Option<int>,
    priority: Option<string>,
    title: Option<string>)

  /** Whether the task table has a task `taskId` that belongs to `userId`. */
  predicate TaskExists(owners: map<nat, nat>, taskId: nat, userId: nat)
  {
    taskId in owners && owners[taskId] == userId
  }

  /** Truthiness of an optional string. */
  predicate TextGiven(s: Option<string>)
  {
    s.Some? && s.value != ""
  }

  /**
   * create: BadRequest when the user does not own the task, whatever the
   * service would do; otherwise the service's subtask, with any error it
   * throws turned into BadRequest.
   */
  function Create<D, S>(owners: map<nat, nat>, userId: nat, taskId: nat, dto: D, create: D -> Result<S, ServiceFault>)
    : (r: Result<S, HttpError>)
    ensures !TaskExists(owners, taskId, userId) ==> r == Err(BadRequest(None))
    ensures TaskExists(owners, taskId, userId) ==>
              (create(dto).Ok? ==> r == Ok(create(dto).value)) && (create(dto).Err? ==> r == Err(BadRequest(None)))
  {
    if !TaskExists(owners, taskId, userId) then Err(BadRequest(None))
    else match create(dto)
      case Ok(subtask) => Ok(subtask)
      case Err(_) => Err(BadRequest(None))
  }

  /**
   * getSubtasks: BadRequest unless the user owns the task, or when a
   * priority is given that is not one of Priority's values. Otherwise the
   * subtasks of the task, with the given priority and a title containing
   * the given text; ordered as requested (createdAt, newest first, by
   * default); 0 skipped and TAKE_DEFAULT taken by default, the take capped
   * at MAX_TAKE.
   */
  method GetSubtasks(taskId: nat, userId: nat, owners: map<nat, nat>, query: SubtasksQuery)
    returns (r: Result<SubtaskFindArgs, HttpError>)
    ensures r.Err? <==> !TaskExists(owners, taskId, userId)
                        || (TextGiven(query.priority) && query.priority.value !in PRIORITY_VALUES)
    ensures r.Err? ==> r.error == BadRequest(None)
    ensures r.Ok? ==> && r.value.where.taskId == taskId
                      && r.value.where.priority == (if TextGiven(query.priority) then query.priority else None)
                      && r.value.where.title == (if TextGiven(query.title) then Some(Contains(query.title.value)) else None)
    ensures r.Ok? ==> && r.value.take == Min(query.take.GetOr(TAKE_DEFAULT), MAX_TAKE)
                      && r.value.take <= MAX_TAKE
                      && r.value.skip == query.skip.GetOr(0)
                      && r.value.orderBy == OrderBy(query.orderBy.GetOr(CREATED_AT), query.dir.GetOr(Desc))
  {
    if !TaskExists(owners, taskId, userId) {
      return Err(BadRequest(None));
    }
    var where := SubtaskWhere(taskId, None, None);
    if TextGiven(query.priority) {
      if query.priority.value !in PRIORITY_VALUES {
        return Err(BadRequest(None));
      }
      where := where.(priority := query.priority);
    }
    if TextGiven(query.title) {
      where := where.(title := Some(Contains(query.title.value)));
    }
    var take := Min(query.take.GetOr(TAKE_DEFAULT), MAX_TAKE);
    var orderBy := OrderBy(query.orderBy.GetOr(CREATED_AT), query.dir.GetOr(Desc));
    return Ok(SubtaskFindArgs(query.skip.GetOr(0), take, where, orderBy));
  }

  /** findOne: the subtask `id` of task `taskId`; any service error is NotFound. */
  function FindOne<S>(taskId: nat, id: nat, findOne: (nat, nat) -> Result<S, ServiceFault>): (r: Result<S, HttpError>)
    ensures findOne(id, taskId).Ok? ==> r == Ok(findOne(id, taskId).value)
    ensures findOne(id, taskId).Err? ==> r == Err(NotFound)
  {
    match findOne(id, taskId)
    case Ok(subtask) => Ok(subtask)
    case Err(_) => Err(NotFound)
  }

  /**
   * update: BadRequest when the user does not own the task, whatever the
   * service would do; otherwise the service's result, with any error it
   * throws turned into NotFound.
   */
  function Update<D, S>(owners: map<nat, nat>, userId: nat, taskId: nat, id: nat, dto: D,
                        update: (nat, D) -> Result<S, ServiceFault>): (r: Result<S, HttpError>)
    ensures !TaskExists(owners, taskId, userId) ==> r == Err(BadRequest(None))
    ensures TaskExists(owners, taskId, userId) ==>
              (update(id, dto).Ok? ==> r == Ok(update(id, dto).value)) && (update(id, dto).Err? ==> r == Err(NotFound))
  {
    if !TaskExists(owners, taskId, userId) then Err(BadRequest(None))
    else match update(id, dto)
      case Ok(subtask) => Ok(subtask)
      case Err(_) => Err(NotFound)
  }

  /** remove: NO_CONTENT once the service has deleted the subtask; any service error is NotFound. */
  function Remove<S>(id: nat, remove: nat -> Result<S, ServiceFault>): (r: Result<int, HttpError>)
    ensures remove(id).Ok? ==> r == Ok(NO_CONTENT)
    ensures remove(id).Err? ==> r == Err(NotFound)
  {
    match remove(id)
    case Ok(_) => Ok(NO_CONTENT)
    case Err(_) => Err(NotFound)
  }
}
