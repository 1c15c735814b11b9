/**
 * ChronoController.getTasks: the argument record it hands to the chrono
 * service for the signed-in user's tasks.
 */
module ChronoController {
  import opened Outcomes
  import opened QueryParams

  /** TaskAttributes.OrderBy.DUE_DATE */
  const DUE_DATE: string := "dueDate"

  /**
   * The query fields getTasks reads. The query class declares `skip` and
   * `take` as numeric strings and nothing converts them, so a given one is
   * a non-empty string, truthy even when it reads "0"; the model holds the
   * number `+value` makes of it.
   */
  datatype ChronoQuery = ChronoQuery(
    orderBy: Option<string>,
    dir: Option<SortOrder>,
    startDate: Option<string>,
    endDate: Option<string>,
    skip: Option<int>,
    take: Option<int>)

  /**
   * getTasks: order by the requested field (due date by default) and
   * direction (ascending by default); keep the user's tasks, within the
   * given due-date bounds; skip what was asked for, SKIP_DEFAULT when
   * absent; take what was asked for, capped at MAX_TAKE, TAKE_DEFAULT when
   * absent. A given "0" is kept, since a non-empty string is truthy.
   */
  method GetTasks(userId: nat, query: ChronoQuery) returns (args: TaskFindArgs)
    ensures args.orderBy == OrderBy(query.orderBy.GetOr(DUE_DATE), query.dir.GetOr(Asc))
    ensures args.where.userId == Some(userId) && args.where.projectId == None
    ensures args.where.dueDate == DueDateRange(query.startDate, query.endDate)
    ensures args.skip == if query.skip.Some? then query.skip.value else SKIP_DEFAULT
    ensures query.take.Some? ==> args.take == Min(query.take.value, MAX_TAKE)
    ensures query.take.Some? ==> args.take <= MAX_TAKE
    ensures query.take.None? ==> args.take == TAKE_DEFAULT
  {
    var orderBy := OrderBy(query.orderBy.GetOr(DUE_DATE), query.dir.GetOr(Asc));
    var where := TaskWhere(Some(userId), None, None);
    if DateGiven(query.startDate) && DateGiven(query.endDate) {
      where := where.(dueDate := Some(DateFilter(query.startDate, query.endDate)));
    } else if DateGiven(query.startDate) {
      where := where.(dueDate := Some(DateFilter(query.startDate, None)));
    } else if DateGiven(query.endDate) {
      where := where.(dueDate := Some(DateFilter(None, query.endDate)));
    }
    var skip := if query.skip.Some? then query.skip.value else SKIP_DEFAULT;
    var take := if query.take.Some? then Min(query.take.value, MAX_TAKE) else TAKE_DEFAULT;
    args := TaskFindArgs(where, orderBy, skip, take);
  }
}
