/**
 * What the list endpoints share: the paging constants, the sort order,
 * the `{[field]: dir}` ordering record and the `dueDate` range filter.
 *
 * The global validation pipe converts a query parameter only when it is
 * bound on its own with a primitive type (`@Query('skip') skip: number`);
 * the fields of a query class stay the strings they arrived as. The model
 * holds the number a numeric string denotes, and a date bound as its ISO
 * text. A test such as `params.skip ? … : …` uses JavaScript truthiness:
 * a number is truthy unless it is 0, a string unless it is empty.
 */
module QueryParams {
  import opened Outcomes

  /**
   * QueryParams.SKIP_DEFAULT, TAKE_DEFAULT and MAX_TAKE. The controllers
   * refer to them but the query-params class does not define them, so the
   * model leaves their values, and any relation between them, open.
   */
  const SKIP_DEFAULT: int
  const TAKE_DEFAULT: int
  const MAX_TAKE: int

  datatype SortOrder = Asc | Desc

  /** `{[field]: dir}` */
  datatype OrderBy = OrderBy(field: string, dir: SortOrder)

  /** `{gte?, lte?}` on a date column. */
  datatype DateFilter = DateFilter(gte: Option<string>, lte: Option<string>)

  /** The task columns the task list builders constrain; None means the key is not set. */
  datatype TaskWhere = TaskWhere(userId: Option<nat>, projectId: Option<nat>, dueDate: Option<DateFilter>)

  /** The argument record of a task list query. */
  datatype TaskFindArgs = TaskFindArgs(where: TaskWhere, orderBy: OrderBy, skip: int, take: int)

  /** Truthiness of an optional number. */
  predicate NumberGiven(x: Option<int>)
  {
    x.Some? && x.value != 0
  }

  /** Truthiness of an optional date bound. */
  predicate DateGiven(d: Option<string>)
  {
    d.Some? && d.value != ""
  }

  /**
   * The due-date constraint of a start/end pair, bound by bound: a lower
   * bound exactly when a start is given, an upper bound exactly when an end
   * is given, and no constraint at all when neither is.
   */
  function DueDateRange(start: Option<string>, end: Option<string>): (f: Option<DateFilter>)
    ensures DateGiven(start) && DateGiven(end) ==> f == Some(DateFilter(start, end))
    ensures DateGiven(start) && !DateGiven(end) ==> f == Some(DateFilter(start, None))
    ensures !DateGiven(start) && DateGiven(end) ==> f == Some(DateFilter(None, end))
    ensures !DateGiven(start) && !DateGiven(end) ==> f == None
  {
    var gte := if DateGiven(start) then start else None;
    var lte := if DateGiven(end) then end else None;
    if gte.None? && lte.None? then None else Some(DateFilter(gte, lte))
  }

  /** Math.min */
  function Min(a: int, b: int): (m: int)
    ensures m <= a && m <= b && (m == a || m == b)
  {
    if a <= b then a else b
  }
}
