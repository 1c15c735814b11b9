/**
 * ProjectsService.findAll: fill in the paging defaults, count the
 * projects matching the filter, fetch the page and report it. The two
 * database calls enter as the functions `count` and `findMany`; the
 * service's other methods are single delegations to the database and are
 * not modelled.
 */
module ProjectsService {
  import opened Outcomes
  import opened QueryParams

  /** The default page size written into the parameters. */
  const DEFAULT_TAKE: int := 30

  /** The findAll parameters; `W` is the filter and `C` the cursor, both passed on as they are. */
  datatype FindAllParams<W, C> = FindAllParams(
    skip: Option<int>,
    take: Option<int>,
    cursor: Option<C>,
    where: W,
    orderBy: Option<OrderBy>)

  datatype PaginatedList<T> = PaginatedList(data: seq<T>, count: nat, pageIndex: int, pageSize: int)

  /**
   * findAll: a missing or zero skip becomes 0, a missing or zero take 30, a
   * missing orderBy `{name: 'asc'}`; everything else is kept. The page
   * reports the effective skip and take, and the count of all projects
   * matching the filter, whatever the paging. `sent` is the parameter
   * object after the defaults were written into it.
   */
  method FindAll<W, C, T>(params: FindAllParams<W, C>, count: W -> nat, findMany: FindAllParams<W, C> -> seq<T>)
    returns (page: PaginatedList<T>, sent: FindAllParams<W, C>)
    ensures sent.skip == Some(if NumberGiven(params.skip) then params.skip.value else 0)
    ensures sent.take == Some(if NumberGiven(params.take) then params.take.value else DEFAULT_TAKE)
    ensures sent.orderBy == Some(if params.orderBy.Some? then params.orderBy.value else OrderBy("name", Asc))
    ensures sent.where == params.where && sent.cursor == params.cursor
    ensures page.data == findMany(sent)
    ensures page.count == count(params.where)
    ensures page.pageIndex == sent.skip.value && page.pageSize == sent.take.value
  {
    sent := params;
    if !NumberGiven(sent.skip) {
      sent := sent.(skip := Some(0));
    }
    if !NumberGiven(sent.take) {
      sent := sent.(take := Some(DEFAULT_TAKE));
    }
    if sent.orderBy.None? {
      sent := sent.(orderBy := Some(OrderBy("name", Asc)));
    }
    var total := count(sent.where);
    var data := findMany(sent);
    page := PaginatedList(data, total, sent.skip.value, sent.take.value);
  }
}
