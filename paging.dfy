/** Query-string parameters and the page arithmetic shared by the list
    endpoints and the activity page: `get(name) || default` followed by
    `Number.parseInt`, the row window `from = (page - 1) * limit`,
    `to = from + limit - 1`, and `Math.ceil((count || 0) / limit)`.
    Numbers that `parseInt` or a division can make non-finite are kept as
    such: NaN stays NaN through the arithmetic. */
module Paging {
  import opened JsString

  /** A JavaScript number as these routes can produce it. */
  datatype Number = Finite(value: int) | NaN | Infinity

  /** `searchParams.get(name)`: the value of the parameter, or null. */
  function Param(params: map<string, string>, name: string): Option<string>
  {
    if name in params then Some(params[name]) else None
  }

  /** `searchParams.get(name) || dflt`: an absent or empty parameter takes the default. */
  function GetOr(params: map<string, string>, name: string, dflt: string): (r: string)
    ensures name in params && params[name] != [] ==> r == params[name]
    ensures name !in params || params[name] == [] ==> r == dflt
  {
    var v := Param(params, name);
    if v.Some? && Truthy(v.value) then v.value else dflt
  }

  /** `Number.parseInt(searchParams.get(name) || dflt)`. */
  function IntParam(params: map<string, string>, name: string, dflt: string): Number
  {
    var p := ParseInt(GetOr(params, name, dflt));
    if p.Some? then Finite(p.value) else NaN
  }

  /** An absent parameter takes its default, and a parameter written as a
      decimal integer reads back as that integer. */
  lemma IntParamReads(params: map<string, string>, name: string, dflt: nat, n: int)
    ensures name !in params ==> IntParam(params, name, NatToString(dflt)) == Finite(dflt)
    ensures name in params && params[name] == IntToString(n) ==> IntParam(params, name, NatToString(dflt)) == Finite(n)
  {
    if name !in params {
      IntParamDefault(params, name, dflt);
    } else if params[name] == IntToString(n) {
      IntParamGiven(params, name, NatToString(dflt), n);
    }
  }

  lemma IntParamDefault(params: map<string, string>, name: string, dflt: nat)
    requires name !in params
    ensures IntParam(params, name, NatToString(dflt)) == Finite(dflt)
  {
    ParseIntOfNatToString(dflt);
  }

  lemma IntParamGiven(params: map<string, string>, name: string, dflt: string, n: int)
    requires name in params && params[name] == IntToString(n)
    ensures IntParam(params, name, dflt) == Finite(n)
  {
    ParseIntOfIntToString(n);
    if n < 0 {
      assert params[name][0] == '-';
    } else {
      assert |NatToString(n)| >= 1;
    }
  }

  /** The rows a page covers, in the `range(from, to)` sense (both ends included). */
  datatype Window = Window(from: int, to: int)

  function PageWindow(page: int, limit: int): (w: Window)
    ensures w.to - w.from + 1 == limit
  {
    var from := (page - 1) * limit;
    Window(from, from + limit - 1)
  }

  /** The window with NaN ends when the page or the limit is NaN. */
  function RangeBounds(page: Number, limit: Number): (r: (Number, Number))
    ensures page.Finite? && limit.Finite? ==> r == (Finite(PageWindow(page.value, limit.value).from),
                                                  Finite(PageWindow(page.value, limit.value).to))
    ensures page.NaN? || limit.NaN? ==> r == (NaN, NaN)
  {
    if page.Finite? && limit.Finite? then
      var w := PageWindow(page.value, limit.value);
      (Finite(w.from), Finite(w.to))
    else (NaN, NaN)
  }

  /** Consecutive pages are adjacent: each starts right after the previous one ends. */
  lemma WindowsAdjacent(page: int, limit: int)
    ensures PageWindow(page + 1, limit).from == PageWindow(page, limit).to + 1
  {
  }

  /** With a positive limit, earlier pages end before later pages start. */
  lemma {:induction false} WindowsDisjoint(p: int, q: int, limit: int)
    requires limit > 0 && p < q
    ensures PageWindow(p, limit).to < PageWindow(q, limit).from
    decreases q - p
  {
    WindowsAdjacent(p, limit);
    if p + 1 < q {
      WindowsDisjoint(p + 1, q, limit);
    }
  }

  /** Every row index lies in the window of page `i / limit + 1`. */
  lemma WindowOfRow(i: nat, limit: int)
    requires limit > 0
    ensures PageWindow(i / limit + 1, limit).from <= i <= PageWindow(i / limit + 1, limit).to
  {
    var q, r := i / limit, i % limit;
    assert i == q * limit + r && 0 <= r < limit;
    assert PageWindow(q + 1, limit).from == q * limit;
  }

  /** `count || 0`. */
  function Total(count: Option<nat>): nat
  {
    if count.Some? then count.value else 0
  }

  /** `Math.ceil(total / limit)`: NaN for a NaN limit or for 0 / 0, Infinity
      for a positive total over a zero limit. */
  function TotalPages(count: Option<nat>, limit: Number): (r: Number)
    ensures limit.Finite? && limit.value > 0 ==> r.Finite? && r.value >= 0
    ensures limit.NaN? ==> r.NaN?
  {
    var total := Total(count);
    match limit
    case NaN => NaN
    case Infinity => Finite(0)
    case Finite(l) =>
      if l > 0 then Finite(CeilDiv(total, l))
      else if l == 0 then (if total == 0 then NaN else Infinity)
      else Finite(-(total / -l))
  }

  /** With a positive limit, the pages 1..totalPages hold every row and the
      last of them is not empty; a missing count gives zero pages. */
  lemma TotalPagesCover(count: Option<nat>, limit: int)
    requires limit > 0
    ensures count.None? ==> TotalPages(count, Finite(limit)) == Finite(0)
    ensures forall i: nat :: i < Total(count) ==> 1 <= i / limit + 1 <= TotalPages(count, Finite(limit)).value
    ensures TotalPages(count, Finite(limit)).value > 0 ==>
      PageWindow(TotalPages(count, Finite(limit)).value, limit).from < Total(count)
  {
    var t := TotalPages(count, Finite(limit)).value;
    assert (t - 1) * limit < Total(count) <= t * limit;
    forall i: nat | i < Total(count) ensures i / limit + 1 <= t {
      var q := i / limit;
      assert q * limit <= i by { assert i == q * limit + i % limit; }
      MulCancel(q, t, limit);
    }
  }

  /** The `pagination` object of a list response. */
  datatype Pagination = Pagination(page: Number, limit: Number, total: nat, totalPages: Number)

  /** A list endpoint's answer: the rows with their pagination, or an error status. */
  datatype ListResponse<R> = ListOk(rows: R, pagination: Pagination) | Failure(status: int, message: string)

  /** What the database returns for a list query. */
  datatype DbResult<R> = DbError(message: string) | DbRows(rows: R, count: Option<nat>)

  /** The shared tail of the list endpoints: a database error becomes status
      500 with its message; otherwise the rows come back with the page, the
      limit, `count || 0` and the page count. */
  function ListAnswer<R>(page: Number, limit: Number, db: DbResult<R>): (r: ListResponse<R>)
    ensures db.DbError? <==> r.Failure?
    ensures db.DbError? ==> r == Failure(500, db.message)
    ensures db.DbRows? ==> (
      r.rows == db.rows && r.pagination.page == page && r.pagination.limit == limit
      && r.pagination.total == Total(db.count) && r.pagination.totalPages == TotalPages(db.count, limit))
  {
    match db
    case DbError(msg) => Failure(500, msg)
    case DbRows(rows, count) => ListOk(rows, Pagination(page, limit, Total(count), TotalPages(count, limit)))
  }
}
