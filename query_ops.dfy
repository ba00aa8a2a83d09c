/** The Supabase query builder calls (`eq`, `in`, `overlaps`, `textSearch`,
    `order`, `range`) recorded as a list of operations in call order. The
    database that runs them is not part of this model. */
module QueryOps {
  import opened Paging

  datatype Value = Text(s: string) | Flag(b: bool)

  datatype Op =
    | Eq(column: string, value: Value)
    | In(column: string, values: seq<string>)
    | Overlaps(column: string, values: seq<string>)
    | TextSearch(columns: string, query: string)
    | Order(column: string, ascending: bool)
    | RangeOp(from: Number, to: Number)

  /** The ordering calls of a query, in order. */
  function Orderings(ops: seq<Op>): (r: seq<Op>)
    ensures |r| <= |ops|
    ensures forall o :: o in r <==> o in ops && o.Order?
  {
    if ops == [] then []
    else (if ops[0].Order? then [ops[0]] else []) + Orderings(ops[1..])
  }

  /** No ordering call among `ops`. */
  lemma {:induction false} NoOrderings(ops: seq<Op>)
    requires forall o :: o in ops ==> !o.Order?
    ensures Orderings(ops) == []
  {
    if ops != [] {
      assert forall o :: o in ops[1..] ==> o in ops;
      NoOrderings(ops[1..]);
    }
  }

  /** A single ordering call among other calls is the query's only ordering. */
  lemma OneOrdering(pre: seq<Op>, ord: Op, post: seq<Op>)
    requires ord.Order?
    requires forall o :: o in pre ==> !o.Order?
    requires forall o :: o in post ==> !o.Order?
    ensures Orderings(pre + [ord] + post) == [ord]
  {
    OrderingsAppend(pre + [ord], post);
    OrderingsAppend(pre, [ord]);
    NoOrderings(pre);
    NoOrderings(post);
    assert Orderings([ord]) == [ord] + Orderings([ord][1..]);
    assert [ord][1..] == [];
  }

  lemma {:induction false} OrderingsAppend(a: seq<Op>, b: seq<Op>)
    ensures Orderings(a + b) == Orderings(a) + Orderings(b)
  {
    if a != [] {
      OrderingsAppend(a[1..], b);
      assert (a + b)[1..] == a[1..] + b;
    } else {
      assert a + b == b;
    }
  }
}
