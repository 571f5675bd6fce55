/** `Query::normalize` splits a query into a main phase, which computes group-by columns and
    aggregates, and a final pass over their results.  The final expressions mean what the
    original ones do. */
module Normalize {
  import opened Types
  import opened GroupMerge
  import opened Seqs

  /** An expression.  Functions are given by a number. */
  datatype Expr =
    | ColName(name: string)
    | Const(value: int)
    | Func1(f: nat, e: Expr)
    | Func2(f: nat, l: Expr, r: Expr)
    | Aggregate(op: Aggregator, e: Expr)

  // ---------------------------------------------------------------- names

  function Digit(d: nat): char
    requires d < 10
  {
    "0123456789"[d]
  }

  /** A number in decimal. */
  function Decimal(n: nat): (s: string)
    ensures s != []
  {
    if n < 10 then [Digit(n)] else Decimal(n / 10) + [Digit(n % 10)]
  }

  lemma {:induction false} DecimalInjective(m: nat, n: nat)
    requires Decimal(m) == Decimal(n)
    ensures m == n
  {
    var s, t := Decimal(m), Decimal(n);
    assert (m >= 10 ==> |s| > 1) && (n >= 10 ==> |t| > 1);
    assert s[|s| - 1] == Digit(m % 10) && t[|t| - 1] == Digit(n % 10);
    DigitInjective(m % 10, n % 10);
    if m >= 10 && n >= 10 {
      assert s[..|s| - 1] == Decimal(m / 10) && t[..|t| - 1] == Decimal(n / 10);
      DecimalInjective(m / 10, n / 10);
    }
  }

  lemma DigitInjective(d: nat, e: nat)
    requires d < 10 && e < 10 && Digit(d) == Digit(e)
    ensures d == e
  {
  }

  /** The name of group-by column `i` in the final pass. */
  function Cs(i: nat): string { "_cs" + Decimal(i) }

  /** The name of aggregate `i` in the final pass. */
  function Ca(i: nat): string { "_ca" + Decimal(i) }

  /** No two columns of the final pass have the same name. */
  lemma NamesUnique(i: nat, j: nat)
    ensures Cs(i) == Cs(j) ==> i == j
    ensures Ca(i) == Ca(j) ==> i == j
    ensures Cs(i) != Ca(j)
  {
    assert Cs(i)[3..] == Decimal(i) && Cs(j)[3..] == Decimal(j);
    assert Ca(i)[3..] == Decimal(i) && Ca(j)[3..] == Decimal(j);
    assert Cs(i)[2] == 's' && Ca(j)[2] == 'a';
    if Decimal(i) == Decimal(j) { DecimalInjective(i, j); }
  }

  // ---------------------------------------------------------------- extracting aggregates

  predicate HasAggregate(e: Expr) {
    match e
    case Aggregate(_, _) => true
    case Func1(_, x) => HasAggregate(x)
    case Func2(_, l, r) => HasAggregate(l) || HasAggregate(r)
    case _ => false
  }

  /** No aggregate within an aggregate. */
  predicate NotNested(e: Expr) {
    match e
    case Aggregate(_, x) => !HasAggregate(x)
    case Func1(_, x) => NotNested(x)
    case Func2(_, l, r) => NotNested(l) && NotNested(r)
    case _ => true
  }

  /** Columns occur only under aggregates. */
  predicate OnlyUnder(e: Expr) {
    match e
    case ColName(_) => false
    case Func1(_, x) => OnlyUnder(x)
    case Func2(_, l, r) => OnlyUnder(l) && OnlyUnder(r)
    case _ => true
  }

  datatype Aggregated = Aggregated(op: Aggregator, e: Expr)

  /** An expression with its aggregates replaced by column names, and the aggregates. */
  datatype Extracted = Extracted(expr: Expr, aggregates: seq<Aggregated>)

  /** `extract_aggregators`, when there are `n` aggregates already. */
  function Extract(e: Expr, n: nat): (r: Result<Extracted>)
    ensures r.Ok? <==> NotNested(e)
  {
    match e
    case Aggregate(op, x) =>
      if HasAggregate(x) then Err(TypeError) else Ok(Extracted(ColName(Ca(n)), [Aggregated(op, x)]))
    case Func1(f, x) =>
      var r := Extract(x, n);
      if r.Err? then Err(r.error) else Ok(Extracted(Func1(f, r.value.expr), r.value.aggregates))
    case Func2(f, x, y) =>
      var r := Extract(x, n);
      if r.Err? then Err(r.error)
      else
        var s := Extract(y, n + |r.value.aggregates|);
        if s.Err? then Err(s.error)
        else Ok(Extracted(Func2(f, r.value.expr, s.value.expr), r.value.aggregates + s.value.aggregates))
    case _ => Ok(Extracted(e, []))
  }

  lemma {:induction false} ExtractShape(e: Expr, n: nat)
    requires NotNested(e)
    ensures var r := Extract(e, n).value;
            && !HasAggregate(r.expr)
            && (r.aggregates == [] <==> !HasAggregate(e))
            && (r.aggregates == [] ==> r.expr == e)
            && (forall i :: 0 <= i < |r.aggregates| ==> !HasAggregate(r.aggregates[i].e))
  {
    match e
    case Aggregate(_, _) =>
    case Func1(_, x) => ExtractShape(x, n);
    case Func2(_, x, y) =>
      ExtractShape(x, n);
      ExtractShape(y, n + |Extract(x, n).value.aggregates|);
    case _ =>
  }

  // ---------------------------------------------------------------- meaning

  /** What constants, columns, aggregates and functions stand for within one group, in any domain of
      values; `none` is the value of a column that is missing. */
  datatype Meaning<!V> = Meaning(lit: int -> V, none: V, col: string -> V, agg: Aggregated -> V, f1: (nat, V) -> V, f2: (nat, V, V) -> V)

  ghost function Value<V>(e: Expr, m: Meaning<V>): V {
    match e
    case ColName(name) => m.col(name)
    case Const(v) => m.lit(v)
    case Func1(f, x) => m.f1(f, Value(x, m))
    case Func2(f, x, y) => m.f2(f, Value(x, m), Value(y, m))
    case Aggregate(op, x) => m.agg(Aggregated(op, x))
  }

  /** The meaning within the final pass: its columns are the results of the main phase. */
  ghost function Final<V>(m: Meaning<V>, select: seq<Expr>, aggregates: seq<Aggregated>): Meaning<V> {
    m.(col := (name: string) => FinalColumn(m, select, aggregates, name))
  }

  ghost function FinalColumn<V>(m: Meaning<V>, select: seq<Expr>, aggregates: seq<Aggregated>, name: string): V {
    if exists i: nat :: i < |select| && Cs(i) == name then
      var i: nat :| i < |select| && Cs(i) == name; Value(select[i], m)
    else if exists i: nat :: i < |aggregates| && Ca(i) == name then
      var i: nat :| i < |aggregates| && Ca(i) == name; m.agg(aggregates[i])
    else m.none
  }

  lemma FinalColumns<V>(m: Meaning<V>, select: seq<Expr>, aggregates: seq<Aggregated>, i: nat)
    ensures i < |select| ==> Final(m, select, aggregates).col(Cs(i)) == Value(select[i], m)
    ensures i < |aggregates| ==> Final(m, select, aggregates).col(Ca(i)) == m.agg(aggregates[i])
  {
    forall j: nat ensures Cs(j) == Cs(i) ==> j == i { NamesUnique(j, i); }
    forall j: nat ensures Ca(j) == Ca(i) ==> j == i { NamesUnique(j, i); }
    forall j: nat ensures Cs(j) != Ca(i) { NamesUnique(j, i); }
  }

  /** The final pass has the column: it is a group-by column that goes by its own name. */
  ghost predicate ColumnKept(name: string, select: seq<Expr>) {
    exists i: nat :: i < |select| && name == Cs(i) && select[i] == ColName(name)
  }

  /** It has all columns that are not under an aggregate; above all if there are none. */
  ghost predicate ColumnsKept(e: Expr, select: seq<Expr>) {
    match e
    case ColName(name) => ColumnKept(name, select)
    case Func1(_, x) => ColumnsKept(x, select)
    case Func2(_, x, y) => ColumnsKept(x, select) && ColumnsKept(y, select)
    case _ => true
  }

  /** No column beside an aggregate has the name of one of the `n` group-by columns. */
  ghost predicate NoneReserved(e: Expr, n: nat) {
    match e
    case ColName(name) => forall i: nat :: i < n ==> name != Cs(i)
    case Func1(_, x) => NoneReserved(x, n)
    case Func2(_, x, y) => NoneReserved(x, n) && NoneReserved(y, n)
    case _ => true
  }

  /** Unless a column has such a name, the final pass has the columns beside aggregates only if there
      are none. */
  lemma {:induction false} OnlyUnderKept(e: Expr, select: seq<Expr>)
    ensures OnlyUnder(e) ==> ColumnsKept(e, select)
    ensures NoneReserved(e, |select|) ==> (ColumnsKept(e, select) <==> OnlyUnder(e))
  {
    match e
    case Func1(_, x) => OnlyUnderKept(x, select);
    case Func2(_, x, y) => OnlyUnderKept(x, select); OnlyUnderKept(y, select);
    case _ =>
  }

  /** The aggregates from number `n` on are those given. */
  ghost predicate Stored(aggregates: seq<Aggregated>, n: nat, part: seq<Aggregated>) {
    n + |part| <= |aggregates| && forall i :: 0 <= i < |part| ==> aggregates[n + i] == part[i]
  }

  /** Replacing aggregates by column names keeps the meaning. */
  lemma {:induction false} ExtractMeans<V>(e: Expr, n: nat, m: Meaning<V>, select: seq<Expr>, aggregates: seq<Aggregated>)
    requires NotNested(e) && ColumnsKept(e, select) && Stored(aggregates, n, Extract(e, n).value.aggregates)
    ensures Value(Extract(e, n).value.expr, Final(m, select, aggregates)) == Value(e, m)
  {
    match e
    case Aggregate(op, x) =>
      assert Extract(e, n).value.aggregates[0] == Aggregated(op, x);
      FinalColumns(m, select, aggregates, n);
    case Func1(_, x) =>
      ExtractMeans(x, n, m, select, aggregates);
    case Func2(_, x, y) =>
      var a, b := Extract(x, n).value.aggregates, Extract(y, n + |Extract(x, n).value.aggregates|).value.aggregates;
      StoredParts(aggregates, n, a, b);
      ExtractMeans(x, n, m, select, aggregates);
      ExtractMeans(y, n + |a|, m, select, aggregates);
    case ColName(name) =>
      var i: nat :| i < |select| && name == Cs(i) && select[i] == ColName(name);
      FinalColumns(m, select, aggregates, i);
    case Const(_) =>
  }

  // ---------------------------------------------------------------- normalization

  datatype LimitClause = LimitClause(limit: nat, offset: nat)

  /** A query in normal form. */
  datatype NormalForm = NormalForm(projection: seq<Expr>, filter: Expr, aggregate: seq<Aggregated>, orderBy: seq<(Expr, bool)>, limit: LimitClause)

  const U64_MAX: nat := 0xffff_ffff_ffff_ffff

  /** In the final pass `x` stands for `e`: for the group-by column that computes `e`, or for `e`
      with its aggregates replaced by the names of those computed. */
  ghost predicate StandsFor(x: Expr, e: Expr, select: seq<Expr>, aggregates: seq<Aggregated>) {
    && NotNested(e)
    && if HasAggregate(e) then exists n: nat :: IsExtracted(x, e, n, aggregates)
       else exists i: nat :: i < |select| && x == ColName(Cs(i)) && select[i] == e
  }

  ghost predicate IsExtracted(x: Expr, e: Expr, n: nat, aggregates: seq<Aggregated>)
    requires NotNested(e)
  {
    Stored(aggregates, n, Extract(e, n).value.aggregates) && x == Extract(e, n).value.expr
  }

  /** It means the same, if the final pass has the columns beside aggregates. */
  lemma SameMeaning<V>(x: Expr, e: Expr, m: Meaning<V>, select: seq<Expr>, aggregates: seq<Aggregated>)
    requires StandsFor(x, e, select, aggregates) && (HasAggregate(e) ==> ColumnsKept(e, select))
    ensures Value(x, Final(m, select, aggregates)) == Value(e, m) && !HasAggregate(x)
  {
    if HasAggregate(e) {
      var n: nat :| IsExtracted(x, e, n, aggregates);
      ExtractMeans(e, n, m, select, aggregates);
      ExtractShape(e, n);
    } else {
      var i: nat :| i < |select| && x == ColName(Cs(i)) && select[i] == e;
      FinalColumns(m, select, aggregates, i);
    }
  }

  lemma StoredParts(aggregates: seq<Aggregated>, n: nat, a: seq<Aggregated>, b: seq<Aggregated>)
    requires Stored(aggregates, n, a + b)
    ensures Stored(aggregates, n, a) && Stored(aggregates, n + |a|, b)
  {
    assert forall i :: 0 <= i < |a| ==> (a + b)[i] == a[i];
    assert forall i :: 0 <= i < |b| ==> (a + b)[|a| + i] == b[i];
  }

  /** Every expression stands for itself. */
  ghost function Free(): Meaning<Expr> {
    Meaning((v: int) => Const(v), Const(0), (name: string) => ColName(name), (a: Aggregated) => Aggregate(a.op, a.e),
            (f: nat, x: Expr) => Func1(f, x), (f: nat, x: Expr, y: Expr) => Func2(f, x, y))
  }

  lemma {:induction false} FreeValue(e: Expr)
    ensures Value(e, Free()) == e
  {
    match e
    case Func1(_, x) => FreeValue(x);
    case Func2(_, x, y) => FreeValue(x); FreeValue(y);
    case _ =>
  }

  /** A column stands for itself in the final pass only if the final pass has it. */
  lemma FreeColumn(name: string, select: seq<Expr>, aggregates: seq<Aggregated>)
    ensures Final(Free(), select, aggregates).col(name) == ColName(name) <==> ColumnKept(name, select)
  {
    if i: nat :| i < |select| && Cs(i) == name {
      FinalColumns(Free(), select, aggregates, i);
      FreeValue(select[i]);
      if ColumnKept(name, select) {
        var j: nat :| j < |select| && name == Cs(j) && select[j] == ColName(name);
        NamesUnique(i, j);
      }
    } else if i: nat :| i < |aggregates| && Ca(i) == name {
      FinalColumns(Free(), select, aggregates, i);
    }
  }

  /** With the free meaning the final expression is the original one, if and only if the final pass
      has the columns beside aggregates. */
  lemma {:induction false} FreeExtracted(e: Expr, n: nat, select: seq<Expr>, aggregates: seq<Aggregated>)
    requires NotNested(e) && Stored(aggregates, n, Extract(e, n).value.aggregates)
    ensures Value(Extract(e, n).value.expr, Final(Free(), select, aggregates)) == e <==> ColumnsKept(e, select)
  {
    match e
    case ColName(name) => FreeColumn(name, select, aggregates);
    case Aggregate(op, x) =>
      assert Extract(e, n).value.aggregates[0] == Aggregated(op, x);
      FinalColumns(Free(), select, aggregates, n);
    case Func1(_, x) => FreeExtracted(x, n, select, aggregates);
    case Func2(_, x, y) =>
      var a, b := Extract(x, n).value.aggregates, Extract(y, n + |Extract(x, n).value.aggregates|).value.aggregates;
      StoredParts(aggregates, n, a, b);
      FreeExtracted(x, n, select, aggregates);
      FreeExtracted(y, n + |a|, select, aggregates);
    case Const(_) =>
  }

  /** The final expression means the same as the original one, if and only if the original has no
      aggregate or the final pass has the columns beside its aggregates.  Meanings over expressions
      decide for all: by `SameMeaning` the condition is enough for values of any kind. */
  lemma MeaningKept(x: Expr, e: Expr, select: seq<Expr>, aggregates: seq<Aggregated>)
    requires StandsFor(x, e, select, aggregates)
    ensures (forall m: Meaning<Expr> :: Value(x, Final(m, select, aggregates)) == Value(e, m)) <==> (HasAggregate(e) ==> ColumnsKept(e, select))
  {
    if HasAggregate(e) ==> ColumnsKept(e, select) {
      forall m: Meaning<Expr> ensures Value(x, Final(m, select, aggregates)) == Value(e, m) {
        SameMeaning(x, e, m, select, aggregates);
      }
    } else {
      var n: nat :| IsExtracted(x, e, n, aggregates);
      FreeExtracted(e, n, select, aggregates);
      FreeValue(e);
      assert Value(x, Final(Free(), select, aggregates)) != Value(e, Free());
    }
  }

  /** More group-by columns and aggregates change nothing. */
  lemma StillStands(x: Expr, e: Expr, select: seq<Expr>, aggregates: seq<Aggregated>, select': seq<Expr>, aggregates': seq<Aggregated>)
    requires StandsFor(x, e, select, aggregates) && select <= select' && aggregates <= aggregates'
    ensures StandsFor(x, e, select', aggregates')
  {
    if HasAggregate(e) {
      var n: nat :| IsExtracted(x, e, n, aggregates);
      assert IsExtracted(x, e, n, aggregates');
    }
  }

  ghost predicate AllStand(xs: seq<Expr>, es: seq<Expr>, select: seq<Expr>, aggregates: seq<Aggregated>) {
    |xs| == |es| && forall i :: 0 <= i < |xs| ==> StandsFor(xs[i], es[i], select, aggregates)
  }

  /** What is computed has no aggregates within. */
  ghost predicate Plain(select: seq<Expr>, aggregates: seq<Aggregated>) {
    && (forall i :: 0 <= i < |select| ==> !HasAggregate(select[i]))
    && (forall i :: 0 <= i < |aggregates| ==> !HasAggregate(aggregates[i].e))
  }

  lemma AllStill(xs: seq<Expr>, es: seq<Expr>, select: seq<Expr>, aggregates: seq<Aggregated>, select': seq<Expr>, aggregates': seq<Aggregated>)
    requires AllStand(xs, es, select, aggregates) && select <= select' && aggregates <= aggregates'
    ensures AllStand(xs, es, select', aggregates')
  {
    forall i | 0 <= i < |xs| ensures StandsFor(xs[i], es[i], select', aggregates') {
      StillStands(xs[i], es[i], select, aggregates, select', aggregates');
    }
  }

  /** Extracts the aggregates of the expressions `es` on top of what is computed already. */
  method ExtractAll(es: seq<Expr>, select0: seq<Expr>, aggregates0: seq<Aggregated>)
    returns (ok: bool, xs: seq<Expr>, select: seq<Expr>, aggregates: seq<Aggregated>)
    requires Plain(select0, aggregates0)
    ensures ok <==> forall i :: 0 <= i < |es| ==> NotNested(es[i])
    ensures ok ==> AllStand(xs, es, select, aggregates) && select0 <= select && aggregates0 <= aggregates && Plain(select, aggregates)
    ensures ok ==> (aggregates == aggregates0 <==> forall i :: 0 <= i < |es| ==> !HasAggregate(es[i]))
    ensures ok ==> forall i :: 0 <= i < |es| ==> (xs[i].ColName? <==> !HasAggregate(es[i]) || es[i].Aggregate?)
  {
    xs, select, aggregates := [], select0, aggregates0;
    for k := 0 to |es|
      invariant forall i :: 0 <= i < k ==> NotNested(es[i])
      invariant AllStand(xs, es[..k], select, aggregates) && select0 <= select && aggregates0 <= aggregates && Plain(select, aggregates)
      invariant aggregates == aggregates0 <==> forall i :: 0 <= i < k ==> !HasAggregate(es[i])
      invariant forall i :: 0 <= i < k ==> (xs[i].ColName? <==> !HasAggregate(es[i]) || es[i].Aggregate?)
    {
      var fine, x, s, a := ExtractOne(es[k], select, aggregates);
      if !fine {
        return false, xs, select, aggregates;
      }
      AllStill(xs, es[..k], select, aggregates, s, a);
      PrefixSnoc(es, k);
      xs, select, aggregates := xs + [x], s, a;
    }
    ok := true;
    Whole(es);
  }

  /** Extracts the aggregates of one expression. */
  method ExtractOne(e: Expr, select: seq<Expr>, aggregates: seq<Aggregated>)
    returns (ok: bool, x: Expr, select': seq<Expr>, aggregates': seq<Aggregated>)
    requires Plain(select, aggregates)
    ensures ok <==> NotNested(e)
    ensures ok ==> StandsFor(x, e, select', aggregates') && select <= select' && aggregates <= aggregates' && Plain(select', aggregates')
    ensures ok ==> (aggregates' == aggregates <==> !HasAggregate(e)) && (x.ColName? <==> !HasAggregate(e) || e.Aggregate?)
  {
    var r := Extract(e, |aggregates|);
    if r.Err? {
      return false, e, select, aggregates;
    }
    ExtractShape(e, |aggregates|);
    select', aggregates' := select, aggregates;
    if r.value.aggregates == [] {
      x := ColName(Cs(|select|));
      select' := select + [r.value.expr];
      assert select'[|select|] == e;
    } else {
      x := r.value.expr;
      aggregates' := aggregates + r.value.aggregates;
      assert IsExtracted(x, e, |aggregates|, aggregates');
    }
    ok := true;
  }

  function Exprs(orderBy: seq<(Expr, bool)>): (r: seq<Expr>)
    ensures |r| == |orderBy| && forall i :: 0 <= i < |r| ==> r[i] == orderBy[i].0
  {
    seq(|orderBy|, i requires 0 <= i < |orderBy| => orderBy[i].0)
  }

  /** A final pass is needed to combine aggregates, or to order by anything when there are any. */
  ghost predicate NeedsFinalPass(select: seq<Expr>, orderBy: seq<(Expr, bool)>) {
    exists i :: 0 <= i < |select| && HasAggregate(select[i]) && (orderBy != [] || !select[i].Aggregate?)
  }

  ghost predicate AllNotNested(es: seq<Expr>) {
    forall i :: 0 <= i < |es| ==> NotNested(es[i])
  }

  /** `normalize`. */
  method Normalize(select: seq<Expr>, filter: Expr, orderBy: seq<(Expr, bool)>, limit: LimitClause)
    returns (r: Result<(NormalForm, Option<NormalForm>)>, ghost projection: seq<Expr>)
    ensures r.Ok? <==> AllNotNested(select) && (NeedsFinalPass(select, orderBy) ==> AllNotNested(Exprs(orderBy)))
    ensures r.Ok? ==>
              var (main, fin) := r.value;
              && Plain(main.projection, main.aggregate) && AllStand(projection, select, main.projection, main.aggregate)
              && (fin.Some? <==> NeedsFinalPass(select, orderBy))
              && main.filter == filter && (fin.Some? ==> fin.value.filter == Const(1))
              && (fin.Some? ==> fin.value.projection == projection && main.orderBy == [] && main.limit == LimitClause(U64_MAX, 0)
                                && fin.value.limit == limit && fin.value.aggregate == []
                                && AllStand(Exprs(fin.value.orderBy), Exprs(orderBy), main.projection, main.aggregate)
                                && forall i :: 0 <= i < |orderBy| ==> fin.value.orderBy[i].1 == orderBy[i].1)
              && (fin.None? ==> main.orderBy == orderBy && main.limit == limit
                                && forall i :: 0 <= i < |projection| ==> projection[i].ColName?)
  {
    var ok, finalProjection, sel, agg := ExtractAll(select, [], []);
    projection := finalProjection;
    if !ok {
      return Err(TypeError), projection;
    }
    var requireFinalPass := (agg != [] && orderBy != []) || exists i :: 0 <= i < |finalProjection| && !finalProjection[i].ColName?;
    FinalPassNeeded(select, orderBy, finalProjection, agg);
    if requireFinalPass {
      var fine, xs, sel', agg' := ExtractAll(Exprs(orderBy), sel, agg);
      if !fine {
        return Err(TypeError), projection;
      }
      AllStill(finalProjection, select, sel, agg, sel', agg');
      var finalOrderBy := seq(|orderBy|, i requires 0 <= i < |orderBy| => (xs[i], orderBy[i].1));
      assert Exprs(finalOrderBy) == xs;
      r := Ok((NormalForm(sel', filter, agg', [], LimitClause(U64_MAX, 0)), Some(NormalForm(finalProjection, Const(1), [], finalOrderBy, limit))));
    } else {
      r := Ok((NormalForm(sel, filter, agg, orderBy, limit), None));
    }
  }

  lemma FinalPassNeeded(select: seq<Expr>, orderBy: seq<(Expr, bool)>, xs: seq<Expr>, agg: seq<Aggregated>)
    requires |xs| == |select| && (agg == [] <==> forall i :: 0 <= i < |select| ==> !HasAggregate(select[i]))
    requires forall i :: 0 <= i < |select| ==> (xs[i].ColName? <==> !HasAggregate(select[i]) || select[i].Aggregate?)
    ensures NeedsFinalPass(select, orderBy) <==> (agg != [] && orderBy != []) || exists i :: 0 <= i < |xs| && !xs[i].ColName?
  {
    if agg != [] && orderBy != [] {
      var i :| 0 <= i < |select| && HasAggregate(select[i]);
    }
  }

  ghost predicate NoAggregateIn(es: seq<Expr>) {
    forall i :: 0 <= i < |es| ==> !HasAggregate(es[i])
  }

  /** No aggregate survives in any expression of the normal form, if and only if the filter has none,
      and the order-by expressions have none or the selected ones have some. */
  lemma NoneSurvives(select: seq<Expr>, filter: Expr, orderBy: seq<(Expr, bool)>, main: NormalForm, fin: Option<NormalForm>, projection: seq<Expr>)
    requires main.filter == filter && (fin.Some? ==> fin.value.filter == Const(1))
    requires Plain(main.projection, main.aggregate) && AllStand(projection, select, main.projection, main.aggregate)
    requires fin.Some? <==> NeedsFinalPass(select, orderBy)
    requires fin.Some? ==> fin.value.projection == projection && main.orderBy == [] && AllStand(Exprs(fin.value.orderBy), Exprs(orderBy), main.projection, main.aggregate)
    requires fin.None? ==> main.orderBy == orderBy
    ensures (&& NoAggregateIn(main.projection) && !HasAggregate(main.filter) && NoAggregateIn(Exprs(main.orderBy))
             && (fin.Some? ==> NoAggregateIn(fin.value.projection) && !HasAggregate(fin.value.filter) && NoAggregateIn(Exprs(fin.value.orderBy))))
            <==> !HasAggregate(filter) && (NoAggregateIn(Exprs(orderBy)) || !NoAggregateIn(select))
  {
    if fin.Some? {
      forall i | 0 <= i < |projection| ensures !HasAggregate(projection[i]) {
        StandPlain(projection[i], select[i], main.projection, main.aggregate);
      }
      var xs := Exprs(fin.value.orderBy);
      forall i | 0 <= i < |xs| ensures !HasAggregate(xs[i]) {
        StandPlain(xs[i], Exprs(orderBy)[i], main.projection, main.aggregate);
      }
      var i :| 0 <= i < |select| && HasAggregate(select[i]);
      assert !NoAggregateIn(select);
    } else if !NoAggregateIn(select) {
      var i :| 0 <= i < |select| && HasAggregate(select[i]);
      assert orderBy == [];
    }
  }

  lemma StandPlain(x: Expr, e: Expr, select: seq<Expr>, aggregates: seq<Aggregated>)
    requires StandsFor(x, e, select, aggregates)
    ensures !HasAggregate(x)
  {
    if HasAggregate(e) {
      var n: nat :| IsExtracted(x, e, n, aggregates);
      ExtractShape(e, n);
    }
  }

  /** A column beside an aggregate is lost: the final pass does not have it. */
  lemma BareColumnLost(m: Meaning<int>)
    requires m.none == 0 && m.col("x") == 1 && m.agg(Aggregated(Count, Const(1))) == 1 && m.f2 == ((f: nat, a: int, b: int) => a + b)
    ensures var e := Func2(0, ColName("x"), Aggregate(Count, Const(1)));
            var r := Extract(e, 0).value;
            !OnlyUnder(e) && Value(r.expr, Final(m, [], r.aggregates)) != Value(e, m)
  {
    var e := Func2(0, ColName("x"), Aggregate(Count, Const(1)));
    var r := Extract(e, 0).value;
    assert r.aggregates == [] + [Aggregated(Count, Const(1))] == [Aggregated(Count, Const(1))];
    FinalColumns(m, [], r.aggregates, 0);
    assert forall i: nat :: |Ca(i)| > 1;
  }
}
