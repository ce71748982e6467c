/**
 * The filter-key engine of the query class: every key of a filter map has the form
 * `<field>__<operator>`, names one of eight comparison operators, and narrows the
 * query by one more condition, so the result is the conjunction of all of them.
 * Records are maps from column name to integer value.
 */
module Filters {
  import opened Outcomes

  datatype Op = Eq | In | Like | ILike | Gt | Lt | Gte | Lte

  /** The name each operator is looked up by. */
  function OpName(op: Op): string {
    match op
    case Eq => "eq"
    case In => "in"
    case Like => "like"
    case ILike => "ilike"
    case Gt => "gt"
    case Lt => "lt"
    case Gte => "gte"
    case Lte => "lte"
  }

  /** The operator table: exactly the eight names above. */
  function OperatorNamed(name: string): (r: Option<Op>)
    ensures r.Some? ==> OpName(r.value) == name
    ensures (exists op :: OpName(op) == name) ==> r.Some?
  {
    if name == "eq" then Some(Eq)
    else if name == "in" then Some(In)
    else if name == "like" then Some(Like)
    else if name == "ilike" then Some(ILike)
    else if name == "gt" then Some(Gt)
    else if name == "lt" then Some(Lt)
    else if name == "gte" then Some(Gte)
    else if name == "lte" then Some(Lte)
    else None
  }

  lemma OperatorTable(op: Op)
    ensures OperatorNamed(OpName(op)) == Some(op)
    ensures '_' !in OpName(op) && OpName(op) != ""
  {
  }

  predicate SepAt(s: string, j: int)
    requires 0 <= j && j + 1 < |s|
  {
    s[j] == '_' && s[j + 1] == '_'
  }

  /** The position of the first `"__"` in `s`, if any. */
  function FindSep(s: string): (r: Option<nat>)
    ensures r.Some? ==> r.value + 1 < |s| && SepAt(s, r.value)
    ensures r.Some? ==> forall j :: 0 <= j < r.value ==> !SepAt(s, j)
    ensures r.None? ==> forall j :: 0 <= j && j + 1 < |s| ==> !SepAt(s, j)
  {
    if |s| < 2 then None
    else if s[0] == '_' && s[1] == '_' then Some(0)
    else
      assert forall j :: 1 <= j && j + 1 < |s| ==> (SepAt(s, j) <==> SepAt(s[1..], j - 1));
      match FindSep(s[1..])
      case Some(i) => Some(i + 1)
      case None => None
  }

  /** The first separator is where `FindSep` reports it. */
  lemma FindSepIs(s: string, k: nat)
    requires k + 1 < |s| && SepAt(s, k)
    requires forall j :: 0 <= j < k ==> !SepAt(s, j)
    ensures FindSep(s) == Some(k)
  {
  }

  /** A string without an underscore holds no separator. */
  lemma NoSepWithoutUnderscore(s: string)
    requires '_' !in s
    ensures FindSep(s).None?
  {
  }

  /** `s.split("__")`: the pieces between non-overlapping separators, read left to right. */
  function Split(s: string): (parts: seq<string>)
    ensures |parts| >= 1
    ensures |parts| == 1 <==> FindSep(s).None?
    decreases |s|
  {
    match FindSep(s)
    case None => [s]
    case Some(i) => [s[..i]] + Split(s[i + 2..])
  }

  /** A filter value: one number, a list of numbers (for `in`), or a pattern (for `like`, `ilike`). */
  datatype FilterValue = Scalar(n: int) | Many(ns: seq<int>) | Pattern(p: string)

  /** The queried model: its name and the attributes a filter may name. */
  datatype Model = Model(name: string, columns: set<string>)

  datatype Condition = Condition(column: string, op: Op, value: FilterValue)

  /** Whether the operator accepts a value of this shape. */
  predicate Fits(op: Op, v: FilterValue) {
    match op
    case In => v.Many?
    case Like => v.Pattern?
    case ILike => v.Pattern?
    case _ => v.Scalar?
  }

  function NoOperator(key: string): string {
    "No operator specified for field '" + key + "'"
  }

  const TooManyParts: string := "too many values to unpack (expected 2)"

  function NoAttribute(model: string, field: string): string {
    "type object '" + model + "' has no attribute '" + field + "'"
  }

  /**
   * One key of the filter map, checked in the order the loop body meets the failures:
   * the separator, the split into exactly two parts, the operator table, the model's
   * attribute, and the operand the operator is applied to.
   */
  function ParseKey(key: string, value: FilterValue, model: Model): (r: Result<Condition>)
    ensures r.Ok? ==> r.value.column in model.columns && r.value.value == value && Fits(r.value.op, value)
    ensures r.Ok? ==> Split(key) == [r.value.column, OpName(r.value.op)]
    ensures r.Err? ==> r.error.ValueError? || r.error.KeyError? || r.error.AttributeError? || r.error.ArgumentError?
  {
    var parts := Split(key);
    if |parts| == 1 then Err(ValueError(NoOperator(key)))
    else if |parts| > 2 then Err(ValueError(TooManyParts))
    else
      match OperatorNamed(parts[1])
      case None => Err(KeyError(parts[1]))
      case Some(op) =>
        if parts[0] !in model.columns then Err(AttributeError(NoAttribute(model.name, parts[0])))
        else if !Fits(op, value) then Err(ArgumentError("unsupported operand for operator '" + parts[1] + "'"))
        else Ok(Condition(parts[0], op, value))
  }

  /** A key without `"__"` is refused, naming the key. */
  lemma KeyWithoutOperator(key: string, value: FilterValue, model: Model)
    requires forall j :: 0 <= j && j + 1 < |key| ==> !SepAt(key, j)
    ensures ParseKey(key, value, model) == Err(ValueError(NoOperator(key)))
  {
  }

  /** In `a + "__" + b`, with no separator inside `a` and none formed at its end, the first separator follows `a`. */
  lemma FirstSepAfter(a: string, b: string)
    requires FindSep(a).None?
    requires a == [] || a[|a| - 1] != '_'
    ensures FindSep(a + "__" + b) == Some(|a|)
    ensures (a + "__" + b)[..|a|] == a && (a + "__" + b)[|a| + 2..] == b
  {
    var s := a + "__" + b;
    forall j | 0 <= j < |a|
      ensures !SepAt(s, j)
    {
      if j + 1 < |a| {
        assert !SepAt(a, j);
      } else {
        assert s[j] == a[|a| - 1];
      }
    }
    FindSepIs(s, |a|);
    assert s[..|a|] == a;
    assert s[|a| + 2..] == b;
  }

  lemma SplitTwo(a: string, b: string)
    requires FindSep(a).None? && FindSep(b).None?
    requires a == [] || a[|a| - 1] != '_'
    ensures Split(a + "__" + b) == [a, b]
  {
    FirstSepAfter(a, b);
  }

  /** A key built from a column and an operator name parses back to that condition. */
  lemma ParseKeyRoundTrip(column: string, op: Op, value: FilterValue, model: Model)
    requires column in model.columns && Fits(op, value)
    requires FindSep(column).None? && (column == [] || column[|column| - 1] != '_')
    ensures ParseKey(column + "__" + OpName(op), value, model) == Ok(Condition(column, op, value))
  {
    OperatorTable(op);
    NoSepWithoutUnderscore(OpName(op));
    SplitTwo(column, OpName(op));
  }

  /** A key that parses is exactly its column and its operator's name joined by `"__"`. */
  lemma ParseKeyInverse(key: string, value: FilterValue, model: Model)
    requires ParseKey(key, value, model).Ok?
    ensures var c := ParseKey(key, value, model).value;
      key == c.column + "__" + OpName(c.op) && c.column in model.columns && c.value == value && Fits(c.op, value)
  {
    var i := FindSep(key).value;
    var rest := key[i + 2..];
    assert Split(key) == [key[..i]] + Split(rest);
    assert Split(rest) == [rest];
    assert key == key[..i] + "__" + rest;
  }

  /** A key with a second separator is refused, whatever its parts. */
  lemma TooManySeparators(a: string, b: string, c: string, value: FilterValue, model: Model)
    requires FindSep(a).None? && (a == [] || a[|a| - 1] != '_')
    requires FindSep(b).None? && (b == [] || b[|b| - 1] != '_')
    ensures ParseKey(a + "__" + b + "__" + c, value, model) == Err(ValueError(TooManyParts))
  {
    SplitMany(a, b, c);
  }

  lemma SplitMany(a: string, b: string, c: string)
    requires FindSep(a).None? && (a == [] || a[|a| - 1] != '_')
    requires FindSep(b).None? && (b == [] || b[|b| - 1] != '_')
    ensures |Split(a + "__" + b + "__" + c)| > 2
  {
    var rest := b + "__" + c;
    assert a + "__" + b + "__" + c == a + "__" + rest;
    FirstSepAfter(a, rest);
    FirstSepAfter(b, c);
    assert |Split(rest)| >= 2;
    assert Split(a + "__" + rest) == [a] + Split(rest);
  }

  /** An operator outside the table fails at the lookup, with the name as the missing key. */
  lemma UnknownOperator(column: string, name: string, value: FilterValue, model: Model)
    requires FindSep(column).None? && (column == [] || column[|column| - 1] != '_')
    requires FindSep(name).None? && OperatorNamed(name).None?
    ensures ParseKey(column + "__" + name, value, model) == Err(KeyError(name))
  {
    SplitTwo(column, name);
  }

  /** The SQL `LIKE` and `ILIKE` tests, which this model does not interpret. */
  datatype Dialect = Dialect(like: (int, string) -> bool, ilike: (int, string) -> bool)

  type Row = map<string, int>

  /** What each operator means on a record's column value. */
  predicate Holds(c: Condition, row: Row, d: Dialect)
    ensures Holds(c, row, d) ==> c.column in row && Fits(c.op, c.value)
  {
    c.column in row &&
    var x := row[c.column];
    match c.value
    case Scalar(n) =>
      (c.op == Eq && x == n) || (c.op == Gt && x > n) || (c.op == Lt && x < n)
      || (c.op == Gte && x >= n) || (c.op == Lte && x <= n)
    case Many(ns) => c.op == In && x in ns
    case Pattern(p) => (c.op == Like && d.like(x, p)) || (c.op == ILike && d.ilike(x, p))
  }

  predicate AllHold(cs: seq<Condition>, row: Row, d: Dialect) {
    forall i :: 0 <= i < |cs| ==> Holds(cs[i], row, d)
  }

  /** The records satisfying every condition, in their original order. */
  function Selected(rows: seq<Row>, cs: seq<Condition>, d: Dialect): (r: seq<Row>)
    ensures |r| <= |rows|
  {
    if rows == [] then []
    else (if AllHold(cs, rows[0], d) then [rows[0]] else []) + Selected(rows[1..], cs, d)
  }

  /** Every key parsed, in order; the first key that fails decides the error. */
  function Compile(fs: seq<(string, FilterValue)>, model: Model): (r: Result<seq<Condition>>)
    ensures r.Ok? ==> |r.value| == |fs|
  {
    if fs == [] then Ok([])
    else
      match Compile(fs[..|fs| - 1], model)
      case Err(e) => Err(e)
      case Ok(cs) =>
        match ParseKey(fs[|fs| - 1].0, fs[|fs| - 1].1, model)
        case Err(e) => Err(e)
        case Ok(c) => Ok(cs + [c])
  }

  /** `apply_filters` as a whole: no query at all when a key fails, else the selected records. */
  function Filtered(rows: seq<Row>, model: Model, fs: seq<(string, FilterValue)>, d: Dialect): (r: Result<seq<Row>>)
    ensures r.Ok? <==> Compile(fs, model).Ok?
    ensures r.Err? ==> r.error == Compile(fs, model).error
    ensures r.Ok? ==> |r.value| <= |rows|
    ensures r.Ok? ==> forall x :: x in r.value <==> x in rows && AllHold(Compile(fs, model).value, x, d)
  {
    match Compile(fs, model)
    case Err(e) => Err(e)
    case Ok(cs) => SelectedExactly(rows, cs, d); Ok(Selected(rows, cs, d))
  }

  lemma {:induction false} SelectedNarrow(rows: seq<Row>, cs: seq<Condition>, c: Condition, d: Dialect)
    ensures Selected(Selected(rows, cs, d), [c], d) == Selected(rows, cs + [c], d)
  {
    if rows != [] {
      SelectedNarrow(rows[1..], cs, c, d);
      var head := if AllHold(cs, rows[0], d) then [rows[0]] else [];
      SelectedConcat(head, Selected(rows[1..], cs, d), [c], d);
      assert AllHold(cs + [c], rows[0], d) <==> AllHold(cs, rows[0], d) && Holds(c, rows[0], d) by {
        assert forall i :: 0 <= i < |cs| ==> (cs + [c])[i] == cs[i];
        assert (cs + [c])[|cs|] == c;
      }
      if head != [] {
        assert Selected(head, [c], d) == (if AllHold([c], rows[0], d) then [rows[0]] else []);
      }
    }
  }

  /** Selection distributes over concatenation, so the kept records keep their order. */
  lemma {:induction false} SelectedConcat(a: seq<Row>, b: seq<Row>, cs: seq<Condition>, d: Dialect)
    ensures Selected(a + b, cs, d) == Selected(a, cs, d) + Selected(b, cs, d)
  {
    if a == [] {
      assert a + b == b;
    } else {
      assert (a + b)[1..] == a[1..] + b;
      SelectedConcat(a[1..], b, cs, d);
    }
  }

  /** A record is selected exactly when it is one of the records and meets every condition. */
  lemma {:induction false} SelectedMembers(rows: seq<Row>, cs: seq<Condition>, d: Dialect, x: Row)
    ensures x in Selected(rows, cs, d) <==> x in rows && AllHold(cs, x, d)
  {
    if rows != [] {
      SelectedMembers(rows[1..], cs, d, x);
      assert x in rows <==> x == rows[0] || x in rows[1..];
    }
  }

  /** The selected records are exactly the records meeting every condition. */
  lemma SelectedExactly(rows: seq<Row>, cs: seq<Condition>, d: Dialect)
    ensures forall x :: x in Selected(rows, cs, d) <==> x in rows && AllHold(cs, x, d)
  {
    forall x {
      SelectedMembers(rows, cs, d, x);
    }
  }

  /** With no conditions every record is kept, in order. */
  lemma {:induction false} SelectedNone(rows: seq<Row>, d: Dialect)
    ensures Selected(rows, [], d) == rows
  {
    if rows != [] {
      SelectedNone(rows[1..], d);
    }
  }

  /** The selection depends on the set of conditions only, not on their order. */
  lemma {:induction false} SelectedOrderFree(rows: seq<Row>, cs: seq<Condition>, cs': seq<Condition>, d: Dialect)
    requires forall c :: c in cs <==> c in cs'
    ensures Selected(rows, cs, d) == Selected(rows, cs', d)
  {
    if rows != [] {
      SelectedOrderFree(rows[1..], cs, cs', d);
      assert AllHold(cs, rows[0], d) <==> AllHold(cs', rows[0], d) by {
        if AllHold(cs, rows[0], d) {
          forall i | 0 <= i < |cs'| ensures Holds(cs'[i], rows[0], d) {
            assert cs'[i] in cs;
          }
        }
        if AllHold(cs', rows[0], d) {
          forall i | 0 <= i < |cs| ensures Holds(cs[i], rows[0], d) {
            assert cs[i] in cs';
          }
        }
      }
    }
  }

  /** A compiled filter map holds one condition per key, each the key's own parse. */
  lemma {:induction false} CompileOk(fs: seq<(string, FilterValue)>, model: Model)
    requires Compile(fs, model).Ok?
    ensures forall i :: 0 <= i < |fs| ==> ParseKey(fs[i].0, fs[i].1, model) == Ok(Compile(fs, model).value[i])
  {
    if fs != [] {
      var init := fs[..|fs| - 1];
      var last := fs[|fs| - 1];
      CompileOk(init, model);
      var cs := Compile(init, model).value;
      var c := ParseKey(last.0, last.1, model).value;
      assert Compile(fs, model).value == cs + [c];
      forall i | 0 <= i < |fs|
        ensures ParseKey(fs[i].0, fs[i].1, model) == Ok(Compile(fs, model).value[i])
      {
        if i < |init| {
          assert fs[i] == init[i];
          assert (cs + [c])[i] == cs[i];
        }
      }
    }
  }

  /** Compilation fails exactly when some key fails to parse. */
  lemma {:induction false} CompileErr(fs: seq<(string, FilterValue)>, model: Model)
    ensures Compile(fs, model).Err? <==> exists i :: 0 <= i < |fs| && ParseKey(fs[i].0, fs[i].1, model).Err?
  {
    if fs != [] {
      var init := fs[..|fs| - 1];
      CompileErr(init, model);
      assert forall i :: 0 <= i < |init| ==> init[i] == fs[i];
      if Compile(fs, model).Ok? {
        CompileOk(fs, model);
      }
    }
  }

  /** Once a prefix of the keys fails, the whole map fails with the same error. */
  lemma {:induction false} CompileErrPersists(fs: seq<(string, FilterValue)>, k: int, model: Model)
    requires 0 <= k <= |fs| && Compile(fs[..k], model).Err?
    ensures Compile(fs, model) == Compile(fs[..k], model)
    decreases |fs|
  {
    if k < |fs| {
      var init := fs[..|fs| - 1];
      assert init[..k] == fs[..k];
      CompileErrPersists(init, k, model);
    } else {
      assert fs[..k] == fs;
    }
  }

  /** The order of the keys does not change which records a filter map selects. */
  lemma FilterOrderFree(rows: seq<Row>, model: Model, fs: seq<(string, FilterValue)>,
                        fs': seq<(string, FilterValue)>, d: Dialect)
    requires forall f :: f in fs <==> f in fs'
    requires Filtered(rows, model, fs, d).Ok?
    ensures Filtered(rows, model, fs', d) == Filtered(rows, model, fs, d)
  {
    var cs := Compile(fs, model).value;
    CompileOk(fs, model);
    assert forall i :: 0 <= i < |fs'| ==> ParseKey(fs'[i].0, fs'[i].1, model).Ok? by {
      forall i | 0 <= i < |fs'|
        ensures ParseKey(fs'[i].0, fs'[i].1, model).Ok?
      {
        assert fs'[i] in fs;
        var j :| 0 <= j < |fs| && fs[j] == fs'[i];
      }
    }
    CompileErr(fs', model);
    var cs' := Compile(fs', model).value;
    CompileOk(fs', model);
    SameConditions(fs, fs', model);
    SelectedOrderFree(rows, cs, cs', d);
  }

  /** Two compiled maps with the same keys hold the same conditions. */
  lemma SameConditions(fs: seq<(string, FilterValue)>, fs': seq<(string, FilterValue)>, model: Model)
    requires forall f :: f in fs <==> f in fs'
    requires Compile(fs, model).Ok? && Compile(fs', model).Ok?
    ensures forall c :: c in Compile(fs, model).value <==> c in Compile(fs', model).value
  {
    var cs := Compile(fs, model).value;
    var cs' := Compile(fs', model).value;
    CompileOk(fs, model);
    CompileOk(fs', model);
    forall c ensures c in cs <==> c in cs' {
      if c in cs {
        var i :| 0 <= i < |cs| && cs[i] == c;
        assert fs[i] in fs';
        var j :| 0 <= j < |fs'| && fs'[j] == fs[i];
        assert cs'[j] == c;
      }
      if c in cs' {
        var j :| 0 <= j < |cs'| && cs'[j] == c;
        assert fs'[j] in fs;
        var i :| 0 <= i < |fs| && fs[i] == fs'[j];
        assert cs[i] == c;
      }
    }
  }

  /** `apply_filters`: walks the map in order, narrowing the query by one condition per key. */
  method ApplyFilters(rows: seq<Row>, model: Model, filters: seq<(string, FilterValue)>, d: Dialect)
    returns (r: Result<seq<Row>>)
    ensures r == Filtered(rows, model, filters, d)
  {
    var query := rows;
    var cs: seq<Condition> := [];
    var i := 0;
    SelectedNone(rows, d);
    while i < |filters|
      invariant 0 <= i <= |filters|
      invariant Compile(filters[..i], model) == Ok(cs)
      invariant query == Selected(rows, cs, d)
    {
      var (key, value) := filters[i];
      assert filters[..i + 1][..i] == filters[..i];
      var c := ParseKey(key, value, model);
      if c.Err? {
        CompileErrPersists(filters, i + 1, model);
        return Err(c.error);
      }
      SelectedNarrow(rows, cs, c.value, d);
      query := Selected(query, [c.value], d);
      cs := cs + [c.value];
      i := i + 1;
    }
    assert filters[..i] == filters;
    r := Ok(query);
  }

  /** With an empty filter map the query comes back with every record. */
  lemma NoFilters(rows: seq<Row>, model: Model, d: Dialect)
    ensures Filtered(rows, model, [], d) == Ok(rows)
  {
    SelectedNone(rows, d);
  }

  /** `amount >= 10` and `kind in [1, 3]` together keep the one record meeting both. */
  lemma ConjunctionExample(d: Dialect)
    ensures Selected([map["amount" := 5, "kind" := 1], map["amount" := 50, "kind" := 1],
                      map["amount" := 50, "kind" := 2]],
                     [Condition("amount", Gte, Scalar(10)), Condition("kind", In, Many([1, 3]))], d)
            == [map["amount" := 50, "kind" := 1]]
  {
    var r0: Row := map["amount" := 5, "kind" := 1];
    var r1: Row := map["amount" := 50, "kind" := 1];
    var r2: Row := map["amount" := 50, "kind" := 2];
    var cs := [Condition("amount", Gte, Scalar(10)), Condition("kind", In, Many([1, 3]))];
    assert !AllHold(cs, r0, d) by { assert !Holds(cs[0], r0, d); }
    assert AllHold(cs, r1, d);
    assert !AllHold(cs, r2, d) by { assert !Holds(cs[1], r2, d); }
    assert Selected([r2], cs, d) == [];
    assert Selected([r1, r2], cs, d) == [r1] by { assert [r1, r2][1..] == [r2]; }
    assert Selected([r0, r1, r2], cs, d) == [r1] by { assert [r0, r1, r2][1..] == [r1, r2]; }
  }
}
