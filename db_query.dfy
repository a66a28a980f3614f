/**
 * The SQL text builders of the persistence layer: the field list, the WHERE
 * clause with its bound values, the GROUP BY and ORDER BY suffixes, the
 * placeholder group of an INSERT and the assignment list of an UPDATE.
 * Each builder is a loop that appends to a string, proved equal to a
 * closed form over `Join`.
 */
module DbQuery {
  import opened Common
  import opened PyValue

  /** One keyword filter `column=(op, operand)` of a query. */
  datatype Filter = Filter(column: string, op: string, operand: Value)

  /** `column + op + '?'`: the condition a filter contributes. */
  function Condition(f: Filter): string
  {
    f.column + f.op + "?"
  }

  function Conditions(filters: seq<Filter>): (cs: seq<string>)
    ensures |cs| == |filters|
    ensures forall i :: 0 <= i < |filters| ==> cs[i] == Condition(filters[i])
  {
    if filters == [] then [] else Conditions(filters[..|filters| - 1]) + [Condition(filters[|filters| - 1])]
  }

  /** The values bound to the placeholders: each operand rendered by `str()`. */
  function BoundValues(filters: seq<Filter>): (vs: seq<Value>)
    ensures |vs| == |filters|
    ensures forall i :: 0 <= i < |filters| ==> vs[i] == VStr(Show(filters[i].operand))
  {
    if filters == [] then [] else BoundValues(filters[..|filters| - 1]) + [VStr(Show(filters[|filters| - 1].operand))]
  }

  /**
   * The WHERE clause: empty without filters, otherwise the conditions joined
   * by " and ", after " where " and before one trailing space (what is left
   * once the last "and " is cut from the accumulated text).
   */
  function WhereClause(filters: seq<Filter>): string
  {
    if filters == [] then "" else " where " + Join(Conditions(filters), " and ") + " "
  }

  /** The text the loop of `GetWhereStr` has accumulated after the given filters. */
  function WhereAccumulated(filters: seq<Filter>): string
  {
    if filters == [] then "" else WhereAccumulated(filters[..|filters| - 1]) + Condition(filters[|filters| - 1]) + " and "
  }

  lemma {:induction false} WhereAccumulatedForm(filters: seq<Filter>)
    requires filters != []
    ensures WhereAccumulated(filters) == Join(Conditions(filters), " and ") + " and "
  {
    var n := |filters|;
    if n == 1 {
      assert Conditions(filters) == [Condition(filters[0])];
    } else {
      var init := filters[..n - 1];
      WhereAccumulatedForm(init);
      assert Conditions(filters) == Conditions(init) + [Condition(filters[n - 1])];
      JoinSnoc(Conditions(init), Condition(filters[n - 1]), " and ");
    }
  }

  /** `_get_where_str`: the clause and the values bound to its placeholders, in filter order. */
  method GetWhereStr(filters: seq<Filter>) returns (clause: string, vals: seq<Value>)
    ensures clause == WhereClause(filters)
    ensures vals == BoundValues(filters)
  {
    clause := "";
    vals := [];
    var i := 0;
    while i < |filters|
      invariant 0 <= i <= |filters|
      invariant clause == WhereAccumulated(filters[..i])
      invariant vals == BoundValues(filters[..i])
    {
      assert filters[..i + 1][..i] == filters[..i];
      clause := clause + Condition(filters[i]) + " and ";
      vals := vals + [VStr(Show(filters[i].operand))];
      i := i + 1;
    }
    assert filters[..i] == filters;
    if clause != "" {
      WhereAccumulatedForm(filters);
      clause := " where " + clause[..|clause| - 4];
      assert clause == WhereClause(filters);
    }
  }

  /**
   * Every placeholder of the clause has exactly one bound value, provided no
   * column name or operator itself contains a question mark.
   */
  lemma {:induction false} WherePlaceholdersMatchValues(filters: seq<Filter>)
    requires forall i :: 0 <= i < |filters| ==> CountChar(filters[i].column + filters[i].op, '?') == 0
    ensures CountChar(WhereClause(filters), '?') == |BoundValues(filters)|
  {
    if filters != [] {
      var cs := Conditions(filters);
      forall i | 0 <= i < |cs|
        ensures CountChar(cs[i], '?') == 1
      {
        CountCharAppend(filters[i].column + filters[i].op, "?", '?');
        assert cs[i] == filters[i].column + filters[i].op + "?";
      }
      var joined := Join(cs, " and ");
      assert WhereClause(filters) == " where " + joined + " ";
      CountCharJoin(cs, " and ", '?', 1);
      assert CountChar(joined, '?') == |filters|;
      CountCharAppend(" where ", joined, '?');
      CountCharAppend(" where " + joined, " ", '?');
    }
  }

  /** The select list: `*` when no field is named, otherwise the fields joined by commas. */
  function FieldList(fields: seq<string>): string
  {
    if fields == [] then "*" else Join(fields, ",")
  }

  function CommaTerminated(xs: seq<string>): string
  {
    if xs == [] then "" else CommaTerminated(xs[..|xs| - 1]) + xs[|xs| - 1] + ","
  }

  lemma {:induction false} CommaTerminatedForm(xs: seq<string>)
    requires xs != []
    ensures CommaTerminated(xs) == Join(xs, ",") + ","
  {
    var n := |xs|;
    if n > 1 {
      CommaTerminatedForm(xs[..n - 1]);
      assert xs[..n - 1] + [xs[n - 1]] == xs;
      JoinSnoc(xs[..n - 1], xs[n - 1], ",");
    }
  }

  /** `_get_fields_str`: builds `'*' + f1 + ',' + ...` and, when anything was added, drops the first and last character. */
  method GetFieldsStr(fields: seq<string>) returns (s: string)
    ensures s == FieldList(fields)
    ensures fields == ["*"] ==> s == "*"
  {
    s := "*";
    var i := 0;
    while i < |fields|
      invariant 0 <= i <= |fields|
      invariant s == "*" + CommaTerminated(fields[..i])
    {
      assert fields[..i + 1][..i] == fields[..i];
      s := s + fields[i] + ",";
      i := i + 1;
    }
    assert fields[..i] == fields;
    if s != "*" {
      CommaTerminatedForm(fields);
      s := s[1..|s| - 1];
    }
  }

  /** A GROUP BY or ORDER BY suffix: empty when the names are absent or empty. */
  function ListClause(keyword: string, names: Option<seq<string>>): string
  {
    if names.None? || names.value == [] then "" else keyword + Join(names.value, ",")
  }

  /**
   * The shared body of `_get_groups_str` and `_get_orders_str`: keyword,
   * then every name followed by a comma, then the last character cut
   * (which is a no-op on the empty string).
   */
  method GetListClause(keyword: string, names: Option<seq<string>>) returns (s: string)
    requires keyword != ""
    ensures s == ListClause(keyword, names)
  {
    s := "";
    if names.Some? && names.value != [] {
      var xs := names.value;
      s := keyword;
      var i := 0;
      while i < |xs|
        invariant 0 <= i <= |xs|
        invariant s == keyword + CommaTerminated(xs[..i])
      {
        assert xs[..i + 1][..i] == xs[..i];
        s := s + xs[i] + ",";
        i := i + 1;
      }
      assert xs[..i] == xs;
      CommaTerminatedForm(xs);
    }
    if s != "" {
      s := s[..|s| - 1];
    }
  }

  const GroupByKeyword := " group by "
  const OrderByKeyword := " order by "

  /** `_get_groups_str`. */
  method GetGroupsStr(groups: Option<seq<string>>) returns (s: string)
    ensures s == ListClause(GroupByKeyword, groups)
  {
    s := GetListClause(GroupByKeyword, groups);
  }

  /** `_get_orders_str`. */
  method GetOrdersStr(orders: Option<seq<string>>) returns (s: string)
    ensures s == ListClause(OrderByKeyword, orders)
  {
    s := GetListClause(OrderByKeyword, orders);
  }

  /** The INSERT placeholder group for `n` columns: `(?,?,...,?)`. */
  function PlaceholderGroup(n: nat): string
  {
    "(" + Join(seq(n, _ => "?"), ",") + ")"
  }

  /** The placeholder loop of `insert`: a `?` per column, with a comma before all but the first. */
  method BuildPlaceholders(n: nat) returns (vals: string)
    ensures vals == PlaceholderGroup(n)
    ensures CountChar(vals, '?') == n
  {
    vals := "(";
    var i := 0;
    while i < n
      invariant 0 <= i <= n
      invariant vals == "(" + Join(seq(i, _ => "?"), ",") + (if 0 < i < n then "," else "")
    {
      ghost var before := seq(i, _ => "?");
      assert seq(i + 1, _ => "?") == before + ["?"];
      if i > 0 {
        JoinSnoc(before, "?", ",");
      }
      vals := vals + "?";
      if i < n - 1 {
        vals := vals + ",";
      }
      i := i + 1;
    }
    vals := vals + ")";
    PlaceholderCount(n);
  }

  lemma PlaceholderCount(n: nat)
    ensures CountChar(PlaceholderGroup(n), '?') == n
  {
    var qs := seq(n, _ => "?");
    forall i | 0 <= i < |qs|
      ensures CountChar(qs[i], '?') == 1
    {
    }
    CountCharJoin(qs, ",", '?', 1);
    CountCharAppend("(", Join(qs, ","), '?');
    CountCharAppend("(" + Join(qs, ","), ")", '?');
  }

  /** The UPDATE assignment list: `col=?` per column, separated by commas. */
  function Assignments(cols: seq<string>): string
  {
    Join(seq(|cols|, i requires 0 <= i < |cols| => cols[i] + "=?"), ",")
  }

  /** The assignment loop of `update`: `col + '=?,'` per column, then the last character cut. */
  method BuildAssignments(cols: seq<string>) returns (sets: string)
    ensures sets == Assignments(cols)
  {
    sets := "";
    var i := 0;
    ghost var parts := seq(|cols|, i requires 0 <= i < |cols| => cols[i] + "=?");
    while i < |cols|
      invariant 0 <= i <= |cols|
      invariant sets == CommaTerminated(parts[..i])
    {
      assert parts[..i + 1][..i] == parts[..i];
      sets := sets + cols[i] + "=?,";
      i := i + 1;
    }
    assert parts[..i] == parts;
    if sets != "" {
      CommaTerminatedForm(parts);
      sets := sets[..|sets| - 1];
    }
  }

  /** Python's `str()` of a tuple of strings: `('a', 'b')`, with the one-element form `('a',)`. */
  function TupleRepr(xs: seq<string>): string
  {
    if xs == [] then "()"
    else if |xs| == 1 then "('" + xs[0] + "',)"
    else "(" + Join(seq(|xs|, i requires 0 <= i < |xs| => "'" + xs[i] + "'"), ", ") + ")"
  }
}
