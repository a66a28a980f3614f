/**
 * The public operations of the persistence layer: `insert`, `update`,
 * `select` and `select_page` build a statement, put it on the worker's
 * queue and (for queries) read the fetched rows back; `as_csv` turns a
 * selection into a header and rows; the seed script inserts the classes
 * of service read from a JSON list.
 */
module DbFacade {
  import opened Common
  import opened PyValue
  import opened DbQuery
  import opened DbMapping
  import opened DbWorker

  /** The text of `insert`: table, the column tuple as Python prints it, and the placeholder group. */
  function InsertSql(table: string, s: Shape): string
  {
    "insert into " + table + " " + TupleRepr(Columns(s)) + " values " + PlaceholderGroup(|Columns(s)|)
  }

  /** An insert binds exactly as many values as its placeholder group has question marks. */
  lemma InsertPlaceholdersMatchRow(obj: Record)
    ensures CountChar(PlaceholderGroup(|Columns(ShapeOf(obj))|), '?') == |Encode(obj)|
  {
    PlaceholderCount(|Columns(ShapeOf(obj))|);
    EncodeMatchesColumns(obj);
  }

  /**
   * `insert`: an object of a class without a table is refused before
   * anything is queued; otherwise its row is queued under a fresh event.
   * (Returning once the worker has signalled that event is not modelled.)
   */
  method Insert(store: Store, obj: Record) returns (ok: bool)
    requires store.Valid()
    modifies store
    ensures store.Valid()
    ensures ok <==> TableName(ShapeOf(obj)).Some?
    ensures !ok ==> store.queue == old(store.queue)
    ensures ok ==> exists e :: store.queue == old(store.queue) + [Job(InsertSql(TableName(ShapeOf(obj)).value, ShapeOf(obj)), Encode(obj), e)]
    ensures store.rows == old(store.rows) && store.signalled == old(store.signalled) && store.commits == old(store.commits)
  {
    var cols := Columns(ShapeOf(obj));
    var vals := BuildPlaceholders(|cols|);
    var table := TableName(ShapeOf(obj));
    if table.None? {
      return false;
    }
    var e := store.Submit("insert into " + table.value + " " + TupleRepr(cols) + " values " + vals, Encode(obj));
    assert store.queue == old(store.queue) + [Job(InsertSql(table.value, ShapeOf(obj)), Encode(obj), e)];
    ok := true;
  }

  /**
   * `getattr(obj, name)` for the attributes an update may filter on.
   * Attributes holding objects (specs, the class of service, a node source,
   * the attempt and response collections) are objects; unknown names raise.
   */
  function Attribute(obj: Record, name: string): Option<Value>
  {
    match obj
    case CoSRecord(c) =>
      if name == "id" then Some(c.id) else if name == "name" then Some(c.name)
      else if name == "specs" then Some(VObject("CoSSpecs")) else None
    case RequestRecord(q) =>
      if name == "id" then Some(q.id)
      else if name == "src" then Some(if q.src.SrcNode? then VObject("Node") else q.src.v)
      else if name == "cos" then Some(VObject("CoS")) else if name == "data" then Some(q.data)
      else if name == "result" then Some(q.result) else if name == "host" then Some(q.host)
      else if name == "path" then Some(q.path) else if name == "state" then Some(q.state)
      else if name == "hreq_at" then Some(q.hreqAt) else if name == "dres_at" then Some(q.dresAt)
      else if name == "attempts" then Some(VObject("dict")) else None
    case AttemptRecord(a) =>
      if name == "req_id" then Some(a.reqId) else if name == "src" then Some(a.src)
      else if name == "attempt_no" then Some(a.attemptNo) else if name == "host" then Some(a.host)
      else if name == "path" then Some(a.path) else if name == "state" then Some(a.state)
      else if name == "hreq_at" then Some(a.hreqAt) else if name == "hres_at" then Some(a.hresAt)
      else if name == "rres_at" then Some(a.rresAt) else if name == "dres_at" then Some(a.dresAt)
      else if name == "responses" then Some(VObject("dict")) else None
    case ResponseRecord(p) =>
      if name == "req_id" then Some(p.reqId) else if name == "src" then Some(p.src)
      else if name == "attempt_no" then Some(p.attemptNo) else if name == "host" then Some(p.host)
      else if name == "algorithm" then Some(p.algorithm) else if name == "cpu" then Some(p.cpu)
      else if name == "ram" then Some(p.ram) else if name == "disk" then Some(p.disk)
      else if name == "timestamp" then Some(p.timestamp) else if name == "paths" then Some(VObject("list"))
      else None
    case Untabled => None
  }

  /** The id fields with repetitions removed, first occurrence kept (the keys of the `_id_dict` comprehension). */
  function Distinct(names: seq<string>): (r: seq<string>)
    ensures forall n :: n in r <==> n in names
    ensures forall i, j :: 0 <= i < j < |r| ==> r[i] != r[j]
  {
    if names == [] then []
    else
      var init := Distinct(names[..|names| - 1]);
      var last := names[|names| - 1];
      assert forall n :: n in names <==> n in names[..|names| - 1] || n == last;
      if last in init then init else init + [last]
  }

  /** The `=` filters on the id fields, or `None` when one of them is not an attribute. */
  function IdFilters(obj: Record, ids: seq<string>): (r: Option<seq<Filter>>)
    ensures r.Some? ==> |r.value| == |ids| && forall i :: 0 <= i < |ids| ==>
      Attribute(obj, ids[i]).Some? && r.value[i] == Filter(ids[i], "=", Attribute(obj, ids[i]).value)
    ensures r.None? <==> exists i :: 0 <= i < |ids| && Attribute(obj, ids[i]).None?
  {
    if ids == [] then Some([])
    else
      var init := IdFilters(obj, ids[..|ids| - 1]);
      var a := Attribute(obj, ids[|ids| - 1]);
      if init.None? || a.None? then None
      else Some(init.value + [Filter(ids[|ids| - 1], "=", a.value)])
  }

  /** The text of `update`: every column assigned, restricted by the id filters. */
  function UpdateSql(table: string, s: Shape, filters: seq<Filter>): string
  {
    "update " + table + " set " + Assignments(Columns(s)) + " " + WhereClause(filters)
  }

  /**
   * `update`: fails without queueing when an id field is not an attribute
   * or the class has no table; otherwise queues the statement whose
   * parameters are the encoded row followed by the id values as text.
   */
  method Update(store: Store, obj: Record, ids: seq<string>) returns (ok: bool)
    requires store.Valid()
    modifies store
    ensures store.Valid()
    ensures ok <==> IdFilters(obj, Distinct(ids)).Some? && TableName(ShapeOf(obj)).Some?
    ensures !ok ==> store.queue == old(store.queue)
    ensures ok ==> exists e :: store.queue == old(store.queue) + [Job(
      UpdateSql(TableName(ShapeOf(obj)).value, ShapeOf(obj), IdFilters(obj, Distinct(ids)).value),
      Encode(obj) + BoundValues(IdFilters(obj, Distinct(ids)).value), e)]
    ensures store.rows == old(store.rows) && store.signalled == old(store.signalled) && store.commits == old(store.commits)
  {
    var filters := IdFilters(obj, Distinct(ids));
    if filters.None? {
      return false;
    }
    var where, vals := GetWhereStr(filters.value);
    var sets := BuildAssignments(Columns(ShapeOf(obj)));
    var table := TableName(ShapeOf(obj));
    if table.None? {
      return false;
    }
    var e := store.Submit("update " + table.value + " set " + sets + " " + where, Encode(obj) + vals);
    assert store.queue == old(store.queue) + [Job(UpdateSql(table.value, ShapeOf(obj), filters.value), Encode(obj) + vals, e)];
    ok := true;
  }

  /** The text of `select`. */
  function SelectSql(table: string, fields: seq<string>, groups: Option<seq<string>>, filters: seq<Filter>): string
  {
    "select " + FieldList(fields) + " from " + table + " " + WhereClause(filters) + ListClause(GroupByKeyword, groups)
  }

  /** The query half of `select`: queue the statement, or `None` (nothing queued) for a class without a table. */
  method Select(store: Store, s: Shape, fields: seq<string>, groups: Option<seq<string>>, filters: seq<Filter>)
    returns (event: Option<nat>)
    requires store.Valid()
    modifies store
    ensures store.Valid()
    ensures event.None? <==> TableName(s).None?
    ensures event.None? ==> store.queue == old(store.queue)
    ensures event.Some? ==> store.queue == old(store.queue) + [Job(SelectSql(TableName(s).value, fields, groups, filters), BoundValues(filters), event.value)]
    ensures event.Some? ==> event.value !in store.signalled
    ensures store.rows == old(store.rows) && store.signalled == old(store.signalled) && store.commits == old(store.commits)
  {
    var where, vals := GetWhereStr(filters);
    var groupBy := GetGroupsStr(groups);
    var fieldsStr := GetFieldsStr(fields);
    var table := TableName(s);
    if table.None? {
      return None;
    }
    var e := store.Submit("select " + fieldsStr + " from " + table.value + " " + where + groupBy, vals);
    event := Some(e);
  }

  /** A query answer: raw rows, or objects decoded from them. */
  datatype Answer = Rows(rows: seq<Row>) | Objects(objects: seq<Record>)

  /** The reply half of `select` and `select_page`, once the event is set: the stored rows, decoded when asked. */
  method Collect(store: Store, event: nat, s: Shape, asObj: bool, nested: Row -> NestedAnswers) returns (r: Option<Answer>)
    ensures event !in store.rows ==> r.None?
    ensures event in store.rows && !asObj ==> r == Some(Rows(store.rows[event]))
    ensures event in store.rows && asObj ==>
      var d := DecodeAll(store.rows[event], RowDecoder(s, nested));
      r == if d.None? then None else Some(Objects(d.value))
  {
    if event !in store.rows {
      return None;
    }
    if !asObj {
      return Some(Rows(store.rows[event]));
    }
    var objs := Convert(store.rows[event], s, nested);
    r := if objs.None? then None else Some(Objects(objs.value));
  }

  /** The exclusion subquery of `select_page`, over the whole table: the first `(page-1)*size` oids in the given order. */
  function ExclusionSql(table: string, orders: Option<seq<string>>, page: int, size: int): string
  {
    " oid not in (select oid from " + table + " " + ListClause(OrderByKeyword, orders) + " limit " + DecimalString((page - 1) * size) + ") "
  }

  /** The text of `select_page`: the caller's filters AND the exclusion, ordered, limited to one page. */
  function SelectPageSql(table: string, fields: seq<string>, orders: Option<seq<string>>, filters: seq<Filter>, page: int, size: int): string
  {
    var where := WhereClause(filters) + (if filters == [] then " where " else " and ") + ExclusionSql(table, orders, page, size);
    "select " + FieldList(fields) + " from " + table + " " + where + ListClause(OrderByKeyword, orders) + " limit " + DecimalString(size)
  }

  /** The query half of `select_page`. */
  method SelectPage(store: Store, s: Shape, page: int, size: int, fields: seq<string>, orders: Option<seq<string>>, filters: seq<Filter>)
    returns (event: Option<nat>)
    requires store.Valid()
    modifies store
    ensures store.Valid()
    ensures event.None? <==> TableName(s).None?
    ensures event.None? ==> store.queue == old(store.queue)
    ensures event.Some? ==> store.queue == old(store.queue) + [Job(SelectPageSql(TableName(s).value, fields, orders, filters, page, size), BoundValues(filters), event.value)]
    ensures store.rows == old(store.rows) && store.signalled == old(store.signalled) && store.commits == old(store.commits)
  {
    var where, vals := GetWhereStr(filters);
    var orderBy := GetOrdersStr(orders);
    assert filters != [] ==> |where| > 0;
    if where == "" {
      where := where + " where ";
    } else {
      where := where + " and ";
    }
    var table := TableName(s);
    if table.None? {
      return None;
    }
    var exclusion := " oid not in (select oid from " + table.value + " " + orderBy + " limit " + DecimalString((page - 1) * size) + ") ";
    assert exclusion == ExclusionSql(table.value, orders, page, size);
    where := where + exclusion;
    var fieldsStr := GetFieldsStr(fields);
    var e := store.Submit("select " + fieldsStr + " from " + table.value + " " + where + orderBy + " limit " + DecimalString(size), vals);
    event := Some(e);
  }

  /** What `as_csv` writes: a header row, then the selected rows. */
  datatype Csv = Csv(header: seq<string>, rows: seq<Row>)

  /**
   * `as_csv` given what its `select` returned: nothing when the select
   * failed or no field is named (indexing `fields[0]` raises); the header
   * is the table's columns when the first field is `*`, else the fields.
   */
  function AsCsv(s: Shape, fields: seq<string>, selected: Option<seq<Row>>): (r: Option<Csv>)
    ensures r.Some? <==> selected.Some? && fields != []
    ensures r.Some? ==> r.value.rows == selected.value
    ensures r.Some? ==> r.value.header == (if fields[0] == "*" then Columns(s) else fields)
  {
    if selected.None? || fields == [] then None
    else Some(Csv(if fields[0] == "*" then Columns(s) else fields, selected.value))
  }

  /** One JSON-loaded value of a seed entry as the seed script prints it: strings inside double quotes, the rest by `str()`. */
  function SeedLiteral(v: Value): string
  {
    if v.VStr? then "\"" + v.s + "\"" else Show(v)
  }

  /** `s[:-1]`. */
  function DropLast(s: string): string
  {
    if s == [] then s else s[..|s| - 1]
  }

  /** The literals of an entry's values, in order. */
  function Literals(values: seq<Value>): (r: seq<string>)
    ensures |r| == |values|
  {
    if values == [] then [] else Literals(values[..|values| - 1]) + [SeedLiteral(values[|values| - 1])]
  }

  /** The value group of one entry: `(v1,...,vn)`; an entry with no values loses its `(` to the final cut and yields `)`. */
  function SeedGroup(values: seq<Value>): string
  {
    if values == [] then ")" else "(" + Join(Literals(values), ",") + ")"
  }

  /** The value groups of all entries, in order. */
  function SeedGroups(entries: seq<SeedEntry>): (r: seq<string>)
    ensures |r| == |entries|
  {
    if entries == [] then [] else SeedGroups(entries[..|entries| - 1]) + [SeedGroup(entries[|entries| - 1].values)]
  }

  /** A seed entry: a JSON object, as its keys and its values in file order. */
  datatype SeedEntry = SeedEntry(keys: seq<string>, values: seq<Value>)

  /**
   * The seed script for a non-empty entry list: the first entry's keys as
   * the column list, then every entry's value group, comma-separated, and a
   * final `;`. No script is built for an empty list (indexing the first entry raises).
   */
  function SeedScript(entries: seq<SeedEntry>): Option<string>
  {
    if entries == [] then None
    else
      var head := if entries[0].keys == [] then "insert or ignore into cos" else "insert or ignore into cos(" + Join(entries[0].keys, ",");
      Some(head + ") values " + Join(SeedGroups(entries), ",") + ";")
  }

  lemma DropLastAppend(x: string, c: char)
    ensures DropLast(x + [c]) == x
  {
    assert (x + [c])[..|x|] == x;
  }

  lemma LiteralsSnoc(values: seq<Value>, j: nat)
    requires j < |values|
    ensures CommaTerminated(Literals(values[..j + 1])) == CommaTerminated(Literals(values[..j])) + SeedLiteral(values[j]) + ","
  {
    assert values[..j + 1][..j] == values[..j];
    var xs := Literals(values[..j + 1]);
    assert xs == Literals(values[..j]) + [SeedLiteral(values[j])];
    assert xs[..|xs| - 1] == Literals(values[..j]);
  }

  /** Cutting the last comma of `(`, the literals and their commas, and closing, gives the entry's group. */
  lemma {:induction false} SeedGroupClose(text: string, values: seq<Value>)
    ensures DropLast(text + "(" + CommaTerminated(Literals(values))) + ")," == text + SeedGroup(values) + ","
  {
    if values == [] {
      DropLastAppend(text, '(');
    } else {
      var joined := Join(Literals(values), ",");
      CommaTerminatedForm(Literals(values));
      var body := text + "(" + joined;
      assert text + "(" + CommaTerminated(Literals(values)) == body + [','];
      DropLastAppend(body, ',');
      assert SeedGroup(values) == "(" + joined + ")";
    }
  }

  /**
   * The per-entry part of the seed-script builder: `(`, each literal and a
   * comma, then the last character cut and `),` appended.
   */
  method AppendSeedGroup(text: string, values: seq<Value>) returns (r: string)
    ensures r == text + SeedGroup(values) + ","
  {
    r := AppendLiterals(text + "(", values);
    SeedGroupClose(text, values);
    r := DropLast(r) + "),";
  }

  /** The literal loop of the seed-script builder: each value's literal followed by a comma. */
  method AppendLiterals(open: string, values: seq<Value>) returns (r: string)
    ensures r == open + CommaTerminated(Literals(values))
  {
    r := open;
    var j := 0;
    while j < |values|
      invariant 0 <= j <= |values|
      invariant r == open + CommaTerminated(Literals(values[..j]))
    {
      LiteralsSnoc(values, j);
      ghost var done := CommaTerminated(Literals(values[..j]));
      var lit := SeedLiteral(values[j]);
      r := r + lit + ",";
      assert r == open + (done + lit + ",");
      j := j + 1;
    }
    assert values[..j] == values;
  }

  /** The column part of the seed-script builder: `insert or ignore into cos(`, each key and a comma, then the last character cut. */
  method SeedHead(keys: seq<string>) returns (head: string)
    ensures head == if keys == [] then "insert or ignore into cos" else "insert or ignore into cos(" + Join(keys, ",")
  {
    var text := "insert or ignore into cos(";
    var k := 0;
    while k < |keys|
      invariant 0 <= k <= |keys|
      invariant text == "insert or ignore into cos(" + CommaTerminated(keys[..k])
    {
      assert keys[..k + 1][..k] == keys[..k];
      text := text + keys[k] + ",";
      k := k + 1;
    }
    assert keys[..k] == keys;
    if keys != [] {
      CommaTerminatedForm(keys);
      DropLastAppend("insert or ignore into cos(" + Join(keys, ","), ',');
    } else {
      DropLastAppend("insert or ignore into cos", '(');
    }
    head := DropLast(text);
  }

  lemma SeedGroupsStep(entries: seq<SeedEntry>, i: nat)
    requires i < |entries|
    ensures CommaTerminated(SeedGroups(entries[..i + 1])) == CommaTerminated(SeedGroups(entries[..i])) + SeedGroup(entries[i].values) + ","
  {
    assert entries[..i + 1][..i] == entries[..i];
    var gs := SeedGroups(entries[..i + 1]);
    assert gs[..|gs| - 1] == SeedGroups(entries[..i]);
  }

  /** The entry loop of the seed-script builder: each entry's group followed by a comma. */
  method AppendSeedGroups(text: string, entries: seq<SeedEntry>) returns (r: string)
    ensures r == text + CommaTerminated(SeedGroups(entries))
  {
    r := text;
    var i := 0;
    while i < |entries|
      invariant 0 <= i <= |entries|
      invariant r == text + CommaTerminated(SeedGroups(entries[..i]))
    {
      SeedGroupsStep(entries, i);
      ghost var prev := CommaTerminated(SeedGroups(entries[..i]));
      ghost var g := SeedGroup(entries[i].values);
      r := AppendSeedGroup(r, entries[i].values);
      assert r == (text + prev) + g + ",";
      assert r == text + (prev + g + ",");
      i := i + 1;
    }
    assert entries[..i] == entries;
  }

  /** The seed-script builder inside the connection set-up. */
  method BuildSeedScript(entries: seq<SeedEntry>) returns (script: Option<string>)
    ensures script == SeedScript(entries)
  {
    if entries == [] {
      return None;
    }
    var columns := SeedHead(entries[0].keys);
    var text := AppendSeedGroups(columns + ") values ", entries);
    CommaTerminatedForm(SeedGroups(entries));
    ghost var body := columns + ") values " + Join(SeedGroups(entries), ",");
    assert text == body + [','];
    DropLastAppend(body, ',');
    script := Some(DropLast(text) + ";");
  }
}
