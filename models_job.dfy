/** The `Job` model: the SQL statements and parameter lists its operations
    send, and what each makes of the rows that come back. The database is
    not modelled; the rows it returns for a statement are an input. */
module Job {
  import opened Wrappers
  import opened Errors
  import opened Text
  import opened JsValues
  import opened Sql

  /** A result row: column name to value. */
  type Row = map<string, JsValue>

  /** A statement text and its positional parameters (`$1` is `params[0]`). */
  datatype Query = Query(text: string, params: seq<JsValue>)

  /** `const job = rows[0]; if (!job) throw new NotFoundError(message);
      return job;` -- a row object is always truthy, so only an empty result
      throws. */
  function FirstRowOrNotFound(rows: seq<Row>, message: string): (r: Result<Row, Error>)
    ensures r.Success? <==> |rows| > 0
    ensures r.Success? ==> r.value == rows[0]
    ensures r.Failure? ==> r.error == NotFoundError(message)
  {
    if |rows| > 0 then Success(rows[0]) else Failure(NotFoundError(message))
  }

  // ---------------------------------------------------------------------
  // create

  /** The INSERT's column list, in the order its placeholders $1..$4 take. */
  const InsertColumns: seq<string> := ["title", "salary", "equity", "company_handle"]

  const CreateSql: string :=
    " INSERT INTO jobs(" + "title, salary, equity, company_handle" + ")\n"
    + "          VALUES (" + "$1, $2, $3, $4" + ")\n"
    + "          RETURNING id, title, salary, equity, company_handle"

  /** `Job.create({ title, salary, equity, company_handle })`: parameter i
      is the property named by column i of the INSERT, `undefined` when the
      object lacks it. */
  function CreateQuery(data: JsObject): (q: Query)
    ensures q.text == CreateSql
    ensures |q.params| == |InsertColumns|
    ensures forall i :: 0 <= i < |InsertColumns| ==> q.params[i] == Property(data, InsertColumns[i])
  {
    Query(CreateSql, [Property(data, "title"), Property(data, "salary"),
                      Property(data, "equity"), Property(data, "company_handle")])
  }

  /** `$1, $2, ..., $n` */
  function PlaceholderList(n: nat): (ps: seq<string>)
    ensures |ps| == n
    ensures forall i :: 0 <= i < n ==> ParsePlaceholder(ps[i]) == Some(i + 1)
  {
    seq(n, i requires 0 <= i < n => Placeholder(i + 1))
  }

  lemma InsertColumnsJoined()
    ensures Join(InsertColumns, ", ") == "title, salary, equity, company_handle"
  {
    var cs := InsertColumns;
    assert cs[1..] == ["salary", "equity", "company_handle"];
    assert cs[2..] == ["equity", "company_handle"] && cs[3..] == ["company_handle"];
  }

  lemma FourPlaceholdersJoined()
    ensures Join(PlaceholderList(4), ", ") == "$1, $2, $3, $4"
  {
    var ps := PlaceholderList(4);
    assert Digits(1) == "1" && Digits(2) == "2" && Digits(3) == "3" && Digits(4) == "4";
    assert Placeholder(1) == "$1" && Placeholder(2) == "$2";
    assert Placeholder(3) == "$3" && Placeholder(4) == "$4";
    assert ps == ["$1", "$2", "$3", "$4"];
    assert ps[1..] == ["$2", "$3", "$4"] && ps[2..] == ["$3", "$4"] && ps[3..] == ["$4"];
  }

  /** The INSERT names its columns in exactly the order of `InsertColumns`
      and lists placeholders $1..$4 in that order, so placeholder `$(i + 1)`
      fills column `InsertColumns[i]`, the one CreateQuery binds to it. */
  lemma CreateSqlPairsColumnsWithPlaceholders()
    ensures CreateSql
      == " INSERT INTO jobs(" + Join(InsertColumns, ", ") + ")\n"
      + "          VALUES (" + Join(PlaceholderList(|InsertColumns|), ", ") + ")\n"
      + "          RETURNING id, title, salary, equity, company_handle"
  {
    InsertColumnsJoined();
    FourPlaceholdersJoined();
  }

  /** `return res.rows[0]`: the first row, or `undefined` (None) when none came
      back; create does not check for it. */
  function Create(rows: seq<Row>): (job: Option<Row>)
    ensures job.Some? <==> |rows| > 0
    ensures job.Some? ==> job.value == rows[0]
  {
    if |rows| > 0 then Some(rows[0]) else None
  }

  // ---------------------------------------------------------------------
  // get

  const GetSql: string :=
    "SELECT id, title, salary, equity, company_handle\n"
    + "         FROM jobs \n"
    + "         WHERE id = $1"

  /** The SELECT `get` sends: the id is its only parameter, and the one
      placeholder in the text, the last `$`, reads `$1` and so binds it. */
  function GetQuery(id: JsValue): (q: Query)
    ensures q.params == [id]
    ensures LastIndexOf(q.text, '$') == Some(|q.text| - 2)
    ensures ParsePlaceholder(q.text[|q.text| - 2..]) == Some(|q.params|)
  {
    LastIndexOfBefore(GetSql[..|GetSql| - 2], '$', "1");
    ParseDigitsInvertsDigits(1);
    assert GetSql == GetSql[..|GetSql| - 2] + ['$'] + "1";
    Query(GetSql, [id])
  }

  /** `Job.get(id)` given the rows GetQuery(id) returned: the first row, or
      NotFoundError(" No Job with id <id>") when there is none. */
  function Get(id: JsValue, rows: seq<Row>): (r: Result<Row, Error>)
    ensures r.Success? <==> |rows| > 0
    ensures r.Success? ==> r.value == rows[0]
    ensures r.Failure? ==> r.error == NotFoundError(" No Job with id " + TemplateText(id))
  {
    FirstRowOrNotFound(rows, " No Job with id " + TemplateText(id))
  }

  // ---------------------------------------------------------------------
  // update

  /** The map `update` hands the builder: every updatable field is its own
      column. */
  const UpdateColumns: ColumnMap := map["title" := "title", "salary" := "salary", "equity" := "equity"]

  /** The pieces of the UPDATE: the SET list, the id placeholder `idIdx`, and
      the parameter list `[...values, id]`. */
  datatype UpdateStatement = UpdateStatement(setCols: string, idIdx: string, params: seq<JsValue>)
  {
    /** `querySql`: the statement text around `setCols` and `idIdx`. */
    function QuerySql(): string
    {
      UpdateHead + setCols + WhereHead + idIdx + UpdateReturning
    }
  }

  const UpdateHead: string := "UPDATE jobs \n" + "                        SET "
  const WhereHead: string := "\n" + "                        WHERE id = "
  const UpdateReturning: string :=
    "\n" + "                        " + "RETURNING id," + " title, salary," + " equity," + " company_handle"

  /** What `update` builds before querying: the builder's error for data
      without keys, otherwise the SET list, `"$" + (values.length + 1)` and
      `[...values, id]`. */
  function UpdateQuery(id: JsValue, data: JsObject): (r: Result<UpdateStatement, Error>)
    ensures r.Failure? <==> |data| == 0
    ensures r.Failure? ==> r.error == BadRequestError("No data")
  {
    match SqlForPartialUpdate(data, UpdateColumns)
    case Failure(e) => Failure(e)
    case Success(pu) =>
      var idIdx := Placeholder(|pu.values| + 1);
      Success(UpdateStatement(pu.setCols, idIdx, pu.values + [id]))
  }

  /** `Job.update(id, data)` given the rows the UPDATE returned: data without
      keys fails with BadRequestError before any statement exists, whatever
      the database holds; otherwise the first row, or NotFoundError("No Job
      with id <id>") when there is none. */
  function Update(id: JsValue, data: JsObject, rows: seq<Row>): (r: Result<Row, Error>)
    ensures |data| == 0 ==> r == Failure(BadRequestError("No data"))
    ensures r.Success? <==> |data| > 0 && |rows| > 0
    ensures r.Success? ==> r.value == rows[0]
    ensures |data| > 0 && |rows| == 0 ==> r == Failure(NotFoundError("No Job with id " + TemplateText(id)))
  {
    match UpdateQuery(id, data)
    case Failure(e) => Failure(e)
    case Success(_) => FirstRowOrNotFound(rows, "No Job with id " + TemplateText(id))
  }

  /** With the identity map every key is its own column: `title`, `salary`
      and `equity` by their entries, any other key by the fallback. */
  lemma UpdateColumnsAreKeys(key: string)
    ensures ColumnFor(UpdateColumns, key) == key
  {
  }

  /** The id placeholder and the parameter list line up with the SET list:
      there are n + 1 parameters for n keys; the SET fragment i (from 0)
      names key i and reads `$(i + 1)`, bound to the key's value; the id
      placeholder reads `$(n + 1)`, above every SET placeholder, and is bound
      to the id, the last parameter. */
  lemma UpdateBindsEveryPlaceholder(id: JsValue, data: JsObject)
    requires |data| > 0
    ensures UpdateQuery(id, data).Success?
    ensures UpdateQuery(id, data).value.setCols == Join(Fragments(data, UpdateColumns), ", ")
    ensures |Fragments(data, UpdateColumns)| == |data|
    ensures |UpdateQuery(id, data).value.params| == |data| + 1
    ensures ParsePlaceholder(UpdateQuery(id, data).value.idIdx) == Some(|data| + 1)
    ensures UpdateQuery(id, data).value.params[|data|] == id
    ensures forall i :: 0 <= i < |data| ==>
      ParseFragment(Fragments(data, UpdateColumns)[i]) == Some(Assignment(data[i].0, i + 1))
    ensures forall i :: 0 <= i < |data| ==> UpdateQuery(id, data).value.params[i] == data[i].1
  {
    FragmentsReadBack(data, UpdateColumns);
    forall i | 0 <= i < |data|
      ensures ParseFragment(Fragments(data, UpdateColumns)[i]) == Some(Assignment(data[i].0, i + 1))
    {
      UpdateColumnsAreKeys(data[i].0);
    }
  }

  /** Under the identity map the intended assignment at placeholder `$k`
      names key k - 1. */
  lemma KeyAssignments(data: JsObject)
    ensures forall a :: a in IntendedAssignments(data, UpdateColumns) ==>
      1 <= a.placeholder <= |data| && a.column == data[a.placeholder - 1].0
  {
    var parsed := IntendedAssignments(data, UpdateColumns);
    forall a | a in parsed
      ensures 1 <= a.placeholder <= |data| && a.column == data[a.placeholder - 1].0
    {
      var i :| 0 <= i < |parsed| && parsed[i] == a;
      UpdateColumnsAreKeys(data[i].0);
    }
  }

  /** Reading the SET list of the statement back gives each key with
      placeholders $1..$n in key order, every one below the id's `$(n + 1)`
      and bound to its key's value, as long as no key holds a comma. */
  lemma UpdateSetColsReadBack(id: JsValue, data: JsObject)
    requires |data| > 0
    requires forall i :: 0 <= i < |data| ==> ',' !in data[i].0
    ensures UpdateQuery(id, data).Success?
    ensures ParseSetCols(UpdateQuery(id, data).value.setCols) == Some(IntendedAssignments(data, UpdateColumns))
    ensures ParsePlaceholder(UpdateQuery(id, data).value.idIdx) == Some(|data| + 1)
    ensures forall a :: a in IntendedAssignments(data, UpdateColumns) ==>
      && 1 <= a.placeholder < |data| + 1
      && a.column == data[a.placeholder - 1].0
      && UpdateQuery(id, data).value.params[a.placeholder - 1] == data[a.placeholder - 1].1
  {
    forall i | 0 <= i < |data| ensures ',' !in ColumnFor(UpdateColumns, data[i].0) {
      UpdateColumnsAreKeys(data[i].0);
    }
    SetColsReadBack(data, UpdateColumns);
    UpdateBindsEveryPlaceholder(id, data);
    KeyAssignments(data);
  }

  /** In the statement text `setCols` follows "SET " verbatim, and the last
      `$` of the whole text starts `idIdx`, which reads `$(n + 1)`: the
      WHERE clause's placeholder is the one bound to the id. */
  lemma UpdateSqlPlacesIdLast(id: JsValue, data: JsObject)
    requires |data| > 0
    ensures UpdateQuery(id, data).Success?
    ensures var st := UpdateQuery(id, data).value;
      var k := |UpdateHead| + |st.setCols| + |WhereHead|;
      && st.QuerySql()[|UpdateHead|..|UpdateHead| + |st.setCols|] == st.setCols
      && LastIndexOf(st.QuerySql(), '$') == Some(k)
      && k + |st.idIdx| <= |st.QuerySql()|
      && ParsePlaceholder(st.QuerySql()[k..k + |st.idIdx|]) == Some(|data| + 1)
  {
    var st := UpdateQuery(id, data).value;
    UpdateBindsEveryPlaceholder(id, data);
    ReturningHasNoDollar();
    var before := UpdateHead + st.setCols + WhereHead;
    assert st.QuerySql() == before + st.idIdx + UpdateReturning;
    PlaceholderIsLastDollar(before, |data| + 1, UpdateReturning);
    assert st.idIdx == Placeholder(|data| + 1);
    assert before[|UpdateHead|..|UpdateHead| + |st.setCols|] == st.setCols;
  }

  lemma ReturningHasNoDollar()
    ensures '$' !in UpdateReturning
  {
    assert '$' !in "RETURNING id," && '$' !in " title, salary,";
    assert '$' !in " equity," && '$' !in " company_handle";
  }

  /** A placeholder followed by text without `$` holds the last `$`. */
  lemma PlaceholderIsLastDollar(before: string, k: nat, after: string)
    requires '$' !in after
    ensures var t := before + Placeholder(k) + after;
      && LastIndexOf(t, '$') == Some(|before|)
      && t[|before|..|before| + |Placeholder(k)|] == Placeholder(k)
  {
    var d := Digits(k);
    assert Placeholder(k) == "$" + d;
    assert forall c :: c in d ==> IsDigit(c);
    assert '$' !in d + after;
    assert before + Placeholder(k) + after == before + ['$'] + (d + after);
    LastIndexOfBefore(before, '$', d + after);
  }

  // ---------------------------------------------------------------------
  // remove

  /** The DELETE as written: it has no RETURNING clause. */
  const RemoveSqlAsWritten: string := "DELETE FROM jobs WHERE id=$1"

  /** `Job.remove(id)` as written: after the DELETE it reads `results`, a
      binding that does not exist (the query's result is bound to `result`),
      so every call throws a ReferenceError, whatever the DELETE did. */
  function RemoveAsWritten(id: JsValue, rows: seq<Row>): (r: Result<(), Error>)
    ensures r.Failure? && r.error.ReferenceError?
  {
    Failure(ReferenceError("results is not defined"))
  }

  /** An existing job: the DELETE matched its row, yet remove as written
      throws, and not the documented NotFoundError. */
  lemma RemoveAsWrittenFailsOnExistingJob(id: JsValue)
    ensures var r := RemoveAsWritten(id, [map["id" := id]]);
      r.Failure? && !r.error.NotFoundError?
  {
  }

  const RemoveSql: string := "DELETE FROM jobs WHERE id=$1 RETURNING id"

  /** The DELETE remove needs for its documented behaviour: it returns the
      id of the row it deleted, so the result says whether one matched. The
      id is the only parameter, and the last `$` in the text reads `$1`, so
      the placeholder binds it. */
  function RemoveQuery(id: JsValue): (q: Query)
    ensures q.text == RemoveSqlAsWritten + " RETURNING id" && q.params == [id]
    ensures LastIndexOf(q.text, '$') == Some(|RemoveSqlAsWritten| - 2)
    ensures ParsePlaceholder(q.text[|RemoveSqlAsWritten| - 2..|RemoveSqlAsWritten|]) == Some(|q.params|)
  {
    var k := |RemoveSqlAsWritten| - 2;
    LastIndexOfBefore(RemoveSql[..k], '$', "1 RETURNING id");
    ParseDigitsInvertsDigits(1);
    assert RemoveSql == RemoveSql[..k] + ['$'] + "1 RETURNING id";
    Query(RemoveSql, [id])
  }

  /** `Job.remove(id)` as documented, given the rows RemoveQuery(id) returned:
      nothing when a row was deleted, NotFoundError("No Job found with id
      <id>") when none was. */
  function Remove(id: JsValue, rows: seq<Row>): (r: Result<(), Error>)
    ensures r.Success? <==> |rows| > 0
    ensures r.Failure? ==> r.error == NotFoundError("No Job found with id " + TemplateText(id))
  {
    match FirstRowOrNotFound(rows, "No Job found with id " + TemplateText(id))
    case Success(_) => Success(())
    case Failure(e) => Failure(e)
  }

  /** models/job.test.js, "not found if no such job" for get, update and
      remove: id 0 matches nothing, so each reports NotFoundError. */
  lemma NoSuchJobExamples()
    ensures Get(Number(0), []) == Failure(NotFoundError(" No Job with id 0"))
    ensures Update(Number(0), [("title", Str("test"))], []) == Failure(NotFoundError("No Job with id 0"))
    ensures Remove(Number(0), []) == Failure(NotFoundError("No Job found with id 0"))
  {
    assert Digits(0) == "0";
    assert TemplateText(Number(0)) == "0";
    assert " No Job with id " + "0" == " No Job with id 0";
    assert "No Job with id " + "0" == "No Job with id 0";
    assert "No Job found with id " + "0" == "No Job found with id 0";
  }
}
