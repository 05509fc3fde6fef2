/** `sqlForPartialUpdate`: turns a sparse update object into the SET list of
    an UPDATE statement and the parameter values that go with it. */
module Sql {
  import opened Wrappers
  import opened Errors
  import opened Text
  import opened JsValues

  /** `jsToSql`: JavaScript property name to column name. */
  type ColumnMap = map<string, string>

  /** `jsToSql[key] || key`: the mapped column when the entry exists and is
      truthy (for a string: non-empty), otherwise the key itself. */
  function ColumnFor(jsToSql: ColumnMap, key: string): (column: string)
    ensures key in jsToSql && jsToSql[key] != "" ==> column == jsToSql[key]
    ensures key !in jsToSql || jsToSql[key] == "" ==> column == key
    ensures column == "" ==> key == ""
  {
    if key in jsToSql && jsToSql[key] != "" then jsToSql[key] else key
  }

  /** One assignment, `"column"=$placeholder`; the column is not escaped. */
  function Fragment(column: string, placeholder: nat): string
  {
    "\"" + column + "\"=$" + Digits(placeholder)
  }

  /** The fragments for `data`'s keys in order, numbered from `first` on. */
  function FragmentsFrom(data: JsObject, jsToSql: ColumnMap, first: nat): seq<string>
  {
    if |data| == 0 then []
    else [Fragment(ColumnFor(jsToSql, data[0].0), first)] + FragmentsFrom(data[1..], jsToSql, first + 1)
  }

  /** `keys.map((colName, idx) => ...)`: placeholders start at `$1`. */
  function Fragments(data: JsObject, jsToSql: ColumnMap): seq<string>
  {
    FragmentsFrom(data, jsToSql, 1)
  }

  /** What the builder returns: `{ setCols, values }`. */
  datatype PartialUpdate = PartialUpdate(setCols: string, values: seq<JsValue>)

  /** `sqlForPartialUpdate(dataToUpdate, jsToSql)`: an object without keys
      throws `BadRequestError("No data")`; otherwise the fragments joined with
      ", " and the object's values in key order. */
  function SqlForPartialUpdate(dataToUpdate: JsObject, jsToSql: ColumnMap): (r: Result<PartialUpdate, Error>)
    ensures r.Failure? <==> |dataToUpdate| == 0
    ensures r.Failure? ==> r.error == BadRequestError("No data")
    ensures r.Success? ==> |r.value.values| == |dataToUpdate|
    ensures r.Success? ==> forall i :: 0 <= i < |dataToUpdate| ==> r.value.values[i] == dataToUpdate[i].1
  {
    var keys := KeysOf(dataToUpdate);
    if |keys| == 0 then Failure(BadRequestError("No data"))
    else Success(PartialUpdate(Join(Fragments(dataToUpdate, jsToSql), ", "), ValuesOf(dataToUpdate)))
  }

  // ---------------------------------------------------------------------
  // Reading the SET list back

  /** A column paired with the placeholder index bound to it. */
  datatype Assignment = Assignment(column: string, placeholder: nat)

  /** The assignments the builder is meant to produce: key i (from 0) gets
      its column and placeholder `$(i + 1)`. */
  function IntendedAssignments(data: JsObject, jsToSql: ColumnMap): (a: seq<Assignment>)
    ensures |a| == |data|
    ensures forall i :: 0 <= i < |data| ==> a[i] == Assignment(ColumnFor(jsToSql, data[i].0), i + 1)
  {
    seq(|data|, i requires 0 <= i < |data| => Assignment(ColumnFor(jsToSql, data[i].0), i + 1))
  }

  /** Reads `"column"=$k` back. The placeholder starts at the last '$', so a
      column holding '$', '"' or '=' is still recovered. */
  function ParseFragment(s: string): Option<Assignment>
  {
    match LastIndexOf(s, '$')
    case None => None
    case Some(j) =>
      if j < 3 || s[0] != '"' || s[j - 2] != '"' || s[j - 1] != '=' then None
      else
        match ParseDigits(s[j + 1..])
        case None => None
        case Some(k) => Some(Assignment(s[1..j - 2], k))
  }

  /** Reads a placeholder `$k` back. */
  function ParsePlaceholder(s: string): Option<nat>
  {
    if |s| == 0 || s[0] != '$' then None else ParseDigits(s[1..])
  }

  /** The placeholder `$k`; it reads back as k. */
  function Placeholder(k: nat): (p: string)
    ensures ParsePlaceholder(p) == Some(k)
  {
    ParseDigitsInvertsDigits(k);
    assert ("$" + Digits(k))[1..] == Digits(k);
    "$" + Digits(k)
  }

  /** Parses every piece, failing if one fails. */
  function ParseFragments(parts: seq<string>): Option<seq<Assignment>>
  {
    if |parts| == 0 then Some([])
    else
      match (ParseFragment(parts[0]), ParseFragments(parts[1..]))
      case (Some(a), Some(rest)) => Some([a] + rest)
      case _ => None
  }

  /** Reads a whole `setCols` string back into its assignments. */
  function ParseSetCols(setCols: string): Option<seq<Assignment>>
  {
    ParseFragments(SplitOnCommaSpace(setCols))
  }

  /** Every column `data` produces is free of commas. */
  predicate CommaFreeColumns(data: JsObject, jsToSql: ColumnMap)
  {
    forall i :: 0 <= i < |data| ==> ',' !in ColumnFor(jsToSql, data[i].0)
  }

  // ---------------------------------------------------------------------
  // Properties

  /** A fragment reads back as the column and placeholder it was built from,
      whatever characters the column holds. */
  lemma ParseFragmentInvertsFragment(column: string, placeholder: nat)
    ensures ParseFragment(Fragment(column, placeholder)) == Some(Assignment(column, placeholder))
  {
    var s := Fragment(column, placeholder);
    var head := "\"" + column + "\"=";
    var d := Digits(placeholder);
    assert s == head + ['$'] + d;
    LastIndexOfBefore(head, '$', d);
    assert s[|head| + 1..] == d;
    ParseDigitsInvertsDigits(placeholder);
    assert s[1..|head| - 2] == column;
  }

  /** `keys.map` with an index: one fragment per key, the i-th for key i with
      placeholder `first + i`. */
  lemma {:induction false} FragmentsFromAt(data: JsObject, jsToSql: ColumnMap, first: nat)
    ensures |FragmentsFrom(data, jsToSql, first)| == |data|
    ensures forall i :: 0 <= i < |data| ==>
      FragmentsFrom(data, jsToSql, first)[i] == Fragment(ColumnFor(jsToSql, data[i].0), first + i)
  {
    if |data| > 0 {
      FragmentsFromAt(data[1..], jsToSql, first + 1);
    }
  }

  /** n keys give exactly n fragments, and fragment i reads back as key i's
      column with placeholder `$(i + 1)`: the placeholders are 1..n with no gap
      and no repeat, each aligned with `values[i]`. */
  lemma FragmentsReadBack(data: JsObject, jsToSql: ColumnMap)
    ensures |Fragments(data, jsToSql)| == |data|
    ensures forall i :: 0 <= i < |data| ==>
      ParseFragment(Fragments(data, jsToSql)[i]) == Some(IntendedAssignments(data, jsToSql)[i])
  {
    FragmentsFromAt(data, jsToSql, 1);
    forall i | 0 <= i < |data|
      ensures ParseFragment(Fragments(data, jsToSql)[i]) == Some(IntendedAssignments(data, jsToSql)[i])
    {
      ParseFragmentInvertsFragment(ColumnFor(jsToSql, data[i].0), i + 1);
    }
  }

  lemma {:induction false} ParseFragmentsEach(parts: seq<string>, a: seq<Assignment>)
    requires |parts| == |a|
    requires forall i :: 0 <= i < |parts| ==> ParseFragment(parts[i]) == Some(a[i])
    ensures ParseFragments(parts) == Some(a)
  {
    if |parts| > 0 {
      ParseFragmentsEach(parts[1..], a[1..]);
      assert [a[0]] + a[1..] == a;
    }
  }

  lemma FragmentCommaFree(column: string, placeholder: nat)
    requires ',' !in column
    ensures ',' !in Fragment(column, placeholder)
  {
    var d := Digits(placeholder);
    assert forall c :: c in d ==> IsDigit(c);
  }

  /** Reading `setCols` back yields key i's column with placeholder `$(i + 1)`
      for every key, in order, whenever no column holds a comma (the builder
      does not escape columns, so a comma in one would make ", " ambiguous). */
  lemma SetColsReadBack(data: JsObject, jsToSql: ColumnMap)
    requires |data| > 0
    requires CommaFreeColumns(data, jsToSql)
    ensures SqlForPartialUpdate(data, jsToSql).Success?
    ensures ParseSetCols(SqlForPartialUpdate(data, jsToSql).value.setCols) == Some(IntendedAssignments(data, jsToSql))
  {
    var frags := Fragments(data, jsToSql);
    FragmentsFromAt(data, jsToSql, 1);
    FragmentsReadBack(data, jsToSql);
    forall i | 0 <= i < |frags|
      ensures ',' !in frags[i]
    {
      FragmentCommaFree(ColumnFor(jsToSql, data[i].0), i + 1);
    }
    SplitInvertsJoin(frags);
    ParseFragmentsEach(frags, IntendedAssignments(data, jsToSql));
  }

  /** A single key gives one fragment and no separator. */
  lemma SingleKeyHasNoSeparator(key: string, value: JsValue, jsToSql: ColumnMap)
    ensures SqlForPartialUpdate([(key, value)], jsToSql)
      == Success(PartialUpdate("\"" + ColumnFor(jsToSql, key) + "\"=$1", [value]))
  {
    var data := [(key, value)];
    FragmentsFromAt(data, jsToSql, 1);
    assert Digits(1) == "1";
    var column := ColumnFor(jsToSql, key);
    assert Fragment(column, 1) == "\"" + column + "\"=$1";
    assert Fragments(data, jsToSql) == ["\"" + ColumnFor(jsToSql, key) + "\"=$1"];
    assert ValuesOf(data) == [value];
  }

  /** Two maps that give every key of `data` the same column give the same
      result. */
  lemma {:induction false} SameColumnsSameResult(data: JsObject, m1: ColumnMap, m2: ColumnMap)
    requires forall i :: 0 <= i < |data| ==> ColumnFor(m1, data[i].0) == ColumnFor(m2, data[i].0)
    ensures SqlForPartialUpdate(data, m1) == SqlForPartialUpdate(data, m2)
  {
    FragmentsFromAt(data, m1, 1);
    FragmentsFromAt(data, m2, 1);
    assert Fragments(data, m1) == Fragments(data, m2);
  }

  /** Whether two maps agree about `key`: both lack it or both map it alike. */
  predicate AgreeOn(m1: ColumnMap, m2: ColumnMap, key: string)
  {
    (key in m1 <==> key in m2) && (key in m1 ==> m1[key] == m2[key])
  }

  /** Entries of `jsToSql` for keys the data does not have change nothing. */
  lemma MapEntriesOutsideDataIgnored(data: JsObject, m1: ColumnMap, m2: ColumnMap)
    requires forall i :: 0 <= i < |data| ==> AgreeOn(m1, m2, data[i].0)
    ensures SqlForPartialUpdate(data, m1) == SqlForPartialUpdate(data, m2)
  {
    SameColumnsSameResult(data, m1, m2);
  }

  /** helpers/sql.test.js, "works: 1 item". */
  lemma OneItemExample()
    ensures SqlForPartialUpdate([("col1", Str("val1"))], map["col1" := "col1", "col2" := "col2"])
      == Success(PartialUpdate("\"col1\"=$1", [Str("val1")]))
  {
    var m := map["col1" := "col1", "col2" := "col2"];
    assert ColumnFor(m, "col1") == "col1";
    SingleKeyHasNoSeparator("col1", Str("val1"), m);
    assert "\"" + "col1" + "\"=$1" == "\"col1\"=$1";
  }

  /** helpers/sql.test.js, "works: 2 items": `col1` has no entry and falls
      back to its own name. */
  lemma TwoItemsExample()
    ensures SqlForPartialUpdate([("col1", Str("val1")), ("col2", Str("val2"))], map["col2" := "col2"])
      == Success(PartialUpdate("\"col1\"=$1, \"col2\"=$2", [Str("val1"), Str("val2")]))
  {
    var data := [("col1", Str("val1")), ("col2", Str("val2"))];
    var m := map["col2" := "col2"];
    FragmentsFromAt(data, m, 1);
    assert Digits(1) == "1" && Digits(2) == "2";
    assert ColumnFor(m, "col1") == "col1" && ColumnFor(m, "col2") == "col2";
    assert Fragment("col1", 1) == "\"col1\"=$1";
    assert Fragment("col2", 2) == "\"col2\"=$2";
    var frags := ["\"col1\"=$1", "\"col2\"=$2"];
    assert frags[1..] == ["\"col2\"=$2"];
    assert Join(frags, ", ") == "\"col1\"=$1, \"col2\"=$2";
    assert Fragments(data, m) == ["\"col1\"=$1", "\"col2\"=$2"];
    assert ValuesOf(data) == [Str("val1"), Str("val2")];
  }
}
