# Jobs data-access layer: partial-update SQL and the Job model

This project models the SQL-building core of the jobs data-access layer of
the express.jobly service.

- `sqlForPartialUpdate` (helpers/sql.js) takes a sparse update object and a
  JavaScript-name→column map. It returns the SET list `"col"=$1, "col"=$2, …`
  and the values bound to those placeholders.
- The `Job` model (models/job.js) uses it. It assembles the statements and
  parameter lists for `create`, `get`, `update` and `remove`. It turns "no
  first row" into `NotFoundError`.

The database is not modelled. The rows it returns for a statement are an
input to a pure decision function. Each modelled operation is a pure
function, because the source builds its values with `const` bindings,
`map`, `join` and template strings, and changes nothing in place.

Files:

- `wrappers.dfy` (`Option`, `Result`)
- `errors.dfy` (the thrown errors)
- `text.dfy` (the decimal numeral of a placeholder index and its parser, `join` and the matching `split`)
- `js_value.dfy` (JavaScript values, template-literal text, objects as ordered key/value pairs)
- `helpers_sql.dfy` (module `Sql`)
- `models_job.dfy` (module `Job`)

An object is the sequence of its own properties in `Object.keys` order.
`Object.keys` is the first components and `Object.values` the second.

`jsToSql[key] || key` is modelled by `Sql.ColumnFor`. A map entry that exists
and is a non-empty string is used. Otherwise the key itself is the column.

The proofs read the generated text back. `Sql.ParseFragment` recovers the
column and placeholder index from a fragment. `Sql.ParseSetCols` splits the
SET list on `", "` and parses each piece. The properties say that what is
read back is key i's column with placeholder `$(i + 1)`, and that the value
bound to that placeholder is key i's value.

Points where the code's behaviour is easy to misread; the model follows the code:

- The code wraps each column in double quotes (helpers/sql.js:22). It does not escape a `"` inside a column, and it does not restrict columns to `[A-Za-z0-9_]`. The model does the same.
- The `get` test expects a nested `company` object (models/job.test.js:92-104). The code returns the flat row its SELECT produces (models/job.js:56-66).
- `findAll` destructures `title`, `minSalary` and `hasEquity` but never uses them (models/job.js:39). Its SQL is malformed (models/job.js:42-44).
- `remove` does not behave as its comment documents (models/job.js:104-118); see Findings.

## Model

| member | source | states |
|---|---|---|
| `Sql.SqlForPartialUpdate` | helpers/sql.js:16-29 | An object with zero keys fails with `BadRequestError("No data")`, and only such an object does. Otherwise `values` has one entry per key, the value of key i at position i. |
| `Sql.ColumnFor` | helpers/sql.js:22 | The column is the mapped name when the entry exists and is truthy. Otherwise it is the key itself, with no error. It is empty only for the empty key. |
| `Sql.Placeholder` | models/job.js:90 | The placeholder text `$k` reads back as k. |
| `Sql.ParseFragmentInvertsFragment` | helpers/sql.js:22 | A fragment `"col"=$k` reads back as exactly that column and index, whatever characters the unescaped column holds. |
| `Sql.FragmentsFromAt` | helpers/sql.js:21-23 | The indexed map gives one fragment per key. Fragment i is key i's column with index `first + i`. |
| `Sql.FragmentsReadBack` | helpers/sql.js:21-23 | n keys give exactly n fragments. Fragment i reads back as key i's column with placeholder `$(i + 1)`, so the indices are 1..n with no gaps or repeats. |
| `Sql.SetColsReadBack` | helpers/sql.js:21-27 | For comma-free columns, splitting `setCols` on ", " and parsing each piece gives, in key order, each key's column with placeholders 1..n. |
| `Sql.SingleKeyHasNoSeparator` | helpers/sql.js:26 | One key gives `setCols` equal to `"col"=$1` with no separator, and values equal to that key's value. |
| `Sql.SameColumnsSameResult` | helpers/sql.js:21-22 | Two maps that give every key of the data the same column give identical results. |
| `Sql.MapEntriesOutsideDataIgnored` | helpers/sql.js:21-22 | Map entries for keys the data lacks have no effect on the output. |
| `Sql.OneItemExample` | helpers/sql.test.js:4-13 | `{col1: "val1"}` with map `{col1, col2}` gives `"col1"=$1` and `["val1"]`. |
| `Sql.TwoItemsExample` | helpers/sql.test.js:15-24 | `{col1, col2}` with map `{col2}` gives `"col1"=$1, "col2"=$2`. The unmapped `col1` falls back to its own name. |
| `Text.Digits` | helpers/sql.js:22 | `${idx + 1}` prints at least one decimal digit, only digits, and a leading zero only for zero. |
| `Text.ParseDigitsInvertsDigits` | helpers/sql.js:22 | Parsing the printed index gives the index back. |
| `Text.DigitsInjective` | models/job.js:90 | Two placeholder indices print the same only when they are equal, so `$(n + 1)` cannot coincide with `$1..$n` as text. |
| `Text.SplitInvertsJoin` | helpers/sql.js:26 | `join(", ")` is undone by splitting on ", " when no part contains a comma. |
| `JsValues.Property` | models/job.js:18 | Destructuring reads a property as the value at its first occurrence, and a missing property as `undefined`. |
| `JsValues.TemplateText` | models/job.js:64 | `${id}` in the not-found messages is a string's own text. For a number it is the decimal numeral, after a `-` when negative, and it parses back to the number (JavaScript agrees below 10^21). |
| `Job.FirstRowOrNotFound` | models/job.js:98-101 | It succeeds exactly when a row came back, and then with the first row. Otherwise it fails with `NotFoundError` carrying the given message. |
| `Job.CreateQuery` | models/job.js:18-24 | The INSERT gets four parameters. Parameter i is the object's property named by INSERT column i (`undefined` when absent). |
| `Job.CreateSqlPairsColumnsWithPlaceholders` | models/job.js:20-22 | The INSERT lists `title, salary, equity, company_handle` and then `$1, $2, $3, $4`, in the same order as the parameters. |
| `Job.Create` | models/job.js:26-27 | It returns the first returned row, or `undefined` when there is none. There is no not-found check. |
| `Job.GetQuery` | models/job.js:56-60 | The id is the single parameter. The last `$` in the SELECT text starts a placeholder that reads as 1, so the placeholder binds the id. |
| `Job.Get` | models/job.js:55-67 | It returns the first row when one came back. Otherwise it fails with `NotFoundError(" No Job with id <id>")`. |
| `Job.UpdateQuery` | models/job.js:82-97 | Data without keys gives the builder's `BadRequestError("No data")`. Otherwise a statement is built, and only then. |
| `Job.Update` | models/job.js:81-102 | Empty data fails with `BadRequestError` whatever the rows are, so it fails before any query. Otherwise it returns the first row, or fails with `NotFoundError("No Job with id <id>")` when there is none. |
| `Job.UpdateColumnsAreKeys` | models/job.js:84-88 | Under the identity map, every key (`title`, `salary`, `equity` and any other) is its own column. |
| `Job.UpdateBindsEveryPlaceholder` | models/job.js:90-97 | n keys give n + 1 parameters. SET fragment i names key i with `$(i + 1)`, bound to key i's value. `idIdx` reads as `$(n + 1)` and is bound to the last parameter, the id. |
| `Job.UpdateSqlPlacesIdLast` | models/job.js:90-95 | In `querySql`, `setCols` appears verbatim after `SET`. The last `$` in the whole text starts `idIdx`, which reads as n + 1. |
| `Job.UpdateSetColsReadBack` | models/job.js:82-97 | For comma-free keys, the parsed SET list has every placeholder in 1..n, below the id's `n + 1`. Each is paired with its key and bound to that key's value. |
| `Job.RemoveAsWritten` | models/job.js:111-118 | As written, every call fails with a `ReferenceError`. |
| `Job.RemoveAsWrittenFailsOnExistingJob` | models/job.js:112-117 | Even when the DELETE matched a row, remove as written fails, and not with `NotFoundError`. |
| `Job.RemoveQuery` | models/job.js:112-114 | The corrected DELETE is the original text plus `RETURNING id`. The id is the single parameter, and the last `$` in the text starts a placeholder that reads as 1, so the placeholder binds the id. |
| `Job.Remove` | models/job.js:104-118 | As documented: it succeeds exactly when a row was deleted. Otherwise it fails with `NotFoundError("No Job found with id <id>")`. |
| `Job.NoSuchJobExamples` | models/job.test.js:107-173 | For id 0 with no matching row, get, update and remove each fail with `NotFoundError`. |

## Left out

- The database and `db.query`: the rows a statement returns are a parameter. `async`/`await` is not modelled.
- `Job.findAll`: it ignores its filters and sends malformed SQL, so there is no query logic in it to model.
- routes/jobs.js: Express routing, the `isAdmin` middleware, jsonschema validation and query-string coercion.
- `module.exports = Company` (models/job.js:126) is not modelled. Under `"use strict"` it reads a binding that was never declared, so loading models/job.js throws `ReferenceError` before any `Job` method can run. The model describes each method's body as if the module had loaded, and the remove Finding's "every call" means every run of that body.
- The nested `company` object that the `get` test expects: the code returns the flat row.
- Numbers are modelled as unbounded integers. Fractional values such as an equity of 0.1 are outside `JsValue`. JavaScript numbers are doubles, exact for integers only up to 2^53. The only computation on a number is `TemplateText`, which turns the id into message text (models/job.js:64, 100, 117). Every other number is passed through unchanged.
- JsValues.TemplateText: states the full decimal numeral for every integer. JavaScript prints a number of magnitude 10^21 or more in exponent form (`${1e21}` is `1e+21`), and such numbers are not exact integers anyway. For ids below 10^21 the contract is what JavaScript prints.
- A `null` or `undefined` object is outside `JsObject`. For it, `Object.keys(dataToUpdate)` (helpers/sql.js:17) and the destructuring in `create` (models/job.js:18) throw `TypeError`. That error path is not modelled.
- `Object.keys` puts integer-like keys first. The model takes the keys in the order given, which stands for the order `Object.keys` has already produced.
- Distinct keys are not enforced on the object sequence. No property relies on it.
- `jsToSql[key]` in JavaScript also finds inherited properties (a key named `constructor` finds a function). It can also hold non-string falsy values. The model's map holds strings only, so `""` is its only falsy value.
- The error classes' HTTP status codes and the expressError module are not part of this model.
- Sql.SetColsReadBack: requires that no column contains a comma. The builder does not escape columns, so `", "` inside one makes the joined list ambiguous. `Sql.FragmentsReadBack` states the per-fragment property without that condition.
- Job.UpdateSetColsReadBack: requires comma-free keys, for the same reason. `Job.UpdateBindsEveryPlaceholder` holds for every key.

## Findings

| source | as written | input that shows it | evidently intended | confidence | as-written member | corrected member |
|---|---|---|---|---|---|---|
| models/job.js:111-118 | `remove` reads `results.rows[0]`, but the DELETE's result is bound to `result`. The DELETE also has no RETURNING clause, so it could never return a row. | `Job.remove(id)` with the id of an existing job: it throws `ReferenceError`, not success | Succeed when a row was deleted. Throw `NotFoundError` when none was (doc comment, models/job.js:104-109). | not executed | `Job.RemoveAsWrittenFailsOnExistingJob` | `Job.Remove` |
