/** What the embedded SQL engine and its driver contribute to the handlers'
    behaviour: how a JavaScript argument is bound to a statement parameter,
    how a column's affinity converts the bound value, the prefix `LIKE`
    test, and the engine's error messages. */
module Sql {
  import opened Wrappers
  import opened Text
  import opened Js

  /** A bound statement parameter. The driver binds a JavaScript number as
      a REAL (integral here). */
  datatype SqlValue = SqlNull | SqlReal(r: int) | SqlText(t: string)

  const BIND_ERROR := "SQLite3 can only bind numbers, strings, bigints, buffers, and null"

  /** Binding an argument: `null` and `undefined` become NULL, a boolean is
      refused. */
  function Bind(v: JsValue): (r: Result<SqlValue>)
    ensures r.Err? <==> v.Bool?
    ensures r.Err? ==> r.error == BIND_ERROR
  {
    match v
    case Undefined => Ok(SqlNull)
    case Null => Ok(SqlNull)
    case Bool(_) => Err(BIND_ERROR)
    case Num(n) => Ok(SqlReal(n))
    case Str(s) => Ok(SqlText(s))
  }

  /** The value a TEXT column stores for a bound value: NULL stays NULL,
      a number is stored in its textual form. */
  function TextColumn(v: SqlValue): Option<string> {
    match v
    case SqlNull => None
    case SqlReal(n) => Some(IntToString(n) + ".0")
    case SqlText(t) => Some(t)
  }

  /** The value an INTEGER column stores for a bound value: an integral
      number, or text made of digits only, becomes an integer; other text
      is kept as text. */
  datatype IntegerCell = IntNull | IntValue(i: int) | IntText(t: string)

  function IntegerColumn(v: SqlValue): IntegerCell {
    match v
    case SqlNull => IntNull
    case SqlReal(n) => IntValue(n)
    case SqlText(t) => if IsDigits(t) then IntValue(DecimalValue(t)) else IntText(t)
  }

  /** `s LIKE prefix || '%'` under SQLite's default LIKE: the first
      `|prefix|` characters of `s` equal `prefix` up to ASCII case.
      Wildcard characters inside `prefix` are taken literally. */
  predicate LikePrefix(s: string, prefix: string) {
    |prefix| <= |s| && forall i :: 0 <= i < |prefix| ==> LowerChar(s[i]) == LowerChar(prefix[i])
  }

  /** The prefix LIKE is the UI's `toLowerCase().startsWith(...)` test
      with ASCII case mapping. */
  lemma LikePrefixIsLowerStartsWith(s: string, prefix: string)
    ensures LikePrefix(s, prefix) <==> StartsWith(Lower(s), Lower(prefix))
  {
    if LikePrefix(s, prefix) {
      assert Lower(s)[..|prefix|] == Lower(prefix);
    }
    if StartsWith(Lower(s), Lower(prefix)) {
      forall i | 0 <= i < |prefix| ensures LowerChar(s[i]) == LowerChar(prefix[i]) {
        assert Lower(s)[..|prefix|][i] == Lower(prefix)[i];
      }
    }
  }

  function NoSuchTable(name: string): string { "no such table: " + name }

  function NotNullFailed(column: string): string { "NOT NULL constraint failed: " + column }

  const FOREIGN_KEY_FAILED := "FOREIGN KEY constraint failed"

  /** The engine's message when a statement fails on storage. */
  const IO_ERROR := "disk I/O error"
}
