/**
 * A value produced by json.loads (objects keep their key order, as Python
 * dicts do), its repr() and its str(), which is what an f-string such as
 * "with args {args}" writes.
 */
module Json {
  import opened Text

  datatype Json =
    | JNull
    | JBool(b: bool)
    | JNum(n: int)
    | JStr(s: string)
    | JArr(items: seq<Json>)
    | JObj(fields: seq<(string, Json)>)

  /** The empty dict `{}`, json.loads("{}"). */
  const EmptyObject := JObj([])

  /** Python's repr of a str, here always in single quotes (escaping is not modelled). */
  function Quote(s: string): string {
    "'" + s + "'"
  }

  /**
   * Python's repr() of the value json.loads returns for `j`, which is also
   * how it is written inside a list or a dict. The first character tells
   * the kind of value: a quote for a string, a bracket for a list, a brace
   * for a dict.
   */
  function Show(j: Json): (r: string)
    ensures r != []
    ensures r[0] == '\'' <==> j.JStr?
    ensures r[0] == '[' <==> j.JArr?
    ensures r[0] == '{' <==> j.JObj?
    decreases j, 1
  {
    match j
    case JNull => "None"
    case JBool(b) => if b then "True" else "False"
    case JNum(n) => Decimal(n)
    case JStr(s) => Quote(s)
    case JArr(items) => "[" + ShowItems(j, items) + "]"
    case JObj(fields) => "{" + ShowFields(j, fields) + "}"
  }

  /** The elements of `items`, a suffix of the list `parent`, separated by ", ". */
  function ShowItems(parent: Json, items: seq<Json>): string
    requires parent.JArr? && forall x :: x in items ==> x in parent.items
    decreases parent, 0, |items|
  {
    if items == [] then ""
    else
      assert items[0] in parent.items;
      if |items| == 1 then Show(items[0])
      else Show(items[0]) + ", " + ShowItems(parent, items[1..])
  }

  /** The `'key': value` pairs of `fields`, a suffix of the dict `parent`, separated by ", ". */
  function ShowFields(parent: Json, fields: seq<(string, Json)>): string
    requires parent.JObj? && forall f :: f in fields ==> f in parent.fields
    decreases parent, 0, |fields|
  {
    if fields == [] then ""
    else
      assert fields[0] in parent.fields;
      var entry := Quote(fields[0].0) + ": " + Show(fields[0].1);
      if |fields| == 1 then entry
      else entry + ", " + ShowFields(parent, fields[1..])
  }

  /** Python's str() of the value for `j`: a string is its own text, anything else its repr(). */
  function Str(j: Json): string {
    if j.JStr? then j.s else Show(j)
  }

  /** str() and repr() differ exactly on strings, where repr() adds the quotes around the text. */
  lemma StrOfString(j: Json)
    ensures j.JStr? ==> Str(j) == j.s
    ensures Str(j) == Show(j) <==> !j.JStr?
    ensures j.JStr? ==> Show(j) == Quote(Str(j))
  {
    if j.JStr? {
      assert |Show(j)| == |Str(j)| + 2;
    }
  }
}
