/** JSON trees as the plan compares them, and their text, which is the sort key of lists. */
module Json {
  import opened Ordering

  /** A number is its shortest decimal text, which is what `json.Marshal` prints. */
  type NumberText = s: string | s != "" && forall i | 0 <= i < |s| :: NumberChar(s[i]) witness "0"

  predicate NumberChar(c: char) {
    '0' <= c <= '9' || c == '-' || c == '+' || c == '.' || c == 'e' || c == 'E'
  }

  datatype Json =
    | Null
    | Bool(b: bool)
    | Num(n: NumberText)
    | Str(s: string)
    | Arr(elems: seq<Json>)
    | Obj(fields: Object)

  /** A Go `map[string]interface{}`. A nil map reads like an empty one everywhere in the plan. */
  type Object = map<string, Json>

  // ---- The text of a tree (jsonString) ----

  function HexDigit(n: nat): char
    requires n < 16
  {
    if n < 10 then '0' + n as char else 'a' + (n - 10) as char
  }

  function EscapeChar(c: char): string {
    if c == '"' || c == '\\' then ['\\', c]
    else if c == '\U{8}' then "\\b"
    else if c == '\U{C}' then "\\f"
    else if c == '\n' then "\\n"
    else if c == '\r' then "\\r"
    else if c == '\t' then "\\t"
    else if c < ' ' || c == '<' || c == '>' || c == '&' then
      "\\u00" + [HexDigit(c as int / 16), HexDigit(c as int % 16)]
    else if c == '\U{2028}' then "\\u2028"
    else if c == '\U{2029}' then "\\u2029"
    else [c]
  }

  function Escape(s: string): string {
    if s == "" then "\"" else EscapeChar(s[0]) + Escape(s[1..])
  }

  function Quote(s: string): string {
    "\"" + Escape(s)
  }

  function Text(j: Json): string
    decreases j, 2, 0
  {
    match j
    case Null => "null"
    case Bool(b) => if b then "true" else "false"
    case Num(n) => n
    case Str(s) => Quote(s)
    case Arr(xs) => if xs == [] then "[]" else "[" + Text(xs[0]) + TextRest(xs[1..])
    case Obj(f) =>
      var ks := SortedKeys(f.Keys);
      if ks == [] then "{}" else "{" + Field(ks[0], f[ks[0]]) + FieldsRest(j, ks[1..])
  }

  function TextRest(xs: seq<Json>): string
    decreases xs, 1, |xs|
  {
    if xs == [] then "]" else "," + Text(xs[0]) + TextRest(xs[1..])
  }

  function Field(key: string, value: Json): string
    decreases value, 3, 0
  {
    Quote(key) + ":" + Text(value)
  }

  function FieldsRest(j: Json, ks: seq<string>): string
    requires j.Obj? && forall k | k in ks :: k in j.fields
    decreases j, 1, |ks|
  {
    if ks == [] then "}"
    else "," + Field(ks[0], j.fields[ks[0]]) + FieldsRest(j, ks[1..])
  }
}
