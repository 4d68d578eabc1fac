/** JSON values. Numbers and nested values carry the text they print as. */
module Json {
  import opened Wrappers

  datatype Json =
    | Null
    | Bool(b: bool)
    | Number(text: string)
    | String(s: string)
    | Array(items: seq<Json>)
    | Object(fields: map<string, Json>)

  /** The printed text of arrays and objects. */
  type Render = Json -> string

  function Get(v: Json, name: string): Option<Json> {
    if v.Object? && name in v.fields then Some(v.fields[name]) else None
  }

  function Insert(v: Json, name: string, value: Json): Json {
    if v.Object? then Object(v.fields[name := value]) else v
  }

  /** The one text under which a key is sent to the database and looked up in the rows. */
  function BatchKey(render: Render, v: Json): string {
    match v
    case String(s) => s
    case Number(text) => text
    case Bool(b) => if b then "true" else "false"
    case Null => ""
    case Array(_) => render(v)
    case Object(_) => render(v)
  }

  /** The key of a row or parent in a column; empty when it lacks the column. */
  function KeyIn(render: Render, v: Json, column: string): string {
    match Get(v, column)
    case Some(key) => BatchKey(render, key)
    case None => ""
  }

  predicate Composite(v: Json) {
    v.Array? || v.Object?
  }

  /** JSON text: arrays in brackets, objects in braces, and different ones differ. */
  ghost predicate RenderOk(render: Render) {
    && (forall v :: Composite(v) ==> render(v) != "" && render(v)[0] == (if v.Array? then '[' else '{'))
    && (forall v, w :: Composite(v) && Composite(w) && render(v) == render(w) ==> v == w)
  }

  /** Number texts begin with a digit or a minus sign. */
  predicate Numeral(v: Json) {
    v.Number? ==> v.text != "" && ('0' <= v.text[0] <= '9' || v.text[0] == '-')
  }

  /**
    Different values have equal keys exactly when one of them is a string that
    holds the other's key: `42` and `"42"` match, `null` and `""` too, and no
    two others do.
   */
  lemma {:induction false} KeysAgree(render: Render, a: Json, b: Json)
    requires RenderOk(render) && Numeral(a) && Numeral(b)
    ensures BatchKey(render, a) == BatchKey(render, b) <==>
            a == b || (a.String? && a.s == BatchKey(render, b)) || (b.String? && b.s == BatchKey(render, a))
  {
  }
}
