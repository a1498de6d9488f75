/** Python values as decoded from JSON: lookup, truth and text. */
module PyValues {
  import opened CanonicalJson

  /** A decoded JSON object. */
  type Rec = map<string, Json>

  function Get(d: Rec, k: string): Json { if k in d then d[k] else Null }

  predicate Truthy(v: Json)
  {
    match v
    case Null => false
    case Bool(b) => b
    case Int(n) => n != 0
    case Str(s) => s != ""
    case Arr(items) => items != []
    case Obj(fields) => fields != map[]
  }

  /** `str(v)`; the text of a container is not spelled out by this model beyond being some text. */
  function PyStr(v: Json): string
  {
    match v
    case Null => "None"
    case Bool(b) => if b then "True" else "False"
    case Int(n) => IntText(n)
    case Str(s) => s
    case _ => Print(v)
  }

  function Strs(ts: seq<string>): seq<Json> { seq(|ts|, i requires 0 <= i < |ts| => Str(ts[i])) }

  function Texts(vs: seq<Json>): seq<string> { seq(|vs|, i requires 0 <= i < |vs| => PyStr(vs[i])) }

  lemma TextsOfStrs(ts: seq<string>)
    ensures Texts(Strs(ts)) == ts
  {
  }
}
