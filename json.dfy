/**
 * The fragment of JavaScript value semantics the handler relies on when it
 * reads the two lookup responses (index.js:75-94) and prints the results
 * (index.js:123-139): optional chaining, truthiness, the `||` fallback and
 * conversion to text in a template literal.
 */
module Json {

  /** A response field as the handler can observe it. */
  datatype Json =
    | Absent            // `undefined` or `null`
    | Str(s: string)    // a string
    | Obj(name: Json)   // an object; only its `name` member is ever read

  /** JavaScript truthiness: the empty string and `undefined`/`null` are
      falsy, every object is truthy, whatever it holds. */
  predicate Truthy(v: Json) {
    match v
    case Absent => false
    case Str(s) => s != ""
    case Obj(_) => true
  }

  /** `v?.name`: the `name` member of an object; a string, `undefined` and
      `null` all give `undefined`. */
  function NameOf(v: Json): Json {
    if v.Obj? then v.name else Absent
  }

  /** `i` is the position of the first truthy option. */
  predicate FirstTruthyAt(options: seq<Json>, i: int) {
    && 0 <= i < |options|
    && Truthy(options[i])
    && forall j :: 0 <= j < i ==> !Truthy(options[j])
  }

  predicate NoneTruthy(options: seq<Json>) {
    forall j :: 0 <= j < |options| ==> !Truthy(options[j])
  }

  /** `options[0] || options[1] || ... || fallback`: JavaScript's `||`
      yields its left operand when that is truthy and its right operand
      otherwise, so the chain gives the first truthy option, or the
      fallback string when there is none. */
  function FirstTruthy(options: seq<Json>, fallback: string): (r: Json)
    ensures (exists i :: FirstTruthyAt(options, i) && r == options[i])
         || (NoneTruthy(options) && r == Str(fallback))
    ensures fallback != "" ==> Truthy(r)
  {
    if options == [] then Str(fallback)
    else if Truthy(options[0]) then
      assert FirstTruthyAt(options, 0);
      options[0]
    else
      var r := FirstTruthy(options[1..], fallback);
      if NoneTruthy(options[1..]) then
        assert NoneTruthy(options);
        r
      else
        var i :| FirstTruthyAt(options[1..], i) && r == options[1..][i];
        assert FirstTruthyAt(options, i + 1);
        r
  }

  /** What `${v}` prints: the string itself, the fixed text of a plain
      object, and "null" for the only absent value a parsed JSON document
      can hold. */
  function ToText(v: Json): string {
    match v
    case Absent => "null"
    case Str(s) => s
    case Obj(_) => ObjectText
  }

  const ObjectText := "[object Object]"
}
