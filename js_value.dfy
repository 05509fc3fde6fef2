/** The JavaScript values the modelled code passes around, what a template
    literal prints for them, and plain objects as the code sees them. */
module JsValues {
  import opened Wrappers
  import opened Text

  /** Numbers are modelled as integers only (ids, salaries). */
  datatype JsValue =
    | Undefined
    | Null
    | Bool(b: bool)
    | Number(n: int)
    | Str(s: string)

  /** The text `${v}` inserts into a template literal: a string itself, a
      number its decimal numeral (after a '-' when negative), which reads back
      as the number. */
  function TemplateText(v: JsValue): (t: string)
    ensures v.Str? ==> t == v.s
    ensures v.Number? && v.n >= 0 ==> ParseDigits(t) == Some(v.n)
    ensures v.Number? && v.n < 0 ==> |t| >= 2 && t[0] == '-' && ParseDigits(t[1..]) == Some(-v.n)
  {
    ParseDigitsInvertsDigits(if v.Number? && v.n < 0 then -v.n else if v.Number? then v.n else 0);
    match v
    case Undefined => "undefined"
    case Null => "null"
    case Bool(b) => if b then "true" else "false"
    case Number(n) => if n < 0 then "-" + Digits(-n) else Digits(n)
    case Str(s) => s
  }

  /** A plain object as its own enumerable properties in `Object.keys`
      order: `Object.keys` is the first components, `Object.values` the
      second. */
  type JsObject = seq<(string, JsValue)>

  /** `Object.keys(o)` */
  function KeysOf(o: JsObject): (keys: seq<string>)
    ensures |keys| == |o|
    ensures forall i :: 0 <= i < |o| ==> keys[i] == o[i].0
  {
    seq(|o|, i requires 0 <= i < |o| => o[i].0)
  }

  /** `Object.values(o)` */
  function ValuesOf(o: JsObject): (values: seq<JsValue>)
    ensures |values| == |o|
    ensures forall i :: 0 <= i < |o| ==> values[i] == o[i].1
  {
    seq(|o|, i requires 0 <= i < |o| => o[i].1)
  }

  /** `o[key]`, as destructuring reads it: `undefined` when absent. */
  function Property(o: JsObject, key: string): (v: JsValue)
    ensures (forall i :: 0 <= i < |o| ==> o[i].0 != key) ==> v == Undefined
    ensures forall i :: 0 <= i < |o| && o[i].0 == key && (forall j :: 0 <= j < i ==> o[j].0 != key) ==> v == o[i].1
  {
    if |o| == 0 then Undefined
    else if o[0].0 == key then o[0].1
    else Property(o[1..], key)
  }
}
