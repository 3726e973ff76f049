/** Records as the client pages hold them: JavaScript objects parsed from the
    API's JSON, whose fields are strings, integers, booleans or `null`. A field
    name absent from an object reads as `undefined`. */
module Json {
  import opened Maybe
  import Text

  datatype Value = Null | Str(s: string) | Num(n: int) | Bool(b: bool)

  type Item = map<string, Value>

  /** `item[field]`; `None` is `undefined`. */
  function Field(item: Item, field: string): Option<Value>
  {
    if field in item then Some(item[field]) else None
  }

  /** `String(v)`. */
  function JsString(v: Value): string
  {
    match v
    case Null => "null"
    case Str(s) => s
    case Num(n) => Text.IntText(n)
    case Bool(b) => if b then "true" else "false"
  }

  /** JavaScript truthiness of a field read. */
  predicate Truthy(v: Option<Value>)
  {
    match v
    case None => false
    case Some(Null) => false
    case Some(Str(s)) => s != ""
    case Some(Num(n)) => n != 0
    case Some(Bool(b)) => b
  }

  /** `parseFloat(item[field])`: the argument is first turned into a string,
      so `undefined` reads as the text "undefined". `None` is NaN. */
  function ParseNumber(v: Option<Value>): Option<real>
  {
    Text.ParseFloat(if v.None? then "undefined" else JsString(v.value))
  }

  /** `parseFloat` of an integer field gives that integer back. */
  lemma NumberValue(i: int)
    ensures ParseNumber(Some(Num(i))) == Some(i as real)
  {
    Text.ParseIntText(i);
  }

  /** `parseFloat` of an amount rendered from integer cents gives the amount. */
  lemma AmountValue(cents: int)
    ensures ParseNumber(Some(Str(Text.CentsText(cents)))) == Some(cents as real / 100.0)
  {
    Text.ParseCentsText(cents);
  }

  /** The words JavaScript makes of `undefined`, `null` and the booleans are
      not numbers. */
  lemma WordsAreNaN(v: Option<Value>)
    requires v.None? || v == Some(Null) || (v.Some? && v.value.Bool?)
    ensures ParseNumber(v).None?
  {
    var t := if v.None? then "undefined" else JsString(v.value);
    assert t[0] in "unft";
    assert Text.DigitRun(t) == 0;
  }
}
