/**
 * The slice of JavaScript value semantics the queue and the worker rely on:
 * truthiness, the `+=` used by the in-memory `hincrby`, the number coercion
 * behind `x * 1000` and `i < number`, and the decimal text a Redis server
 * stores in place of a number.
 */
module JsValues {

  datatype Option<+T> = None | Some(value: T)

  datatype Result<+T> = Ok(value: T) | Error(reason: string)

  /** A value held in a worker record field or passed as an option. `NaN` is
      the number NaN; an absent field (`undefined`) is `None` at the map level.
      `Date(ms)` is a date written to a record: the JSON text of the instant
      `ms` (milliseconds since the epoch), kept as its instant rather than
      spelled out character by character. */
  datatype Value = Num(n: int) | Str(s: string) | Bool(b: bool) | NaN | Date(ms: int)

  /** JavaScript truthiness. */
  predicate Truthy(v: Value) {
    match v
    case Num(n) => n != 0
    case Str(s) => s != ""
    case Bool(b) => b
    case NaN => false
    case Date(_) => true
  }

  /** `typeof v === "number"` (NaN is a number). */
  predicate IsNumber(v: Value) {
    v.Num? || v.NaN?
  }

  predicate IsDigit(c: char) {
    '0' <= c <= '9'
  }

  predicate AllDigits(s: string) {
    forall i :: 0 <= i < |s| ==> IsDigit(s[i])
  }

  function DigitChar(d: nat): (c: char)
    requires d < 10
    ensures IsDigit(c) && c as int - '0' as int == d
  {
    ['0', '1', '2', '3', '4', '5', '6', '7', '8', '9'][d]
  }

  /** The value of a string of decimal digits. */
  function DigitsValue(s: string): nat
    requires AllDigits(s)
  {
    if |s| == 0 then 0
    else DigitsValue(s[..|s| - 1]) * 10 + (s[|s| - 1] as int - '0' as int)
  }

  /** Decimal text of a natural number, without leading zeros. */
  function NatText(n: nat): (r: string)
    ensures |r| > 0 && AllDigits(r)
    ensures r[0] == '0' ==> n == 0
  {
    if n < 10 then [DigitChar(n)] else NatText(n / 10) + [DigitChar(n % 10)]
  }

  /** `String(n)` for an integer. */
  function IntText(n: int): (r: string)
    ensures |r| > 0
  {
    if n < 0 then "-" + NatText(-n) else NatText(n)
  }

  /** Decimal integer text: an optional minus sign and at least one digit.
      Other numeric spellings (fractions, exponents, white space, hex) are
      outside the model and read as not-a-number. */
  function ParseInt(s: string): Option<int> {
    if |s| > 1 && s[0] == '-' && AllDigits(s[1..]) then Some(0 - DigitsValue(s[1..]) as int)
    else if |s| > 0 && AllDigits(s) then Some(DigitsValue(s))
    else None
  }

  lemma {:induction false} NatTextValue(n: nat)
    ensures DigitsValue(NatText(n)) == n
  {
    if n >= 10 {
      var prefix := NatText(n / 10);
      var r := prefix + [DigitChar(n % 10)];
      assert r[..|r| - 1] == prefix;
      NatTextValue(n / 10);
    }
  }

  /** Integer text read back is the same integer. */
  lemma IntTextRoundTrip(n: int)
    ensures ParseInt(IntText(n)) == Some(n)
  {
    if n < 0 {
      var digits := NatText(-n);
      var r := "-" + digits;
      assert r[1..] == digits;
      assert AllDigits(r[1..]);
      NatTextValue(-n);
      assert ParseInt(r) == Some(0 - DigitsValue(digits) as int);
    } else {
      var r := NatText(n);
      NatTextValue(n);
      assert r[0] != '-';
      assert ParseInt(r) == Some(DigitsValue(r) as int);
    }
  }

  /** The text a Redis server keeps for a value written with HSET: text stays
      as it is, anything else becomes its `String(v)` spelling. */
  function AsText(v: Value): (r: Value)
    ensures r.Str? || r.Date?
    ensures v.Str? || v.Date? ==> r == v
  {
    match v
    case Num(n) => Str(IntText(n))
    case Str(s) => v
    case Bool(b) => Str(if b then "true" else "false")
    case NaN => Str("NaN")
    case Date(_) => v
  }

  /** `Number(v)`, the coercion applied by `*` and `<`; `None` is NaN. */
  function ToNumber(v: Value): Option<int> {
    match v
    case Num(n) => Some(n)
    case Str(s) => if s == "" then Some(0) else ParseInt(s)
    case Bool(b) => Some(if b then 1 else 0)
    case NaN => None
    case Date(_) => None
  }

  /** A number survives being stored as Redis text: `Number(String(n)) == n`. */
  lemma NumberSurvivesText(n: int)
    ensures ToNumber(AsText(Num(n))) == Some(n)
  {
    IntTextRoundTrip(n);
  }

  /** `field += k` where the field may be undefined (`None`). */
  function AddNumber(field: Option<Value>, k: int): (r: Value)
    ensures field.Some? && field.value.Num? ==> r == Num(field.value.n + k)
    ensures field.None? ==> r == NaN
  {
    match field
    case None => NaN
    case Some(Num(n)) => Num(n + k)
    case Some(Str(s)) => Str(s + IntText(k))
    case Some(Bool(b)) => Num((if b then 1 else 0) + k)
    case Some(NaN) => NaN
    case Some(Date(_)) => NaN
  }

  /** `field * 1000`: a delay in milliseconds from a field in seconds. */
  function Millis(field: Option<Value>): (r: Option<int>)
    ensures field.Some? && field.value.Num? ==> r == Some(field.value.n * 1000)
    ensures field.None? ==> r.None?
  {
    match field
    case None => None
    case Some(v) => match ToNumber(v) case Some(x) => Some(x * 1000) case None => None
  }

  /** How many times `for (i = 0; i < number; i++)` runs. */
  function LoopCount(number: Option<Value>): (r: nat)
    ensures number.Some? && number.value.Num? && number.value.n >= 0 ==> r == number.value.n
    ensures number.None? ==> r == 0
  {
    match number
    case None => 0
    case Some(v) => match ToNumber(v) case Some(x) => if x > 0 then x else 0 case None => 0
  }

  /** `new Date(v).getTime()`; `None` is an Invalid Date (NaN). A number is
      a millisecond count; text other than a date's JSON form is outside the
      model and reads as an Invalid Date. */
  function ParseDate(v: Value): (r: Option<int>)
    ensures v.Date? ==> r == Some(v.ms)
    ensures v.Num? ==> r == Some(v.n)
  {
    match v
    case Num(n) => Some(n)
    case Str(_) => None
    case Bool(b) => Some(if b then 1 else 0)
    case NaN => None
    case Date(ms) => Some(ms)
  }
}
