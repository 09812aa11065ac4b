/**
 * The few pieces of JavaScript semantics the CV builder relies on:
 * optional values, the dynamic objects that hold CV records, truthiness,
 * the `||` default idiom, string conversion of numbers, the loose numeric
 * comparison `v < k`, and the `\s` character class of regular expressions.
 */
module Js {

  datatype Option<+T> = None | Some(value: T)

  /** A value stored under a key of a CV record: a string or an (integral) number. */
  datatype Value = Text(s: string) | Num(n: int)

  /** A plain JavaScript object such as `{ degree: "BSc", percentage: "80" }`. */
  type Record = map<string, Value>

  /** Property access `r.key`; a missing key reads as `undefined` (None). */
  function Get(r: Record, key: string): (v: Option<Value>)
    ensures v.Some? <==> key in r
    ensures v.Some? ==> v.value == r[key]
  {
    if key in r then Some(r[key]) else None
  }

  /** JavaScript truthiness: `undefined`, `""` and `0` are falsy. */
  predicate Truthy(v: Option<Value>) {
    match v
    case None => false
    case Some(Text(s)) => s != ""
    case Some(Num(n)) => n != 0
  }

  /**
   * The text React shows for a value placed in the tree, which is also what
   * a template literal produces for a string or a number; `undefined` shows nothing.
   */
  function Show(v: Option<Value>): string {
    match v
    case None => ""
    case Some(Text(s)) => s
    case Some(Num(n)) => IntToString(n)
  }

  /** `v || fallback` where the result is used as text. */
  function Or(v: Option<Value>, fallback: string): (r: string)
    ensures Truthy(v) ==> r == Show(v) && r != ""
    ensures !Truthy(v) ==> r == fallback
  {
    if Truthy(v) then Show(v) else fallback
  }

  /**
   * `v || fallback` where the result is kept as a value: the value itself when
   * it is truthy, the fallback otherwise; a truthy fallback makes the result truthy.
   */
  function OrValue(v: Option<Value>, fallback: Value): (r: Value)
    ensures Truthy(v) ==> Some(r) == v
    ensures r == fallback || Some(r) == v
    ensures Truthy(Some(fallback)) ==> Truthy(Some(r))
  {
    if Truthy(v) then v.value else fallback
  }

  /**
   * `msg || fallback` for a message string that a server response may or may
   * not carry: the text shown is one of the two, the server's own message is
   * never hidden by the fallback, and a non-empty fallback means the text shown
   * is never blank.
   */
  function OrElse(msg: Option<string>, fallback: string): (r: string)
    ensures r == fallback || (msg.Some? && r == msg.value)
    ensures msg.Some? && msg.value != "" ==> r == msg.value
    ensures fallback != "" ==> r != ""
  {
    if msg.Some? && msg.value != "" then msg.value else fallback
  }

  predicate IsDigit(c: char) { '0' <= c <= '9' }

  predicate AllDigits(s: string) { forall i :: 0 <= i < |s| ==> IsDigit(s[i]) }

  function DigitChar(d: nat): (c: char)
    requires d < 10
    ensures IsDigit(c) && c as int - '0' as int == d
  {
    ['0', '1', '2', '3', '4', '5', '6', '7', '8', '9'][d]
  }

  /** The value of a string of decimal digits. */
  function DigitsValue(s: string): nat
    requires AllDigits(s)
  {
    if s == [] then 0 else DigitsValue(s[..|s| - 1]) * 10 + (s[|s| - 1] as int - '0' as int)
  }

  /** Decimal rendering of a natural number, without leading zeros. */
  function NatToString(n: nat): (s: string)
    ensures |s| > 0 && AllDigits(s)
  {
    if n < 10 then [DigitChar(n)] else NatToString(n / 10) + [DigitChar(n % 10)]
  }

  /** `String(n)` for an integral number. */
  function IntToString(i: int): (s: string)
    ensures |s| > 0
  {
    if i < 0 then "-" + NatToString(-i) else NatToString(i)
  }

  /**
   * `Number(s)` for the strings the model considers: the empty string is 0,
   * an optional sign followed by decimal digits is that integer, and
   * everything else is NaN (None).
   */
  function ToNumber(s: string): Option<int> {
    if s == "" then Some(0)
    else if (s[0] == '-' || s[0] == '+') && |s| > 1 && AllDigits(s[1..]) then
      var d: int := DigitsValue(s[1..]); Some(if s[0] == '-' then -d else d)
    else if AllDigits(s) then Some(DigitsValue(s))
    else None
  }

  /** `v < bound`: both sides are converted to numbers, and NaN compares false. */
  predicate LooseLess(v: Option<Value>, bound: int) {
    match v
    case None => false
    case Some(Num(n)) => n < bound
    case Some(Text(s)) => ToNumber(s).Some? && ToNumber(s).value < bound
  }

  /** `v > bound`, with the same conversions as LooseLess. */
  predicate LooseGreater(v: Option<Value>, bound: int) {
    match v
    case None => false
    case Some(Num(n)) => n > bound
    case Some(Text(s)) => ToNumber(s).Some? && ToNumber(s).value > bound
  }

  /** The characters matched by `\s` in a JavaScript regular expression. */
  predicate IsSpace(c: char) {
    var k := c as int;
    k == 0x09 || k == 0x0A || k == 0x0B || k == 0x0C || k == 0x0D || k == 0x20 ||
    k == 0xA0 || k == 0x1680 || (0x2000 <= k <= 0x200A) || k == 0x2028 || k == 0x2029 ||
    k == 0x202F || k == 0x205F || k == 0x3000 || k == 0xFEFF
  }

  lemma {:induction false} DigitsRoundTrip(n: nat)
    ensures DigitsValue(NatToString(n)) == n
  {
    var s := NatToString(n);
    if n >= 10 {
      DigitsRoundTrip(n / 10);
      assert s[..|s| - 1] == NatToString(n / 10);
    }
  }

  /** `Number` of a non-empty digit string, with and without a minus sign. */
  lemma DigitsToNumber(d: string)
    requires |d| > 0 && AllDigits(d)
    ensures ToNumber(d) == Some(DigitsValue(d))
    ensures ToNumber("-" + d) == Some(-(DigitsValue(d) as int))
  {
    assert IsDigit(d[0]);
    assert ("-" + d)[1..] == d;
  }

  /** `Number` of a natural number's decimal text, with and without a minus sign. */
  lemma NatTextToNumber(n: nat)
    ensures ToNumber(NatToString(n)) == Some(n)
    ensures ToNumber("-" + NatToString(n)) == Some(-(n as int))
  {
    DigitsToNumber(NatToString(n));
    DigitsRoundTrip(n);
  }

  /** Converting a number to text and back with `Number` yields the number again. */
  lemma NumberTextRoundTrip(i: int)
    ensures ToNumber(IntToString(i)) == Some(i)
  {
    if i < 0 {
      NatTextToNumber(-i);
    } else {
      NatTextToNumber(i);
    }
  }

}
