/** JavaScript values as the ledger stores them in its rows, with the three
    coercions the ledger code relies on: truthiness (`||`, `!x`), `Number(x)`
    and `String(x)`. */
module Json {

  datatype Option<T> = None | Some(value: T)

  /** A scalar JavaScript value. Numbers are integers here (the ledger keeps
      whole amounts); `NaN` is kept as a case of its own because `Number(...)`
      can produce it and `===` treats it specially. */
  datatype Value = Undefined | Null | Bool(b: bool) | Num(n: int) | NaN | Str(s: string)

  /** A plain object with scalar properties: one ledger row. */
  type Row = map<string, Value>

  /** `r[k]`: a missing property reads as `undefined`. */
  function Get(r: Row, k: string): Value
  {
    if k in r then r[k] else Undefined
  }

  /** The row's `id` property equals the string `id` (`x.id === id`). */
  predicate HasId(r: Row, id: string)
  {
    Get(r, "id") == Str(id)
  }

  /** JavaScript truthiness. */
  predicate Truthy(v: Value)
  {
    match v
    case Undefined => false
    case Null => false
    case NaN => false
    case Bool(b) => b
    case Num(n) => n != 0
    case Str(s) => s != ""
  }

  /** `a || b`. */
  function Or(a: Value, b: Value): (r: Value)
    ensures Truthy(a) ==> r == a
    ensures !Truthy(a) ==> r == b
  {
    if Truthy(a) then a else b
  }

  /** `null` or `undefined`, the values `??` and `??=` replace. */
  predicate Nullish(v: Value)
  {
    v == Undefined || v == Null
  }

  /** `a === b`: structural equality, except that `NaN` equals nothing. */
  predicate StrictEquals(a: Value, b: Value)
  {
    a == b && a != NaN
  }

  predicate IsDigit(c: char)
  {
    '0' <= c <= '9'
  }

  function DigitValue(c: char): (d: nat)
    requires IsDigit(c)
    ensures d < 10
  {
    c as int - '0' as int
  }

  function DigitChar(d: nat): (c: char)
    requires d < 10
    ensures IsDigit(c) && DigitValue(c) == d
  {
    (d + '0' as int) as char
  }

  predicate AllDigits(s: string)
  {
    forall i :: 0 <= i < |s| ==> IsDigit(s[i])
  }

  /** The number a string of decimal digits denotes. */
  function DigitsValue(s: string): nat
    requires AllDigits(s)
  {
    if s == [] then 0 else DigitsValue(s[..|s| - 1]) * 10 + DigitValue(s[|s| - 1])
  }

  /** `Number(s)` for a string: the empty string is 0, an optionally signed
      run of decimal digits is its value, anything else is NaN. */
  function ParseNumber(s: string): (r: Value)
    ensures r.Num? || r == NaN
    ensures s == "" ==> r == Num(0)
  {
    if s == "" then Num(0)
    else if AllDigits(s) then Num(DigitsValue(s))
    else if s[0] == '-' && |s| > 1 && AllDigits(s[1..]) then Num(0 - DigitsValue(s[1..]) as int)
    else NaN
  }

  /** `Number(v)`. */
  function ToNumber(v: Value): (r: Value)
    ensures r.Num? || r == NaN
    ensures v.Num? ==> r == v
    ensures Nullish(v) ==> r == (if v == Null then Num(0) else NaN)
  {
    match v
    case Undefined => NaN
    case Null => Num(0)
    case Bool(b) => Num(if b then 1 else 0)
    case Num(_) => v
    case NaN => NaN
    case Str(s) => ParseNumber(s)
  }

  /** Decimal digits of a natural number, most significant first. */
  function NatToString(n: nat): (s: string)
    ensures |s| > 0 && AllDigits(s)
  {
    if n < 10 then [DigitChar(n)] else NatToString(n / 10) + [DigitChar(n % 10)]
  }

  function IntToString(n: int): (s: string)
    ensures |s| > 0
  {
    if n < 0 then "-" + NatToString(-n) else NatToString(n)
  }

  /** `String(v)`. */
  function ToStr(v: Value): string
  {
    match v
    case Undefined => "undefined"
    case Null => "null"
    case Bool(b) => if b then "true" else "false"
    case Num(n) => IntToString(n)
    case NaN => "NaN"
    case Str(s) => s
  }

  lemma {:induction false} DigitsOfNat(n: nat)
    ensures DigitsValue(NatToString(n)) == n
  {
    if n >= 10 {
      DigitsOfNat(n / 10);
      var s := NatToString(n);
      assert s[..|s| - 1] == NatToString(n / 10);
    }
  }

  /** `Number(String(n)) === n` for every integer the ledger stores. */
  lemma NumberOfStringOfNumber(n: int)
    ensures ToNumber(Str(ToStr(Num(n)))) == Num(n)
  {
    if n < 0 {
      DigitsOfNat(-n);
      var s := IntToString(n);
      assert s[1..] == NatToString(-n);
      assert !AllDigits(s) by { assert !IsDigit(s[0]); }
    } else {
      DigitsOfNat(n);
    }
  }
}
