/**
 * The small part of JavaScript's value model that the voting front end relies on:
 * objects with keys, truthiness, property reads, `Number(...)` and thrown errors.
 */
module Js {

  /** A JavaScript value, as far as the core inspects it. Object keys are unordered. */
  datatype Value =
    | Undefined
    | Null
    | Bool(b: bool)
    | Num(n: int)
    | Str(s: string)
    | Fn
    | Obj(fields: map<string, Value>)

  /** A thrown error: its `message` and, for ledger reverts, its `data`; an absent property is "". */
  datatype Failure = Failure(message: string, data: string)

  /** An error raised with `new Error(message)`. */
  function Raise(message: string): (f: Failure)
    ensures f.message == message && f.data == ""
  {
    Failure(message, "")
  }

  /** JavaScript truthiness of the values the core inspects (a `Num` is an integer, never NaN). */
  predicate Truthy(v: Value) {
    match v
    case Undefined => false
    case Null => false
    case Bool(b) => b
    case Num(n) => n != 0
    case Str(s) => s != ""
    case Fn => true
    case Obj(_) => true
  }

  /** `typeof v === "object" || typeof v === "function"`: the values on which the `in` operator works. */
  predicate IsObjectLike(v: Value) {
    v.Obj? || v.Fn?
  }

  /** `key in v` on an object-like value (own keys only). */
  predicate HasKey(v: Value, key: string) {
    v.Obj? && key in v.fields
  }

  /** `v?.[key]`: reading a property never throws and yields `undefined` when there is none. */
  function Get(v: Value, key: string): (r: Value)
    ensures !HasKey(v, key) ==> r == Undefined
  {
    if v.Obj? && key in v.fields then v.fields[key] else Undefined
  }

  /** The outcome of `v[key]` without optional chaining: it throws on `undefined` and `null`. */
  datatype Read = Threw | Got(value: Value)

  function StrictGet(v: Value, key: string): (r: Read)
    ensures r.Threw? <==> (v.Undefined? || v.Null?)
    ensures r.Got? ==> r.value == Get(v, key)
  {
    if v.Undefined? || v.Null? then Threw else Got(Get(v, key))
  }

  /** A number as `Number(...)` yields it: an integer or NaN (fractions and infinities are not modelled). */
  datatype Numeric = Int(n: int) | NaN

  /** `a + b` on numbers: NaN absorbs everything. */
  function Add(a: Numeric, b: Numeric): Numeric {
    if a.Int? && b.Int? then Int(a.n + b.n) else NaN
  }

  /** `a > 0`, which is false for NaN. */
  predicate Positive(a: Numeric) {
    a.Int? && a.n > 0
  }

  /** `Number(v)`: `undefined`, functions and objects are NaN, `null` is 0, strings are parsed. */
  function ToNumber(v: Value): (r: Numeric)
    ensures v.Num? ==> r == Int(v.n)
    ensures v.Bool? ==> r == Int(if v.b then 1 else 0)
    ensures v.Null? ==> r == Int(0)
    ensures v.Undefined? || v.Fn? || v.Obj? ==> r == NaN
  {
    match v
    case Undefined => NaN
    case Null => Int(0)
    case Bool(b) => if b then Int(1) else Int(0)
    case Num(n) => Int(n)
    case Str(s) => StringToNumber(s)
    case Fn => NaN
    case Obj(_) => NaN
  }

  /** The white space and line terminators `Number(s)` ignores around the literal. */
  predicate IsSpace(c: char) {
    c == '\t' || c == '\n' || c == '\U{B}' || c == '\U{C}' || c == '\r' || c == ' ' || c == '\U{A0}' || c == '\U{1680}' ||
    ('\U{2000}' <= c <= '\U{200A}') || c == '\U{2028}' || c == '\U{2029}' || c == '\U{202F}' || c == '\U{205F}' ||
    c == '\U{3000}' || c == '\U{FEFF}'
  }

  /** `s` without its leading white space. */
  function TrimStart(s: string): (r: string)
    ensures |r| <= |s| && r == s[|s| - |r|..]
    ensures forall i | 0 <= i < |s| - |r| :: IsSpace(s[i])
    ensures r == [] || !IsSpace(r[0])
  {
    if s != [] && IsSpace(s[0]) then TrimStart(s[1..]) else s
  }

  /** `s` without its trailing white space. */
  function TrimEnd(s: string): (r: string)
    ensures |r| <= |s| && r == s[..|r|]
    ensures forall i | |r| <= i < |s| :: IsSpace(s[i])
    ensures r == [] || !IsSpace(r[|r| - 1])
  {
    if s != [] && IsSpace(s[|s| - 1]) then TrimEnd(s[..|s| - 1]) else s
  }

  /** The value of `c` as a digit in `radix` (letters in either case), or -1. */
  function DigitIn(c: char, radix: nat): (d: int)
    ensures -1 <= d < radix
  {
    var v := if '0' <= c <= '9' then c as int - '0' as int
             else if 'a' <= c <= 'f' then c as int - 'a' as int + 10
             else if 'A' <= c <= 'F' then c as int - 'A' as int + 10
             else -1;
    if v < radix then v else -1
  }

  /** A non-empty run of digits in `radix`, most significant first; anything else is NaN. */
  function Digits(s: string, radix: nat): (r: Numeric)
    ensures r.Int? ==> r.n >= 0
  {
    if s == [] then NaN
    else
      var d := DigitIn(s[|s| - 1], radix);
      if d < 0 then NaN
      else if |s| == 1 then Int(d)
      else match Digits(s[..|s| - 1], radix)
        case NaN => NaN
        case Int(m) => Int(m * radix + d)
  }

  /** A run of digits reads as a number exactly when it is non-empty and every character is a digit in `radix`. */
  lemma {:induction false} DigitsRead(s: string, radix: nat)
    ensures Digits(s, radix).Int? <==> s != [] && forall i | 0 <= i < |s| :: DigitIn(s[i], radix) >= 0
  {
    if |s| > 1 {
      var p := s[..|s| - 1];
      DigitsRead(p, radix);
      assert forall i | 0 <= i < |p| :: p[i] == s[i];
    }
  }

  /** The radix a `0x`, `0o` or `0b` prefix (either case) introduces, or 0 for none. */
  function PrefixRadix(t: string): nat {
    if |t| < 2 || t[0] != '0' then 0
    else if t[1] == 'x' || t[1] == 'X' then 16
    else if t[1] == 'o' || t[1] == 'O' then 8
    else if t[1] == 'b' || t[1] == 'B' then 2
    else 0
  }

  /**
   * `Number(s)` on a string: after trimming, the empty string is 0, `0x`/`0o`/`0b` introduce an
   * unsigned hexadecimal, octal or binary literal, and otherwise an optionally signed run of
   * decimal digits is read; anything else is NaN.
   */
  function StringToNumber(s: string): Numeric {
    var t := TrimEnd(TrimStart(s));
    if t == "" then Int(0)
    else if PrefixRadix(t) != 0 then Digits(t[2..], PrefixRadix(t))
    else if t[0] == '-' then (match Digits(t[1..], 10) case NaN => NaN case Int(m) => Int(-m))
    else if t[0] == '+' then Digits(t[1..], 10)
    else Digits(t, 10)
  }

  /** The decimal digits of `n`, as `String(n)` writes them. */
  function DecimalDigits(n: nat): (r: string)
    ensures r != [] && forall i | 0 <= i < |r| :: '0' <= r[i] <= '9'
  {
    var last := ['0' + (n % 10) as char];
    if n < 10 then last else DecimalDigits(n / 10) + last
  }

  /** `String(n)` for an integer. */
  function Decimal(n: int): string {
    if n < 0 then "-" + DecimalDigits(-n) else DecimalDigits(n)
  }

  lemma {:induction false} DigitsOfDecimal(n: nat)
    ensures Digits(DecimalDigits(n), 10) == Int(n)
  {
    var s := DecimalDigits(n);
    if n >= 10 {
      DigitsOfDecimal(n / 10);
      assert s[..|s| - 1] == DecimalDigits(n / 10);
    }
  }

  lemma DigitNotSpace(c: char)
    requires '0' <= c <= '9' || c == '-'
    ensures !IsSpace(c)
  {
  }

  lemma Untrimmed(s: string)
    requires s != [] && !IsSpace(s[0]) && !IsSpace(s[|s| - 1])
    ensures TrimEnd(TrimStart(s)) == s
  {
  }

  lemma UnsignedDigitsRead(s: string)
    requires s != [] && forall i | 0 <= i < |s| :: '0' <= s[i] <= '9'
    ensures StringToNumber(s) == Digits(s, 10)
  {
    DigitNotSpace(s[0]);
    DigitNotSpace(s[|s| - 1]);
    Untrimmed(s);
    assert |s| >= 2 ==> '0' <= s[1] <= '9';
    assert PrefixRadix(s) == 0;
  }

  lemma SignedDigitsRead(s: string, m: int)
    requires |s| >= 2 && s[0] == '-' && forall i | 1 <= i < |s| :: '0' <= s[i] <= '9'
    requires Digits(s[1..], 10) == Int(m)
    ensures StringToNumber(s) == Int(-m)
  {
    DigitNotSpace(s[0]);
    DigitNotSpace(s[|s| - 1]);
    Untrimmed(s);
  }

  lemma UnsignedRoundTrip(n: int)
    requires n >= 0
    ensures StringToNumber(Decimal(n)) == Int(n)
  {
    DigitsOfDecimal(n);
    UnsignedDigitsRead(DecimalDigits(n));
  }

  lemma SignedRoundTrip(n: int)
    requires n < 0
    ensures StringToNumber(Decimal(n)) == Int(n)
  {
    var s := Decimal(n);
    var body := DecimalDigits(-n);
    DigitsOfDecimal(-n);
    assert s[1..] == body;
    forall i | 1 <= i < |s| ensures '0' <= s[i] <= '9' {
      assert s[i] == body[i - 1];
    }
    SignedDigitsRead(s, -n);
  }

  /** `Number(String(n))` is `n` for every integer. */
  lemma DecimalRoundTrip(n: int)
    ensures ToNumber(Str(Decimal(n))) == Int(n)
  {
    if n < 0 {
      SignedRoundTrip(n);
    } else {
      UnsignedRoundTrip(n);
    }
  }

  /** A string-typed field: strings as they are, anything else as "". */
  function Text(v: Value): string {
    if v.Str? then v.s else ""
  }
}
