/** JavaScript values as the date fields of a request body carry them, with the two
    conversions the source relies on: truthiness (`!x`) and template-literal
    interpolation (`${x}`), plus `parseInt` on the digit strings that an
    `<input type="number">` produces and `String.prototype.indexOf` for one character. */
module JsValues {

  datatype Option<+T> = None | Some(value: T)

  /** A JSON value as one property of a parsed body can hold it. Arrays, objects and
      fractional numbers are not modelled. */
  datatype JsValue = Undefined | Null | Bool(b: bool) | Num(n: int) | Str(s: string)

  /** JavaScript truthiness: `undefined`, `null`, `false`, `0` and `""` are falsy. */
  predicate Truthy(v: JsValue)
  {
    match v
    case Undefined => false
    case Null => false
    case Bool(b) => b
    case Num(n) => n != 0
    case Str(s) => s != ""
  }

  predicate IsDigit(c: char)
  {
    '0' <= c <= '9'
  }

  /** A non-empty string of decimal digits. */
  predicate IsNumeral(s: string)
  {
    |s| > 0 && forall i :: 0 <= i < |s| ==> IsDigit(s[i])
  }

  function DigitValue(c: char): (d: nat)
    requires IsDigit(c)
    ensures d < 10
  {
    c as int - '0' as int
  }

  function DigitChar(d: nat): (c: char)
    requires d < 10
    ensures IsDigit(c) && DigitValue(c) == d
  {
    ('0' as int + d) as char
  }

  /** `parseInt(s)` for a string of decimal digits (leading zeros allowed). */
  function NumeralValue(s: string): nat
    requires forall i :: 0 <= i < |s| ==> IsDigit(s[i])
  {
    if s == [] then 0 else NumeralValue(s[..|s| - 1]) * 10 + DigitValue(s[|s| - 1])
  }

  /** The decimal text of a natural number, as `String(n)` writes it: no leading zeros. */
  function DecimalText(n: nat): (s: string)
    ensures IsNumeral(s)
    ensures s[0] == '0' ==> n == 0
  {
    if n < 10 then [DigitChar(n)] else DecimalText(n / 10) + [DigitChar(n % 10)]
  }

  /** Reading back the text that `DecimalText` writes gives the number again. */
  lemma {:induction false} NumeralValueOfDecimalText(n: nat)
    ensures NumeralValue(DecimalText(n)) == n
  {
    var s := DecimalText(n);
    if n >= 10 {
      NumeralValueOfDecimalText(n / 10);
      assert s[..|s| - 1] == DecimalText(n / 10);
    }
  }

  /** A numeral without a leading zero (other than "0" itself) is the one `DecimalText`
      writes for its value, so value and canonical form together fix the text. */
  lemma {:induction false} CanonicalNumeral(s: string)
    requires IsNumeral(s) && (s[0] == '0' ==> s == "0")
    ensures s == DecimalText(NumeralValue(s))
    ensures s != "0" ==> NumeralValue(s) > 0
    decreases |s|
  {
    var front, c := s[..|s| - 1], s[|s| - 1];
    assert DigitChar(DigitValue(c)) == c;
    if |s| > 1 {
      assert front[0] == s[0] && s[0] != '0';
      CanonicalNumeral(front);
      var n := NumeralValue(s);
      assert n == NumeralValue(front) * 10 + DigitValue(c);
      assert n / 10 == NumeralValue(front) && n % 10 == DigitValue(c);
      assert s == front + [c];
    } else {
      assert s == [c];
    }
  }

  /** The text `${v}` inserts into a template literal. */
  function TemplateText(v: JsValue): (t: string)
    ensures v.Str? ==> t == v.s
    ensures v.Num? && v.n >= 0 ==> IsNumeral(t) && NumeralValue(t) == v.n && (t[0] == '0' ==> t == "0")
    ensures v.Num? && v.n < 0 ==>
              |t| > 1 && t[0] == '-' && IsNumeral(t[1..]) && NumeralValue(t[1..]) == -v.n && t[1] != '0'
  {
    match v
    case Undefined => "undefined"
    case Null => "null"
    case Bool(b) => if b then "true" else "false"
    case Num(n) =>
      NumeralValueOfDecimalText(if n >= 0 then n else -n);
      if n >= 0 then DecimalText(n) else "-" + DecimalText(-n)
    case Str(s) => s
  }

  /** Only the empty string renders as nothing. */
  lemma TemplateTextEmpty(v: JsValue)
    ensures TemplateText(v) == "" <==> v == Str("")
  {
  }

  /** `s.indexOf(c)`: a position of `s`, or -1. */
  function IndexOf(s: string, c: char): (i: int)
    ensures -1 <= i < |s|
  {
    if s == [] then -1
    else if s[0] == c then 0
    else
      var i := IndexOf(s[1..], c);
      if i < 0 then -1 else i + 1
  }

  /** `indexOf` gives -1 exactly when `c` does not occur, and otherwise its first
      position. */
  lemma {:induction false} IndexOfIsFirst(s: string, c: char)
    ensures IndexOf(s, c) == -1 <==> c !in s
    ensures IndexOf(s, c) >= 0 ==> s[IndexOf(s, c)] == c && c !in s[..IndexOf(s, c)]
  {
    if s != [] && s[0] != c {
      IndexOfIsFirst(s[1..], c);
      assert s == [s[0]] + s[1..];
      var i := IndexOf(s[1..], c);
      if i >= 0 {
        assert s[..i + 1] == [s[0]] + s[1..][..i];
      }
    }
  }

  /** The first `c` after a stretch without `c` is found right after that stretch. */
  lemma {:induction false} IndexOfAfter(a: string, c: char, b: string)
    requires c !in a
    ensures IndexOf(a + [c] + b, c) == |a|
  {
    if a != [] {
      assert (a + [c] + b)[1..] == a[1..] + [c] + b;
      IndexOfAfter(a[1..], c, b);
    }
  }
}
