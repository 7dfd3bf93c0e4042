/**
 * The JavaScript values that the views keep in their form state, and the
 * coercions the views apply to them: truthiness (`!x`, `x || d`) and
 * `Number(x)` restricted to integers.
 */
module Values {

  datatype Option<T> = None | Some(value: T)

  /** The value of a form field: text typed into an input, or a number
      copied into the field from a stored row (an edit prefill or a load). */
  datatype Field = Text(text: string) | Num(n: int)

  /** JavaScript truthiness of a field: the empty string and the number 0 are falsy,
      so the typed text "0" is truthy while the prefilled number 0 is not. */
  predicate Falsy(f: Field)
    ensures Falsy(f) ==> ToNumber(f) == Some(0)
  {
    match f
    case Text(s) => s == ""
    case Num(n) => n == 0
  }

  lemma TypedZeroIsTruthy()
    ensures !Falsy(Text("0")) && Falsy(Num(0)) && Falsy(Text(""))
    ensures ToNumber(Text("0")) == ToNumber(Num(0)) == ToNumber(Text("")) == Some(0)
  {
  }

  predicate IsDigit(c: char) { '0' <= c <= '9' }

  predicate AllDigits(s: string) { forall i :: 0 <= i < |s| ==> IsDigit(s[i]) }

  function DigitValue(c: char): nat
    requires IsDigit(c)
  {
    (c as int) - ('0' as int)
  }

  /** The value of a decimal numeral, read left to right. */
  function DigitsValue(s: string): nat
    requires AllDigits(s)
    decreases |s|
  {
    if s == [] then 0 else DigitsValue(s[..|s| - 1]) * 10 + DigitValue(s[|s| - 1])
  }

  /** `Number(s)` on the text of a number input, for integers: the empty string is 0,
      an optional minus sign followed by digits is that integer, and any other text
      is NaN (None). */
  function ParseNumber(s: string): (r: Option<int>)
    ensures s == "" ==> r == Some(0)
    ensures AllDigits(s) ==> r == Some(DigitsValue(s))
    ensures r.Some? && s != "" ==> AllDigits(s) || (s[0] == '-' && AllDigits(s[1..]))
  {
    if s == "" then Some(0)
    else if s[0] == '-' && |s| > 1 && AllDigits(s[1..]) then Some(-(DigitsValue(s[1..]) as int))
    else if AllDigits(s) then Some(DigitsValue(s))
    else None
  }

  /** `Number(f)` for a field: a number is itself, the empty text is 0, a
      numeral is its value. */
  function ToNumber(f: Field): (r: Option<int>)
    ensures f.Num? ==> r == Some(f.n)
    ensures f == Text("") ==> r == Some(0)
    ensures f.Text? && AllDigits(f.text) ==> r == Some(DigitsValue(f.text))
  {
    match f
    case Text(s) => ParseNumber(s)
    case Num(n) => Some(n)
  }

  function DigitChar(d: nat): (c: char)
    requires d < 10
    ensures IsDigit(c) && DigitValue(c) == d
  {
    (('0' as int) + d) as char
  }

  /** The decimal numeral of a natural number, without leading zeros. */
  function ShowNat(n: nat): (s: string)
    ensures |s| > 0 && AllDigits(s)
    decreases n
  {
    if n < 10 then [DigitChar(n)] else ShowNat(n / 10) + [DigitChar(n % 10)]
  }

  /** The text a number input holds for an integer. */
  function Show(n: int): string
  {
    if n < 0 then "-" + ShowNat(-n) else ShowNat(n)
  }

  lemma {:induction false} DigitsValueShowNat(n: nat)
    ensures DigitsValue(ShowNat(n)) == n
    decreases n
  {
    if n >= 10 {
      var s := ShowNat(n);
      assert s[..|s| - 1] == ShowNat(n / 10);
      DigitsValueShowNat(n / 10);
    }
  }

  /** Reading back the text of an integer gives that integer. */
  lemma ParseShow(n: int)
    ensures ParseNumber(Show(n)) == Some(n)
  {
    if n < 0 {
      var s := Show(n);
      assert s[1..] == ShowNat(-n);
      DigitsValueShowNat(-n);
    } else {
      DigitsValueShowNat(n);
    }
  }
}
