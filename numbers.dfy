/** A simplified `pd.to_numeric` for one text value: an optionally signed decimal numeral. */
module Numbers {
  import opened Results

  predicate IsDigit(c: char)
  {
    '0' <= c <= '9'
  }

  predicate AllDigits(s: string)
  {
    forall i :: 0 <= i < |s| ==> IsDigit(s[i])
  }

  function Pow10(k: nat): (r: nat)
    ensures r >= 1
  {
    if k == 0 then 1 else 10 * Pow10(k - 1)
  }

  /** The value of a run of decimal digits, most significant first. */
  function DigitsValue(s: string): nat
    requires AllDigits(s)
  {
    if s == [] then 0
    else 10 * DigitsValue(s[..|s| - 1]) + (s[|s| - 1] as int - '0' as int)
  }

  /** The position of the first '.' in `s`, if there is one. */
  function DotIndex(s: string): (r: Option<nat>)
    ensures r.Some? ==> r.value < |s| && s[r.value] == '.'
    ensures r.Some? ==> forall i :: 0 <= i < r.value ==> s[i] != '.'
    ensures r.None? <==> forall i :: 0 <= i < |s| ==> s[i] != '.'
  {
    if s == [] then None
    else if s[0] == '.' then Some(0)
    else match DotIndex(s[1..])
      case None => None
      case Some(k) => Some(k + 1)
  }

  /** Digits with at most one decimal point, and at least one digit. */
  function ParseUnsigned(s: string): Option<real>
  {
    match DotIndex(s)
    case None =>
      if s != [] && AllDigits(s) then Some(DigitsValue(s) as real) else None
    case Some(k) =>
      var whole, frac := s[..k], s[k + 1..];
      if |whole| + |frac| > 0 && AllDigits(whole) && AllDigits(frac)
      then Some(DigitsValue(whole) as real + DigitsValue(frac) as real / Pow10(|frac|) as real)
      else None
  }

  /** The number a text cell denotes, or None when `pd.to_numeric` would raise.
      A numeral is accepted only if it is made of digits, at most one '.', and a
      leading sign. */
  function Parse(s: string): (r: Option<real>)
    ensures r.Some? ==> s != []
    ensures r.Some? ==> forall i :: 0 <= i < |s| ==>
      IsDigit(s[i]) || s[i] == '.' || (i == 0 && (s[i] == '-' || s[i] == '+'))
  {
    if s != [] && s[0] == '-' then
      match ParseUnsigned(s[1..])
      case None => None
      case Some(x) => Some(-x)
    else if s != [] && s[0] == '+' then ParseUnsigned(s[1..])
    else ParseUnsigned(s)
  }

  /** Decimal rendering of a natural number, without leading zeros. */
  function ShowNat(n: nat): (r: string)
    ensures r != [] && AllDigits(r)
    ensures DigitsValue(r) == n
  {
    var d := ['0' + (n % 10) as char];
    if n < 10 then d else ShowNat(n / 10) + d
  }

  /** Decimal rendering of an integer, with '-' for negatives. */
  function Show(x: int): string
  {
    if x < 0 then "-" + ShowNat(-x) else ShowNat(x)
  }

  /** Every integer written in decimal is read back as that number. */
  lemma ShowParses(x: int)
    ensures Parse(Show(x)) == Some(x as real)
  {
    var digits := ShowNat(if x < 0 then -x else x);
    assert DotIndex(digits) == None;
    if x < 0 {
      assert Show(x)[1..] == digits;
    }
  }
}
