/** The names of timeframes and their numbers of seconds. */
module Timeframes {
  import opened Options
  import opened Texts
  import opened Decimals
  import opened PineGrammar

  const MAX_INT64 := 0x7fff_ffff_ffff_ffff

  /** A 64-bit signed decimal number. */
  function ParseInt(text: string): Option<int> {
    var signed := |text| > 0 && (text[0] == '+' || text[0] == '-');
    var digits := if signed then text[1..] else text;
    if !AllDigits(digits) then None
    else
      var value: int := if signed && text[0] == '-' then 0 - DigitsValue(digits) else DigitsValue(digits);
      if -MAX_INT64 - 1 <= value <= MAX_INT64 then Some(value) else None
  }

  /** Seconds of one unit: "m" is a minute and "M" a month of thirty days; without a unit, minutes. */
  function UnitSeconds(unit: Option<char>): (r: Option<nat>)
    ensures r.Some? ==> r.value > 0
  {
    match unit
    case None => Some(60)
    case Some('m') => Some(60)
    case Some('s') => Some(1)
    case Some('S') => Some(1)
    case Some('h') => Some(3600)
    case Some('H') => Some(3600)
    case Some('d') => Some(86400)
    case Some('D') => Some(86400)
    case Some('w') => Some(604800)
    case Some('W') => Some(604800)
    case Some('M') => Some(2592000)
    case _ => None
  }

  /** The seconds of a timeframe, 0 for the chart's own, nothing for a name that is not understood. */
  function TimeframeSeconds(value: string): Option<nat> {
    var raw := Trim(value);
    if raw == "" || Lower(raw) == "chart" then Some(0)
    else
      var last := raw[|raw| - 1];
      var unit := if IsDigit(last) then None else Some(last);
      var text := if IsDigit(last) then raw else Trim(raw[..|raw| - 1]);
      var amount := ParseInt(if text == "" && unit.Some? then "1" else text);
      if amount.None? || amount.value <= 0 || UnitSeconds(unit).None? then None
      else if amount.value > MAX_INT64 / UnitSeconds(unit).value then None
      else Some(amount.value * UnitSeconds(unit).value)
  }

  /** The text of a timeframe argument: a quoted text, or the argument as it is written. */
  function TimeframeText(ts: Tokens): Option<string> {
    if |ts| == 1 && (ts[0].StringTok? || ts[0].IdentTok?) then Some(ts[0].text)
    else if |ts| == 1 && IsWhole(ts[0]) then Some(Decimal(ts[0].r.Floor))
    else if |ts| == 2 && IsWhole(ts[0]) && ts[1].IdentTok? then Some(Decimal(ts[0].r.Floor) + ts[1].text)
    else None
  }

  function RequestedSeconds(ts: Tokens): Option<nat> {
    match TimeframeText(ts)
    case Some(text) => TimeframeSeconds(text)
    case None => None
  }

  function Suffix(unit: Option<char>): string {
    if unit.None? then "" else [unit.value]
  }

  lemma {:induction false} DigitsAreTrimmed(text: string)
    requires AllDigits(text)
    ensures Trimmed(text)
  {
    assert IsDigit(text[0]) && IsDigit(text[|text| - 1]);
  }

  lemma {:induction false} WrittenAmount(amount: nat, unit: Option<char>)
    requires UnitSeconds(unit).Some?
    ensures var raw := Decimal(amount) + Suffix(unit);
            && Trim(raw) == raw && raw != "" && Lower(raw) != "chart"
            && (unit.None? <==> IsDigit(raw[|raw| - 1]))
            && (unit.Some? ==> raw[..|raw| - 1] == Decimal(amount) && Trim(Decimal(amount)) == Decimal(amount))
  {
    var raw, digits := Decimal(amount) + Suffix(unit), Decimal(amount);
    assert IsDigit(digits[0]) && IsDigit(digits[|digits| - 1]);
    assert Lower(raw)[0] == LowerChar(raw[0]) == raw[0];
    DigitsAreTrimmed(digits);
    if unit.None? {
      assert raw == digits;
    }
  }

  /** A written timeframe is read as its amount times its unit, unless it is zero or too large for 64 bits. */
  lemma {:induction false} TimeframeReads(amount: nat, unit: Option<char>)
    requires UnitSeconds(unit).Some?
    ensures var seconds := amount * UnitSeconds(unit).value;
            TimeframeSeconds(Decimal(amount) + Suffix(unit)) == if 0 < seconds <= MAX_INT64 then Some(seconds) else None
  {
    var raw, m := Decimal(amount) + Suffix(unit), UnitSeconds(unit).value;
    WrittenAmount(amount, unit);
    ValueOfDecimal(amount);
    if unit.None? {
      assert raw == Decimal(amount);
    }
    assert AllDigits(Decimal(amount)) && IsDigit(Decimal(amount)[0]);
    FitsWhen(amount, m);
  }

  lemma {:induction false} FitsWhen(amount: nat, m: nat)
    requires m > 0
    ensures amount > MAX_INT64 / m <==> amount * m > MAX_INT64
    ensures amount * m >= amount && (amount > 0 ==> amount * m > 0)
  {
    var q := MAX_INT64 / m;
    assert q * m <= MAX_INT64 < (q + 1) * m;
    if amount > q {
      assert amount * m >= (q + 1) * m by {
        ScaleUp(q + 1, amount, m);
      }
    } else {
      ScaleUp(amount, q, m);
    }
    ScaleUp(1, m, amount);
  }

  lemma {:induction false} ScaleUp(a: nat, b: nat, m: nat)
    requires a <= b
    ensures a * m <= b * m
  {
  }

  /** A unit alone is one of it, and letter case tells months from minutes. */
  lemma {:induction false} UnitAlone(unit: char)
    requires UnitSeconds(Some(unit)).Some?
    ensures TimeframeSeconds([unit]) == UnitSeconds(Some(unit))
  {
    assert Trim([unit]) == [unit];
    assert |Lower([unit])| == 1;
    assert [unit][..0] == "" && Trim("") == "";
    assert DigitsValue("1") == 1 by {
      assert "1"[..0] == "";
    }
  }
}
