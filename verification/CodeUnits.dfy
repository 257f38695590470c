/** Strings as the program sees them: sequences of UTF-16 code units. */
module CodeUnits {

  newtype CodeUnit = x: int | 0 <= x < 0x10000

  type Text = seq<CodeUnit>

  predicate IsDigit(u: CodeUnit) {
    0x30 <= u <= 0x39
  }

  predicate IsHex(u: CodeUnit) {
    IsDigit(u) || 0x41 <= u <= 0x46 || 0x61 <= u <= 0x66
  }

  function HexValue(u: CodeUnit): (v: int)
    requires IsHex(u)
    ensures 0 <= v < 16
  {
    if IsDigit(u) then (u - 0x30) as int
    else if u <= 0x46 then (u - 0x41) as int + 10
    else (u - 0x61) as int + 10
  }

  /** The unit is the hexadecimal digit of the value, in either letter case. */
  ghost predicate IsHexDigitOf(h: CodeUnit, value: int) {
    || (0 <= value <= 9 && h as int == 0x30 + value)
    || (10 <= value <= 15 && h as int == 0x41 + value - 10)
    || (10 <= value <= 15 && h as int == 0x61 + value - 10)
  }

  lemma HexDigit(h: CodeUnit, value: int)
    ensures IsHex(h) && HexValue(h) == value <==> IsHexDigitOf(h, value)
  {
  }
}
