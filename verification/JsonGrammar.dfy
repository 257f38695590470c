/**
  * The grammar of a JSON text (sections 2 to 7 of RFC 8259) over UTF-16 code
  * units: concrete syntax trees that keep every lexeme, and the text each tree
  * stands for. A text is JSON exactly when some well-formed tree unparses to it.
  */
module JsonGrammar {
  import opened CodeUnits
  import opened Common

  const TAB: CodeUnit := 0x09
  const LF: CodeUnit := 0x0A
  const CR: CodeUnit := 0x0D
  const SPACE: CodeUnit := 0x20
  const QUOTE: CodeUnit := 0x22
  const PLUS: CodeUnit := 0x2B
  const COMMA: CodeUnit := 0x2C
  const MINUS: CodeUnit := 0x2D
  const DOT: CodeUnit := 0x2E
  const SLASH: CodeUnit := 0x2F
  const ZERO: CodeUnit := 0x30
  const COLON: CodeUnit := 0x3A
  const UPPER_E: CodeUnit := 0x45
  const OPEN_BRACKET: CodeUnit := 0x5B
  const BACKSLASH: CodeUnit := 0x5C
  const CLOSE_BRACKET: CodeUnit := 0x5D
  const LOWER_B: CodeUnit := 0x62
  const LOWER_E: CodeUnit := 0x65
  const LOWER_F: CodeUnit := 0x66
  const LOWER_N: CodeUnit := 0x6E
  const LOWER_R: CodeUnit := 0x72
  const LOWER_T: CodeUnit := 0x74
  const LOWER_U: CodeUnit := 0x75
  const OPEN_BRACE: CodeUnit := 0x7B
  const CLOSE_BRACE: CodeUnit := 0x7D

  const TRUE_TEXT: Text := [0x74, 0x72, 0x75, 0x65]
  const FALSE_TEXT: Text := [0x66, 0x61, 0x6C, 0x73, 0x65]
  const NULL_TEXT: Text := [0x6E, 0x75, 0x6C, 0x6C]

  const MAXIMUM_DEPTH: nat := 100

  // ----- lexemes

  predicate IsSpace(u: CodeUnit) {
    u == TAB || u == LF || u == CR || u == SPACE
  }

  predicate AllSpace(t: Text) {
    forall i | 0 <= i < |t| :: IsSpace(t[i])
  }

  predicate AllDigits(t: Text) {
    forall i | 0 <= i < |t| :: IsDigit(t[i])
  }

  // ----- numbers

  datatype Exponent = Exponent(mark: CodeUnit, sign: Option<CodeUnit>, digits: Text)

  datatype Number = Number(negative: bool, whole: Text, fraction: Option<Text>, exponent: Option<Exponent>)

  /** No leading zero; digits after every point and every exponent mark. */
  predicate NumberOk(n: Number) {
    && |n.whole| > 0 && AllDigits(n.whole) && (n.whole[0] == ZERO ==> |n.whole| == 1)
    && (n.fraction.Some? ==> |n.fraction.value| > 0 && AllDigits(n.fraction.value))
    && (n.exponent.Some? ==>
          && (n.exponent.value.mark == LOWER_E || n.exponent.value.mark == UPPER_E)
          && (n.exponent.value.sign.Some? ==>
                n.exponent.value.sign.value == PLUS || n.exponent.value.sign.value == MINUS)
          && |n.exponent.value.digits| > 0 && AllDigits(n.exponent.value.digits))
  }

  function FractionText(n: Number): Text {
    if n.fraction.Some? then [DOT] + n.fraction.value else []
  }

  function SignText(e: Exponent): Text {
    if e.sign.Some? then [e.sign.value] else []
  }

  function ExponentText(n: Number): Text {
    if n.exponent.Some? then [n.exponent.value.mark] + SignText(n.exponent.value) + n.exponent.value.digits else []
  }

  function NumberText(n: Number): Text {
    (if n.negative then [MINUS] else []) + n.whole + FractionText(n) + ExponentText(n)
  }

  // ----- strings

  datatype Char = Plain(unit: CodeUnit) | Escaped(letter: CodeUnit) | Coded(hex: Text)

  predicate IsEscapeLetter(u: CodeUnit) {
    u == QUOTE || u == BACKSLASH || u == SLASH || u == LOWER_B || u == LOWER_F || u == LOWER_N || u == LOWER_R
    || u == LOWER_T
  }

  predicate CharOk(c: Char) {
    match c
    case Plain(u) => u >= 0x20 && u != QUOTE && u != BACKSLASH
    case Escaped(letter) => IsEscapeLetter(letter)
    case Coded(hex) => |hex| == 4 && forall i | 0 <= i < 4 :: IsHex(hex[i])
  }

  predicate CharsOk(cs: seq<Char>) {
    forall i | 0 <= i < |cs| :: CharOk(cs[i])
  }

  function CharText(c: Char): Text {
    match c
    case Plain(u) => [u]
    case Escaped(letter) => [BACKSLASH, letter]
    case Coded(hex) => [BACKSLASH, LOWER_U] + hex
  }

  function CharsText(cs: seq<Char>): Text {
    if |cs| == 0 then [] else CharText(cs[0]) + CharsText(cs[1..])
  }

  function StringText(cs: seq<Char>): Text {
    [QUOTE] + CharsText(cs) + [QUOTE]
  }

  function CodedUnit(hex: Text): CodeUnit
    requires |hex| == 4 && forall i | 0 <= i < 4 :: IsHex(hex[i])
  {
    (0x1000 * HexValue(hex[0]) + 0x100 * HexValue(hex[1]) + 0x10 * HexValue(hex[2]) + HexValue(hex[3])) as CodeUnit
  }

  function EscapedUnit(letter: CodeUnit): CodeUnit {
    if letter == LOWER_B then 0x08
    else if letter == LOWER_F then 0x0C
    else if letter == LOWER_N then LF
    else if letter == LOWER_R then CR
    else if letter == LOWER_T then TAB
    else letter
  }

  function CharUnit(c: Char): CodeUnit
    requires CharOk(c)
  {
    match c
    case Plain(u) => u
    case Escaped(letter) => EscapedUnit(letter)
    case Coded(hex) => CodedUnit(hex)
  }

  /** The string a lexeme denotes. */
  function Unescape(cs: seq<Char>): Text
    requires CharsOk(cs)
  {
    if |cs| == 0 then [] else [CharUnit(cs[0])] + Unescape(cs[1..])
  }

  // ----- values

  datatype Value =
    | Literal(text: Text)
    | Numeric(number: Number)
    | Str(chars: seq<Char>)
    | Arr(open: Text, elements: Elements)
    | Obj(open: Text, members: Members)

  /** A value and the space after it; a comma and the space before the next one. */
  datatype Elements =
    | NoElements
    | LastElement(value: Value, after: Text)
    | Element(value: Value, after: Text, before: Text, rest: Elements)

  datatype Members =
    | NoMembers
    | LastMember(key: seq<Char>, afterKey: Text, beforeValue: Text, value: Value, after: Text)
    | Member(key: seq<Char>, afterKey: Text, beforeValue: Text, value: Value, after: Text, before: Text, rest: Members)

  function ValueText(v: Value): Text {
    match v
    case Literal(text) => text
    case Numeric(n) => NumberText(n)
    case Str(cs) => StringText(cs)
    case Arr(open, es) => [OPEN_BRACKET] + open + ElementsText(es) + [CLOSE_BRACKET]
    case Obj(open, ms) => [OPEN_BRACE] + open + MembersText(ms) + [CLOSE_BRACE]
  }

  function ElementsText(es: Elements): Text {
    match es
    case NoElements => []
    case LastElement(v, after) => ValueText(v) + after
    case Element(v, after, before, rest) => ValueText(v) + after + [COMMA] + before + ElementsText(rest)
  }

  function MembersText(ms: Members): Text {
    match ms
    case NoMembers => []
    case LastMember(key, afterKey, beforeValue, v, after) =>
      StringText(key) + afterKey + [COLON] + beforeValue + ValueText(v) + after
    case Member(key, afterKey, beforeValue, v, after, before, rest) =>
      StringText(key) + afterKey + [COLON] + beforeValue + ValueText(v) + after + [COMMA] + before + MembersText(rest)
  }

  /** The names of the members, unescaped, in order. */
  function Names(ms: Members): seq<Text>
    requires KeysOk(ms)
  {
    match ms
    case NoMembers => []
    case LastMember(key, _, _, _, _) => [Unescape(key)]
    case Member(key, _, _, _, _, _, rest) => [Unescape(key)] + Names(rest)
  }

  predicate KeysOk(ms: Members) {
    match ms
    case NoMembers => true
    case LastMember(key, _, _, _, _) => CharsOk(key)
    case Member(key, _, _, _, _, _, rest) => CharsOk(key) && KeysOk(rest)
  }

  predicate Distinct(names: seq<Text>) {
    forall i, j | 0 <= i < j < |names| :: names[i] != names[j]
  }

  /** The tree follows the grammar, every value sits at depth at most 100, and names within an object differ. */
  predicate ValueOk(v: Value, depth: nat) {
    depth <= MAXIMUM_DEPTH
    && match v
       case Literal(text) => text == TRUE_TEXT || text == FALSE_TEXT || text == NULL_TEXT
       case Numeric(n) => NumberOk(n)
       case Str(cs) => CharsOk(cs)
       case Arr(open, es) => AllSpace(open) && ElementsOk(es, depth + 1)
       case Obj(open, ms) => AllSpace(open) && KeysOk(ms) && Distinct(Names(ms)) && MembersOk(ms, depth + 1)
  }

  predicate ElementsOk(es: Elements, depth: nat) {
    match es
    case NoElements => true
    case LastElement(v, after) => ValueOk(v, depth) && AllSpace(after)
    case Element(v, after, before, rest) =>
      ValueOk(v, depth) && AllSpace(after) && AllSpace(before) && rest != NoElements && ElementsOk(rest, depth)
  }

  predicate MembersOk(ms: Members, depth: nat) {
    match ms
    case NoMembers => true
    case LastMember(key, afterKey, beforeValue, v, after) =>
      AllSpace(afterKey) && AllSpace(beforeValue) && ValueOk(v, depth) && AllSpace(after)
    case Member(key, afterKey, beforeValue, v, after, before, rest) =>
      && AllSpace(afterKey) && AllSpace(beforeValue) && ValueOk(v, depth) && AllSpace(after) && AllSpace(before)
      && rest != NoMembers && MembersOk(rest, depth)
  }

  /** A JSON text with distinct member names and depth at most 100. */
  ghost predicate IsJson(t: Text) {
    exists before: Text, v: Value, after: Text ::
      AllSpace(before) && ValueOk(v, 0) && AllSpace(after) && t == before + ValueText(v) + after
  }
}
