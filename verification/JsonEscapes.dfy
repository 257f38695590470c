/**
  * What the characters of a JSON string denote, said on code units, and what that
  * means for names: an object in which two keys denote the same units is
  * rejected, however each of them is spelled.
  */
module JsonEscapes {
  import opened CodeUnits
  import opened Common
  import opened JsonGrammar
  import opened JsonRecogniser
  import opened JsonComplete

  // ----- one character

  /** Four digits spell the unit, the most significant first. */
  ghost predicate SpelledInHex(hex: Text, u: CodeUnit) {
    && |hex| == 4
    && IsHexDigitOf(hex[0], u as int / 4096) && IsHexDigitOf(hex[1], u as int / 256 % 16)
    && IsHexDigitOf(hex[2], u as int / 16 % 16) && IsHexDigitOf(hex[3], u as int % 16)
  }

  /** The two-character escapes of section 7 of RFC 8259: the letter after the backslash, and its unit. */
  ghost predicate ShortEscape(letter: CodeUnit, u: CodeUnit) {
    || (letter == 0x22 && u == 0x22)
    || (letter == 0x5C && u == 0x5C)
    || (letter == 0x2F && u == 0x2F)
    || (letter == 0x62 && u == 0x08)
    || (letter == 0x66 && u == 0x0C)
    || (letter == 0x6E && u == 0x0A)
    || (letter == 0x72 && u == 0x0D)
    || (letter == 0x74 && u == 0x09)
  }

  /** The character denotes the unit. */
  ghost predicate Denotes(c: Char, u: CodeUnit) {
    match c
    case Plain(unit) => unit == u && 0x20 <= u && u != 0x22 && u != 0x5C
    case Escaped(letter) => ShortEscape(letter, u)
    case Coded(hex) => SpelledInHex(hex, u)
  }

  /** Four digits below sixteen are those of one number only. */
  lemma HexPlaces(a: int, b: int, c: int, d: int, u: int)
    requires 0 <= a < 16 && 0 <= b < 16 && 0 <= c < 16 && 0 <= d < 16 && 0 <= u < 0x10000
    ensures 0x1000 * a + 0x100 * b + 0x10 * c + d == u <==>
              a == u / 4096 && b == u / 256 % 16 && c == u / 16 % 16 && d == u % 16
  {
    var x := u / 16;
    var y := x / 16;
    LastDigit(0x100 * a + 0x10 * b + c, d, u);
    LastDigit(0x10 * a + b, c, x);
    LastDigit(a, b, y);
    assert u / 256 == y && u / 4096 == y / 16;
  }

  lemma LastDigit(high: int, low: int, u: int)
    requires 0 <= low < 16 && 0 <= u
    ensures 0x10 * high + low == u <==> high == u / 16 && low == u % 16
  {
  }

  lemma CodedDenotes(hex: Text, u: CodeUnit)
    ensures CharOk(Coded(hex)) && CharUnit(Coded(hex)) == u <==> SpelledInHex(hex, u)
  {
    if |hex| == 4 {
      HexDigit(hex[0], u as int / 4096);
      HexDigit(hex[1], u as int / 256 % 16);
      HexDigit(hex[2], u as int / 16 % 16);
      HexDigit(hex[3], u as int % 16);
      hide IsHexDigitOf, IsHex, HexValue;
      if CharOk(Coded(hex)) {
        HexPlaces(HexValue(hex[0]), HexValue(hex[1]), HexValue(hex[2]), HexValue(hex[3]), u as int);
      }
    }
  }

  /** A character is well formed and stands for a unit exactly when it denotes it. */
  lemma CharDenotes(c: Char, u: CodeUnit)
    ensures CharOk(c) && CharUnit(c) == u <==> Denotes(c, u)
  {
    if c.Coded? {
      CodedDenotes(c.hex, u);
    }
  }

  // ----- strings

  /** The characters spell the text unit by unit. */
  ghost predicate SpellsText(cs: seq<Char>, t: Text) {
    |cs| == |t| && forall i | 0 <= i < |t| :: Denotes(cs[i], t[i])
  }

  /** The string a lexeme is read as is the only one it spells. */
  lemma {:induction false} ReadAsSpelled(cs: seq<Char>, t: Text)
    ensures CharsOk(cs) && Unescape(cs) == t <==> SpellsText(cs, t)
    decreases |cs|
  {
    hide CharOk, CharUnit, Denotes;
    if |cs| > 0 {
      if CharsOk(cs) && Unescape(cs) == t {
        CharDenotes(cs[0], t[0]);
        ReadAsSpelled(cs[1..], t[1..]);
        SpellsMore(cs, t);
      }
      if SpellsText(cs, t) {
        CharDenotes(cs[0], t[0]);
        assert SpellsText(cs[1..], t[1..]);
        ReadAsSpelled(cs[1..], t[1..]);
        OkMore(cs);
      }
    }
  }

  lemma SpellsMore(cs: seq<Char>, t: Text)
    requires |cs| > 0 && |t| > 0 && Denotes(cs[0], t[0]) && SpellsText(cs[1..], t[1..])
    ensures SpellsText(cs, t)
  {
    hide Denotes;
    forall i | 0 <= i < |t| ensures Denotes(cs[i], t[i]) {
      assert i > 0 ==> cs[1..][i - 1] == cs[i] && t[1..][i - 1] == t[i];
    }
  }

  lemma OkMore(cs: seq<Char>)
    requires |cs| > 0 && CharOk(cs[0]) && CharsOk(cs[1..])
    ensures CharsOk(cs)
  {
    hide CharOk;
    forall i | 0 <= i < |cs| ensures CharOk(cs[i]) {
      assert i > 0 ==> cs[1..][i - 1] == cs[i];
    }
  }

  // ----- names

  function Keys(ms: Members): seq<seq<Char>> {
    match ms
    case NoMembers => []
    case LastMember(key, _, _, _, _) => [key]
    case Member(key, _, _, _, _, _, rest) => [key] + Keys(rest)
  }

  /** Two keys spell one text, by whatever mix of literal characters and escapes. */
  ghost predicate SameUnits(a: seq<Char>, b: seq<Char>) {
    exists t :: SpellsText(a, t) && SpellsText(b, t)
  }

  ghost predicate KeyTwins(ms: Members) {
    exists i, j :: 0 <= i < j < |Keys(ms)| && SameUnits(Keys(ms)[i], Keys(ms)[j])
  }

  lemma SameIsRead(a: seq<Char>, b: seq<Char>)
    requires CharsOk(a) && CharsOk(b)
    ensures SameUnits(a, b) <==> Unescape(a) == Unescape(b)
  {
    hide CharsOk, Unescape, SpellsText;
    ReadAsSpelled(a, Unescape(a));
    ReadAsSpelled(b, Unescape(a));
    if SameUnits(a, b) {
      var t :| SpellsText(a, t) && SpellsText(b, t);
      ReadAsSpelled(a, t);
      ReadAsSpelled(b, t);
    }
  }

  lemma {:induction false} NamesOfKeys(ms: Members)
    requires KeysOk(ms)
    ensures |Names(ms)| == |Keys(ms)|
    ensures forall i | 0 <= i < |Keys(ms)| :: CharsOk(Keys(ms)[i]) && Names(ms)[i] == Unescape(Keys(ms)[i])
    decreases ms
  {
    hide CharsOk, Unescape;
    if ms.Member? {
      NamesOfKeys(ms.rest);
    }
  }

  lemma TwinsRepeat(ms: Members)
    requires KeysOk(ms)
    ensures Distinct(Names(ms)) <==> !KeyTwins(ms)
  {
    hide CharsOk, Unescape, SameUnits, Keys, Names;
    NamesOfKeys(ms);
    forall i, j | 0 <= i < j < |Keys(ms)|
      ensures SameUnits(Keys(ms)[i], Keys(ms)[j]) <==> Names(ms)[i] == Names(ms)[j]
    {
      SameIsRead(Keys(ms)[i], Keys(ms)[j]);
    }
  }

  // ----- whole texts

  function Larger(a: nat, b: nat): nat {
    if a < b then b else a
  }

  /** How many containers enclose the deepest value. */
  function Height(v: Value): nat {
    match v
    case Arr(_, es) => if es == NoElements then 0 else 1 + ElementsHeight(es)
    case Obj(_, ms) => if ms == NoMembers then 0 else 1 + MembersHeight(ms)
    case _ => 0
  }

  function ElementsHeight(es: Elements): nat {
    match es
    case NoElements => 0
    case LastElement(v, _) => Height(v)
    case Element(v, _, _, rest) => Larger(Height(v), ElementsHeight(rest))
  }

  function MembersHeight(ms: Members): nat {
    match ms
    case NoMembers => 0
    case LastMember(_, _, _, v, _) => Height(v)
    case Member(_, _, _, v, _, _, rest) => Larger(Height(v), MembersHeight(rest))
  }

  /** Some object in the tree has two keys that denote the same text. */
  ghost predicate HasTwins(v: Value) {
    match v
    case Arr(_, es) => ElementsHaveTwins(es)
    case Obj(_, ms) => KeyTwins(ms) || MembersHaveTwins(ms)
    case _ => false
  }

  ghost predicate ElementsHaveTwins(es: Elements) {
    match es
    case NoElements => false
    case LastElement(v, _) => HasTwins(v)
    case Element(v, _, _, rest) => HasTwins(v) || ElementsHaveTwins(rest)
  }

  ghost predicate MembersHaveTwins(ms: Members) {
    match ms
    case NoMembers => false
    case LastMember(_, _, _, v, _) => HasTwins(v)
    case Member(_, _, _, v, _, _, rest) => HasTwins(v) || MembersHaveTwins(rest)
  }

  lemma {:induction false} OkMeans(v: Value, depth: nat)
    requires ValueShaped(v)
    ensures ValueOk(v, depth) <==> depth + Height(v) <= 100 && !HasTwins(v)
    decreases v
  {
    hide AllSpace, NumberOk, CharsOk, Distinct, Names, KeyTwins, KeysOk;
    match v
    case Arr(_, es) => ElementsOkMean(es, depth + 1);
    case Obj(_, ms) =>
      TwinsRepeat(ms);
      MembersOkMean(ms, depth + 1);
    case _ =>
  }

  lemma {:induction false} ElementsOkMean(es: Elements, depth: nat)
    requires ElementsShaped(es)
    ensures ElementsOk(es, depth) <==>
              (es == NoElements || depth + ElementsHeight(es) <= 100) && !ElementsHaveTwins(es)
    decreases es
  {
    hide AllSpace;
    match es
    case NoElements =>
    case LastElement(v, _) => OkMeans(v, depth);
    case Element(v, _, _, rest) =>
      OkMeans(v, depth);
      ElementsOkMean(rest, depth);
  }

  lemma {:induction false} MembersOkMean(ms: Members, depth: nat)
    requires MembersShaped(ms)
    ensures MembersOk(ms, depth) <==>
              (ms == NoMembers || depth + MembersHeight(ms) <= 100) && !MembersHaveTwins(ms)
    decreases ms
  {
    hide AllSpace;
    match ms
    case NoMembers =>
    case LastMember(_, _, _, v, _) => OkMeans(v, depth);
    case Member(_, _, _, v, _, _, rest) =>
      OkMeans(v, depth);
      MembersOkMean(rest, depth);
  }

  /**
    * A text that the grammar spells is accepted exactly when no value in it is
    * nested deeper than 100 and no object in it has two keys that denote the same
    * text, in whatever spelling.
    */
  lemma AcceptedUnlessTwins(before: Text, v: Value, after: Text)
    requires AllSpace(before) && ValueShaped(v) && AllSpace(after)
    ensures Accepts(before + ValueText(v) + after) <==> Height(v) <= 100 && !HasTwins(v)
    ensures IsJson(before + ValueText(v) + after) <==> Height(v) <= 100 && !HasTwins(v)
  {
    hide ValueShaped, ValueOk, ValueText, AllSpace, Accepts, IsJson;
    TreeDecides(before, v, after);
    OkMeans(v, 0);
    AcceptsExactlyJson(before + ValueText(v) + after);
  }

  /** {"a":1,"\u0061":2} */
  const ESCAPED_TWIN: Text :=
    [0x7B, 0x22, 0x61, 0x22, 0x3A, 0x31, 0x2C, 0x22, 0x5C, 0x75, 0x30, 0x30, 0x36, 0x31, 0x22, 0x3A, 0x32, 0x7D]

  const PLAIN_A: seq<Char> := [Plain(0x61)]
  const CODED_A: seq<Char> := [Coded([0x30, 0x30, 0x36, 0x31])]
  const ONE: Value := Numeric(Number(false, [0x31], None, None))
  const TWO: Value := Numeric(Number(false, [0x32], None, None))
  const TWINS: Members := Member(PLAIN_A, [], [], ONE, [], [], LastMember(CODED_A, [], [], TWO, []))

  lemma TwinKeys()
    ensures KeyTwins(TWINS) && ValueShaped(Obj([], TWINS))
  {
    assert SpellsText(PLAIN_A, [0x61]) && SpellsText(CODED_A, [0x61]);
    assert SameUnits(PLAIN_A, CODED_A);
    assert Keys(TWINS)[0] == PLAIN_A && Keys(TWINS)[1] == CODED_A;
  }

  lemma TwinKeyTexts()
    ensures StringText(PLAIN_A) == [0x22, 0x61, 0x22]
    ensures StringText(CODED_A) == [0x22, 0x5C, 0x75, 0x30, 0x30, 0x36, 0x31, 0x22]
    ensures ValueText(ONE) == [0x31] && ValueText(TWO) == [0x32]
  {
    assert PLAIN_A[1..] == [] && CODED_A[1..] == [];
    assert CharsText(PLAIN_A) == [0x61];
    assert CharsText(CODED_A) == [0x5C, 0x75, 0x30, 0x30, 0x36, 0x31];
  }

  lemma LastTwinText()
    ensures MembersText(TWINS.rest) == [0x22, 0x5C, 0x75, 0x30, 0x30, 0x36, 0x31, 0x22, 0x3A, 0x32]
  {
    hide StringText, ValueText;
    TwinKeyTexts();
  }

  lemma TwinText()
    ensures ValueText(Obj([], TWINS)) == ESCAPED_TWIN
  {
    hide StringText;
    TwinKeyTexts();
    LastTwinText();
    var last := MembersText(TWINS.rest);
    assert MembersText(TWINS) == StringText(PLAIN_A) + [] + [COLON] + [] + ValueText(ONE) + [] + [COMMA] + [] + last;
    hide MembersText, ValueText;
    assert MembersText(TWINS) == [0x22, 0x61, 0x22, 0x3A, 0x31, 0x2C] + last;
    ObjectText(TWINS);
  }

  lemma ObjectText(ms: Members)
    ensures ValueText(Obj([], ms)) == [OPEN_BRACE] + MembersText(ms) + [CLOSE_BRACE]
  {
    hide MembersText;
    assert [OPEN_BRACE] + [] == [OPEN_BRACE];
  }

  lemma EscapedTwinIsRejected()
    ensures !Accepts(ESCAPED_TWIN) && !IsJson(ESCAPED_TWIN)
  {
    hide Accepts, IsJson, ValueText, KeyTwins, ValueShaped;
    TwinKeys();
    TwinText();
    AcceptedUnlessTwins([], Obj([], TWINS), []);
    assert [] + ESCAPED_TWIN + [] == ESCAPED_TWIN;
  }
}
