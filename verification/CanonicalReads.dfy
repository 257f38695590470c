/**
  * A canonical text is a JSON text of RFC 8259 and reads back as the value it was
  * written from: the grammar has a tree that spells it, in which every string
  * denotes the string, every number the number, and every member stands under its
  * name.
  */
module CanonicalReads {
  import opened CodeUnits
  import opened Common
  import opened JsonGrammar
  import opened JsonRecogniser
  import opened JsonComplete
  import opened JsonEscapes
  import C = CanonicalJson

  // ----- UTF-16

  /** The code units of a character: one, or a surrogate pair (RFC 2781, section 2.1). */
  function Units(c: char): (t: Text)
    ensures 1 <= |t| <= 2
  {
    var n := c as int;
    if n < 0x10000 then [n as CodeUnit]
    else [(0xD800 + (n - 0x10000) / 0x400) as CodeUnit, (0xDC00 + (n - 0x10000) % 0x400) as CodeUnit]
  }

  function Utf16(s: string): Text {
    if |s| == 0 then [] else Units(s[0]) + Utf16(s[1..])
  }

  lemma {:induction false} UnitsJoin(a: string, b: string)
    ensures Utf16(a + b) == Utf16(a) + Utf16(b)
    decreases |a|
  {
    if |a| == 0 {
      assert a + b == b;
    } else {
      assert (a + b)[0] == a[0] && (a + b)[1..] == a[1..] + b;
      UnitsJoin(a[1..], b);
    }
  }

  lemma OneChar(c: char)
    ensures Utf16([c]) == Units(c)
  {
    assert [c][1..] == [];
  }

  // ----- strings

  /** How the canonical text writes one character. */
  function Written(c: char): (cs: seq<Char>) {
    var n := c as int;
    if n == 0x22 || n == 0x5C then [Escaped(n as CodeUnit)]
    else if n == 8 then [Escaped(0x62)]
    else if n == 9 then [Escaped(0x74)]
    else if n == 10 then [Escaped(0x6E)]
    else if n == 12 then [Escaped(0x66)]
    else if n == 13 then [Escaped(0x72)]
    else if n < 0x20 then [Coded([0x30, 0x30, C.Digit(n / 16) as int as CodeUnit, C.Digit(n % 16) as int as CodeUnit])]
    else if n < 0x10000 then [Plain(n as CodeUnit)]
    else [Plain(Units(c)[0]), Plain(Units(c)[1])]
  }

  lemma DigitOf(d: nat)
    requires d < 16
    ensures 0 <= C.Digit(d) as int < 0x80 && IsHexDigitOf((C.Digit(d) as int) as CodeUnit, d)
  {
  }

  lemma WrittenDenotes(c: char)
    ensures SpellsText(Written(c), Units(c))
  {
    var n := c as int;
    DigitOf(n / 16 % 16);
    DigitOf(n % 16);
  }

  lemma {:induction false} UnitsOfAscii(s: string)
    requires forall i | 0 <= i < |s| :: s[i] as int < 0x80
    ensures |Utf16(s)| == |s| && forall i | 0 <= i < |s| :: Utf16(s)[i] as int == s[i] as int
    decreases |s|
  {
    if |s| > 0 {
      UnitsOfAscii(s[1..]);
    }
  }

  lemma OneText(c: Char)
    ensures CharsText([c]) == CharText(c)
  {
    assert [c][1..] == [];
  }

  lemma PairText(a: Char, b: Char)
    ensures CharsText([a, b]) == CharText(a) + CharText(b)
  {
    assert [a, b][1..] == [b];
    OneText(b);
  }

  /** The escape of a character, unit by unit. */
  lemma WrittenText(c: char)
    ensures CharsText(Written(c)) == Utf16(C.Escape(c))
  {
    var n := c as int;
    var t, e := Written(c), C.Escape(c);
    if n >= 0x20 && n != 0x22 && n != 0x5C {
      OneChar(c);
      if n < 0x10000 {
        OneText(t[0]);
      } else {
        PairText(t[0], t[1]);
      }
    } else {
      OneText(t[0]);
      EscapeIsAscii(c);
      UnitsOfAscii(e);
      assert |CharText(t[0])| == |e|;
    }
  }

  lemma EscapeIsAscii(c: char)
    requires c as int < 0x20 || c as int == 0x22 || c as int == 0x5C
    ensures forall i | 0 <= i < |C.Escape(c)| :: C.Escape(c)[i] as int < 0x80
  {
    DigitOf(c as int / 16 % 16);
    DigitOf(c as int % 16);
  }

  /** The characters of a whole string. */
  function WrittenAll(s: string): seq<Char> {
    if |s| == 0 then [] else Written(s[0]) + WrittenAll(s[1..])
  }

  lemma {:induction false} CharsJoin(a: seq<Char>, b: seq<Char>)
    ensures CharsText(a + b) == CharsText(a) + CharsText(b)
    decreases |a|
  {
    if |a| == 0 {
      assert a + b == b;
    } else {
      assert (a + b)[0] == a[0] && (a + b)[1..] == a[1..] + b;
      CharsJoin(a[1..], b);
    }
  }

  lemma SpellsJoin(a: seq<Char>, t: Text, b: seq<Char>, u: Text)
    requires SpellsText(a, t) && SpellsText(b, u)
    ensures SpellsText(a + b, t + u)
  {
    hide Denotes;
  }

  lemma {:induction false} StringReads(s: string)
    ensures SpellsText(WrittenAll(s), Utf16(s)) && CharsText(WrittenAll(s)) == Utf16(C.EscapeAll(s))
    decreases |s|
  {
    hide Written, SpellsText, C.Escape, Units;
    if |s| == 0 {
      EmptySpells();
    } else {
      WrittenDenotes(s[0]);
      WrittenText(s[0]);
      StringReads(s[1..]);
      SpellsJoin(Written(s[0]), Units(s[0]), WrittenAll(s[1..]), Utf16(s[1..]));
      CharsJoin(Written(s[0]), WrittenAll(s[1..]));
      UnitsJoin(C.Escape(s[0]), C.EscapeAll(s[1..]));
    }
  }

  lemma EmptySpells()
    ensures SpellsText([], [])
  {
  }

  /** A quoted string is a string lexeme that denotes the string. */
  lemma QuoteReads(s: string)
    ensures StringText(WrittenAll(s)) == Utf16(C.Quote(s)) && CharsOk(WrittenAll(s))
    ensures SpellsText(WrittenAll(s), Utf16(s))
  {
    StringReads(s);
    ReadAsSpelled(WrittenAll(s), Utf16(s));
    hide WrittenAll, C.EscapeAll, Utf16;
    QuoteUnits(C.EscapeAll(s));
  }

  lemma QuoteUnits(s: string)
    ensures Utf16("\"" + s + "\"") == [QUOTE] + Utf16(s) + [QUOTE]
  {
    UnitsJoin("\"" + s, "\"");
    UnitsJoin("\"", s);
    OneChar('"');
  }

  // ----- numbers

  /** The number a row of decimal digits stands for. */
  function ValueOf(digits: Text): int
    requires AllDigits(digits)
  {
    if |digits| == 0 then 0
    else
      var n := |digits| - 1;
      10 * ValueOf(digits[..n]) + (digits[n] as int - 0x30)
  }

  lemma {:induction false} DecimalReads(n: nat)
    ensures var t := Utf16(C.Decimal(n));
            AllDigits(t) && |t| > 0 && ValueOf(t) == n && (t[0] == 0x30 ==> |t| == 1 && n == 0)
    decreases n
  {
    if n < 10 {
      OneChar(C.Digit(n));
      assert Utf16(C.Decimal(n)) == [(0x30 + n) as CodeUnit];
    } else {
      DecimalReads(n / 10);
      UnitsJoin(C.Decimal(n / 10), [C.Digit(n % 10)]);
      OneChar(C.Digit(n % 10));
      var t, head := Utf16(C.Decimal(n)), Utf16(C.Decimal(n / 10));
      assert t == head + [(0x30 + n % 10) as CodeUnit];
      assert t[..|t| - 1] == head;
    }
  }

  // ----- values

  /** The tree says the same as the value; the members of an object stand in the order of their names. */
  ghost predicate Means(v: Value, j: C.Json) {
    match j
    case JNull => v == Literal(NULL_TEXT)
    case JNumber(n) =>
      && v.Numeric? && !v.number.negative && v.number.fraction.None? && v.number.exponent.None?
      && AllDigits(v.number.whole) && ValueOf(v.number.whole) == n
    case JString(s) => v.Str? && SpellsText(v.chars, Utf16(s))
    case JArray(items) => v.Arr? && v.open == [] && ElementsMean(v.elements, items)
    case JObject(fields) => v.Obj? && v.open == [] && MembersMean(v.members, C.SortFields(fields))
  }

  ghost predicate ElementsMean(es: Elements, items: seq<C.Json>) {
    match es
    case NoElements => items == []
    case LastElement(v, after) => |items| == 1 && after == [] && Means(v, items[0])
    case Element(v, after, before, rest) =>
      |items| > 1 && after == [] && before == [] && Means(v, items[0]) && ElementsMean(rest, items[1..])
  }

  ghost predicate MembersMean(ms: Members, fields: seq<(string, C.Json)>) {
    match ms
    case NoMembers => fields == []
    case LastMember(key, afterKey, beforeValue, v, after) =>
      && |fields| == 1 && afterKey == [] && beforeValue == [] && after == []
      && SpellsText(key, Utf16(fields[0].0)) && Means(v, fields[0].1)
    case Member(key, afterKey, beforeValue, v, after, before, rest) =>
      && |fields| > 1 && afterKey == [] && beforeValue == [] && after == [] && before == []
      && SpellsText(key, Utf16(fields[0].0)) && Means(v, fields[0].1) && MembersMean(rest, fields[1..])
  }

  // ----- lists with commas

  lemma {:induction false} CommasFirst(texts: seq<string>)
    requires |texts| > 1
    ensures C.Commas(texts) == texts[0] + "," + C.Commas(texts[1..])
    decreases |texts|
  {
    var n := |texts| - 1;
    if n == 1 {
      assert texts[..1] == [texts[0]] && texts[1..] == [texts[1]];
    } else {
      CommasFirst(texts[..n]);
      assert texts[..n][1..] == texts[1..][..n - 1];
    }
  }

  lemma CommaUnits(a: string, b: string)
    ensures Utf16(a + "," + b) == Utf16(a) + [COMMA] + Utf16(b)
  {
    UnitsJoin(a + ",", b);
    UnitsJoin(a, ",");
    OneChar(',');
  }

  function ItemTexts(items: seq<C.Json>): seq<string> {
    seq(|items|, i requires 0 <= i < |items| => C.Canonical(items[i]))
  }

  function FieldTexts(fields: seq<(string, C.Json)>): seq<string> {
    seq(|fields|, i requires 0 <= i < |fields| => C.FieldText(fields[i]))
  }

  lemma MoreItems(items: seq<C.Json>)
    requires |items| > 1
    ensures Utf16(C.Commas(ItemTexts(items)))
         == Utf16(C.Canonical(items[0])) + [COMMA] + Utf16(C.Commas(ItemTexts(items[1..])))
  {
    hide C.Canonical, C.Commas;
    CommasFirst(ItemTexts(items));
    assert ItemTexts(items)[1..] == ItemTexts(items[1..]);
    CommaUnits(C.Canonical(items[0]), C.Commas(ItemTexts(items[1..])));
  }

  lemma MoreFields(fields: seq<(string, C.Json)>)
    requires |fields| > 1
    ensures Utf16(C.Commas(FieldTexts(fields)))
         == Utf16(C.FieldText(fields[0])) + [COMMA] + Utf16(C.Commas(FieldTexts(fields[1..])))
  {
    hide C.FieldText, C.Commas;
    CommasFirst(FieldTexts(fields));
    assert FieldTexts(fields)[1..] == FieldTexts(fields[1..]);
    CommaUnits(C.FieldText(fields[0]), C.Commas(FieldTexts(fields[1..])));
  }

  lemma FieldUnits(field: (string, C.Json))
    ensures Utf16(C.FieldText(field)) == Utf16(C.Quote(field.0)) + [COLON] + Utf16(C.Canonical(field.1))
  {
    hide C.Quote, C.Canonical;
    UnitsJoin(C.Quote(field.0) + ":", C.Canonical(field.1));
    UnitsJoin(C.Quote(field.0), ":");
    OneChar(':');
  }

  // ----- the tree

  /** The tree is well formed, spells the text of the value and says the same. */
  ghost predicate Reads(v: Value, j: C.Json) {
    ValueShaped(v) && ValueText(v) == Utf16(C.Canonical(j)) && Means(v, j)
  }

  lemma LeafReads(j: C.Json) returns (v: Value)
    requires j.JNull? || j.JNumber? || j.JString?
    ensures Reads(v, j)
  {
    match j {
      case JNull =>
        v := Literal(NULL_TEXT);
        UnitsOfAscii("null");
        assert Utf16("null") == NULL_TEXT;
      case JNumber(n) =>
        DecimalReads(n);
        v := Numeric(Number(false, Utf16(C.Decimal(n)), None, None));
        assert [] + Utf16(C.Decimal(n)) + [] + [] == Utf16(C.Decimal(n));
      case JString(s) =>
        QuoteReads(s);
        v := Str(WrittenAll(s));
    }
  }

  lemma {:induction false} ValueReads(j: C.Json) returns (v: Value)
    ensures Reads(v, j)
    decreases j, 1
  {
    hide Reads, Means, C.Canonical, C.SortFields;
    match j {
      case JArray(items) =>
        var es := ElementsRead(items, j);
        v := Arr([], es);
        ArrayReads(items, es);
      case JObject(fields) =>
        var ms := MembersRead(C.SortFields(fields), j);
        v := Obj([], ms);
        ObjectReads(fields, ms);
      case _ =>
        v := LeafReads(j);
    }
  }

  ghost predicate ElementsReads(es: Elements, items: seq<C.Json>) {
    ElementsShaped(es) && ElementsText(es) == Utf16(C.Commas(ItemTexts(items))) && ElementsMean(es, items)
  }

  ghost predicate MembersReads(ms: Members, fields: seq<(string, C.Json)>) {
    && KeysOk(ms) && MembersShaped(ms) && MembersText(ms) == Utf16(C.Commas(FieldTexts(fields)))
    && MembersMean(ms, fields)
  }

  lemma ArrayReads(items: seq<C.Json>, es: Elements)
    requires ElementsReads(es, items)
    ensures Reads(Arr([], es), C.JArray(items))
  {
    hide ElementsShaped, ElementsText, ElementsMean, C.Commas;
    var inner := C.Commas(ItemTexts(items));
    UnitsJoin("[" + inner, "]");
    UnitsJoin("[", inner);
    OneChar('[');
    OneChar(']');
    assert C.Canonical(C.JArray(items)) == "[" + inner + "]";
    assert [OPEN_BRACKET] + [] + ElementsText(es) + [CLOSE_BRACKET]
           == [OPEN_BRACKET] + ElementsText(es) + [CLOSE_BRACKET];
  }

  lemma ObjectReads(fields: seq<(string, C.Json)>, ms: Members)
    requires MembersReads(ms, C.SortFields(fields))
    ensures Reads(Obj([], ms), C.JObject(fields))
  {
    hide MembersShaped, MembersText, MembersMean, KeysOk, C.Commas, C.SortFields;
    var inner := C.Commas(FieldTexts(C.SortFields(fields)));
    UnitsJoin("{" + inner, "}");
    UnitsJoin("{", inner);
    OneChar('{');
    OneChar('}');
    assert C.Canonical(C.JObject(fields)) == "{" + inner + "}";
    assert [OPEN_BRACE] + [] + MembersText(ms) + [CLOSE_BRACE] == [OPEN_BRACE] + MembersText(ms) + [CLOSE_BRACE];
  }

  lemma {:induction false} ElementsRead(items: seq<C.Json>, j: C.Json) returns (es: Elements)
    requires forall i | 0 <= i < |items| :: items[i] < j
    ensures ElementsReads(es, items)
    decreases j, 0, |items|
  {
    hide Reads, ElementsReads, C.Canonical;
    if |items| == 0 {
      es := NoElements;
      NoItems();
    } else {
      var v := ValueReads(items[0]);
      if |items| == 1 {
        es := LastElement(v, []);
        LastItem(items, v);
      } else {
        var rest := ElementsRead(items[1..], j);
        es := Element(v, [], [], rest);
        OneMoreItem(items, v, rest);
      }
    }
  }

  lemma NoItems()
    ensures ElementsReads(NoElements, []) && MembersReads(NoMembers, [])
  {
  }

  lemma LastItem(items: seq<C.Json>, v: Value)
    requires |items| == 1 && Reads(v, items[0])
    ensures ElementsReads(LastElement(v, []), items)
  {
    hide ValueShaped, ValueText, Means, C.Canonical;
    assert ItemTexts(items) == [C.Canonical(items[0])];
    assert ValueText(v) + [] == ValueText(v);
  }

  lemma OneMoreItem(items: seq<C.Json>, v: Value, rest: Elements)
    requires |items| > 1 && Reads(v, items[0]) && ElementsReads(rest, items[1..])
    ensures ElementsReads(Element(v, [], [], rest), items)
  {
    MoreItems(items);
    ElementTextShort(v, rest);
    hide ValueShaped, ValueText, ElementsText, Means, C.Canonical, C.Commas, ItemTexts, Utf16;
  }

  lemma ElementTextShort(v: Value, rest: Elements)
    ensures ElementsText(Element(v, [], [], rest)) == ValueText(v) + [COMMA] + ElementsText(rest)
  {
    hide ValueText;
    assert ValueText(v) + [] + [COMMA] + [] == ValueText(v) + [COMMA];
  }

  lemma {:induction false} MembersRead(fields: seq<(string, C.Json)>, j: C.Json) returns (ms: Members)
    requires forall i | 0 <= i < |fields| :: fields[i].1 < j
    ensures MembersReads(ms, fields)
    decreases j, 0, |fields|
  {
    hide Reads, MembersReads, C.Canonical, C.FieldText;
    if |fields| == 0 {
      ms := NoMembers;
      NoItems();
    } else {
      var v := ValueReads(fields[0].1);
      if |fields| == 1 {
        ms := LastMember(WrittenAll(fields[0].0), [], [], v, []);
        LastField(fields, v);
      } else {
        var rest := MembersRead(fields[1..], j);
        ms := Member(WrittenAll(fields[0].0), [], [], v, [], [], rest);
        OneMoreField(fields, v, rest);
      }
    }
  }

  lemma LastField(fields: seq<(string, C.Json)>, v: Value)
    requires |fields| == 1 && Reads(v, fields[0].1)
    ensures MembersReads(LastMember(WrittenAll(fields[0].0), [], [], v, []), fields)
  {
    QuoteReads(fields[0].0);
    FieldUnits(fields[0]);
    LastTextShort(WrittenAll(fields[0].0), v);
    OneFieldText(fields);
    hide ValueShaped, ValueText, MembersText, Means, C.Canonical, C.FieldText, StringText, SpellsText, WrittenAll,
         Utf16, C.Commas, FieldTexts, CharsOk;
  }

  lemma LastTextShort(key: seq<Char>, v: Value)
    ensures MembersText(LastMember(key, [], [], v, [])) == StringText(key) + [COLON] + ValueText(v)
  {
    hide ValueText, StringText;
    assert StringText(key) + [] + [COLON] + [] + ValueText(v) + [] == StringText(key) + [COLON] + ValueText(v);
  }

  lemma OneFieldText(fields: seq<(string, C.Json)>)
    requires |fields| == 1
    ensures C.Commas(FieldTexts(fields)) == C.FieldText(fields[0])
  {
    hide C.FieldText;
  }

  lemma OneMoreField(fields: seq<(string, C.Json)>, v: Value, rest: Members)
    requires |fields| > 1 && Reads(v, fields[0].1) && MembersReads(rest, fields[1..])
    ensures MembersReads(Member(WrittenAll(fields[0].0), [], [], v, [], [], rest), fields)
  {
    QuoteReads(fields[0].0);
    FieldUnits(fields[0]);
    MoreFields(fields);
    MemberTextShort(WrittenAll(fields[0].0), v, rest);
    hide ValueShaped, ValueText, MembersText, Means, C.Canonical, C.FieldText, StringText, SpellsText, WrittenAll,
         Utf16, C.Commas, FieldTexts, CharsOk;
  }

  lemma MemberTextShort(key: seq<Char>, v: Value, rest: Members)
    ensures MembersText(Member(key, [], [], v, [], [], rest))
         == StringText(key) + [COLON] + ValueText(v) + [COMMA] + MembersText(rest)
  {
    hide ValueText, StringText;
    assert StringText(key) + [] + [COLON] + [] + ValueText(v) + [] + [COMMA] + []
        == StringText(key) + [COLON] + ValueText(v) + [COMMA];
  }

  // ----- what a strict reader accepts

  /** No object in the value repeats a name, and nothing in it is nested deeper than the bound. */
  ghost predicate Tidy(j: C.Json, depth: nat) {
    match j
    case JArray(items) => items == [] || (depth > 0 && forall i | 0 <= i < |items| :: Tidy(items[i], depth - 1))
    case JObject(fields) =>
      && C.DistinctNames(fields)
      && (fields == [] || (depth > 0 && forall i | 0 <= i < |fields| :: Tidy(fields[i].1, depth - 1)))
    case _ => true
  }

  /** Surrogates never stand for a character of their own, so the units give the text back. */
  lemma {:induction false} UnitsTell(a: string, b: string)
    requires Utf16(a) == Utf16(b)
    ensures a == b
    decreases |a|
  {
    if |a| > 0 && |b| > 0 {
      assert Utf16(a)[0] == Units(a[0])[0] && Utf16(b)[0] == Units(b[0])[0];
      assert |Units(a[0])| == |Units(b[0])|;
      assert Utf16(a)[..|Units(a[0])|] == Units(a[0]) && Utf16(b)[..|Units(b[0])|] == Units(b[0]);
      assert Utf16(a)[|Units(a[0])|..] == Utf16(a[1..]) && Utf16(b)[|Units(b[0])|..] == Utf16(b[1..]);
      UnitsDiffer(a[0], b[0]);
      UnitsTell(a[1..], b[1..]);
      assert a == [a[0]] + a[1..] && b == [b[0]] + b[1..];
    }
  }

  lemma UnitsDiffer(a: char, b: char)
    ensures Units(a) == Units(b) ==> a == b
    ensures Units(a)[0] == Units(b)[0] ==> |Units(a)| == |Units(b)|
  {
  }

  lemma SpellsOne(cs: seq<Char>, t: Text, u: Text)
    requires SpellsText(cs, t) && SpellsText(cs, u)
    ensures t == u
  {
    forall i | 0 <= i < |t| ensures t[i] == u[i] {
      CharDenotes(cs[i], t[i]);
      CharDenotes(cs[i], u[i]);
    }
  }

  lemma {:induction false} KeysMean(ms: Members, fields: seq<(string, C.Json)>)
    requires MembersMean(ms, fields)
    ensures |Keys(ms)| == |fields|
    ensures forall i | 0 <= i < |fields| :: SpellsText(Keys(ms)[i], Utf16(fields[i].0))
    decreases ms
  {
    hide SpellsText, Means;
    if ms.Member? {
      KeysMean(ms.rest, fields[1..]);
    }
  }

  lemma NoKeyTwins(ms: Members, fields: seq<(string, C.Json)>)
    requires MembersMean(ms, fields) && C.DistinctNames(fields)
    ensures !KeyTwins(ms)
  {
    hide SpellsText, MembersMean, Keys;
    KeysMean(ms, fields);
    if i, j :| 0 <= i < j < |Keys(ms)| && SameUnits(Keys(ms)[i], Keys(ms)[j]) {
      var t :| SpellsText(Keys(ms)[i], t) && SpellsText(Keys(ms)[j], t);
      SpellsOne(Keys(ms)[i], t, Utf16(fields[i].0));
      SpellsOne(Keys(ms)[j], t, Utf16(fields[j].0));
      UnitsTell(fields[i].0, fields[j].0);
      assert false;
    }
  }

  lemma {:induction false} OrderedDiffer(fields: seq<(string, C.Json)>)
    requires C.InNameOrder(fields)
    ensures C.DistinctNames(fields)
    decreases |fields|
  {
    if |fields| > 1 {
      OrderedDiffer(fields[1..]);
      forall j | 0 < j < |fields| ensures fields[0].0 != fields[j].0 {
        C.HeadIsLeast(fields, j);
        C.NamesTotal(fields[0].0, fields[0].0);
      }
      forall i, j | 0 < i < j < |fields| ensures fields[i].0 != fields[j].0 {
        assert fields[1..][i - 1] == fields[i] && fields[1..][j - 1] == fields[j];
      }
    }
  }

  lemma {:induction false} TidyTree(v: Value, j: C.Json, depth: nat)
    requires Means(v, j) && Tidy(j, depth)
    ensures Height(v) <= depth && !HasTwins(v)
    decreases v
  {
    hide SpellsText, C.DistinctNames, C.InNameOrder, KeyTwins, C.SortFields;
    match j {
      case JArray(items) =>
        if v.elements != NoElements {
          TidyElements(v.elements, items, depth - 1);
        }
      case JObject(fields) =>
        C.SortOrders(fields);
        OrderedDiffer(C.SortFields(fields));
        NoKeyTwins(v.members, C.SortFields(fields));
        if v.members != NoMembers {
          TidyMembers(v.members, C.SortFields(fields), depth - 1);
        }
      case _ =>
    }
  }

  lemma {:induction false} TidyElements(es: Elements, items: seq<C.Json>, depth: nat)
    requires ElementsMean(es, items) && forall i | 0 <= i < |items| :: Tidy(items[i], depth)
    ensures ElementsHeight(es) <= depth && !ElementsHaveTwins(es)
    decreases es
  {
    hide Means, Tidy;
    match es {
      case NoElements =>
      case LastElement(v, _) => TidyTree(v, items[0], depth);
      case Element(v, _, _, rest) =>
        TidyTree(v, items[0], depth);
        TidyElements(rest, items[1..], depth);
    }
  }

  lemma {:induction false} TidyMembers(ms: Members, fields: seq<(string, C.Json)>, depth: nat)
    requires MembersMean(ms, fields) && forall i | 0 <= i < |fields| :: Tidy(fields[i].1, depth)
    ensures MembersHeight(ms) <= depth && !MembersHaveTwins(ms)
    decreases ms
  {
    hide Means, Tidy, SpellsText;
    match ms {
      case NoMembers =>
      case LastMember(_, _, _, v, _) => TidyTree(v, fields[0].1, depth);
      case Member(_, _, _, v, _, _, rest) =>
        TidyTree(v, fields[0].1, depth);
        TidyMembers(rest, fields[1..], depth);
    }
  }

  /**
    * The canonical text of a value without repeated names, nested at most a hundred
    * deep, is a JSON text the strict scanner accepts, and says what the value says.
    */
  lemma CanonicalIsJson(j: C.Json) returns (v: Value)
    requires Tidy(j, 100)
    ensures ValueText(v) == Utf16(C.Canonical(j)) && Means(v, j)
    ensures Accepts(Utf16(C.Canonical(j))) && IsJson(Utf16(C.Canonical(j)))
  {
    v := ValueReads(j);
    hide ValueShaped, ValueText, Means, Tidy, Accepts, IsJson, Height, HasTwins, C.Canonical;
    TidyTree(v, j, 100);
    AcceptedUnlessTwins([], v, []);
    assert [] + ValueText(v) + [] == ValueText(v);
  }
}
