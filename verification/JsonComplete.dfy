/** Completeness: the recogniser accepts every JSON text, and reads exactly the tree that spells it. */
module JsonComplete {
  import opened CodeUnits
  import opened Common
  import opened JsonGrammar
  import opened JsonRecogniser
  import opened JsonSound

  lemma Split(s: Text, i: nat, j: nat, a: Text, b: Text)
    requires Spells(s, i, j, a + b)
    ensures i + |a| <= j && Spells(s, i, i + |a|, a) && Spells(s, i + |a|, j, b)
  {
    assert s[i..i + |a|] == (a + b)[..|a|];
    assert s[i + |a|..j] == (a + b)[|a|..];
  }

  lemma First(s: Text, i: nat, j: nat, t: Text)
    requires Spells(s, i, j, t) && |t| > 0
    ensures i < |s| && s[i] == t[0] && j == i + |t|
  {
    assert s[i..j][0] == s[i];
  }

  // ----- lexemes

  lemma {:induction false} SpaceComplete(s: Text, i: nat, j: nat, t: Text)
    requires Spells(s, i, j, t) && AllSpace(t) && (j < |s| ==> !IsSpace(s[j]))
    ensures SkipSpace(s, i) == j
    decreases |t|
  {
    if |t| > 0 {
      assert s[i] == s[i..j][0];
      assert s[i + 1..j] == t[1..];
      SpaceComplete(s, i + 1, j, t[1..]);
    }
  }

  lemma {:induction false} DigitsComplete(s: Text, i: nat, j: nat, t: Text)
    requires Spells(s, i, j, t) && AllDigits(t) && (j < |s| ==> !IsDigit(s[j]))
    ensures SkipDigits(s, i) == j
    decreases |t|
  {
    if |t| > 0 {
      assert s[i] == s[i..j][0];
      assert s[i + 1..j] == t[1..];
      DigitsComplete(s, i + 1, j, t[1..]);
    }
  }

  // ----- numbers

  /** What follows is no part of a number. */
  predicate NumberEnds(s: Text, j: nat) {
    j < |s| ==> !IsDigit(s[j]) && s[j] != DOT && s[j] != LOWER_E && s[j] != UPPER_E
  }

  lemma WholeComplete(s: Text, w: nat, f: nat, t: Text)
    requires Spells(s, w, f, t) && |t| > 0 && AllDigits(t) && (t[0] == ZERO ==> |t| == 1)
    requires f < |s| ==> !IsDigit(s[f])
    ensures ScanWhole(s, w) == Some(f)
  {
    First(s, w, f, t);
    if t[0] != ZERO {
      assert s[w + 1..f] == t[1..];
      DigitsComplete(s, w + 1, f, t[1..]);
    }
  }

  lemma FractionComplete(s: Text, f: nat, e: nat, fraction: Option<Text>)
    requires Spells(s, f, e, if fraction.Some? then [DOT] + fraction.value else [])
    requires fraction.Some? ==> |fraction.value| > 0 && AllDigits(fraction.value)
    requires e < |s| ==> !IsDigit(s[e]) && s[e] != DOT
    ensures ScanFraction(s, f) == e
  {
    if fraction.Some? {
      First(s, f, e, [DOT] + fraction.value);
      Split(s, f, e, [DOT], fraction.value);
      First(s, f + 1, e, fraction.value);
      DigitsComplete(s, f + 1, e, fraction.value);
    }
  }

  lemma ExponentComplete(s: Text, e: nat, j: nat, x: Option<Exponent>)
    requires Spells(s, e, j, if x.Some? then [x.value.mark] + SignText(x.value) + x.value.digits else [])
    requires x.Some? ==>
               && (x.value.mark == LOWER_E || x.value.mark == UPPER_E)
               && (x.value.sign.Some? ==> x.value.sign.value == PLUS || x.value.sign.value == MINUS)
               && |x.value.digits| > 0 && AllDigits(x.value.digits)
    requires NumberEnds(s, j)
    ensures ScanExponent(s, e) == j
  {
    assert x.Some? ==> IsDigit(x.value.digits[0]);
    hide AllDigits, SkipDigits;
    if x.Some? {
      var head := [x.value.mark] + SignText(x.value);
      Split(s, e, j, head, x.value.digits);
      First(s, e, e + |head|, head);
      First(s, e + |head|, j, x.value.digits);
      DigitsComplete(s, e + |head|, j, x.value.digits);
      if x.value.sign.Some? {
        assert s[e + 1] == s[e..e + |head|][1];
      }
    }
  }

  function SignOf(n: Number): Text {
    if n.negative then [MINUS] else []
  }

  /** Where the sign, the whole part and the fraction of a spelled number end. */
  lemma NumberParts(s: Text, i: nat, j: nat, n: Number) returns (w: nat, f: nat, e: nat)
    requires Spells(s, i, j, NumberText(n))
    ensures Spells(s, i, w, SignOf(n)) && Spells(s, w, f, n.whole)
    ensures Spells(s, f, e, FractionText(n)) && Spells(s, e, j, ExponentText(n))
    ensures f == w + |n.whole|
  {
    hide Spells, FractionText, ExponentText;
    var sign := SignOf(n);
    Split(s, i, j, sign + n.whole + FractionText(n), ExponentText(n));
    e := i + |sign + n.whole + FractionText(n)|;
    Split(s, i, e, sign + n.whole, FractionText(n));
    f := i + |sign + n.whole|;
    Split(s, i, f, sign, n.whole);
    w := i + |sign|;
  }

  /** Taking the longest number loses no parse: where a number is spelled and nothing continues it, it is read whole. */
  lemma NumberComplete(s: Text, i: nat, j: nat, n: Number)
    requires Spells(s, i, j, NumberText(n)) && NumberOk(n) && NumberEnds(s, j)
    ensures ScanNumber(s, i) == Some(j)
  {
    hide Spells, ScanWhole, ScanFraction, ScanExponent, AllDigits, NumberText;
    var w, f, e := NumberParts(s, i, j, n);
    First(s, w, f, n.whole);
    SignRead(s, i, w, n);
    AfterFraction(s, e, j, n);
    AfterWhole(s, f, e, n);
    WholeComplete(s, w, f, n.whole);
    FractionComplete(s, f, e, n.fraction);
    ExponentComplete(s, e, j, n.exponent);
  }

  lemma SignRead(s: Text, i: nat, w: nat, n: Number)
    requires NumberOk(n) && Spells(s, i, w, if n.negative then [MINUS] else [])
    requires w < |s| && Spells(s, w, w + |n.whole|, n.whole)
    ensures w == if i < |s| && s[i] == MINUS then i + 1 else i
  {
    First(s, w, w + |n.whole|, n.whole);
    if n.negative {
      First(s, i, w, [MINUS]);
    }
  }

  lemma AfterFraction(s: Text, e: nat, j: nat, n: Number)
    requires NumberOk(n) && Spells(s, e, j, ExponentText(n)) && NumberEnds(s, j)
    ensures e < |s| ==> !IsDigit(s[e]) && s[e] != DOT
  {
    if n.exponent.Some? {
      First(s, e, j, ExponentText(n));
    }
  }

  lemma AfterWhole(s: Text, f: nat, e: nat, n: Number)
    requires NumberOk(n) && Spells(s, f, e, FractionText(n)) && (e < |s| ==> !IsDigit(s[e]))
    ensures f < |s| ==> !IsDigit(s[f])
  {
    if n.fraction.Some? {
      First(s, f, e, FractionText(n));
    }
  }

  // ----- strings

  /** One character as the scanner sees it. */
  lemma CharRead(s: Text, i: nat, c: Char)
    requires Spells(s, i, i + |CharText(c)|, CharText(c)) && CharOk(c)
    ensures i < |s|
    ensures c.Plain? ==> s[i] == c.unit
    ensures c.Escaped? ==> i + 1 < |s| && s[i] == BACKSLASH && s[i + 1] == c.letter
    ensures c.Coded? ==> i + 1 < |s| && s[i] == BACKSLASH && s[i + 1] == LOWER_U && CodedAt(s, i)
  {
    var t := CharText(c);
    var here := s[i..i + |t|];
    assert s[i] == here[0];
    if c.Escaped? {
      assert s[i + 1] == here[1];
    } else if c.Coded? {
      assert s[i + 1] == here[1];
      forall k | i + 2 <= k < i + 6 ensures IsHex(s[k]) {
        assert s[k] == here[k - i] && here[k - i] == c.hex[k - i - 2];
      }
    }
  }

  lemma {:induction false} CharsComplete(s: Text, i: nat, j: nat, cs: seq<Char>)
    requires Spells(s, i, j, CharsText(cs)) && CharsOk(cs) && j < |s| && s[j] == QUOTE
    ensures ScanChars(s, i) == Some(j + 1)
    decreases |cs|
  {
    hide CharText, CharOk, CodedAt;
    if |cs| > 0 {
      Split(s, i, j, CharText(cs[0]), CharsText(cs[1..]));
      CharSkipped(s, i, cs[0]);
      CharsComplete(s, i + |CharText(cs[0])|, j, cs[1..]);
    }
  }

  /** The scanner goes on after a character that is spelled here. */
  lemma CharSkipped(s: Text, i: nat, c: Char)
    requires Spells(s, i, i + |CharText(c)|, CharText(c)) && CharOk(c)
    ensures i < |s| && i + |CharText(c)| <= |s|
    ensures ScanChars(s, i) == ScanChars(s, i + |CharText(c)|)
  {
    hide CodedAt;
    CharRead(s, i, c);
  }

  lemma StringComplete(s: Text, i: nat, j: nat, cs: seq<Char>)
    requires Spells(s, i, j, StringText(cs)) && CharsOk(cs)
    ensures i < |s| && s[i] == QUOTE && ScanString(s, i) == Some(j) && KeyOf(s, i, j) == Unescape(cs)
  {
    hide CharsText, CharsOk, Decode, Unescape;
    First(s, i, j, StringText(cs));
    Split(s, i, j, [QUOTE] + CharsText(cs), [QUOTE]);
    Split(s, i, j - 1, [QUOTE], CharsText(cs));
    First(s, j - 1, j, [QUOTE]);
    CharsComplete(s, i + 1, j - 1, cs);
    DecodeUnescapes(cs);
  }

  // ----- values

  /** The tree follows the grammar; how deep it goes and whether names repeat is left open. */
  predicate ValueShaped(v: Value) {
    match v
    case Literal(text) => text == TRUE_TEXT || text == FALSE_TEXT || text == NULL_TEXT
    case Numeric(n) => NumberOk(n)
    case Str(cs) => CharsOk(cs)
    case Arr(open, es) => AllSpace(open) && ElementsShaped(es)
    case Obj(open, ms) => AllSpace(open) && KeysOk(ms) && MembersShaped(ms)
  }

  predicate ElementsShaped(es: Elements) {
    match es
    case NoElements => true
    case LastElement(v, after) => ValueShaped(v) && AllSpace(after)
    case Element(v, after, before, rest) =>
      ValueShaped(v) && AllSpace(after) && AllSpace(before) && rest != NoElements && ElementsShaped(rest)
  }

  predicate MembersShaped(ms: Members) {
    match ms
    case NoMembers => true
    case LastMember(key, afterKey, beforeValue, v, after) =>
      AllSpace(afterKey) && AllSpace(beforeValue) && ValueShaped(v) && AllSpace(after)
    case Member(key, afterKey, beforeValue, v, after, before, rest) =>
      && AllSpace(afterKey) && AllSpace(beforeValue) && ValueShaped(v) && AllSpace(after) && AllSpace(before)
      && rest != NoMembers && MembersShaped(rest)
  }

  lemma {:induction false} OkIsShaped(v: Value, depth: nat)
    requires ValueOk(v, depth)
    ensures ValueShaped(v)
    decreases v
  {
    hide AllSpace, NumberOk, CharsOk, Distinct, Names;
    match v
    case Arr(open, es) => ElementsAreShaped(es, depth + 1);
    case Obj(open, ms) => MembersAreShaped(ms, depth + 1);
    case _ =>
  }

  lemma {:induction false} ElementsAreShaped(es: Elements, depth: nat)
    requires ElementsOk(es, depth)
    ensures ElementsShaped(es)
    decreases es
  {
    hide AllSpace;
    match es
    case NoElements =>
    case LastElement(v, _) => OkIsShaped(v, depth);
    case Element(v, _, _, rest) =>
      OkIsShaped(v, depth);
      ElementsAreShaped(rest, depth);
  }

  lemma {:induction false} MembersAreShaped(ms: Members, depth: nat)
    requires MembersOk(ms, depth)
    ensures MembersShaped(ms)
    decreases ms
  {
    hide AllSpace;
    match ms
    case NoMembers =>
    case LastMember(_, _, _, v, _) => OkIsShaped(v, depth);
    case Member(_, _, _, v, _, _, rest) =>
      OkIsShaped(v, depth);
      MembersAreShaped(rest, depth);
  }

  /** A value starts with no space and with neither closing mark. */
  lemma ValueStarts(v: Value)
    requires ValueShaped(v)
    ensures |ValueText(v)| > 0
    ensures var u := ValueText(v)[0]; !IsSpace(u) && u != CLOSE_BRACKET && u != CLOSE_BRACE && u != COMMA && u != COLON
  {
  }

  lemma LiteralComplete(s: Text, i: nat, j: nat, depth: nat, t: Text)
    requires Spells(s, i, j, t) && (t == TRUE_TEXT || t == FALSE_TEXT || t == NULL_TEXT)
    ensures ScanValue(s, i, depth) == if depth <= MAXIMUM_DEPTH then Some(j) else None
  {
    First(s, i, j, t);
  }

  /**
    * Where a value is spelled the scanner reads exactly it, if it is not too deep
    * and no name repeats, and fails otherwise.
    */
  lemma ValueDecided(s: Text, i: nat, j: nat, depth: nat, v: Value)
    requires Spells(s, i, j, ValueText(v)) && ValueShaped(v) && NumberEnds(s, j)
    ensures i <= |s| && ScanValue(s, i, depth) == if ValueOk(v, depth) then Some(j) else None
    decreases v, 0
  {
    hide Spells, ScanNumber, ScanObject, ScanArray, ScanChars, ScanKeyword, NumberText, NumberOk, StringText, CharsOk,
         ElementsText, MembersText, AllSpace, ElementsOk, MembersOk, KeysOk, Distinct, Names, NumberEnds,
         ElementsShaped, MembersShaped;
    ValueStarts(v);
    First(s, i, j, ValueText(v));
    match v {
      case Literal(t) => LiteralComplete(s, i, j, depth, t);
      case Numeric(n) =>
        NumberStarts(n);
        NumberComplete(s, i, j, n);
      case Str(cs) => StringComplete(s, i, j, cs);
      case Arr(open, es) => ArrayDecided(s, i, j, depth, open, es);
      case Obj(open, ms) => ObjectDecided(s, i, j, depth, open, ms);
    }
  }

  lemma NumberStarts(n: Number)
    requires NumberOk(n)
    ensures |NumberText(n)| > 0 && (NumberText(n)[0] == MINUS || IsDigit(NumberText(n)[0]))
  {
  }

  lemma ArrayDecided(s: Text, i: nat, j: nat, depth: nat, open: Text, es: Elements)
    requires Spells(s, i, j, ValueText(Arr(open, es))) && ValueShaped(Arr(open, es))
    ensures i < |s| && s[i] == OPEN_BRACKET
    ensures ScanArray(s, i, depth + 1) == if ElementsOk(es, depth + 1) then Some(j) else None
    decreases es, 2
  {
    hide Spells, ElementsText, ElementsShaped, AllSpace, SkipSpace, ScanElements;
    First(s, i, j, ValueText(Arr(open, es)));
    Split(s, i, j, [OPEN_BRACKET] + open + ElementsText(es), [CLOSE_BRACKET]);
    Split(s, i, j - 1, [OPEN_BRACKET] + open, ElementsText(es));
    var start := i + |[OPEN_BRACKET] + open|;
    Split(s, i, start, [OPEN_BRACKET], open);
    First(s, j - 1, j, [CLOSE_BRACKET]);
    if es == NoElements {
      EmptyEnds(s, start, j - 1);
      SpaceComplete(s, i + 1, start, open);
    } else {
      hide ElementsOk;
      ElementsStart(s, start, j - 1, es);
      SpaceComplete(s, i + 1, start, open);
      ElementsDecided(s, start, j - 1, depth + 1, es);
    }
  }

  lemma EmptyEnds(s: Text, i: nat, j: nat)
    ensures Spells(s, i, j, ElementsText(NoElements)) ==> i == j
    ensures Spells(s, i, j, MembersText(NoMembers)) ==> i == j
  {
  }

  lemma ElementsStart(s: Text, i: nat, j: nat, es: Elements)
    requires Spells(s, i, j, ElementsText(es)) && ElementsShaped(es) && es != NoElements
    ensures i < |s| && !IsSpace(s[i]) && s[i] != CLOSE_BRACKET
  {
    hide ValueText, ValueShaped;
    ValueStarts(es.value);
    First(s, i, j, ElementsText(es));
  }

  /** Space or a mark of the container follows the space after a value, so a number ends there. */
  lemma SpaceEndsNumber(s: Text, e: nat, k: nat, after: Text)
    requires Spells(s, e, k, after) && AllSpace(after) && k < |s|
    requires s[k] == COMMA || s[k] == CLOSE_BRACKET || s[k] == CLOSE_BRACE
    ensures NumberEnds(s, e) && SkipSpace(s, e) == k
  {
    SpaceComplete(s, e, k, after);
    if |after| > 0 {
      First(s, e, k, after);
    }
  }

  lemma ElementsDecided(s: Text, i: nat, j: nat, depth: nat, es: Elements)
    requires Spells(s, i, j, ElementsText(es)) && ElementsShaped(es) && es != NoElements
    requires j < |s| && s[j] == CLOSE_BRACKET
    ensures i <= |s| && ScanElements(s, i, depth) == if ElementsOk(es, depth) then Some(j + 1) else None
    decreases es, 1
  {
    hide Spells, ValueText, ValueOk, ValueShaped, AllSpace, SkipSpace, ScanValue, NumberEnds;
    match es {
      case LastElement(v, after) =>
        Split(s, i, j, ValueText(v), after);
        var e := i + |ValueText(v)|;
        SpaceEndsNumber(s, e, j, after);
        ValueDecided(s, i, e, depth, v);
      case Element(v, after, before, rest) =>
        Split(s, i, j, ValueText(v) + after + [COMMA] + before, ElementsText(rest));
        var next := i + |ValueText(v) + after + [COMMA] + before|;
        ElementRead(s, i, next, depth, v, after, before);
        ElementsStart(s, next, j, rest);
        var k := i + |ValueText(v)| + |after|;
        SpaceComplete(s, k + 1, next, before);
        ElementsDecided(s, next, j, depth, rest);
    }
  }

  /** One element up to the space before the next. */
  lemma ElementRead(s: Text, i: nat, next: nat, depth: nat, v: Value, after: Text, before: Text)
    requires Spells(s, i, next, ValueText(v) + after + [COMMA] + before)
    requires ValueShaped(v) && AllSpace(after)
    ensures var e := i + |ValueText(v)|;
            var k := e + |after|;
            && e <= |s| && ScanValue(s, i, depth) == (if ValueOk(v, depth) then Some(e) else None)
            && SkipSpace(s, e) == k && k < |s| && s[k] == COMMA && Spells(s, k + 1, next, before)
    decreases v, 1
  {
    hide Spells, ValueText, ValueOk, ValueShaped, AllSpace, SkipSpace, ScanValue, NumberEnds;
    Split(s, i, next, ValueText(v) + after + [COMMA], before);
    var k := i + |ValueText(v) + after|;
    Split(s, i, k + 1, ValueText(v) + after, [COMMA]);
    Split(s, i, k, ValueText(v), after);
    First(s, k, k + 1, [COMMA]);
    SpaceEndsNumber(s, i + |ValueText(v)|, k, after);
    ValueDecided(s, i, i + |ValueText(v)|, depth, v);
  }

  lemma ObjectDecided(s: Text, i: nat, j: nat, depth: nat, open: Text, ms: Members)
    requires Spells(s, i, j, ValueText(Obj(open, ms))) && ValueShaped(Obj(open, ms))
    ensures i < |s| && s[i] == OPEN_BRACE
    ensures ScanObject(s, i, depth + 1)
         == if MembersOk(ms, depth + 1) && Distinct(Names(ms)) then Some(j) else None
    decreases ms, 2
  {
    hide Spells, MembersText, MembersShaped, KeysOk, Names, AllSpace, SkipSpace, ScanMembers;
    First(s, i, j, ValueText(Obj(open, ms)));
    Split(s, i, j, [OPEN_BRACE] + open + MembersText(ms), [CLOSE_BRACE]);
    Split(s, i, j - 1, [OPEN_BRACE] + open, MembersText(ms));
    var start := i + |[OPEN_BRACE] + open|;
    Split(s, i, start, [OPEN_BRACE], open);
    First(s, j - 1, j, [CLOSE_BRACE]);
    if ms == NoMembers {
      EmptyEnds(s, start, j - 1);
      SpaceComplete(s, i + 1, start, open);
      NoNames();
    } else {
      hide MembersOk, Distinct;
      MembersStart(s, start, j - 1, ms);
      SpaceComplete(s, i + 1, start, open);
      MembersDecided(s, start, j - 1, depth + 1, ms, {});
      AllUnseen(Names(ms));
    }
  }

  lemma NoNames()
    ensures Distinct(Names(NoMembers))
  {
  }

  lemma AllUnseen(names: seq<Text>)
    ensures Unseen(names, {})
  {
  }

  lemma MembersStart(s: Text, i: nat, j: nat, ms: Members)
    requires Spells(s, i, j, MembersText(ms)) && ms != NoMembers
    ensures i < |s| && s[i] == QUOTE
  {
    hide CharsText, ValueText;
    First(s, i, j, MembersText(ms));
  }

  /** A member up to the space after its value. */
  lemma MemberRead(s: Text, i: nat, k: nat, depth: nat, key: seq<Char>, afterKey: Text, beforeValue: Text, v: Value,
                   after: Text)
    requires Spells(s, i, k, MemberText(key, afterKey, beforeValue, v, after))
    requires CharsOk(key) && AllSpace(afterKey) && AllSpace(beforeValue) && ValueShaped(v) && AllSpace(after)
    requires k < |s| && (s[k] == COMMA || s[k] == CLOSE_BRACE)
    ensures i < |s| && s[i] == QUOTE
    ensures var a := i + |StringText(key)|;
            var c := a + |afterKey|;
            var b := c + 1 + |beforeValue|;
            var e := b + |ValueText(v)|;
            && ScanString(s, i) == Some(a) && KeyOf(s, i, a) == Unescape(key)
            && a <= |s| && SkipSpace(s, a) == c && c < |s| && s[c] == COLON
            && SkipSpace(s, c + 1) == b && ScanValue(s, b, depth) == (if ValueOk(v, depth) then Some(e) else None)
            && e <= |s| && SkipSpace(s, e) == k
    decreases v, 1
  {
    hide Spells, ValueText, ValueOk, ValueShaped, AllSpace, SkipSpace, ScanValue, NumberEnds, StringText, ScanString,
         KeyOf, Unescape, CharsOk;
    var t1 := StringText(key) + afterKey;
    var t2 := t1 + [COLON] + beforeValue;
    Split(s, i, k, t2 + ValueText(v), after);
    var e := i + |t2 + ValueText(v)|;
    Split(s, i, e, t2, ValueText(v));
    var b := i + |t2|;
    Split(s, i, b, t1 + [COLON], beforeValue);
    var c := i + |t1|;
    Split(s, i, c + 1, t1, [COLON]);
    Split(s, i, c, StringText(key), afterKey);
    var a := i + |StringText(key)|;
    First(s, c, c + 1, [COLON]);
    StringComplete(s, i, a, key);
    SpaceComplete(s, a, c, afterKey);
    ValueStarts(v);
    First(s, b, e, ValueText(v));
    SpaceComplete(s, c + 1, b, beforeValue);
    SpaceEndsNumber(s, e, k, after);
    ValueDecided(s, b, e, depth, v);
  }

  lemma NamesSplit(name: Text, names: seq<Text>, keys: set<Text>)
    ensures Distinct([name] + names) && Unseen([name] + names, keys) <==>
              name !in keys && Distinct(names) && Unseen(names, keys + {name})
  {
    var all := [name] + names;
    assert all[0] == name && forall k | 0 <= k < |names| :: all[k + 1] == names[k];
    if Distinct(all) && Unseen(all, keys) {
      forall k | 0 <= k < |names| ensures names[k] !in keys + {name} {
        assert all[k + 1] == names[k];
      }
      forall k, l | 0 <= k < l < |names| ensures names[k] != names[l] {
        assert all[k + 1] == names[k] && all[l + 1] == names[l];
      }
    }
    if name !in keys && Distinct(names) && Unseen(names, keys + {name}) {
      forall k | 0 <= k < |all| ensures all[k] !in keys {
        assert k > 0 ==> all[k] == names[k - 1];
      }
      forall k, l | 0 <= k < l < |all| ensures all[k] != all[l] {
        assert all[l] == names[l - 1] && (k > 0 ==> all[k] == names[k - 1]);
      }
    }
  }

  lemma OnlyName(name: Text, keys: set<Text>)
    ensures Distinct([name]) && (Unseen([name], keys) <==> name !in keys)
  {
    assert [name][0] == name;
  }

  /** What stands around the comma after a member. */
  lemma CommaSplit(s: Text, i: nat, j: nat, t: Text, before: Text, rest: Text) returns (k: nat, next: nat)
    requires Spells(s, i, j, t + [COMMA] + before + rest)
    ensures Spells(s, i, k, t) && k < |s| && s[k] == COMMA
    ensures Spells(s, k + 1, next, before) && Spells(s, next, j, rest)
  {
    hide Spells;
    Split(s, i, j, t + [COMMA] + before, rest);
    next := i + |t + [COMMA] + before|;
    Split(s, i, next, t + [COMMA], before);
    k := i + |t|;
    Split(s, i, k + 1, t, [COMMA]);
    First(s, k, k + 1, [COMMA]);
  }

  lemma MembersDecided(s: Text, i: nat, j: nat, depth: nat, ms: Members, keys: set<Text>)
    requires Spells(s, i, j, MembersText(ms)) && ms != NoMembers && KeysOk(ms) && MembersShaped(ms)
    requires j < |s| && s[j] == CLOSE_BRACE
    ensures i <= |s|
    ensures ScanMembers(s, i, depth, keys)
         == if MembersOk(ms, depth) && Distinct(Names(ms)) && Unseen(Names(ms), keys) then Some(j + 1) else None
    decreases ms, 1
  {
    hide Spells, ValueText, ValueOk, ValueShaped, AllSpace, SkipSpace, ScanValue, StringText, ScanString, KeyOf,
         Unescape, CharsOk, Distinct, Unseen;
    match ms {
      case LastMember(key, afterKey, beforeValue, v, after) =>
        MemberRead(s, i, j, depth, key, afterKey, beforeValue, v, after);
        OnlyName(Unescape(key), keys);
      case Member(key, afterKey, beforeValue, v, after, before, rest) =>
        var t := MemberText(key, afterKey, beforeValue, v, after);
        var k, next := CommaSplit(s, i, j, t, before, MembersText(rest));
        MemberRead(s, i, k, depth, key, afterKey, beforeValue, v, after);
        MembersStart(s, next, j, rest);
        SpaceComplete(s, k + 1, next, before);
        NamesSplit(Unescape(key), Names(rest), keys);
        MembersDecided(s, next, j, depth, rest, keys + {Unescape(key)});
    }
  }

  /**
    * The grammar is unambiguous to the recogniser: however a text is spelled by a
    * tree, it is accepted exactly when that tree is not too deep and repeats no name.
    */
  lemma TreeDecides(before: Text, v: Value, after: Text)
    requires AllSpace(before) && ValueShaped(v) && AllSpace(after)
    ensures Accepts(before + ValueText(v) + after) <==> ValueOk(v, 0)
  {
    hide ValueText, ValueOk, ValueShaped, AllSpace, SkipSpace, ScanValue, Spells;
    var s := before + ValueText(v) + after;
    WholeIsSpelled(s);
    Split(s, 0, |s|, before + ValueText(v), after);
    var e := |before + ValueText(v)|;
    Split(s, 0, e, before, ValueText(v));
    ValueStarts(v);
    First(s, |before|, e, ValueText(v));
    SpaceComplete(s, 0, |before|, before);
    EndEndsNumber(s, e, after);
    ValueDecided(s, |before|, e, 0, v);
  }

  /** Every JSON text of depth at most 100 with distinct member names is accepted. */
  lemma Completeness(s: Text)
    requires IsJson(s)
    ensures Accepts(s)
  {
    hide ValueText, ValueOk, ValueShaped, AllSpace, Accepts;
    var before: Text, v: Value, after: Text :|
      AllSpace(before) && ValueOk(v, 0) && AllSpace(after) && s == before + ValueText(v) + after;
    OkIsShaped(v, 0);
    TreeDecides(before, v, after);
  }

  lemma WholeIsSpelled(s: Text)
    ensures Spells(s, 0, |s|, s)
  {
  }

  lemma EndEndsNumber(s: Text, e: nat, after: Text)
    requires Spells(s, e, |s|, after) && AllSpace(after)
    ensures NumberEnds(s, e) && SkipSpace(s, e) == |s|
  {
    SpaceComplete(s, e, |s|, after);
    if |after| > 0 {
      First(s, e, |s|, after);
    }
  }

  /** The recogniser accepts exactly the JSON texts of depth at most 100 with distinct member names. */
  lemma AcceptsExactlyJson(s: Text)
    ensures Accepts(s) <==> IsJson(s)
  {
    if Accepts(s) {
      Soundness(s);
    }
    if IsJson(s) {
      Completeness(s);
    }
  }
}
