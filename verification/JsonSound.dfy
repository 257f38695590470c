/** Soundness: whatever the recogniser accepts is a JSON text. Each lemma returns the tree it read. */
module JsonSound {
  import opened CodeUnits
  import opened Common
  import opened JsonGrammar
  import opened JsonRecogniser

  /** The text stands in the source from i to j. */
  ghost predicate Spells(s: Text, i: nat, j: nat, t: Text) {
    i <= j <= |s| && s[i..j] == t
  }

  lemma Join(s: Text, i: nat, k: nat, j: nat, a: Text, b: Text)
    requires Spells(s, i, k, a) && Spells(s, k, j, b)
    ensures Spells(s, i, j, a + b)
  {
    assert s[i..j] == s[i..k] + s[k..j];
  }

  lemma Unit(s: Text, i: nat)
    requires i < |s|
    ensures Spells(s, i, i + 1, [s[i]])
  {
  }

  lemma {:induction false} SpaceSkipped(s: Text, i: nat)
    requires i <= |s|
    ensures AllSpace(s[i..SkipSpace(s, i)])
    ensures SkipSpace(s, i) < |s| ==> !IsSpace(s[SkipSpace(s, i)])
    decreases |s| - i
  {
    if i < |s| && IsSpace(s[i]) {
      SpaceSkipped(s, i + 1);
      var j := SkipSpace(s, i);
      assert s[i..j] == [s[i]] + s[i + 1..j];
    }
  }

  lemma {:induction false} DigitsSkipped(s: Text, i: nat)
    requires i <= |s|
    ensures AllDigits(s[i..SkipDigits(s, i)])
    ensures SkipDigits(s, i) < |s| ==> !IsDigit(s[SkipDigits(s, i)])
    decreases |s| - i
  {
    if i < |s| && IsDigit(s[i]) {
      DigitsSkipped(s, i + 1);
      var j := SkipDigits(s, i);
      assert s[i..j] == [s[i]] + s[i + 1..j];
    }
  }

  // ----- numbers

  lemma WholeSound(s: Text, i: nat)
    requires i <= |s| && ScanWhole(s, i).Some?
    ensures var t := s[i..ScanWhole(s, i).value]; |t| > 0 && AllDigits(t) && (t[0] == ZERO ==> |t| == 1)
  {
    if s[i] != ZERO {
      DigitsSkipped(s, i + 1);
      var j := SkipDigits(s, i + 1);
      assert s[i..j] == [s[i]] + s[i + 1..j];
    }
  }

  lemma FractionSound(s: Text, i: nat) returns (fraction: Option<Text>)
    requires i <= |s|
    ensures Spells(s, i, ScanFraction(s, i), if fraction.Some? then [DOT] + fraction.value else [])
    ensures fraction.Some? ==> |fraction.value| > 0 && AllDigits(fraction.value)
  {
    var j := ScanFraction(s, i);
    if j == i {
      fraction := None;
    } else {
      DigitsSkipped(s, i + 1);
      fraction := Some(s[i + 1..j]);
      assert SkipDigits(s, i + 1) == SkipDigits(s, i + 2);
      assert s[i..j] == [s[i]] + s[i + 1..j];
    }
  }

  lemma ExponentSound(s: Text, i: nat) returns (e: Option<Exponent>)
    requires i <= |s|
    ensures Spells(s, i, ScanExponent(s, i),
                   if e.Some? then [e.value.mark] + SignText(e.value) + e.value.digits else [])
    ensures e.Some? ==>
              && (e.value.mark == LOWER_E || e.value.mark == UPPER_E)
              && (e.value.sign.Some? ==> e.value.sign.value == PLUS || e.value.sign.value == MINUS)
              && |e.value.digits| > 0 && AllDigits(e.value.digits)
  {
    var j := ScanExponent(s, i);
    if j == i {
      e := None;
    } else {
      var m := if i + 1 < |s| && (s[i + 1] == PLUS || s[i + 1] == MINUS) then i + 2 else i + 1;
      DigitsSkipped(s, m);
      assert SkipDigits(s, m) == SkipDigits(s, m + 1);
      e := Some(Exponent(s[i], if m == i + 2 then Some(s[i + 1]) else None, s[m..j]));
      assert s[i..j] == [s[i]] + SignText(e.value) + s[m..j];
    }
  }

  lemma NumberSound(s: Text, i: nat) returns (n: Number)
    requires i <= |s| && ScanNumber(s, i).Some?
    ensures NumberOk(n) && Spells(s, i, ScanNumber(s, i).value, NumberText(n))
  {
    hide Spells, ScanWhole, ScanFraction, ScanExponent, AllDigits;
    var negative := i < |s| && s[i] == MINUS;
    var w := if negative then i + 1 else i;
    var f := ScanWhole(s, w).value;
    var e := ScanFraction(s, f);
    var j := ScanExponent(s, e);
    WholeSound(s, w);
    var fraction := FractionSound(s, f);
    var exponent := ExponentSound(s, e);
    n := Number(negative, s[w..f], fraction, exponent);
    var sign := if negative then [MINUS] else [];
    SignSpelled(s, i, negative);
    SliceSpelled(s, w, f);
    Join(s, i, w, f, sign, n.whole);
    Join(s, i, f, e, sign + n.whole, FractionText(n));
    Join(s, i, e, j, sign + n.whole + FractionText(n), ExponentText(n));
  }

  lemma SignSpelled(s: Text, i: nat, negative: bool)
    requires i <= |s| && (negative ==> i < |s| && s[i] == MINUS)
    ensures Spells(s, i, if negative then i + 1 else i, if negative then [MINUS] else [])
  {
  }

  lemma SliceSpelled(s: Text, i: nat, j: nat)
    requires i <= j <= |s|
    ensures Spells(s, i, j, s[i..j])
  {
  }

  // ----- strings

  /** The character at the index and where the next one starts. */
  lemma CharSound(s: Text, i: nat) returns (c: Char, next: nat)
    requires i < |s| && s[i] != QUOTE && ScanChars(s, i).Some?
    ensures CharOk(c) && Spells(s, i, next, CharText(c)) && i < next <= |s|
    ensures ScanChars(s, i) == ScanChars(s, next)
  {
    if s[i] == BACKSLASH && s[i + 1] == LOWER_U {
      c, next := Coded(s[i + 2..i + 6]), i + 6;
      assert s[i..next] == [s[i], s[i + 1]] + s[i + 2..i + 6];
    } else if s[i] == BACKSLASH {
      c, next := Escaped(s[i + 1]), i + 2;
      assert s[i..next] == [s[i], s[i + 1]];
    } else {
      c, next := Plain(s[i]), i + 1;
      assert s[i..next] == [s[i]];
    }
  }

  lemma CharsSound(s: Text, i: nat) returns (cs: seq<Char>)
    requires i <= |s| && ScanChars(s, i).Some?
    ensures CharsOk(cs) && Spells(s, i, ScanChars(s, i).value - 1, CharsText(cs))
    ensures s[ScanChars(s, i).value - 1] == QUOTE
    decreases |s| - i
  {
    hide CharText;
    if s[i] == QUOTE {
      cs := [];
    } else {
      var c, next := CharSound(s, i);
      var rest := CharsSound(s, next);
      cs := [c] + rest;
      assert cs[1..] == rest;
      Join(s, i, next, ScanChars(s, i).value - 1, CharText(c), CharsText(rest));
    }
  }

  /** Decoding the raw characters of a string is unescaping its characters. */
  lemma {:induction false} DecodeUnescapes(cs: seq<Char>)
    requires CharsOk(cs)
    ensures Decode(CharsText(cs)) == Unescape(cs)
    decreases |cs|
  {
    if |cs| > 0 {
      DecodeUnescapes(cs[1..]);
      var raw, rest := CharsText(cs), CharsText(cs[1..]);
      match cs[0] {
        case Plain(u) => assert raw[1..] == rest;
        case Escaped(letter) => assert raw[2..] == rest;
        case Coded(hex) =>
          assert raw[2..6] == hex && raw[6..] == rest;
          assert forall k | 2 <= k < 6 :: raw[k] == hex[k - 2];
      }
    }
  }

  lemma Quoted(s: Text, i: nat, j: nat, raw: Text)
    requires i + 1 < j <= |s| && s[i] == QUOTE && s[j - 1] == QUOTE && Spells(s, i + 1, j - 1, raw)
    ensures Spells(s, i, j, [QUOTE] + raw + [QUOTE])
  {
    assert s[i..j] == [s[i]] + s[i + 1..j - 1] + [s[j - 1]];
  }

  lemma StringSound(s: Text, i: nat) returns (cs: seq<Char>)
    requires i < |s| && s[i] == QUOTE && ScanString(s, i).Some?
    ensures CharsOk(cs) && Spells(s, i, ScanString(s, i).value, StringText(cs))
    ensures Unescape(cs) == KeyOf(s, i, ScanString(s, i).value)
  {
    hide ScanChars, CharsOk, CharsText, Decode, Unescape;
    cs := CharsSound(s, i + 1);
    Quoted(s, i, ScanString(s, i).value, CharsText(cs));
    DecodeUnescapes(cs);
  }

  // ----- values

  lemma ValueSound(s: Text, i: nat, depth: nat) returns (v: Value)
    requires i <= |s| && ScanValue(s, i, depth).Some?
    ensures ValueOk(v, depth) && Spells(s, i, ScanValue(s, i, depth).value, ValueText(v))
    decreases |s| - i, 2
  {
    hide Spells, ScanObject, ScanArray, ScanNumber, ScanChars, NumberOk;
    if s[i] == OPEN_BRACE {
      v := ObjectSound(s, i, depth);
    } else if s[i] == OPEN_BRACKET {
      v := ArraySound(s, i, depth);
    } else if s[i] == QUOTE {
      var cs := StringSound(s, i);
      v := Str(cs);
    } else if s[i] == LOWER_T || s[i] == LOWER_F || s[i] == LOWER_N {
      var j := ScanValue(s, i, depth).value;
      v := Literal(s[i..j]);
      SliceSpelled(s, i, j);
    } else {
      var n := NumberSound(s, i);
      v := Numeric(n);
    }
  }

  /** The space after an index, as it is spelled. */
  lemma SpaceSpelled(s: Text, i: nat)
    requires i <= |s|
    ensures Spells(s, i, SkipSpace(s, i), s[i..SkipSpace(s, i)]) && AllSpace(s[i..SkipSpace(s, i)])
  {
    SpaceSkipped(s, i);
  }

  /** Space and contents between two brackets. */
  lemma Enclosed(s: Text, i: nat, start: nat, close: nat, open: Text, inner: Text)
    requires i < |s| && close < |s| && Spells(s, i + 1, start, open) && Spells(s, start, close, inner)
    ensures Spells(s, i, close + 1, [s[i]] + open + inner + [s[close]])
  {
    hide Spells;
    Unit(s, i);
    Unit(s, close);
    Join(s, i, i + 1, start, [s[i]], open);
    Join(s, i, start, close, [s[i]] + open, inner);
    Join(s, i, close, close + 1, [s[i]] + open + inner, [s[close]]);
  }

  lemma ArraySound(s: Text, i: nat, depth: nat) returns (v: Value)
    requires i < |s| && s[i] == OPEN_BRACKET && depth <= MAXIMUM_DEPTH && ScanArray(s, i, depth + 1).Some?
    ensures ValueOk(v, depth) && Spells(s, i, ScanArray(s, i, depth + 1).value, ValueText(v))
    decreases |s| - i, 1
  {
    hide Spells, SkipSpace, AllSpace, ElementsOk, ElementsText, ScanElements;
    var start := SkipSpace(s, i + 1);
    SpaceSpelled(s, i + 1);
    var open := s[i + 1..start];
    var es: Elements;
    var close: nat;
    if start < |s| && s[start] == CLOSE_BRACKET {
      es, close := NoElements, start;
      NothingSpelled(s, start);
    } else {
      es := ElementsSound(s, start, depth + 1);
      close := ScanElements(s, start, depth + 1).value - 1;
    }
    v := Arr(open, es);
    Enclosed(s, i, start, close, open, ElementsText(es));
    NoElementsOk(depth + 1);
  }

  lemma NothingSpelled(s: Text, i: nat)
    requires i <= |s|
    ensures Spells(s, i, i, ElementsText(NoElements)) && Spells(s, i, i, MembersText(NoMembers))
  {
  }

  lemma NoElementsOk(depth: nat)
    ensures ElementsOk(NoElements, depth) && MembersOk(NoMembers, depth) && KeysOk(NoMembers)
            && Distinct(Names(NoMembers))
  {
  }

  lemma ElementsSound(s: Text, i: nat, depth: nat) returns (es: Elements)
    requires i <= |s| && ScanElements(s, i, depth).Some?
    ensures es != NoElements && ElementsOk(es, depth)
    ensures Spells(s, i, ScanElements(s, i, depth).value - 1, ElementsText(es))
    ensures s[ScanElements(s, i, depth).value - 1] == CLOSE_BRACKET
    decreases |s| - i, 3
  {
    hide Spells, SkipSpace, AllSpace, ScanValue, ValueOk, ValueText;
    var j := ScanElements(s, i, depth).value;
    var v := ValueSound(s, i, depth);
    var e := ScanValue(s, i, depth).value;
    var k := SkipSpace(s, e);
    SpaceSpelled(s, e);
    var after := s[e..k];
    Join(s, i, e, k, ValueText(v), after);
    if s[k] == CLOSE_BRACKET {
      es := LastElement(v, after);
    } else {
      var next := SkipSpace(s, k + 1);
      SpaceSpelled(s, k + 1);
      var before := s[k + 1..next];
      var rest := ElementsSound(s, next, depth);
      es := Element(v, after, before, rest);
      Unit(s, k);
      Join(s, i, k, k + 1, ValueText(v) + after, [COMMA]);
      Join(s, i, k + 1, next, ValueText(v) + after + [COMMA], before);
      Join(s, i, next, j - 1, ValueText(v) + after + [COMMA] + before, ElementsText(rest));
    }
  }

  lemma ObjectSound(s: Text, i: nat, depth: nat) returns (v: Value)
    requires i < |s| && s[i] == OPEN_BRACE && depth <= MAXIMUM_DEPTH && ScanObject(s, i, depth + 1).Some?
    ensures ValueOk(v, depth) && Spells(s, i, ScanObject(s, i, depth + 1).value, ValueText(v))
    decreases |s| - i, 1
  {
    hide Spells, SkipSpace, AllSpace, MembersOk, MembersText, KeysOk, Distinct, Names, ScanMembers;
    var start := SkipSpace(s, i + 1);
    SpaceSpelled(s, i + 1);
    var open := s[i + 1..start];
    var ms: Members;
    var close: nat;
    NoElementsOk(depth + 1);
    if start < |s| && s[start] == CLOSE_BRACE {
      ms, close := NoMembers, start;
      NothingSpelled(s, start);
    } else {
      ms := MembersSound(s, start, depth + 1, {});
      close := ScanMembers(s, start, depth + 1, {}).value - 1;
    }
    v := Obj(open, ms);
    Enclosed(s, i, start, close, open, MembersText(ms));
  }

  /** None of the names was seen before. */
  ghost predicate Unseen(names: seq<Text>, keys: set<Text>) {
    forall k | 0 <= k < |names| :: names[k] !in keys
  }

  lemma NamesGrow(name: Text, names: seq<Text>, keys: set<Text>)
    requires Distinct(names) && Unseen(names, keys + {name}) && name !in keys
    ensures Distinct([name] + names) && Unseen([name] + names, keys)
  {
  }

  /** The spelling of a member up to the space after its value. */
  function MemberText(key: seq<Char>, afterKey: Text, beforeValue: Text, v: Value, after: Text): Text {
    StringText(key) + afterKey + [COLON] + beforeValue + ValueText(v) + after
  }

  lemma MemberSound(s: Text, i: nat, depth: nat) returns (key: seq<Char>, v: Value)
    requires i < |s| && s[i] == QUOTE && ScanString(s, i).Some?
    requires var c := SkipSpace(s, ScanString(s, i).value);
             c < |s| && s[c] == COLON && ScanValue(s, SkipSpace(s, c + 1), depth).Some?
    ensures var a := ScanString(s, i).value;
            var c := SkipSpace(s, a);
            var b := SkipSpace(s, c + 1);
            var e := ScanValue(s, b, depth).value;
            var k := SkipSpace(s, e);
            && CharsOk(key) && Unescape(key) == KeyOf(s, i, a) && ValueOk(v, depth)
            && AllSpace(s[a..c]) && AllSpace(s[c + 1..b]) && AllSpace(s[e..k])
            && Spells(s, i, k, MemberText(key, s[a..c], s[c + 1..b], v, s[e..k]))
    decreases |s| - i, 2
  {
    hide Spells, SkipSpace, AllSpace, ScanValue, ValueOk, ValueText, ScanString, StringText, CharsOk, KeyOf, Unescape;
    key := StringSound(s, i);
    var a := ScanString(s, i).value;
    var c := SkipSpace(s, a);
    SpaceSpelled(s, a);
    var b := SkipSpace(s, c + 1);
    SpaceSpelled(s, c + 1);
    v := ValueSound(s, b, depth);
    var e := ScanValue(s, b, depth).value;
    var k := SkipSpace(s, e);
    SpaceSpelled(s, e);
    Unit(s, c);
    var text := StringText(key);
    Join(s, i, a, c, text, s[a..c]);
    Join(s, i, c, c + 1, text + s[a..c], [COLON]);
    Join(s, i, c + 1, b, text + s[a..c] + [COLON], s[c + 1..b]);
    Join(s, i, b, e, text + s[a..c] + [COLON] + s[c + 1..b], ValueText(v));
    Join(s, i, e, k, text + s[a..c] + [COLON] + s[c + 1..b] + ValueText(v), s[e..k]);
  }

  /** The members read have distinct names, none of them seen before. */
  lemma MembersSound(s: Text, i: nat, depth: nat, keys: set<Text>) returns (ms: Members)
    requires i <= |s| && ScanMembers(s, i, depth, keys).Some?
    ensures ms != NoMembers && KeysOk(ms) && MembersOk(ms, depth)
    ensures Distinct(Names(ms)) && Unseen(Names(ms), keys)
    ensures Spells(s, i, ScanMembers(s, i, depth, keys).value - 1, MembersText(ms))
    ensures s[ScanMembers(s, i, depth, keys).value - 1] == CLOSE_BRACE
    decreases |s| - i, 3
  {
    hide Spells, SkipSpace, AllSpace, ScanValue, ValueOk, ValueText, ScanString, StringText, CharsOk, KeyOf, Unescape,
         Distinct, Unseen;
    var j := ScanMembers(s, i, depth, keys).value;
    var key, v := MemberSound(s, i, depth);
    var a := ScanString(s, i).value;
    var c := SkipSpace(s, a);
    var b := SkipSpace(s, c + 1);
    var e := ScanValue(s, b, depth).value;
    var k := SkipSpace(s, e);
    if s[k] == CLOSE_BRACE {
      ms := LastMember(key, s[a..c], s[c + 1..b], v, s[e..k]);
      OneName(Unescape(key), keys);
    } else {
      var next := SkipSpace(s, k + 1);
      SpaceSpelled(s, k + 1);
      var rest := MembersSound(s, next, depth, keys + {KeyOf(s, i, a)});
      ms := Member(key, s[a..c], s[c + 1..b], v, s[e..k], s[k + 1..next], rest);
      NamesGrow(Unescape(key), Names(rest), keys);
      MoreSpelled(s, i, k, next, j - 1, MemberText(key, s[a..c], s[c + 1..b], v, s[e..k]), s[k + 1..next],
                  MembersText(rest));
    }
  }

  lemma OneName(name: Text, keys: set<Text>)
    requires name !in keys
    ensures Distinct([name]) && Unseen([name], keys)
  {
  }

  lemma MoreSpelled(s: Text, i: nat, k: nat, next: nat, close: nat, text: Text, before: Text, rest: Text)
    requires Spells(s, i, k, text) && k < |s| && s[k] == COMMA && Spells(s, k + 1, next, before)
             && Spells(s, next, close, rest)
    ensures Spells(s, i, close, text + [COMMA] + before + rest)
  {
    hide Spells;
    Unit(s, k);
    Join(s, i, k, k + 1, text, [COMMA]);
    Join(s, i, k + 1, next, text + [COMMA], before);
    Join(s, i, next, close, text + [COMMA] + before, rest);
  }

  /** Everything the recogniser accepts is a JSON text of depth at most 100 with distinct member names. */
  lemma Soundness(s: Text)
    requires Accepts(s)
    ensures IsJson(s)
  {
    hide Spells, ScanValue, ValueOk, ValueText, SkipSpace, AllSpace;
    var i := SkipSpace(s, 0);
    SpaceSpelled(s, 0);
    var v := ValueSound(s, i, 0);
    var j := ScanValue(s, i, 0).value;
    SpaceSpelled(s, j);
    Join(s, 0, i, j, s[0..i], ValueText(v));
    Join(s, 0, j, |s|, s[0..i] + ValueText(v), s[j..|s|]);
    WholeSpelled(s, s[0..i] + ValueText(v) + s[j..|s|]);
  }

  lemma WholeSpelled(s: Text, t: Text)
    requires Spells(s, 0, |s|, t)
    ensures s == t
  {
  }
}
