/** The recursive descent the scanner performs, as functions from an index to the next index. */
module JsonRecogniser {
  import opened CodeUnits
  import opened Common
  import opened JsonGrammar

  function SkipSpace(s: Text, i: nat): (j: nat)
    requires i <= |s|
    ensures i <= j <= |s|
    decreases |s| - i
  {
    if i < |s| && IsSpace(s[i]) then SkipSpace(s, i + 1) else i
  }

  function SkipDigits(s: Text, i: nat): (j: nat)
    requires i <= |s|
    ensures i <= j <= |s|
    decreases |s| - i
  {
    if i < |s| && IsDigit(s[i]) then SkipDigits(s, i + 1) else i
  }

  function ScanKeyword(s: Text, i: nat, keyword: Text): (j: Option<nat>)
    requires i <= |s|
    ensures j.Some? ==> j.value == i + |keyword| <= |s|
  {
    if i + |keyword| <= |s| && s[i..i + |keyword|] == keyword then Some(i + |keyword|) else None
  }

  function ScanWhole(s: Text, i: nat): (j: Option<nat>)
    requires i <= |s|
    ensures j.Some? ==> i < j.value <= |s|
  {
    if i < |s| && s[i] == ZERO then Some(i + 1)
    else if i < |s| && IsDigit(s[i]) then Some(SkipDigits(s, i + 1))
    else None
  }

  function ScanFraction(s: Text, i: nat): (j: nat)
    requires i <= |s|
    ensures i <= j <= |s|
  {
    if i + 1 < |s| && s[i] == DOT && IsDigit(s[i + 1]) then SkipDigits(s, i + 1) else i
  }

  function ScanExponent(s: Text, i: nat): (j: nat)
    requires i <= |s|
    ensures i <= j <= |s|
  {
    if i < |s| && (s[i] == LOWER_E || s[i] == UPPER_E) then
      var m := if i + 1 < |s| && (s[i + 1] == PLUS || s[i + 1] == MINUS) then i + 2 else i + 1;
      if m < |s| && IsDigit(s[m]) then SkipDigits(s, m) else i
    else i
  }

  /** The longest number at the index. */
  function ScanNumber(s: Text, i: nat): (j: Option<nat>)
    requires i <= |s|
    ensures j.Some? ==> i < j.value <= |s|
  {
    var whole := ScanWhole(s, if i < |s| && s[i] == MINUS then i + 1 else i);
    if whole.None? then None else Some(ScanExponent(s, ScanFraction(s, whole.value)))
  }

  predicate CodedAt(s: Text, i: nat) {
    i + 6 <= |s| && forall k | i + 2 <= k < i + 6 :: IsHex(s[k])
  }

  /** From inside a string to the index after its closing quote. */
  function ScanChars(s: Text, i: nat): (j: Option<nat>)
    requires i <= |s|
    ensures j.Some? ==> i < j.value <= |s|
    decreases |s| - i
  {
    if i == |s| then None
    else if s[i] == QUOTE then Some(i + 1)
    else if s[i] == BACKSLASH then
      if i + 1 < |s| && s[i + 1] == LOWER_U then
        if CodedAt(s, i) then ScanChars(s, i + 6) else None
      else if i + 1 < |s| && IsEscapeLetter(s[i + 1]) then ScanChars(s, i + 2)
      else None
    else if s[i] < 0x20 then None
    else ScanChars(s, i + 1)
  }

  /** The string the raw characters between two quotes denote. */
  function Decode(raw: Text): Text {
    if |raw| == 0 then []
    else if raw[0] == BACKSLASH && |raw| >= 2 then
      if raw[1] == LOWER_U then
        if |raw| >= 6 && forall k | 2 <= k < 6 :: IsHex(raw[k]) then [CodedUnit(raw[2..6])] + Decode(raw[6..]) else []
      else [EscapedUnit(raw[1])] + Decode(raw[2..])
    else [raw[0]] + Decode(raw[1..])
  }

  function ScanString(s: Text, i: nat): (j: Option<nat>)
    requires i < |s|
    ensures j.Some? ==> i + 1 < j.value <= |s|
  {
    ScanChars(s, i + 1)
  }

  function KeyOf(s: Text, i: nat, j: nat): Text
    requires i + 1 < j <= |s|
  {
    Decode(s[i + 1..j - 1])
  }

  function ScanValue(s: Text, i: nat, depth: nat): (j: Option<nat>)
    requires i <= |s|
    ensures j.Some? ==> i < j.value <= |s|
    decreases |s| - i, 2
  {
    if depth > MAXIMUM_DEPTH || i == |s| then None
    else if s[i] == OPEN_BRACE then ScanObject(s, i, depth + 1)
    else if s[i] == OPEN_BRACKET then ScanArray(s, i, depth + 1)
    else if s[i] == QUOTE then ScanString(s, i)
    else if s[i] == LOWER_T then ScanKeyword(s, i, TRUE_TEXT)
    else if s[i] == LOWER_F then ScanKeyword(s, i, FALSE_TEXT)
    else if s[i] == LOWER_N then ScanKeyword(s, i, NULL_TEXT)
    else if s[i] == MINUS || IsDigit(s[i]) then ScanNumber(s, i)
    else None
  }

  function ScanArray(s: Text, i: nat, depth: nat): (j: Option<nat>)
    requires i < |s|
    ensures j.Some? ==> i < j.value <= |s|
    decreases |s| - i, 1
  {
    var start := SkipSpace(s, i + 1);
    if start < |s| && s[start] == CLOSE_BRACKET then Some(start + 1) else ScanElements(s, start, depth)
  }

  /** One turn of the array loop: a value, then the end of the array or a comma and the next turn. */
  function ScanElements(s: Text, i: nat, depth: nat): (j: Option<nat>)
    requires i <= |s|
    ensures j.Some? ==> i < j.value <= |s|
    decreases |s| - i, 3
  {
    var value := ScanValue(s, i, depth);
    if value.None? then None
    else
      var k := SkipSpace(s, value.value);
      if k < |s| && s[k] == CLOSE_BRACKET then Some(k + 1)
      else if k < |s| && s[k] == COMMA then ScanElements(s, SkipSpace(s, k + 1), depth)
      else None
  }

  function ScanObject(s: Text, i: nat, depth: nat): (j: Option<nat>)
    requires i < |s|
    ensures j.Some? ==> i < j.value <= |s|
    decreases |s| - i, 1
  {
    var start := SkipSpace(s, i + 1);
    if start < |s| && s[start] == CLOSE_BRACE then Some(start + 1) else ScanMembers(s, start, depth, {})
  }

  /** One turn of the object loop; the names seen so far may not return. */
  function ScanMembers(s: Text, i: nat, depth: nat, keys: set<Text>): (j: Option<nat>)
    requires i <= |s|
    ensures j.Some? ==> i < j.value <= |s|
    decreases |s| - i, 3
  {
    if i == |s| || s[i] != QUOTE then None
    else
      var key := ScanString(s, i);
      if key.None? || KeyOf(s, i, key.value) in keys then None
      else
        var c := SkipSpace(s, key.value);
        if c == |s| || s[c] != COLON then None
        else
          var value := ScanValue(s, SkipSpace(s, c + 1), depth);
          if value.None? then None
          else
            var k := SkipSpace(s, value.value);
            if k < |s| && s[k] == CLOSE_BRACE then Some(k + 1)
            else if k < |s| && s[k] == COMMA then
              ScanMembers(s, SkipSpace(s, k + 1), depth, keys + {KeyOf(s, i, key.value)})
            else None
  }

  /** The whole text is one value with space around it. */
  predicate Accepts(s: Text) {
    var value := ScanValue(s, SkipSpace(s, 0), 0);
    value.Some? && SkipSpace(s, value.value) == |s|
  }
}
