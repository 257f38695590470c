/**
  * Which request paths are protected. A path is compared with the protected
  * prefixes after every round of percent-decoding, with slashes, dots and case
  * evened out.
  */
module Routes {
  import opened CodeUnits

  const SLASH: CodeUnit := 0x2F
  const BACKSLASH: CodeUnit := 0x5C
  const PERCENT: CodeUnit := 0x25
  const DOT: CodeUnit := 0x2E

  const MAXIMUM_PASSES: nat := 16

  /** api, v1, admin, question-reports */
  const API: Text := [0x61, 0x70, 0x69]
  const V1: Text := [0x76, 0x31]
  const ADMIN: Text := [0x61, 0x64, 0x6D, 0x69, 0x6E]
  const REPORTS: Text :=
    [0x71, 0x75, 0x65, 0x73, 0x74, 0x69, 0x6F, 0x6E, 0x2D, 0x72, 0x65, 0x70, 0x6F, 0x72, 0x74, 0x73]

  // ----- segments

  predicate IsSlash(u: CodeUnit) {
    u == SLASH || u == BACKSLASH
  }

  function LowerUnit(u: CodeUnit): CodeUnit {
    if 0x41 <= u <= 0x5A then u + 0x20 else u
  }

  function Lower(t: Text): (r: Text)
    ensures |r| == |t|
  {
    if |t| == 0 then [] else [LowerUnit(t[0])] + Lower(t[1..])
  }

  /** The parts between slashes of either kind. */
  function Split(t: Text): (parts: seq<Text>)
    ensures |parts| > 0
  {
    if |t| == 0 then [[]]
    else
      var rest := Split(t[1..]);
      if IsSlash(t[0]) then [[]] + rest else [[t[0]] + rest[0]] + rest[1..]
  }

  predicate Skipped(part: Text) {
    part == [] || part == [DOT]
  }

  predicate IsUp(part: Text) {
    part == [DOT, DOT]
  }

  /** The lower-case segments, without empty and dot segments. */
  function Unresolved(parts: seq<Text>): seq<Text> {
    if |parts| == 0 then []
    else
      var before := Unresolved(parts[..|parts| - 1]);
      var last := parts[|parts| - 1];
      if Skipped(last) then before else before + [Lower(last)]
  }

  /** The same with every `..` taking back the segment before it. */
  function Resolved(parts: seq<Text>): seq<Text> {
    if |parts| == 0 then []
    else
      var before := Resolved(parts[..|parts| - 1]);
      var last := parts[|parts| - 1];
      if Skipped(last) then before
      else if IsUp(last) then (if |before| == 0 then [] else before[..|before| - 1])
      else before + [Lower(last)]
  }

  /** The segments joined again, each with a leading slash; a single slash when there are none. */
  function Joined(segments: seq<Text>): Text {
    if |segments| == 0 then [SLASH] else JoinedParts(segments)
  }

  function JoinedParts(segments: seq<Text>): Text {
    if |segments| == 0 then [] else [SLASH] + segments[0] + JoinedParts(segments[1..])
  }

  predicate StartsWith(t: Text, prefix: Text) {
    |prefix| <= |t| && t[..|prefix|] == prefix
  }

  function Prefixes(): set<seq<Text>> {
    {[API, V1, ADMIN], [API, V1, REPORTS]}
  }

  /** The path is a protected prefix or lies under one. */
  predicate HasPrefix(path: Text) {
    exists p | p in Prefixes() :: path == JoinedParts(p) || StartsWith(path, JoinedParts(p) + [SLASH])
  }

  /** One of the two normal forms is protected. */
  predicate Matches(path: Text) {
    HasPrefix(Joined(Unresolved(Split(path)))) || HasPrefix(Joined(Resolved(Split(path))))
  }

  // ----- decoding

  /** A percent sign, a digit below 8 and a hexadecimal digit: one ASCII character. */
  predicate Decodable(t: Text) {
    |t| >= 3 && t[0] == PERCENT && 0x30 <= t[1] <= 0x37 && IsHex(t[2])
  }

  function DecodedUnit(a: CodeUnit, b: CodeUnit): CodeUnit
    requires 0x30 <= a <= 0x37 && IsHex(b)
  {
    (0x10 * (a - 0x30) as int + HexValue(b)) as CodeUnit
  }

  /** One round of decoding, left to right. */
  function Decode(t: Text): Text {
    if |t| == 0 then []
    else if Decodable(t) then [DecodedUnit(t[1], t[2])] + Decode(t[3..])
    else [t[0]] + Decode(t[1..])
  }

  function DecodeTimes(t: Text, n: nat): Text {
    if n == 0 then t else Decode(DecodeTimes(t, n - 1))
  }

  /** The classification with the given number of passes left. */
  predicate Alias(t: Text, passes: nat)
    decreases passes
  {
    passes == 0 || Matches(t) || (Decode(t) != t && Alias(Decode(t), passes - 1))
  }

  predicate Protected(path: Text) {
    Alias(path, MAXIMUM_PASSES)
  }

  // ----- the methods

  /** Pushes and pops segments part by part. */
  method SlashNormalized(path: Text) returns (unresolved: Text, resolved: Text)
    ensures unresolved == Joined(Unresolved(Split(path))) && resolved == Joined(Resolved(Split(path)))
  {
    var parts := Split(path);
    var kept: seq<Text> := [];
    var stack: seq<Text> := [];
    for i := 0 to |parts|
      invariant kept == Unresolved(parts[..i]) && stack == Resolved(parts[..i])
    {
      assert parts[..i + 1][..i] == parts[..i];
      var segment := parts[i];
      if segment == [] || segment == [DOT] { continue; }
      var lower := Lower(segment);
      LowerKeepsDots(segment);
      kept := kept + [lower];
      if lower == [DOT, DOT] {
        if |stack| > 0 {
          stack := stack[..|stack| - 1];
        }
        continue;
      }
      stack := stack + [lower];
    }
    assert parts[..|parts|] == parts;
    unresolved, resolved := Joined(kept), Joined(stack);
  }

  lemma LowerKeepsDots(t: Text)
    ensures Lower(t) == [DOT, DOT] <==> t == [DOT, DOT]
  {
    if |t| == 2 {
      assert Lower(t) == [LowerUnit(t[0]), LowerUnit(t[1])];
      assert t == [t[0], t[1]];
    }
  }

  /** Compares, decodes once, and stops at a fixed point or after the last pass. */
  method HasProtectedPrefixAlias(path: Text) returns (isProtected: bool)
    ensures isProtected <==> Protected(path)
  {
    var candidate := path;
    for pass := 0 to MAXIMUM_PASSES
      invariant Alias(candidate, MAXIMUM_PASSES - pass) <==> Protected(path)
    {
      var unresolved, resolved := SlashNormalized(candidate);
      if HasPrefix(unresolved) || HasPrefix(resolved) { return true; }
      var decoded := Decode(candidate);
      if decoded == candidate { return false; }
      candidate := decoded;
    }
    isProtected := true;
  }

  // ----- decoding inverts encoding

  /** How one character of an encoding is written: as it is, or as a percent sign and two hexadecimal digits. */
  datatype Spelling = Verbatim | Coded(high: CodeUnit, low: CodeUnit)

  /** A percent sign is always escaped; an escape is that of an ASCII character, sixteens first, in either case. */
  ghost predicate SpellsUnit(u: CodeUnit, s: Spelling) {
    match s
    case Verbatim => u != PERCENT
    case Coded(high, low) => u < 0x80 && IsHexDigitOf(high, u as int / 16) && IsHexDigitOf(low, u as int % 16)
  }

  /** An escape can be decoded, to exactly the character it spells. */
  lemma EscapeDecodes(u: CodeUnit, high: CodeUnit, low: CodeUnit)
    ensures Decodable([PERCENT, high, low]) && DecodedUnit(high, low) == u <==> SpellsUnit(u, Coded(high, low))
  {
    HexDigit(high, u as int / 16);
    HexDigit(low, u as int % 16);
  }

  ghost predicate Encodes(t: Text, spellings: seq<Spelling>) {
    |spellings| == |t| && forall i | 0 <= i < |t| :: SpellsUnit(t[i], spellings[i])
  }

  ghost function Encoded(t: Text, spellings: seq<Spelling>): Text
    requires Encodes(t, spellings)
  {
    if |t| == 0 then []
    else
      (match spellings[0]
       case Verbatim => [t[0]]
       case Coded(high, low) => [PERCENT, high, low])
      + Encoded(t[1..], spellings[1..])
  }

  /** One round of decoding undoes any one layer of encoding. */
  lemma {:induction false} DecodeInvertsEncode(t: Text, spellings: seq<Spelling>)
    requires Encodes(t, spellings)
    ensures Decode(Encoded(t, spellings)) == t
    decreases |t|
  {
    if |t| > 0 {
      DecodeInvertsEncode(t[1..], spellings[1..]);
      var e, rest := Encoded(t, spellings), Encoded(t[1..], spellings[1..]);
      match spellings[0] {
        case Verbatim => assert e[1..] == rest;
        case Coded(high, low) =>
          EscapeDecodes(t[0], high, low);
          assert e[3..] == rest;
      }
    }
  }

  /** A round that changes the text makes it shorter. */
  lemma {:induction false} DecodeShortens(t: Text)
    ensures |Decode(t)| <= |t|
    ensures Decode(t) != t ==> |Decode(t)| < |t|
    decreases |t|
  {
    if |t| > 0 {
      if Decodable(t) {
        DecodeShortens(t[3..]);
      } else {
        DecodeShortens(t[1..]);
        assert t == [t[0]] + t[1..];
      }
    }
  }

  // ----- the classification is exact

  lemma {:induction false} DecodeTimesStep(t: Text, n: nat)
    ensures DecodeTimes(Decode(t), n) == DecodeTimes(t, n + 1)
    decreases n
  {
    if n > 0 {
      DecodeTimesStep(t, n - 1);
    }
  }

  lemma {:induction false} FixedForever(t: Text, n: nat)
    requires Decode(t) == t
    ensures DecodeTimes(t, n) == t
    decreases n
  {
    if n > 0 {
      FixedForever(t, n - 1);
    }
  }

  /** No form up to the n-th matches, and the n-th no longer changes. */
  ghost predicate SettlesUnmatched(t: Text, n: nat) {
    Decode(DecodeTimes(t, n)) == DecodeTimes(t, n) && forall k: nat | k <= n :: !Matches(DecodeTimes(t, k))
  }

  lemma {:induction false} AliasFalse(t: Text, passes: nat)
    ensures !Alias(t, passes) <==> exists n: nat :: n < passes && SettlesUnmatched(t, n)
    decreases passes
  {
    hide Matches, Decode;
    if passes > 0 {
      if Matches(t) {
        assert DecodeTimes(t, 0) == t;
      } else if Decode(t) == t {
        assert SettlesUnmatched(t, 0);
      } else {
        AliasFalse(Decode(t), passes - 1);
        SettlesShift(t, passes);
      }
    }
  }

  /** Settling later, seen from one round on. */
  lemma SettlesShift(t: Text, passes: nat)
    requires passes > 0 && !Matches(t) && Decode(t) != t
    ensures (exists n: nat :: n < passes && SettlesUnmatched(t, n)) <==>
              (exists n: nat :: n < passes - 1 && SettlesUnmatched(Decode(t), n))
  {
    hide Matches, Decode;
    if n: nat :| n < passes && SettlesUnmatched(t, n) {
      assert n > 0;
      DecodeTimesStep(t, n - 1);
      forall k: nat | k <= n - 1 ensures !Matches(DecodeTimes(Decode(t), k)) {
        DecodeTimesStep(t, k);
      }
      assert SettlesUnmatched(Decode(t), n - 1);
    }
    if n: nat :| n < passes - 1 && SettlesUnmatched(Decode(t), n) {
      DecodeTimesStep(t, n);
      forall k: nat | k <= n + 1 ensures !Matches(DecodeTimes(t, k)) {
        if k > 0 { DecodeTimesStep(t, k - 1); }
      }
      assert SettlesUnmatched(t, n + 1);
    }
  }

  /** A path is let through exactly when decoding settles within the passes and no form on the way is protected. */
  lemma UnprotectedExactly(path: Text)
    ensures !Protected(path) <==> exists n: nat :: n < MAXIMUM_PASSES && SettlesUnmatched(path, n)
  {
    AliasFalse(path, MAXIMUM_PASSES);
  }

  /** A path any number of rounds away from a protected form is protected. */
  lemma DecodesToProtected(path: Text, k: nat)
    requires Matches(DecodeTimes(path, k))
    ensures Protected(path)
  {
    hide Matches, Decode;
    UnprotectedExactly(path);
    if !Protected(path) {
      var n: nat :| n < MAXIMUM_PASSES && SettlesUnmatched(path, n);
      if k > n {
        DecodeTimesSplit(path, n, k - n);
        FixedForever(DecodeTimes(path, n), k - n);
      }
    }
  }

  lemma {:induction false} DecodeTimesSplit(t: Text, a: nat, b: nat)
    ensures DecodeTimes(t, a + b) == DecodeTimes(DecodeTimes(t, a), b)
    decreases b
  {
    if b > 0 {
      DecodeTimesSplit(t, a, b - 1);
    }
  }

  /** Layer upon layer, the innermost first. */
  ghost predicate Layered(t: Text, layers: seq<seq<Spelling>>, outer: Text)
    decreases |layers|
  {
    if |layers| == 0 then outer == t
    else Encodes(t, layers[0]) && Layered(Encoded(t, layers[0]), layers[1..], outer)
  }

  lemma {:induction false} LayersDecode(t: Text, layers: seq<seq<Spelling>>, outer: Text)
    requires Layered(t, layers, outer)
    ensures DecodeTimes(outer, |layers|) == t
    decreases |layers|
  {
    if |layers| > 0 {
      LayersDecode(Encoded(t, layers[0]), layers[1..], outer);
      DecodeInvertsEncode(t, layers[0]);
    }
  }

  /** A protected path stays protected under any number of layers of percent-encoding. */
  lemma LayersStayProtected(path: Text, layers: seq<seq<Spelling>>, outer: Text)
    requires Matches(path) && Layered(path, layers, outer)
    ensures Protected(outer)
  {
    hide Matches;
    LayersDecode(path, layers, outer);
    DecodesToProtected(outer, |layers|);
  }

  // ----- slashes, dots and case

  predicate NoSlash(t: Text) {
    forall i | 0 <= i < |t| :: !IsSlash(t[i])
  }

  predicate NoSlashes(parts: seq<Text>) {
    forall i | 0 <= i < |parts| :: NoSlash(parts[i])
  }

  /** Where text ends or a slash stands, a slash-free segment ends. */
  lemma SegmentEnds(a: Text, x: Text, b: Text, y: Text)
    requires NoSlash(a) && NoSlash(b) && (x == [] || x[0] == SLASH) && |y| > 0 && y[0] == SLASH
    requires StartsWith(a + x, b + y)
    ensures a == b && StartsWith(x, y)
  {
    var whole, start := a + x, b + y;
    AtEnd(a, x);
    AtEnd(b, y);
    assert whole[|b|] == start[|b|] == SLASH;
    assert forall i | 0 <= i < |b| :: whole[i] == start[i];
    assert |a| == |b|;
    assert whole[..|a|] == a && start[..|b|] == b;
    assert x == whole[|a|..] && y == start[|b|..];
  }

  /** The first slash of a joined text, if any, stands right after the segment. */
  lemma AtEnd(a: Text, x: Text)
    requires NoSlash(a) && (x == [] || x[0] == SLASH)
    ensures forall i | 0 <= i < |a| :: (a + x)[i] != SLASH
    ensures |a| < |a + x| ==> (a + x)[|a|] == SLASH
  {
  }

  lemma SegmentsEqual(a: Text, x: Text, b: Text, y: Text)
    requires NoSlash(a) && NoSlash(b) && (x == [] || x[0] == SLASH) && (y == [] || y[0] == SLASH)
    requires a + x == b + y
    ensures a == b && x == y
  {
    var whole := a + x;
    AtEnd(a, x);
    AtEnd(b, y);
    assert |a| == |b|;
    assert whole[..|a|] == a && whole[..|b|] == b;
    assert x == whole[|a|..] && y == whole[|b|..];
  }

  lemma JoinedStarts(segments: seq<Text>)
    ensures JoinedParts(segments) == [] || JoinedParts(segments)[0] == SLASH
  {
  }

  /** A text test on joined segments is a test on the segments. */
  lemma {:induction false} JoinedPrefix(segments: seq<Text>, prefix: seq<Text>)
    requires NoSlashes(segments) && NoSlashes(prefix)
    ensures (JoinedParts(segments) == JoinedParts(prefix)
             || StartsWith(JoinedParts(segments), JoinedParts(prefix) + [SLASH]))
       <==> prefix <= segments
    decreases |prefix|
  {
    if |prefix| == 0 {
      if |segments| > 0 {
        assert JoinedParts(segments)[..1] == [SLASH];
      }
      assert JoinedParts(prefix) + [SLASH] == [SLASH];
    } else if |segments| > 0 {
      JoinedPrefix(segments[1..], prefix[1..]);
      var a, x := segments[0], JoinedParts(segments[1..]);
      var b, y := prefix[0], JoinedParts(prefix[1..]);
      JoinedStarts(segments[1..]);
      JoinedStarts(prefix[1..]);
      JoinedPrefixStep(a, x, b, y);
      assert JoinedParts(segments) == [SLASH] + (a + x) && JoinedParts(prefix) == [SLASH] + (b + y);
      assert prefix <= segments <==> a == b && prefix[1..] <= segments[1..];
    }
  }

  lemma JoinedPrefixStep(a: Text, x: Text, b: Text, y: Text)
    requires NoSlash(a) && NoSlash(b) && (x == [] || x[0] == SLASH) && (y == [] || y[0] == SLASH)
    ensures ([SLASH] + (a + x) == [SLASH] + (b + y) || StartsWith([SLASH] + (a + x), [SLASH] + (b + y) + [SLASH]))
       <==> a == b && (x == y || StartsWith(x, y + [SLASH]))
  {
    if [SLASH] + (a + x) == [SLASH] + (b + y) {
      assert a + x == ([SLASH] + (a + x))[1..] && b + y == ([SLASH] + (b + y))[1..];
      SegmentsEqual(a, x, b, y);
    }
    var long := [SLASH] + (b + y) + [SLASH];
    if StartsWith([SLASH] + (a + x), long) {
      assert long[1..] == b + (y + [SLASH]);
      assert ([SLASH] + (a + x))[1..|long|] == (a + x)[..|long| - 1];
      SegmentEnds(a, x, b, y + [SLASH]);
    }
    if a == b && StartsWith(x, y + [SLASH]) {
      assert ([SLASH] + (a + x))[..|long|] == [SLASH] + a + x[..|y| + 1];
      assert long == [SLASH] + b + (y + [SLASH]);
    }
  }

  predicate ProtectedSegments(segments: seq<Text>) {
    [API, V1, ADMIN] <= segments || [API, V1, REPORTS] <= segments
  }

  lemma HasPrefixIsSegments(segments: seq<Text>)
    requires NoSlashes(segments)
    ensures HasPrefix(Joined(segments)) <==> ProtectedSegments(segments)
  {
    var admin, reports := [API, V1, ADMIN], [API, V1, REPORTS];
    JoinedPrefix(segments, admin);
    JoinedPrefix(segments, reports);
    assert admin in Prefixes() && reports in Prefixes();
    if |segments| == 0 {
      RootIsNoPrefix(admin);
      RootIsNoPrefix(reports);
    }
  }

  lemma RootIsNoPrefix(prefix: seq<Text>)
    requires |prefix| == 3 && |prefix[0]| > 0
    ensures [SLASH] != JoinedParts(prefix) && !StartsWith([SLASH], JoinedParts(prefix) + [SLASH])
  {
    assert |JoinedParts(prefix)| >= 1 + |prefix[0]|;
  }

  lemma {:induction false} LowerNoSlash(t: Text)
    requires NoSlash(t)
    ensures NoSlash(Lower(t))
    decreases |t|
  {
    if |t| > 0 {
      LowerNoSlash(t[1..]);
    }
  }

  lemma {:induction false} NormalFormsNoSlash(parts: seq<Text>)
    requires NoSlashes(parts)
    ensures NoSlashes(Unresolved(parts)) && NoSlashes(Resolved(parts))
    decreases |parts|
  {
    if |parts| > 0 {
      NormalFormsNoSlash(parts[..|parts| - 1]);
      LowerNoSlash(parts[|parts| - 1]);
    }
  }

  lemma {:induction false} SplitNoSlash(t: Text)
    ensures NoSlashes(Split(t))
    decreases |t|
  {
    if |t| > 0 {
      SplitNoSlash(t[1..]);
      var rest := Split(t[1..]);
      if IsSlash(t[0]) {
        forall i | 0 <= i < |Split(t)| ensures NoSlash(Split(t)[i]) {
          if i > 0 { assert Split(t)[i] == rest[i - 1]; }
        }
      } else {
        forall i | 0 <= i < |Split(t)| ensures NoSlash(Split(t)[i]) {
          if i > 0 { assert Split(t)[i] == rest[i]; }
        }
      }
    }
  }

  /** A path matches exactly when its segments, before or after resolving dots, start with a protected prefix. */
  lemma MatchesBySegments(path: Text)
    ensures Matches(path) <==> ProtectedSegments(Unresolved(Split(path))) || ProtectedSegments(Resolved(Split(path)))
  {
    hide HasPrefix, ProtectedSegments;
    SplitNoSlash(path);
    NormalFormsNoSlash(Split(path));
    HasPrefixIsSegments(Unresolved(Split(path)));
    HasPrefixIsSegments(Resolved(Split(path)));
  }

  /** A slash of either kind and what stands after it. */
  datatype Piece = Piece(slash: CodeUnit, part: Text)

  predicate PiecesOk(pieces: seq<Piece>) {
    forall i | 0 <= i < |pieces| :: IsSlash(pieces[i].slash) && NoSlash(pieces[i].part)
  }

  function Spelled(pieces: seq<Piece>): Text {
    if |pieces| == 0 then [] else [pieces[0].slash] + pieces[0].part + Spelled(pieces[1..])
  }

  function PartsOf(pieces: seq<Piece>): seq<Text> {
    if |pieces| == 0 then [] else [pieces[0].part] + PartsOf(pieces[1..])
  }

  lemma {:induction false} SplitAfter(part: Text, rest: Text)
    requires NoSlash(part) && (rest == [] || IsSlash(rest[0]))
    ensures Split(part + rest) == [part] + Split(rest)[1..]
    decreases |part|
  {
    if |part| == 0 {
      assert part + rest == rest;
    } else {
      SplitAfter(part[1..], rest);
      assert (part + rest)[1..] == part[1..] + rest;
      assert [part[0]] + part[1..] == part;
      assert ([part[1..]] + Split(rest)[1..])[1..] == Split(rest)[1..];
    }
  }

  lemma SplitPiece(piece: Piece, rest: Text)
    requires IsSlash(piece.slash) && NoSlash(piece.part) && (rest == [] || IsSlash(rest[0]))
    ensures Split([piece.slash] + piece.part + rest) == [[]] + ([piece.part] + Split(rest)[1..])
  {
    hide Split, NoSlash, IsSlash;
    SplitAfter(piece.part, rest);
    SplitSlash(piece.slash, piece.part + rest);
    assert [piece.slash] + piece.part + rest == [piece.slash] + (piece.part + rest);
  }

  lemma SplitSlash(slash: CodeUnit, t: Text)
    requires IsSlash(slash)
    ensures Split([slash] + t) == [[]] + Split(t)
  {
    assert ([slash] + t)[1..] == t;
  }

  lemma SpelledStart(pieces: seq<Piece>)
    requires PiecesOk(pieces)
    ensures Spelled(pieces) == [] || IsSlash(Spelled(pieces)[0])
  {
  }

  /** Splitting inverts joining, whatever slashes were used. */
  lemma {:induction false} SplitSpelled(pieces: seq<Piece>)
    requires PiecesOk(pieces)
    ensures Split(Spelled(pieces)) == [[]] + PartsOf(pieces)
    decreases |pieces|
  {
    if |pieces| == 0 {
    } else {
      var rest := Spelled(pieces[1..]);
      SplitSpelled(pieces[1..]);
      SpelledStart(pieces[1..]);
      SplitPiece(pieces[0], rest);
      assert Split(rest)[1..] == PartsOf(pieces[1..]);
    }
  }

  /** The segments that matter: not empty, not a single dot, in lower case. */
  function Meaning(parts: seq<Text>): seq<Text> {
    if |parts| == 0 then []
    else (if Skipped(parts[0]) then [] else [Lower(parts[0])]) + Meaning(parts[1..])
  }

  lemma {:induction false} UnresolvedIsMeaning(parts: seq<Text>)
    ensures Unresolved(parts) == Meaning(parts)
    decreases |parts|
  {
    if |parts| > 0 {
      UnresolvedIsMeaning(parts[..|parts| - 1]);
      MeaningAppend(parts[..|parts| - 1], parts[|parts| - 1]);
      assert parts == parts[..|parts| - 1] + [parts[|parts| - 1]];
    }
  }

  lemma {:induction false} MeaningAppend(parts: seq<Text>, last: Text)
    ensures Meaning(parts + [last]) == Meaning(parts) + if Skipped(last) then [] else [Lower(last)]
    decreases |parts|
  {
    hide Skipped, Lower;
    if |parts| == 0 {
      assert parts + [last] == [last];
    } else {
      MeaningAppend(parts[1..], last);
      assert (parts + [last])[0] == parts[0];
      assert (parts + [last])[1..] == parts[1..] + [last];
    }
  }

  /** An empty segment in front changes nothing. */
  lemma {:induction false} ResolvedAfterRoot(parts: seq<Text>)
    ensures Resolved([[]] + parts) == Resolved(parts)
    decreases |parts|
  {
    if |parts| == 0 {
      assert [[]] + parts == [[]];
    } else {
      var n := |parts| - 1;
      ResolvedAfterRoot(parts[..n]);
      assert ([[]] + parts)[..n + 1] == [[]] + parts[..n];
    }
  }

  /** A spelled path matches exactly by its meaningful segments, with dots left as they are or resolved. */
  lemma SpelledMatches(pieces: seq<Piece>)
    requires PiecesOk(pieces)
    ensures Matches(Spelled(pieces)) <==>
              ProtectedSegments(Meaning(PartsOf(pieces))) || ProtectedSegments(Resolved(PartsOf(pieces)))
  {
    hide Matches, ProtectedSegments, Unresolved, Resolved;
    SplitSpelled(pieces);
    UnresolvedIsMeaning([[]] + PartsOf(pieces));
    assert ([[]] + PartsOf(pieces))[1..] == PartsOf(pieces);
    assert [] + Meaning(PartsOf(pieces)) == Meaning(PartsOf(pieces));
    ResolvedAfterRoot(PartsOf(pieces));
    MatchesBySegments(Spelled(pieces));
  }

  /**
    * Extra slashes of either kind, dots and changes of case hide nothing: any
    * spelling whose meaningful segments start with a protected prefix, or do so
    * once double dots are resolved, is protected, under any number of layers of
    * percent-encoding.
    */
  lemma SpellingsStayProtected(pieces: seq<Piece>, layers: seq<seq<Spelling>>, outer: Text)
    requires PiecesOk(pieces)
    requires ProtectedSegments(Meaning(PartsOf(pieces))) || ProtectedSegments(Resolved(PartsOf(pieces)))
    requires Layered(Spelled(pieces), layers, outer)
    ensures Protected(outer)
  {
    hide Matches, ProtectedSegments, Protected, Layered, Resolved;
    SpelledMatches(pieces);
    LayersStayProtected(Spelled(pieces), layers, outer);
  }

  /** Going up takes back exactly the segment before. */
  lemma {:induction false} UpTakesBack(parts: seq<Text>, segment: Text, tail: seq<Text>)
    requires !Skipped(segment) && !IsUp(segment)
    ensures Resolved(parts + [segment, [DOT, DOT]] + tail) == Resolved(parts + tail)
    decreases |tail|
  {
    if |tail| == 0 {
      var with := parts + [segment, [DOT, DOT]];
      assert with + tail == with && parts + tail == parts;
      assert with[..|with| - 1] == parts + [segment];
      assert (parts + [segment])[..|parts|] == parts;
    } else {
      var n := |tail| - 1;
      UpTakesBack(parts, segment, tail[..n]);
      assert (parts + [segment, [DOT, DOT]] + tail)[..|parts| + 2 + n] == parts + [segment, [DOT, DOT]] + tail[..n];
      assert (parts + tail)[..|parts| + n] == parts + tail[..n];
    }
  }
}
