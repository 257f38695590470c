/** The protected prefixes in plain letters, and that the case of a letter never matters. */
module RouteNames {
  import opened CodeUnits
  import opened Routes

  predicate IsAscii(s: string) {
    forall i | 0 <= i < |s| :: s[i] as int < 0x80
  }

  function Units(s: string): Text
    requires IsAscii(s)
  {
    seq(|s|, i requires 0 <= i < |s| => (s[i] as int) as CodeUnit)
  }

  /** The segment names of the two prefixes. */
  lemma PrefixNames()
    ensures API == Units("api") && V1 == Units("v1") && ADMIN == Units("admin")
  {
  }

  lemma ReportsName()
    ensures REPORTS == Units("question-reports")
  {
    var name := "question-reports";
    assert |REPORTS| == |name|;
    assert forall i | 0 <= i < 8 :: REPORTS[i] as int == name[i] as int;
    assert forall i | 8 <= i < 16 :: REPORTS[i] as int == name[i] as int;
  }

  // ----- letter case

  /** The same letter, or a letter and its other case. */
  ghost predicate SameLetter(a: CodeUnit, b: CodeUnit) {
    || a == b
    || (0x41 <= a <= 0x5A && b == a + 0x20)
    || (0x41 <= b <= 0x5A && a == b + 0x20)
  }

  ghost predicate SameUpToCase(a: Text, b: Text) {
    |a| == |b| && forall i | 0 <= i < |a| :: SameLetter(a[i], b[i])
  }

  lemma {:induction false} LowerAt(t: Text, i: nat)
    requires i < |t|
    ensures Lower(t)[i] == LowerUnit(t[i])
    decreases |t|
  {
    if i > 0 {
      LowerAt(t[1..], i - 1);
    }
  }

  /** Two segments have one normal form exactly when they differ in case alone. */
  lemma LowerMeans(a: Text, b: Text)
    ensures Lower(a) == Lower(b) <==> SameUpToCase(a, b)
  {
    if |a| == |b| {
      forall i | 0 <= i < |a| ensures Lower(a)[i] == Lower(b)[i] <==> SameLetter(a[i], b[i]) {
        LowerAt(a, i);
        LowerAt(b, i);
      }
    }
  }

  /** The segments that are neither empty nor a single dot, as they are written. */
  function Kept(parts: seq<Text>): seq<Text> {
    if |parts| == 0 then []
    else (if parts[0] == [] || parts[0] == [DOT] then [] else [parts[0]]) + Kept(parts[1..])
  }

  lemma {:induction false} MeaningOfKept(parts: seq<Text>)
    ensures |Meaning(parts)| == |Kept(parts)|
    ensures forall i | 0 <= i < |Kept(parts)| :: Meaning(parts)[i] == Lower(Kept(parts)[i])
    decreases |parts|
  {
    hide Lower;
    if |parts| > 0 {
      MeaningOfKept(parts[1..]);
    }
  }

  /** The first three segments are the given ones, in whatever case. */
  ghost predicate Begins(segments: seq<Text>, a: string, b: string, c: string)
    requires IsAscii(a) && IsAscii(b) && IsAscii(c)
  {
    && |segments| >= 3
    && SameUpToCase(segments[0], Units(a)) && SameUpToCase(segments[1], Units(b)) && SameUpToCase(segments[2], Units(c))
  }

  lemma {:induction false} Lowered(t: Text)
    requires forall i | 0 <= i < |t| :: !(0x41 <= t[i] <= 0x5A)
    ensures Lower(t) == t
    decreases |t|
  {
    if |t| > 0 {
      Lowered(t[1..]);
    }
  }

  lemma ThreeSegments(segments: seq<Text>, kept: seq<Text>, a: Text, b: Text, c: Text)
    requires |segments| == |kept| && forall i | 0 <= i < |kept| :: segments[i] == Lower(kept[i])
    requires Lower(a) == a && Lower(b) == b && Lower(c) == c
    ensures [a, b, c] <= segments <==>
              |kept| >= 3 && SameUpToCase(kept[0], a) && SameUpToCase(kept[1], b) && SameUpToCase(kept[2], c)
  {
    hide SameUpToCase, Lower;
    if |kept| >= 3 {
      LowerMeans(kept[0], a);
      LowerMeans(kept[1], b);
      LowerMeans(kept[2], c);
      assert [a, b, c] <= segments <==> segments[0] == a && segments[1] == b && segments[2] == c;
    }
  }

  lemma BeginsWith(parts: seq<Text>, a: Text, b: Text, c: Text)
    requires Lower(a) == a && Lower(b) == b && Lower(c) == c
    ensures [a, b, c] <= Meaning(parts) <==>
              |Kept(parts)| >= 3 && SameUpToCase(Kept(parts)[0], a) && SameUpToCase(Kept(parts)[1], b)
              && SameUpToCase(Kept(parts)[2], c)
  {
    hide Lower, SameUpToCase, Meaning, Kept;
    MeaningOfKept(parts);
    ThreeSegments(Meaning(parts), Kept(parts), a, b, c);
  }

  lemma NamesAreLower()
    ensures Lower(API) == API && Lower(V1) == V1 && Lower(ADMIN) == ADMIN && Lower(REPORTS) == REPORTS
  {
    hide Lower;
    Lowered(API);
    Lowered(V1);
    Lowered(ADMIN);
    Lowered(REPORTS);
  }

  /**
    * Segments are protected exactly when, without empty and dot segments, they
    * begin with api, v1 and admin or question-reports, in whatever case.
    */
  lemma ProtectedByName(parts: seq<Text>)
    ensures ProtectedSegments(Meaning(parts)) <==>
              Begins(Kept(parts), "api", "v1", "admin") || Begins(Kept(parts), "api", "v1", "question-reports")
  {
    hide Lower, SameUpToCase, Meaning, Kept, Units;
    PrefixNames();
    ReportsName();
    NamesAreLower();
    BeginsWith(parts, API, V1, ADMIN);
    BeginsWith(parts, API, V1, REPORTS);
  }
}
