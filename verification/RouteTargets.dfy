/** The raw path of a request target, with or without scheme and authority. */
module RouteTargets {
  import opened CodeUnits
  import opened Common
  import opened Routes

  const QUESTION_MARK: CodeUnit := 0x3F
  const HASH: CodeUnit := 0x23
  const COLON: CodeUnit := 0x3A
  const LONG_S: CodeUnit := 0x17F

  /** Equal under the case-insensitive matching of the scheme pattern. */
  predicate SameLetter(u: CodeUnit, lower: CodeUnit) {
    LowerUnit(u) == lower || (lower == 0x73 && u == LONG_S)
  }

  predicate MatchesAt(t: Text, i: nat, letters: Text) {
    i + |letters| <= |t| && forall k | 0 <= k < |letters| :: SameLetter(t[i + k], letters[k])
  }

  const HTTP: Text := [0x68, 0x74, 0x74, 0x70]

  /** The length of a leading `http:` or `https:`. */
  function SchemeLength(t: Text): (n: Option<nat>)
    ensures n.Some? ==> n.value <= |t|
  {
    if !MatchesAt(t, 0, HTTP) then None
    else if |t| > 5 && SameLetter(t[4], 0x73) && t[5] == COLON then Some(6)
    else if |t| > 4 && t[4] == COLON then Some(5)
    else None
  }

  function SkipSlashes(t: Text, i: nat): (j: nat)
    requires i <= |t|
    ensures i <= j <= |t|
    decreases |t| - i
  {
    if i < |t| && IsSlash(t[i]) then SkipSlashes(t, i + 1) else i
  }

  predicate EndsPath(u: CodeUnit) {
    u == QUESTION_MARK || u == HASH
  }

  function AuthorityEnd(t: Text, i: nat): (j: nat)
    requires i <= |t|
    ensures i <= j <= |t|
    decreases |t| - i
  {
    if i < |t| && !IsSlash(t[i]) && !EndsPath(t[i]) then AuthorityEnd(t, i + 1) else i
  }

  function PathEnd(t: Text, i: nat): (j: nat)
    requires i <= |t|
    ensures i <= j <= |t|
    decreases |t| - i
  {
    if i < |t| && !EndsPath(t[i]) then PathEnd(t, i + 1) else i
  }

  /** The path of a request target; None for a target that is neither absolute nor a path. */
  function PathnameOf(t: Text): Option<Text> {
    var scheme := SchemeLength(t);
    if scheme.Some? then
      var start := AuthorityEnd(t, SkipSlashes(t, scheme.value));
      if start == |t| || EndsPath(t[start]) then Some([SLASH])
      else Some(t[start..PathEnd(t, start)])
    else if |t| == 0 || t[0] != SLASH then None
    else Some(t[..PathEnd(t, 0)])
  }

  /** The same, index by index. */
  method ReadPathname(t: Text) returns (path: Option<Text>)
    ensures path == PathnameOf(t)
  {
    var start := 0;
    var scheme := SchemeLength(t);
    if scheme.Some? {
      start := scheme.value;
      while start < |t| && IsSlash(t[start])
        invariant scheme.value <= start <= |t|
        invariant SkipSlashes(t, start) == SkipSlashes(t, scheme.value)
      {
        start := start + 1;
      }
      ghost var from := start;
      while start < |t| && !IsSlash(t[start]) && !EndsPath(t[start])
        invariant from <= start <= |t|
        invariant AuthorityEnd(t, start) == AuthorityEnd(t, from)
      {
        start := start + 1;
      }
      if start == |t| || EndsPath(t[start]) { return Some([SLASH]); }
    } else if |t| == 0 || t[0] != SLASH {
      return None;
    }
    var end := start;
    while end < |t| && !EndsPath(t[end])
      invariant start <= end <= |t|
      invariant PathEnd(t, end) == PathEnd(t, start)
    {
      end := end + 1;
    }
    path := Some(t[start..end]);
  }

  // ----- what the path is

  predicate NoneEnds(t: Text) {
    forall i | 0 <= i < |t| :: !EndsPath(t[i])
  }

  predicate Tail(t: Text) {
    t == [] || EndsPath(t[0])
  }

  lemma {:induction false} PathEndAt(t: Text, i: nat, j: nat)
    requires i <= j <= |t| && (forall k | i <= k < j :: !EndsPath(t[k])) && (j < |t| ==> EndsPath(t[j]))
    ensures PathEnd(t, i) == j
    decreases j - i
  {
    if i < j {
      PathEndAt(t, i + 1, j);
    }
  }

  lemma {:induction false} SlashesEndAt(t: Text, i: nat, j: nat)
    requires i <= j <= |t| && (forall k | i <= k < j :: IsSlash(t[k])) && (j < |t| ==> !IsSlash(t[j]))
    ensures SkipSlashes(t, i) == j
    decreases j - i
  {
    if i < j {
      SlashesEndAt(t, i + 1, j);
    }
  }

  lemma {:induction false} AuthorityEndAt(t: Text, i: nat, j: nat)
    requires i <= j <= |t| && (forall k | i <= k < j :: !IsSlash(t[k]) && !EndsPath(t[k]))
    requires j < |t| ==> IsSlash(t[j]) || EndsPath(t[j])
    ensures AuthorityEnd(t, i) == j
    decreases j - i
  {
    if i < j {
      AuthorityEndAt(t, i + 1, j);
    }
  }

  /** A path target is its own path, whatever query or fragment follows. */
  lemma PathTarget(path: Text, tail: Text)
    requires |path| > 0 && path[0] == SLASH && NoneEnds(path) && Tail(tail)
    ensures PathnameOf(path + tail) == Some(path)
  {
    var t := path + tail;
    PathEndAt(t, 0, |path|);
    assert t[..|path|] == path;
    assert !MatchesAt(t, 0, HTTP) by {
      assert t[0] == SLASH && !SameLetter(t[0], HTTP[0]);
    }
  }

  /**
    * Scheme in any case, any number of slashes of either kind and a non-empty
    * authority stand before the same path.
    */
  lemma AbsoluteTarget(scheme: Text, slashes: Text, authority: Text, path: Text, tail: Text)
    requires SchemeLength(scheme) == Some(|scheme|)
    requires forall k | 0 <= k < |slashes| :: IsSlash(slashes[k])
    requires |authority| > 0 && forall k | 0 <= k < |authority| :: !IsSlash(authority[k]) && !EndsPath(authority[k])
    requires |path| > 0 && IsSlash(path[0]) && NoneEnds(path) && Tail(tail)
    ensures PathnameOf(scheme + slashes + authority + path + tail) == Some(path)
  {
    var t := scheme + slashes + authority + path + tail;
    var a := |scheme| + |slashes|;
    var p := a + |authority|;
    assert t[..|scheme|] == scheme;
    assert t[|scheme|..a] == slashes && t[a..p] == authority && t[p..p + |path|] == path && t[p + |path|..] == tail;
    SchemeStays(scheme, t);
    forall k | |scheme| <= k < a ensures IsSlash(t[k]) {
      assert t[k] == t[|scheme|..a][k - |scheme|];
    }
    forall k | a <= k < p ensures !IsSlash(t[k]) && !EndsPath(t[k]) {
      assert t[k] == t[a..p][k - a];
    }
    forall k | p <= k < p + |path| ensures !EndsPath(t[k]) {
      assert t[k] == t[p..p + |path|][k - p];
    }
    assert t[p] == path[0];
    SlashesEndAt(t, |scheme|, a);
    AuthorityEndAt(t, a, p);
    assert p + |path| < |t| ==> t[p + |path|] == t[p + |path|..][0];
    PathEndAt(t, p, p + |path|);
  }

  lemma SchemeStays(scheme: Text, t: Text)
    requires SchemeLength(scheme) == Some(|scheme|) && |scheme| <= |t| && t[..|scheme|] == scheme
    ensures SchemeLength(t) == Some(|scheme|)
  {
    assert forall k | 0 <= k < |scheme| :: t[k] == scheme[k];
    assert MatchesAt(t, 0, HTTP);
  }

  /** The request is kept from the routes behind the prefixes: its path is protected. */
  predicate Excluded(target: Text) {
    PathnameOf(target).Some? && Protected(PathnameOf(target).value)
  }

  /**
    * A path of which some form under any layers of percent-encoding matches is
    * excluded, whether it comes alone or behind a scheme and an authority, and
    * whatever query or fragment follows.
    */
  lemma ProtectedTargets(inner: Text, layers: seq<seq<Spelling>>, path: Text, tail: Text,
                         scheme: Text, slashes: Text, authority: Text)
    requires Matches(inner) && Layered(inner, layers, path)
    requires SchemeLength(scheme) == Some(|scheme|)
    requires forall k | 0 <= k < |slashes| :: IsSlash(slashes[k])
    requires |authority| > 0 && forall k | 0 <= k < |authority| :: !IsSlash(authority[k]) && !EndsPath(authority[k])
    requires |path| > 0 && path[0] == SLASH && NoneEnds(path) && Tail(tail)
    ensures Excluded(path + tail) && Excluded(scheme + slashes + authority + path + tail)
  {
    hide Matches, Layered, Protected, PathnameOf, SchemeLength;
    LayersStayProtected(inner, layers, path);
    PathTarget(path, tail);
    AbsoluteTarget(scheme, slashes, authority, path, tail);
  }
}
