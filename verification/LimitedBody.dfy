/**
  * Reading a bounded JSON body: the bytes come in chunks, the declared length has
  * to be right, and the text has to be a JSON object.
  */
module LimitedBody {
  import opened CodeUnits
  import opened Common
  import opened JsonGrammar
  import opened JsonRecogniser
  import opened JsonScanner
  import opened Utf8

  datatype Declared = Absent | Malformed | Length(bytes: nat)

  datatype BodyError = InvalidRequest | TooLarge | InvalidJson

  type Chunk = seq<Byte>

  function Joined(chunks: seq<Chunk>): seq<Byte> {
    if |chunks| == 0 then [] else Joined(chunks[..|chunks| - 1]) + chunks[|chunks| - 1]
  }

  /** What is read depends on the bytes only, not on how they are cut into chunks. */
  function BodyBytes(declared: Declared, bytes: Option<seq<Byte>>, maximum: nat): Result<seq<Byte>, BodyError> {
    if declared.Malformed? then Err(InvalidRequest)
    else if declared.Length? && declared.bytes > maximum then Err(TooLarge)
    else if bytes.None? then Err(InvalidJson)
    else if |bytes.value| > maximum then Err(TooLarge)
    else if declared.Length? && |bytes.value| != declared.bytes then Err(InvalidRequest)
    else Ok(bytes.value)
  }

  /** What each answer says about the body. */
  lemma BodyMeans(declared: Declared, bytes: Option<seq<Byte>>, maximum: nat)
    ensures var r := BodyBytes(declared, bytes, maximum);
            var known := bytes.Some?;
            && (r.Ok? <==> known && |bytes.value| <= maximum
                           && (declared == Absent || declared == Length(|bytes.value|)))
            && (r.Ok? ==> r.value == bytes.value)
            && (r == Err(TooLarge) <==>
                  || (declared.Length? && declared.bytes > maximum)
                  || (!declared.Malformed? && known && |bytes.value| > maximum))
            && (r == Err(InvalidRequest) <==>
                  || declared.Malformed?
                  || (declared.Length? && declared.bytes <= maximum && known && |bytes.value| <= maximum
                      && |bytes.value| != declared.bytes))
            && (r == Err(InvalidJson) <==>
                  !known && !declared.Malformed? && !(declared.Length? && declared.bytes > maximum))
  {
  }

  function Body(chunks: Option<seq<Chunk>>): Option<seq<Byte>> {
    if chunks.None? then None else Some(Joined(chunks.value))
  }

  lemma {:induction false} JoinedGrows(chunks: seq<Chunk>, i: nat, j: nat)
    requires i <= j <= |chunks|
    ensures |Joined(chunks[..i])| <= |Joined(chunks[..j])|
    decreases j
  {
    if i < j {
      assert chunks[..j][..j - 1] == chunks[..j - 1];
      JoinedGrows(chunks, i, j - 1);
    }
  }

  /** Stops at the first chunk that exceeds the maximum. */
  method ReadBody(declared: Declared, chunks: Option<seq<Chunk>>, maximum: nat)
    returns (r: Result<seq<Byte>, BodyError>)
    ensures r == BodyBytes(declared, Body(chunks), maximum)
  {
    if declared.Malformed? { return Err(InvalidRequest); }
    if declared.Length? && declared.bytes > maximum { return Err(TooLarge); }
    if chunks.None? { return Err(InvalidJson); }
    var read := chunks.value;
    var kept: seq<Chunk> := [];
    var total := 0;
    assert read[..|read|] == read;
    for i := 0 to |read|
      invariant kept == read[..i] && total == |Joined(kept)| <= maximum
    {
      total := total + |read[i]|;
      assert read[..i + 1][..i] == read[..i];
      if total > maximum {
        JoinedGrows(read, i + 1, |read|);
        return Err(TooLarge);
      }
      kept := kept + [read[i]];
    }
    var body: seq<Byte> := [];
    for i := 0 to |kept|
      invariant body == Joined(kept[..i])
    {
      assert kept[..i + 1][..i] == kept[..i];
      body := body + kept[i];
    }
    assert kept[..|kept|] == kept;
    if declared.Length? && |body| != declared.bytes { return Err(InvalidRequest); }
    r := Ok(body);
  }

  // ----- objects

  /** A JSON text whose value is an object. */
  ghost predicate IsJsonObject(t: Text) {
    exists before: Text, v: Value, after: Text ::
      AllSpace(before) && ValueOk(v, 0) && v.Obj? && AllSpace(after) && t == before + ValueText(v) + after
  }

  predicate StartsObject(t: Text) {
    var i := SkipSpace(t, 0);
    i < |t| && t[i] == OPEN_BRACE
  }

  lemma {:induction false} SkipSpaceOver(before: Text, rest: Text, i: nat)
    requires AllSpace(before) && i <= |before| && |rest| > 0 && !IsSpace(rest[0])
    ensures SkipSpace(before + rest, i) == |before|
    decreases |before| - i
  {
    if i < |before| {
      SkipSpaceOver(before, rest, i + 1);
    }
  }

  lemma ObjectStartsWithBrace(v: Value)
    requires ValueOk(v, 0)
    ensures |ValueText(v)| > 0 && !IsSpace(ValueText(v)[0])
    ensures ValueText(v)[0] == OPEN_BRACE <==> v.Obj?
  {
    if v.Numeric? && v.number.negative {
      assert NumberText(v.number)[0] == MINUS;
    } else if v.Numeric? {
      assert NumberText(v.number)[0] == v.number.whole[0];
    }
  }

  /** The value of a JSON text is an object exactly when its first character other than space is a brace. */
  lemma ObjectByFirst(t: Text)
    requires IsJson(t)
    ensures IsJsonObject(t) <==> StartsObject(t)
  {
    hide ValueOk, ValueText, AllSpace, SkipSpace, IsSpace;
    if IsJsonObject(t) {
      var before: Text, v: Value, after: Text :|
        AllSpace(before) && ValueOk(v, 0) && v.Obj? && AllSpace(after) && t == before + ValueText(v) + after;
      FirstOf(t, before, v, after);
    }
    var before: Text, v: Value, after: Text :|
      AllSpace(before) && ValueOk(v, 0) && AllSpace(after) && t == before + ValueText(v) + after;
    FirstOf(t, before, v, after);
  }

  lemma FirstOf(t: Text, before: Text, v: Value, after: Text)
    requires AllSpace(before) && ValueOk(v, 0) && t == before + ValueText(v) + after
    ensures StartsObject(t) <==> v.Obj?
  {
    ObjectStartsWithBrace(v);
    hide ValueOk, ValueText, AllSpace, IsSpace;
    var rest := ValueText(v) + after;
    assert t == before + rest && rest[0] == ValueText(v)[0];
    SkipSpaceOver(before, rest, 0);
  }

  /**
    * Accepts a body exactly when its bytes pass the limits and decode to a JSON
    * object of depth at most 100 with distinct member names.
    */
  method ReadJsonBody(declared: Declared, chunks: Option<seq<Chunk>>, maximum: nat, decode: seq<Byte> -> Option<Text>)
    returns (r: Result<Text, BodyError>)
    ensures BodyBytes(declared, Body(chunks), maximum).Err? ==>
              r == Err(BodyBytes(declared, Body(chunks), maximum).error)
    ensures BodyBytes(declared, Body(chunks), maximum).Ok? ==>
              var text := decode(BodyBytes(declared, Body(chunks), maximum).value);
              if text.Some? && IsJsonObject(text.value) then r == Ok(text.value) else r == Err(InvalidJson)
  {
    hide IsJson;
    var bytes := ReadBody(declared, chunks, maximum);
    if bytes.Err? { return Err(bytes.error); }
    var source := decode(bytes.value);
    if source.None? { return Err(InvalidJson); }
    var scanner := new JsonMemberScanner(source.value);
    var ok := scanner.Scan();
    ObjectsAreJson(source.value);
    if !ok { return Err(InvalidJson); }
    ObjectByFirst(source.value);
    if !StartsObject(source.value) { return Err(InvalidJson); }
    r := Ok(source.value);
  }

  lemma ObjectsAreJson(t: Text)
    ensures IsJsonObject(t) ==> IsJson(t)
  {
  }
}
