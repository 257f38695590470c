/**
  * The scanner as it runs: one mutable index over the source, a set of names for
  * each object. A method that returns false has thrown; the index then means
  * nothing.
  */
module JsonScanner {
  import opened CodeUnits
  import opened Common
  import opened JsonGrammar
  import opened JsonRecogniser
  import opened JsonComplete

  class JsonMemberScanner {
    const source: Text
    var index: nat

    constructor (source: Text)
      ensures this.source == source && index == 0
    {
      this.source := source;
      index := 0;
    }

    /** Returns normally exactly on a JSON text of depth at most 100 with distinct member names. */
    method Scan() returns (ok: bool)
      requires index == 0
      modifies this`index
      ensures ok <==> IsJson(source)
    {
      hide IsJson;
      AcceptsExactlyJson(source);
      SkipWhitespace();
      ok := ScanOneValue(0);
      if !ok { return; }
      SkipWhitespace();
      ok := index == |source|;
    }

    method SkipWhitespace()
      requires index <= |source|
      modifies this`index
      ensures index == SkipSpace(source, old(index))
    {
      while index < |source| && IsSpace(source[index])
        invariant index <= |source|
        invariant SkipSpace(source, index) == SkipSpace(source, old(index))
      {
        index := index + 1;
      }
    }

    method ScanOneValue(depth: nat) returns (ok: bool)
      requires index <= |source|
      modifies this`index
      ensures ok <==> ScanValue(source, old(index), depth).Some?
      ensures ok ==> ScanValue(source, old(index), depth) == Some(index)
      decreases |source| - index, 2
    {
      if depth > MAXIMUM_DEPTH { return false; }
      if index == |source| { return false; }
      var character := source[index];
      if character == OPEN_BRACE {
        ok := ScanOneObject(depth + 1);
      } else if character == OPEN_BRACKET {
        ok := ScanOneArray(depth + 1);
      } else if character == QUOTE {
        ok := ScanOneString();
      } else if character == LOWER_T || character == LOWER_F || character == LOWER_N {
        ok := ScanOneKeyword(if character == LOWER_T then TRUE_TEXT
                             else if character == LOWER_F then FALSE_TEXT
                             else NULL_TEXT);
      } else if character == MINUS || IsDigit(character) {
        ok := ScanOneNumber();
      } else {
        ok := false;
      }
    }

    method ScanOneKeyword(keyword: Text) returns (ok: bool)
      requires index <= |source|
      modifies this`index
      ensures ok <==> ScanKeyword(source, old(index), keyword).Some?
      ensures ok ==> ScanKeyword(source, old(index), keyword) == Some(index)
    {
      if index + |keyword| > |source| || source[index..index + |keyword|] != keyword { return false; }
      index := index + |keyword|;
      ok := true;
    }

    /** The regular expression takes the longest number at the index. */
    method ScanOneNumber() returns (ok: bool)
      requires index <= |source|
      modifies this`index
      ensures ok <==> ScanNumber(source, old(index)).Some?
      ensures ok ==> ScanNumber(source, old(index)) == Some(index)
    {
      var token := ScanNumber(source, index);
      if token.None? { return false; }
      index := token.value;
      ok := true;
    }

    /** Moves past the closing quote. */
    method ScanOneString() returns (ok: bool)
      requires index < |source| && source[index] == QUOTE
      modifies this`index
      ensures ok <==> ScanString(source, old(index)).Some?
      ensures ok ==> ScanString(source, old(index)) == Some(index)
    {
      ghost var start := index + 1;
      index := index + 1;
      while index < |source|
        invariant start <= index
        invariant index <= |source| ==> ScanChars(source, index) == ScanChars(source, start)
        invariant index > |source| ==> ScanChars(source, start).None?
        decreases |source| - index
      {
        var character := source[index];
        if character == QUOTE {
          index := index + 1;
          return true;
        }
        if character == BACKSLASH {
          if index + 1 < |source| && source[index + 1] == LOWER_U {
            if !CodedAt(source, index) { return false; }
            index := index + 6;
          } else {
            if index + 1 < |source| && !IsEscapeLetter(source[index + 1]) { return false; }
            index := index + 2;
          }
        } else {
          if character < 0x20 { return false; }
          index := index + 1;
        }
      }
      ok := false;
    }

    method ScanOneArray(depth: nat) returns (ok: bool)
      requires index < |source|
      modifies this`index
      ensures ok <==> ScanArray(source, old(index), depth).Some?
      ensures ok ==> ScanArray(source, old(index), depth) == Some(index)
      decreases |source| - index, 1
    {
      hide SkipSpace, ScanValue;
      index := index + 1;
      SkipWhitespace();
      if index < |source| && source[index] == CLOSE_BRACKET {
        index := index + 1;
        return true;
      }
      ghost var start := index;
      while true
        invariant old(index) < start <= index <= |source|
        invariant ScanElements(source, index, depth) == ScanElements(source, start, depth)
        decreases |source| - index
      {
        ghost var turn := index;
        ok := ScanOneValue(depth);
        if !ok { return; }
        SkipWhitespace();
        if index == |source| { return false; }
        var character := source[index];
        index := index + 1;
        if character == CLOSE_BRACKET { return true; }
        if character != COMMA { return false; }
        SkipWhitespace();
        assert turn < index;
      }
    }

    /** What follows a member: the end of the object, or a comma and the next turn. */
    static function AfterMember(s: Text, k: nat, depth: nat, keys: set<Text>): Option<nat>
      requires k <= |s|
    {
      if k < |s| && s[k] == CLOSE_BRACE then Some(k + 1)
      else if k < |s| && s[k] == COMMA then ScanMembers(s, SkipSpace(s, k + 1), depth, keys)
      else None
    }

    /** One member, up to what follows it; its name is added to the names seen. */
    method ScanOneMember(depth: nat, keys: set<Text>) returns (ok: bool, seen: set<Text>)
      requires index <= |source|
      modifies this`index
      ensures !ok ==> ScanMembers(source, old(index), depth, keys).None?
      ensures ok ==> old(index) < index <= |source|
      ensures ok ==> ScanMembers(source, old(index), depth, keys) == AfterMember(source, index, depth, seen)
      decreases |source| - index, 3
    {
      hide SkipSpace, ScanValue, ScanChars, KeyOf;
      seen := keys;
      var from := index;
      if index == |source| || source[index] != QUOTE { return false, seen; }
      ok := ScanOneString();
      if !ok { return; }
      var key := KeyOf(source, from, index);
      if key in keys { return false, seen; }
      seen := keys + {key};
      SkipWhitespace();
      if index == |source| || source[index] != COLON { return false, seen; }
      index := index + 1;
      SkipWhitespace();
      ok := ScanOneValue(depth);
      if !ok { return; }
      SkipWhitespace();
    }

    method ScanOneObject(depth: nat) returns (ok: bool)
      requires index < |source|
      modifies this`index
      ensures ok <==> ScanObject(source, old(index), depth).Some?
      ensures ok ==> ScanObject(source, old(index), depth) == Some(index)
      decreases |source| - index, 1
    {
      hide SkipSpace, ScanMembers;
      index := index + 1;
      SkipWhitespace();
      var keys: set<Text> := {};
      if index < |source| && source[index] == CLOSE_BRACE {
        index := index + 1;
        return true;
      }
      ghost var start := index;
      while true
        invariant old(index) < start <= index <= |source|
        invariant ScanMembers(source, index, depth, keys) == ScanMembers(source, start, depth, {})
        decreases |source| - index
      {
        ok, keys := ScanOneMember(depth, keys);
        if !ok { return; }
        if index == |source| { return false; }
        var character := source[index];
        index := index + 1;
        if character == CLOSE_BRACE { return true; }
        if character != COMMA { return false; }
        SkipWhitespace();
      }
    }
  }
}
