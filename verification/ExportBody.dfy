/**
  * The body of an export: a buffer of eight mebibytes that fragments of text are
  * copied into, and that is read out once.
  */
module ExportBody {
  import opened Common
  import opened Utf8

  const BODY_CAP: nat := 8 * 1024 * 1024

  datatype AppendOutcome = Appended | TooLarge | AlreadyFinal

  method Copy(bytes: seq<Byte>, target: array<Byte>, start: nat)
    requires start + |bytes| <= target.Length
    modifies target
    ensures target[..start + |bytes|] == old(target[..start]) + bytes
  {
    for i := 0 to |bytes|
      invariant target[..start] == old(target[..start])
      invariant target[start..start + i] == bytes[..i]
    {
      target[start + i] := bytes[i];
      assert target[start..start + i + 1] == bytes[..i] + [bytes[i]];
    }
    assert target[..start + |bytes|] == target[..start] + target[start..start + |bytes|];
  }

  class Body {
    const buffer: array<Byte>
    var length: nat
    var final: bool
    ghost var text: string

    ghost predicate Valid()
      reads this, buffer
    {
      && buffer.Length == BODY_CAP
      && length <= BODY_CAP
      && buffer[..length] == Encode(text)
    }

    constructor ()
      ensures Valid() && fresh(buffer) && text == "" && !final
    {
      buffer := new Byte[BODY_CAP];
      length, final, text := 0, false, "";
    }

    /** Appends the fragment when the whole still fits, and changes nothing otherwise. */
    method Append(fragment: string) returns (outcome: AppendOutcome)
      requires Valid()
      modifies this, buffer
      ensures Valid() && final == old(final)
      ensures outcome.TooLarge? <==> |Encode(old(text) + fragment)| > BODY_CAP
      ensures outcome.AlreadyFinal? ==> old(final)
      ensures text == if outcome.Appended? then old(text) + fragment else old(text)
    {
      EncodeJoins(text, fragment);
      var bytes := Encode(fragment);
      if length + |bytes| > BODY_CAP { return TooLarge; }
      if final { return AlreadyFinal; }
      Copy(bytes, buffer, length);
      hide Encode;
      length := length + |bytes|;
      text := text + fragment;
      outcome := Appended;
    }

    /** The text of everything appended; a second reading is refused. */
    method Value() returns (value: Option<string>)
      requires Valid()
      modifies this
      ensures Valid() && final && text == old(text)
      ensures value == if old(final) then None else Some(old(text))
    {
      DecodeInvertsEncode(text);
      if final { return None; }
      final := true;
      value := Decode(buffer[..length]);
    }
  }
}
