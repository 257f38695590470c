/** What the content rules mean: whole content, and the same content, said on options, texts and tags. */
module ContentMeaning {
  import opened Common
  import opened ContentTables

  function Places(c: Content): set<nat> {
    set o | o in c.options :: c.options[o].ordinal
  }

  function Texts(c: Content): set<string> {
    set o | o in c.options :: c.options[o].text.canonical
  }

  /** Four options at places 1 to 4 with four different texts, one of them correct, and one to twelve tags. */
  ghost predicate Whole(c: Content) {
    && |c.options| == 4 && Places(c) == {1, 2, 3, 4} && |Texts(c)| == 4
    && c.correctOptionId in c.options
    && 1 <= |c.tags| <= 12
  }

  ghost predicate Injective<A, B>(f: A -> B, s: set<A>) {
    forall a, b | a in s && b in s && a != b :: f(a) != f(b)
  }

  /** An image is as large as its source exactly when no two elements meet. */
  lemma {:induction false} ImageSize<A, B>(f: A -> B, s: set<A>)
    ensures |Image(f, s)| == |s| <==> Injective(f, s)
    decreases |s|
  {
    if s != {} {
      var a :| a in s;
      var rest := s - {a};
      ImageSize(f, rest);
      ImageSmaller(f, rest);
      assert Image(f, s) == Image(f, rest) + {f(a)};
      if f(a) in Image(f, rest) {
        var b :| b in rest && f(b) == f(a);
        assert !Injective(f, s);
        assert Image(f, s) == Image(f, rest);
      } else {
        assert Injective(f, s) <==> Injective(f, rest) by {
          forall x, y | x in s && y in s && x != y && Injective(f, rest) ensures f(x) != f(y) {
            assert x in rest ==> f(x) in Image(f, rest);
            assert y in rest ==> f(y) in Image(f, rest);
          }
        }
      }
    }
  }

  /** Four different places from 1 to 4 are all of them. */
  lemma FourPlaces(s: set<nat>)
    requires |s| == 4 && forall x | x in s :: 1 <= x <= 4
    ensures s == {1, 2, 3, 4}
  {
    assert s <= {1, 2, 3, 4};
    SubsetSmaller({1, 2, 3, 4} - s, {1, 2, 3, 4});
    assert |{1, 2, 3, 4} - s| == |{1, 2, 3, 4}| - |s|;
  }

  lemma PlacesDiffer(c: Content)
    ensures |Places(c)| == |c.options| <==>
              forall a, b | a in c.options && b in c.options && a != b :: c.options[a].ordinal != c.options[b].ordinal
  {
    var place: Id -> nat := (o: Id) => if o in c.options then c.options[o].ordinal else 0;
    ImageSize<Id, nat>(place, c.options.Keys);
    assert |c.options| == |c.options.Keys|;
    assert Places(c) == Image<Id, nat>(place, c.options.Keys);
    assert Injective<Id, nat>(place, c.options.Keys) <==>
             forall a, b | a in c.options && b in c.options && a != b :: c.options[a].ordinal != c.options[b].ordinal;
  }

  lemma TextsDiffer(c: Content)
    ensures |Texts(c)| == |c.options| <==>
              forall a, b | a in c.options && b in c.options && a != b ::
                c.options[a].text.canonical != c.options[b].text.canonical
  {
    var text: Id -> string := (o: Id) => if o in c.options then c.options[o].text.canonical else "";
    ImageSize<Id, string>(text, c.options.Keys);
    assert |c.options| == |c.options.Keys|;
    assert Texts(c) == Image<Id, string>(text, c.options.Keys);
    assert Injective<Id, string>(text, c.options.Keys) <==>
             forall a, b | a in c.options && b in c.options && a != b ::
               c.options[a].text.canonical != c.options[b].text.canonical;
  }

  lemma CompleteIsWhole(c: Content)
    ensures Complete(c) <==> Whole(c)
  {
    PlacesDiffer(c);
    TextsDiffer(c);
    PlacesInRange(c);
    hide Places, Texts;
    if Complete(c) {
      FourPlaces(Places(c));
    }
    assert |{1, 2, 3, 4}| == 4;
  }

  lemma PlacesInRange(c: Content)
    ensures (forall a | a in c.options :: 1 <= c.options[a].ordinal <= 4) <==> forall x | x in Places(c) :: 1 <= x <= 4
  {
    forall a | a in c.options ensures c.options[a].ordinal in Places(c) {
    }
  }

  /** Every option text of the one is an option text of the other. */
  ghost predicate TextsAmong(c: Content, d: Content) {
    forall o | o in c.options ::
             exists p :: p in d.options && d.options[p].text.canonical == c.options[o].text.canonical
  }

  /**
    * The same question in other clothes: same subject and type, canonically the
    * same question text, passage, option texts and correct text. Level, difficulty,
    * explanations, tags, the order of the options and their ids do not count.
    */
  ghost predicate SameContent(c: Content, d: Content) {
    && c.subject == d.subject && c.questionType == d.questionType
    && c.questionText.canonical == d.questionText.canonical
    && (c.passage.Some? <==> d.passage.Some?)
    && (c.passage.Some? ==> c.passage.value.canonical == d.passage.value.canonical)
    && TextsAmong(c, d) && TextsAmong(d, c)
    && (c.correctOptionId in c.options <==> d.correctOptionId in d.options)
    && (c.correctOptionId in c.options ==>
          c.options[c.correctOptionId].text.canonical == d.options[d.correctOptionId].text.canonical)
  }

  lemma SameTexts(c: Content, d: Content)
    ensures Texts(c) == Texts(d) <==> TextsAmong(c, d) && TextsAmong(d, c)
  {
    TextsWithin(c, d);
    TextsWithin(d, c);
    hide TextsAmong, Texts;
  }

  lemma TextsWithin(c: Content, d: Content)
    ensures Texts(c) <= Texts(d) <==> TextsAmong(c, d)
  {
    if Texts(c) <= Texts(d) {
      forall o | o in c.options
        ensures exists p :: p in d.options && d.options[p].text.canonical == c.options[o].text.canonical
      {
        assert c.options[o].text.canonical in Texts(c);
      }
    }
  }

  /** Two contents have one fingerprint exactly when they are the same content. */
  lemma FingerprintIdentifies(c: Content, d: Content)
    ensures FingerprintOf(c) == FingerprintOf(d) <==> SameContent(c, d)
  {
    hide TextsAmong;
    SameTexts(c, d);
    assert FingerprintOf(c).options == Texts(c) && FingerprintOf(d).options == Texts(d);
  }

  /** Another question holds this content. */
  ghost predicate HeldElsewhere(db: Db, q: Id, c: Content) {
    exists v :: v in db.versions && db.versions[v].questionId != q && SameContent(db.versions[v].content, c)
  }

  lemma DuplicateIsHeld(db: Db, q: Id, c: Content)
    ensures CrossQuestionDuplicate(db, q, FingerprintOf(c)) <==> HeldElsewhere(db, q, c)
  {
    hide SameContent, FingerprintOf;
    forall v | v in db.versions
      ensures FingerprintOf(db.versions[v].content) == FingerprintOf(c) <==> SameContent(db.versions[v].content, c)
    {
      FingerprintIdentifies(db.versions[v].content, c);
    }
  }
}
