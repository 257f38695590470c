/**
  * The validation of an import. The issues are collected item by item, without
  * repetition, and sorted; the import is valid when there is none.
  */
module ImportValidation {
  import opened Common
  import opened CanonicalJson
  import opened Ordering

  datatype Level = N1 | N2 | N3 | N4 | N5

  datatype Subject = Vocabulary | Grammar | Reading

  datatype QuestionType =
    | KanjiReading | Orthography | ContextVocabulary | Paraphrase | WordUsage
    | GrammarSelect | SentenceOrder | TextGrammar
    | ShortReading | MediumReading | LongReading | InfoRetrieval

  datatype Choice = Choice(key: string, text: string)

  datatype Content = Content(
    level: Level,
    subject: Subject,
    questionType: QuestionType,
    passage: Option<string>,
    questionText: string,
    options: seq<Choice>,
    correctKey: string,
    tagNames: seq<string>)

  datatype Item = Item(clientItemId: string, content: Content)

  /** A tag as the database resolves a reference to it; an old tag has no subject. */
  datatype Tag = Tag(id: string, subject: Option<Subject>)

  /** What is hashed to compare two questions; the hash is injective on it. */
  datatype Fingerprint = Fingerprint(
    correct: string,
    options: multiset<string>,
    passage: Option<string>,
    questionText: string,
    questionType: QuestionType,
    subject: Subject)

  /** The three text normalisers, the tags by reference, and the fingerprints in the store. */
  datatype Context = Context(
    comparison: string -> string,
    tagKey: string -> string,
    duplicate: string -> string,
    tags: map<string, Tag>,
    existing: set<Fingerprint>)

  // ----- the rules of one item

  predicate IsApplicable(level: Level, subject: Subject, t: QuestionType) {
    match subject
    case Vocabulary => t.KanjiReading? || t.Orthography? || t.ContextVocabulary? || t.Paraphrase? || t.WordUsage?
    case Grammar => t.GrammarSelect? || t.SentenceOrder? || t.TextGrammar?
    case Reading =>
      if level.N5? || level.N4? then t.ShortReading? || t.InfoRetrieval?
      else if level.N3? then t.ShortReading? || t.MediumReading? || t.InfoRetrieval?
      else t.MediumReading? || t.LongReading? || t.InfoRetrieval?
  }

  predicate PassageIsValid(c: Content) {
    if c.subject.Reading? then c.passage.Some? else c.questionType.TextGrammar? || c.passage.None?
  }

  function Keys(c: Content): (keys: seq<string>)
    ensures |keys| == |c.options|
  {
    seq(|c.options|, i requires 0 <= i < |c.options| => c.options[i].key)
  }

  function Texts(ctx: Context, c: Content): (texts: seq<string>)
    ensures |texts| == |c.options|
  {
    seq(|c.options|, i requires 0 <= i < |c.options| => ctx.comparison(c.options[i].text))
  }

  /** A tag's identity: the tag it names, or else the reference itself. */
  function Identity(ctx: Context, tagName: string): string {
    var reference := ctx.tagKey(tagName);
    if reference in ctx.tags then ctx.tags[reference].id else reference
  }

  function Identities(ctx: Context, c: Content): (ids: seq<string>)
    ensures |ids| == |c.tagNames|
  {
    seq(|c.tagNames|, i requires 0 <= i < |c.tagNames| => Identity(ctx, c.tagNames[i]))
  }

  function ItemIds(items: seq<Item>): (ids: seq<string>)
    ensures |ids| == |items|
  {
    seq(|items|, i requires 0 <= i < |items| => items[i].clientItemId)
  }

  predicate Repeats<T(==)>(list: seq<T>, k: nat) {
    k < |list| && list[k] in list[..k]
  }

  predicate Distinct<T(==)>(list: seq<T>) {
    forall i, j | 0 <= i < j < |list| :: list[i] != list[j]
  }

  function CountKey(options: seq<Choice>, key: string): nat {
    if |options| == 0 then 0
    else CountKey(options[..|options| - 1], key) + if options[|options| - 1].key == key then 1 else 0
  }

  function TextOf(options: seq<Choice>, key: string): string {
    if |options| == 0 then "" else if options[0].key == key then options[0].text else TextOf(options[1..], key)
  }

  function DuplicateTexts(ctx: Context, options: seq<Choice>): multiset<string> {
    multiset(seq(|options|, i requires 0 <= i < |options| => ctx.duplicate(options[i].text)))
  }

  function FingerprintOf(ctx: Context, c: Content): Fingerprint {
    Fingerprint(
      ctx.duplicate(TextOf(c.options, c.correctKey)),
      DuplicateTexts(ctx, c.options),
      if c.passage.None? then None else Some(ctx.duplicate(c.passage.value)),
      ctx.duplicate(c.questionText),
      c.questionType,
      c.subject)
  }

  /** Only such an item has a fingerprint to compare. */
  predicate Eligible(ctx: Context, c: Content) {
    && Distinct(Keys(c)) && Distinct(Texts(ctx, c))
    && CountKey(c.options, c.correctKey) == 1
    && PassageIsValid(c) && IsApplicable(c.level, c.subject, c.questionType)
  }

  function EligibleFingerprint(ctx: Context, c: Content): Option<Fingerprint> {
    if Eligible(ctx, c) then Some(FingerprintOf(ctx, c)) else None
  }

  function EligibleFingerprints(ctx: Context, items: seq<Item>): (all: seq<Option<Fingerprint>>)
    ensures |all| == |items|
  {
    seq(|items|, i requires 0 <= i < |items| => EligibleFingerprint(ctx, items[i].content))
  }

  // ----- issues

  datatype Code =
    | DuplicateItemId | DuplicateOptionKey | DuplicateOptionText | DuplicateTag | CorrectKeyMissing
    | UnknownTag | TagSubjectMismatch | InvalidPassage | InvalidContent | DuplicateContent

  function Rank(c: Code): nat {
    match c
    case DuplicateItemId => 0
    case DuplicateOptionKey => 1
    case DuplicateOptionText => 2
    case DuplicateTag => 3
    case CorrectKeyMissing => 4
    case UnknownTag => 5
    case TagSubjectMismatch => 6
    case InvalidPassage => 7
    case InvalidContent => 8
    case DuplicateContent => 9
  }

  /** The message of an issue follows from its code. */
  datatype Issue = Issue(itemIndex: nat, fieldPath: string, code: Code)

  datatype Place =
    | ItemIdPlace | OptionKeyPlace(n: nat) | OptionTextPlace(n: nat) | CorrectKeyPlace
    | TagPlace(n: nat) | PassagePlace | TypePlace | QuestionTextPlace

  function PathOf(itemIndex: nat, place: Place): string {
    "/items/" + Decimal(itemIndex) +
    match place
    case ItemIdPlace => "/clientItemId"
    case OptionKeyPlace(n) => "/content/options/" + Decimal(n) + "/clientOptionKey"
    case OptionTextPlace(n) => "/content/options/" + Decimal(n) + "/text"
    case CorrectKeyPlace => "/content/correctOptionKey"
    case TagPlace(n) => "/content/tagNames/" + Decimal(n)
    case PassagePlace => "/content/passage"
    case TypePlace => "/content/questionType"
    case QuestionTextPlace => "/content/questionText"
  }

  datatype Spot = Spot(place: Place, code: Code)

  function IssueAt(itemIndex: nat, spot: Spot): Issue {
    Issue(itemIndex, PathOf(itemIndex, spot.place), spot.code)
  }

  predicate IsTagFault(ctx: Context, c: Content, n: nat, code: Code) {
    && n < |c.tagNames|
    && var reference := ctx.tagKey(c.tagNames[n]);
       match code
       case DuplicateTag => Repeats(Identities(ctx, c), n)
       case UnknownTag => reference !in ctx.tags
       case TagSubjectMismatch =>
         && reference in ctx.tags
         && ctx.tags[reference].subject.Some?
         && ctx.tags[reference].subject.value != c.subject
       case _ => false
  }

  /** What is wrong with an item on its own and among the ids before it. */
  predicate IsFault(ctx: Context, items: seq<Item>, i: nat, spot: Spot)
    requires i < |items|
  {
    var c := items[i].content;
    match spot.place
    case ItemIdPlace => spot.code == DuplicateItemId && Repeats(ItemIds(items), i)
    case OptionKeyPlace(n) => spot.code == DuplicateOptionKey && Repeats(Keys(c), n)
    case OptionTextPlace(n) => spot.code == DuplicateOptionText && Repeats(Texts(ctx, c), n)
    case CorrectKeyPlace => spot.code == CorrectKeyMissing && CountKey(c.options, c.correctKey) == 0
    case TagPlace(n) => IsTagFault(ctx, c, n, spot.code)
    case PassagePlace => spot.code == InvalidPassage && !PassageIsValid(c)
    case TypePlace => spot.code == InvalidContent && !IsApplicable(c.level, c.subject, c.questionType)
    case QuestionTextPlace =>
      && spot.code == DuplicateContent
      && Eligible(ctx, c)
      && (FingerprintOf(ctx, c) in ctx.existing || Repeats(EligibleFingerprints(ctx, items), i))
  }

  /** The issues are exactly the faults, one each, in the order of item, path and code. */
  ghost predicate AreTheIssues(ctx: Context, items: seq<Item>, issues: seq<Issue>) {
    && Sorted(issues, ISSUE_KEY)
    && (forall x | x in issues ::
          x.itemIndex < |items| && exists spot ::
            IsFault(ctx, items, x.itemIndex, spot) && x == IssueAt(x.itemIndex, spot))
    && (forall i: nat, spot | i < |items| && IsFault(ctx, items, i, spot) :: IssueAt(i, spot) in issues)
  }

  const ISSUE_KEY: Issue -> Key := (x: Issue) => Key(x.itemIndex, Scalars(x.fieldPath), Rank(x.code))

  /** The order of issues: by item, then by path as texts compare, then by code. */
  lemma IssueOrder(x: Issue, y: Issue)
    ensures Less(ISSUE_KEY(x), ISSUE_KEY(y)) <==>
              || x.itemIndex < y.itemIndex
              || (x.itemIndex == y.itemIndex && TextBefore(x.fieldPath, y.fieldPath))
              || (x.itemIndex == y.itemIndex && x.fieldPath == y.fieldPath && Rank(x.code) < Rank(y.code))
  {
    ScalarsCompare(x.fieldPath, y.fieldPath);
    ScalarsDiffer(x.fieldPath, y.fieldPath);
    hide TextBefore, SeqLess, Scalars, Rank;
  }

  // ----- validity, stated without issues

  predicate TagsAreSound(ctx: Context, c: Content) {
    && (forall n | 0 <= n < |c.tagNames| ::
          && ctx.tagKey(c.tagNames[n]) in ctx.tags
          && (ctx.tags[ctx.tagKey(c.tagNames[n])].subject == None
              || ctx.tags[ctx.tagKey(c.tagNames[n])].subject == Some(c.subject)))
    && (forall m, n | 0 <= m < n < |c.tagNames| ::
          Identity(ctx, c.tagNames[m]) != Identity(ctx, c.tagNames[n]))
  }

  /** Every item is sound on its own, no two share an id or a fingerprint, and no fingerprint is in the store. */
  predicate IsValidImport(ctx: Context, items: seq<Item>) {
    && Distinct(ItemIds(items))
    && (forall i | 0 <= i < |items| :: Eligible(ctx, items[i].content) && TagsAreSound(ctx, items[i].content))
    && (forall i | 0 <= i < |items| :: FingerprintOf(ctx, items[i].content) !in ctx.existing)
    && (forall i, j | 0 <= i < j < |items| ::
          FingerprintOf(ctx, items[i].content) != FingerprintOf(ctx, items[j].content))
  }

  ghost predicate NoFault(ctx: Context, items: seq<Item>) {
    forall i: nat, spot | i < |items| :: !IsFault(ctx, items, i, spot)
  }

  lemma DistinctMeansNoRepeat<T>(list: seq<T>)
    ensures Distinct(list) <==> forall k: nat | k < |list| :: !Repeats(list, k)
  {
    if !Distinct(list) {
      var i, j :| 0 <= i < j < |list| && list[i] == list[j];
      assert list[..j][i] == list[j];
      assert Repeats(list, j);
    }
  }

  lemma {:induction false} DistinctKeysOnce(c: Content, n: nat)
    requires Distinct(Keys(c)) && n <= |c.options|
    ensures CountKey(c.options[..n], c.correctKey) <= 1
    ensures CountKey(c.options[..n], c.correctKey) == 1 ==> exists k | 0 <= k < n :: c.options[k].key == c.correctKey
    decreases n
  {
    if n > 0 {
      DistinctKeysOnce(c, n - 1);
      assert c.options[..n][..n - 1] == c.options[..n - 1];
      assert c.options[..n][n - 1] == c.options[n - 1];
      if CountKey(c.options[..n - 1], c.correctKey) == 1 {
        var k :| 0 <= k < n - 1 && c.options[k].key == c.correctKey;
        assert Keys(c)[k] != Keys(c)[n - 1];
      }
    }
  }

  ghost predicate NoTagFault(ctx: Context, c: Content) {
    forall n: nat, code :: !IsTagFault(ctx, c, n, code)
  }

  lemma TagFaults(ctx: Context, c: Content)
    ensures NoTagFault(ctx, c) <==> TagsAreSound(ctx, c)
  {
    var ids := Identities(ctx, c);
    DistinctMeansNoRepeat(ids);
    assert forall n | 0 <= n < |ids| :: ids[n] == Identity(ctx, c.tagNames[n]);
    if NoTagFault(ctx, c) {
      forall n: nat | n < |c.tagNames|
        ensures !Repeats(ids, n) && ctx.tagKey(c.tagNames[n]) in ctx.tags
        ensures ctx.tags[ctx.tagKey(c.tagNames[n])].subject == None
                || ctx.tags[ctx.tagKey(c.tagNames[n])].subject == Some(c.subject)
      {
        assert !IsTagFault(ctx, c, n, DuplicateTag);
        assert !IsTagFault(ctx, c, n, UnknownTag);
        assert !IsTagFault(ctx, c, n, TagSubjectMismatch);
      }
      assert Distinct(ids);
    }
    if TagsAreSound(ctx, c) {
      assert Distinct(ids);
    }
  }

  /** No fault in the content of the i-th item, apart from being a duplicate of another question. */
  ghost predicate NoContentFault(ctx: Context, items: seq<Item>, i: nat)
    requires i < |items|
  {
    forall spot: Spot | !spot.place.ItemIdPlace? && !spot.place.QuestionTextPlace? :: !IsFault(ctx, items, i, spot)
  }

  lemma OneCorrect(c: Content)
    requires Distinct(Keys(c))
    ensures CountKey(c.options, c.correctKey) != 0 <==> CountKey(c.options, c.correctKey) == 1
  {
    DistinctKeysOnce(c, |c.options|);
    assert c.options[..|c.options|] == c.options;
  }

  /** An item's content is without fault exactly when the item is eligible and its tags are sound. */
  lemma ContentFaults(ctx: Context, items: seq<Item>, i: nat)
    requires i < |items|
    ensures NoContentFault(ctx, items, i) <==> Eligible(ctx, items[i].content) && TagsAreSound(ctx, items[i].content)
  {
    hide TagsAreSound, IsApplicable, PassageIsValid, IsTagFault, Keys, Texts, CountKey, Distinct;
    var c := items[i].content;
    DistinctMeansNoRepeat(Keys(c));
    DistinctMeansNoRepeat(Texts(ctx, c));
    TagFaults(ctx, c);
    if Distinct(Keys(c)) {
      OneCorrect(c);
    }
    if NoContentFault(ctx, items, i) {
      assert !IsFault(ctx, items, i, Spot(CorrectKeyPlace, CorrectKeyMissing));
      assert !IsFault(ctx, items, i, Spot(PassagePlace, InvalidPassage));
      assert !IsFault(ctx, items, i, Spot(TypePlace, InvalidContent));
      forall n: nat ensures !Repeats(Keys(c), n) && !Repeats(Texts(ctx, c), n) {
        assert !IsFault(ctx, items, i, Spot(OptionKeyPlace(n), DuplicateOptionKey));
        assert !IsFault(ctx, items, i, Spot(OptionTextPlace(n), DuplicateOptionText));
      }
      forall n: nat, code ensures !IsTagFault(ctx, c, n, code) {
        assert !IsFault(ctx, items, i, Spot(TagPlace(n), code));
      }
    }
  }

  /** Without faults in any content, no item is a duplicate exactly when the fingerprints are new and distinct. */
  lemma DuplicateFaults(ctx: Context, items: seq<Item>)
    requires forall i | 0 <= i < |items| :: Eligible(ctx, items[i].content)
    ensures (forall i: nat | i < |items| :: !IsFault(ctx, items, i, Spot(QuestionTextPlace, DuplicateContent)))
       <==> && (forall i | 0 <= i < |items| :: FingerprintOf(ctx, items[i].content) !in ctx.existing)
            && (forall i, j | 0 <= i < j < |items| ::
                  FingerprintOf(ctx, items[i].content) != FingerprintOf(ctx, items[j].content))
  {
    hide Eligible, FingerprintOf;
    var all := EligibleFingerprints(ctx, items);
    assert forall i | 0 <= i < |items| :: all[i] == Some(FingerprintOf(ctx, items[i].content));
    DistinctMeansNoRepeat(all);
    assert Distinct(all) <==>
             forall i, j | 0 <= i < j < |items| ::
               FingerprintOf(ctx, items[i].content) != FingerprintOf(ctx, items[j].content);
    forall i: nat | i < |items|
      ensures IsFault(ctx, items, i, Spot(QuestionTextPlace, DuplicateContent))
         <==> FingerprintOf(ctx, items[i].content) in ctx.existing || Repeats(all, i)
    {
    }
    if forall i: nat | i < |items| :: !IsFault(ctx, items, i, Spot(QuestionTextPlace, DuplicateContent)) {
      forall i: nat | i < |items| ensures FingerprintOf(ctx, items[i].content) !in ctx.existing && !Repeats(all, i) {
        assert !IsFault(ctx, items, i, Spot(QuestionTextPlace, DuplicateContent));
      }
    }
  }

  /** A fault is in an item's content, in its id, or in being a duplicate. */
  lemma SplitFaults(ctx: Context, items: seq<Item>)
    ensures NoFault(ctx, items) <==>
              && (forall i: nat | i < |items| :: NoContentFault(ctx, items, i))
              && (forall i: nat, code | i < |items| :: !IsFault(ctx, items, i, Spot(ItemIdPlace, code)))
              && (forall i: nat, code | i < |items| :: !IsFault(ctx, items, i, Spot(QuestionTextPlace, code)))
  {
    hide IsFault;
    if (forall i: nat | i < |items| :: NoContentFault(ctx, items, i))
       && (forall i: nat, code | i < |items| :: !IsFault(ctx, items, i, Spot(ItemIdPlace, code)))
       && (forall i: nat, code | i < |items| :: !IsFault(ctx, items, i, Spot(QuestionTextPlace, code)))
    {
      forall i: nat, spot | i < |items| ensures !IsFault(ctx, items, i, spot) {
        assert NoContentFault(ctx, items, i);
        assert spot == Spot(spot.place, spot.code);
      }
    }
  }

  /** There is no issue exactly when the import is valid. */
  lemma ValidMeansNoFault(ctx: Context, items: seq<Item>)
    ensures NoFault(ctx, items) <==> IsValidImport(ctx, items)
  {
    hide Eligible, TagsAreSound, FingerprintOf, IsFault;
    DistinctMeansNoRepeat(ItemIds(items));
    forall i: nat | i < |items|
      ensures NoContentFault(ctx, items, i) <==> Eligible(ctx, items[i].content) && TagsAreSound(ctx, items[i].content)
    {
      ContentFaults(ctx, items, i);
    }
    SplitFaults(ctx, items);
    IdFaults(ctx, items);
    if forall i | 0 <= i < |items| :: Eligible(ctx, items[i].content) {
      DuplicateFaults(ctx, items);
    }
  }

  lemma IdFaults(ctx: Context, items: seq<Item>)
    ensures (forall i: nat, code | i < |items| :: !IsFault(ctx, items, i, Spot(ItemIdPlace, code))) <==>
              Distinct(ItemIds(items))
    ensures forall i: nat, code | i < |items| && code != DuplicateContent ::
              !IsFault(ctx, items, i, Spot(QuestionTextPlace, code))
  {
    DistinctMeansNoRepeat(ItemIds(items));
    assert forall i: nat | i < |items| ::
             IsFault(ctx, items, i, Spot(ItemIdPlace, DuplicateItemId)) <==> Repeats(ItemIds(items), i);
  }

  // ----- what the fingerprint identifies

  /** How many options have the text, as the normaliser sees it. */
  ghost function TextCount(ctx: Context, options: seq<Choice>, text: string): nat {
    |set i | 0 <= i < |options| && ctx.duplicate(options[i].text) == text|
  }

  lemma {:induction false} MultisetCounts(list: seq<string>, x: string)
    ensures multiset(list)[x] == |set i | 0 <= i < |list| && list[i] == x|
    decreases |list|
  {
    if |list| > 0 {
      var n := |list| - 1;
      var before := list[..n];
      MultisetCounts(before, x);
      assert list == before + [list[n]];
      var there := set i | 0 <= i < |list| && list[i] == x;
      var earlier := set i | 0 <= i < n && before[i] == x;
      assert multiset(list) == multiset(before) + multiset{list[n]};
      if list[n] == x {
        assert there == earlier + {n};
      } else {
        assert there == earlier;
      }
    }
  }

  lemma TextsCounted(ctx: Context, options: seq<Choice>, text: string)
    ensures DuplicateTexts(ctx, options)[text] == TextCount(ctx, options, text)
  {
    var all := seq(|options|, i requires 0 <= i < |options| => ctx.duplicate(options[i].text));
    MultisetCounts(all, text);
    assert (set i | 0 <= i < |options| && ctx.duplicate(options[i].text) == text)
        == set i | 0 <= i < |all| && all[i] == text;
  }

  /** The option the correct key names. */
  lemma {:induction false} TextOfKey(options: seq<Choice>, key: string, i: nat)
    requires i < |options| && options[i].key == key
    requires forall j | 0 <= j < |options| && options[j].key == key :: j == i
    ensures TextOf(options, key) == options[i].text
    decreases i
  {
    if i > 0 {
      assert options[0].key != key;
      forall j | 0 <= j < |options[1..]| && options[1..][j].key == key ensures j == i - 1 {
        assert options[j + 1].key == key;
      }
      TextOfKey(options[1..], key, i - 1);
    }
  }

  /**
    * The same question, as the normaliser sees it: subject, type, question text and
    * passage agree, every option text occurs as often, and the correct options have
    * the same text. Level, tags, keys and the order of options do not count.
    */
  ghost predicate SameQuestion(ctx: Context, c: Content, d: Content, i: nat, j: nat)
    requires i < |c.options| && j < |d.options|
  {
    && c.subject == d.subject && c.questionType == d.questionType
    && ctx.duplicate(c.questionText) == ctx.duplicate(d.questionText)
    && (c.passage.Some? <==> d.passage.Some?)
    && (c.passage.Some? ==> ctx.duplicate(c.passage.value) == ctx.duplicate(d.passage.value))
    && (forall text :: TextCount(ctx, c.options, text) == TextCount(ctx, d.options, text))
    && ctx.duplicate(c.options[i].text) == ctx.duplicate(d.options[j].text)
  }

  /**
    * Where each correct key names one option, two contents share a fingerprint
    * exactly when they are the same question.
    */
  lemma FingerprintIdentifies(ctx: Context, c: Content, d: Content, i: nat, j: nat)
    requires i < |c.options| && c.options[i].key == c.correctKey
    requires j < |d.options| && d.options[j].key == d.correctKey
    requires forall k | 0 <= k < |c.options| && c.options[k].key == c.correctKey :: k == i
    requires forall k | 0 <= k < |d.options| && d.options[k].key == d.correctKey :: k == j
    ensures FingerprintOf(ctx, c) == FingerprintOf(ctx, d) <==> SameQuestion(ctx, c, d, i, j)
  {
    TextOfKey(c.options, c.correctKey, i);
    TextOfKey(d.options, d.correctKey, j);
    hide TextOf, DuplicateTexts, TextCount;
    forall text ensures DuplicateTexts(ctx, c.options)[text] == TextCount(ctx, c.options, text)
                && DuplicateTexts(ctx, d.options)[text] == TextCount(ctx, d.options, text)
    {
      TextsCounted(ctx, c.options, text);
      TextsCounted(ctx, d.options, text);
    }
  }
}
