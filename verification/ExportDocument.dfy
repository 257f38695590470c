/**
  * The export document: one snapshot of the tables, the document it stands for,
  * and the texts that are appended one after the other.
  */
module ExportDocument {
  import opened Common
  import opened Ordering
  import opened CanonicalJson

  datatype VersionRow = VersionRow(
    id: Id,
    questionId: Id,
    versionNumber: nat,
    status: string,
    rowVersion: nat,
    level: string,
    subject: string,
    questionType: string,
    difficulty: string,
    passage: Option<string>,
    questionText: string,
    explanationKo: string,
    explanationJa: string,
    correctOptionId: Option<Id>)

  datatype OptionRow = OptionRow(id: Id, versionId: Id, ordinal: nat, text: string)

  datatype TagRow = TagRow(assignmentId: Id, versionId: Id, tagId: Id, tagLabel: string, name: string)

  datatype QuestionRow = QuestionRow(lifecycleStatus: string, current: Option<Id>, rowVersion: nat)

  datatype Snapshot = Snapshot(
    questions: map<Id, QuestionRow>, versions: set<VersionRow>, options: set<OptionRow>, tags: set<TagRow>)

  /** Every row has its own primary key. */
  ghost predicate HasKeys(s: Snapshot) {
    && (forall a, b | a in s.versions && b in s.versions && a.id == b.id :: a == b)
    && (forall a, b | a in s.options && b in s.options && a.id == b.id :: a == b)
    && (forall a, b | a in s.tags && b in s.tags && a.assignmentId == b.assignmentId :: a == b)
  }

  const VERSION_KEY: VersionRow -> Key := (v: VersionRow) => Key(v.versionNumber, [], v.id)
  const OPTION_KEY: OptionRow -> Key := (o: OptionRow) => Key(o.versionId, [o.ordinal], o.id)
  const TAG_KEY: TagRow -> Key := (t: TagRow) => Key(t.versionId, Scalars(t.name), t.assignmentId)

  function VersionsOf(s: Snapshot, question: Id): set<VersionRow> {
    set v | v in s.versions && v.questionId == question
  }

  /** The versions of a question, by number. */
  function VersionList(s: Snapshot, question: Id): (list: seq<VersionRow>)
    requires HasKeys(s)
    ensures forall i | 0 <= i < |list| :: list[i].questionId == question
  {
    var list := Ordered(VersionsOf(s, question), VERSION_KEY);
    assert forall i | 0 <= i < |list| :: list[i] in list;
    list
  }

  /** The options of one version, by ordinal, and its tags, by name. */
  function OptionList(s: Snapshot, version: Id): seq<OptionRow>
    requires HasKeys(s)
  {
    Ordered((set o | o in s.options && o.versionId == version), OPTION_KEY)
  }

  function TagList(s: Snapshot, version: Id): seq<TagRow>
    requires HasKeys(s)
  {
    Ordered((set t | t in s.tags && t.versionId == version), TAG_KEY)
  }

  // ----- the document

  function IdJson(id: Id): Json {
    JString(Decimal(id))
  }

  function IdOrNull(id: Option<Id>): Json {
    if id.None? then JNull else IdJson(id.value)
  }

  function TextOrNull(text: Option<string>): Json {
    if text.None? then JNull else JString(text.value)
  }

  function OptionJson(o: OptionRow): Json {
    JObject([("id", IdJson(o.id)), ("ordinal", JNumber(o.ordinal)), ("text", JString(o.text))])
  }

  function TagJson(t: TagRow): Json {
    JObject([("id", IdJson(t.tagId)), ("label", JString(t.tagLabel)), ("normalizedName", JString(t.name))])
  }

  function ContentFields(v: VersionRow, options: seq<OptionRow>, tags: seq<TagRow>): seq<(string, Json)> {
    [
      ("correctOptionId", IdOrNull(v.correctOptionId)),
      ("difficulty", JString(v.difficulty)),
      ("explanationJa", JString(v.explanationJa)),
      ("explanationKo", JString(v.explanationKo)),
      ("level", JString(v.level)),
      ("options", JArray(seq(|options|, i requires 0 <= i < |options| => OptionJson(options[i])))),
      ("passage", TextOrNull(v.passage)),
      ("questionText", JString(v.questionText)),
      ("questionType", JString(v.questionType)),
      ("subject", JString(v.subject)),
      ("tags", JArray(seq(|tags|, i requires 0 <= i < |tags| => TagJson(tags[i]))))
    ]
  }

  function VersionJson(v: VersionRow, options: seq<OptionRow>, tags: seq<TagRow>): Json {
    JObject([
      ("content", JObject(ContentFields(v, options, tags))),
      ("questionVersionId", IdJson(v.id)),
      ("versionNumber", JNumber(v.versionNumber)),
      ("versionStatus", JString(v.status))
    ])
  }

  function VersionDocument(s: Snapshot, v: VersionRow): Json
    requires HasKeys(s)
  {
    VersionJson(v, OptionList(s, v.id), TagList(s, v.id))
  }

  datatype Member =
    | ExportedAtMember | QuestionsMember | SchemaMember
    | CurrentMember | StatusMember | QuestionMember | VersionsMember

  function Name(m: Member): string {
    match m
    case ExportedAtMember => "exportedAt"
    case QuestionsMember => "questions"
    case SchemaMember => "schemaVersion"
    case CurrentMember => "currentPublishedVersionId"
    case StatusMember => "lifecycleStatus"
    case QuestionMember => "questionId"
    case VersionsMember => "versions"
  }

  function SchemaVersion(): string {
    "admin-question-export-v1"
  }

  function QuestionDocument(s: Snapshot, question: Id): Json
    requires HasKeys(s) && question in s.questions
  {
    JObject([
      (Name(QuestionMember), IdJson(question)),
      (Name(StatusMember), JString(s.questions[question].lifecycleStatus)),
      (Name(CurrentMember), IdOrNull(s.questions[question].current)),
      (Name(VersionsMember), VersionsDocument(s, question))
    ])
  }

  function VersionsDocument(s: Snapshot, question: Id): Json
    requires HasKeys(s)
  {
    var list := VersionList(s, question);
    JArray(seq(|list|, i requires 0 <= i < |list| => VersionDocument(s, list[i])))
  }

  predicate AllPresent(s: Snapshot, ids: seq<Id>) {
    forall i | 0 <= i < |ids| :: ids[i] in s.questions
  }

  /** The whole document, its members in the order of the contract. */
  function Document(s: Snapshot, exportedAt: string, ids: seq<Id>): Json
    requires HasKeys(s) && AllPresent(s, ids)
  {
    JObject([
      (Name(SchemaMember), JString(SchemaVersion())),
      (Name(ExportedAtMember), JString(exportedAt)),
      (Name(QuestionsMember), QuestionsDocument(s, ids))
    ])
  }

  function QuestionsDocument(s: Snapshot, ids: seq<Id>): Json
    requires HasKeys(s) && AllPresent(s, ids)
  {
    JArray(seq(|ids|, i requires 0 <= i < |ids| => QuestionDocument(s, ids[i])))
  }

  // ----- the texts that are appended

  /** A member's name as it is written out, without looking for characters to escape. */
  function Raw(m: Member): string {
    "\"" + Name(m) + "\":"
  }

  function DocumentHead(exportedAt: string): string {
    "{" + (Raw(ExportedAtMember) + Canonical(JString(exportedAt))) + "," + Raw(QuestionsMember) + "["
  }

  function DocumentTail(): string {
    "]," + (Raw(SchemaMember) + ("\"" + SchemaVersion() + "\"")) + "}"
  }

  function QuestionHead(s: Snapshot, question: Id): string
    requires question in s.questions
  {
    "{" + (Raw(CurrentMember) + Canonical(IdOrNull(s.questions[question].current)))
    + "," + (Raw(StatusMember) + Canonical(JString(s.questions[question].lifecycleStatus)))
    + "," + (Raw(QuestionMember) + Canonical(IdJson(question)))
    + "," + Raw(VersionsMember) + "["
  }

  function VersionTexts(s: Snapshot, list: seq<VersionRow>): (texts: seq<string>)
    requires HasKeys(s)
    ensures |texts| == |list|
  {
    seq(|list|, i requires 0 <= i < |list| => Canonical(VersionDocument(s, list[i])))
  }

  function QuestionText(s: Snapshot, question: Id): string
    requires HasKeys(s) && question in s.questions
  {
    QuestionHead(s, question) + Commas(VersionTexts(s, VersionList(s, question))) + "]}"
  }

  function QuestionTexts(s: Snapshot, ids: seq<Id>): (texts: seq<string>)
    requires HasKeys(s) && AllPresent(s, ids)
    ensures |texts| == |ids|
  {
    seq(|ids|, i requires 0 <= i < |ids| => QuestionText(s, ids[i]))
  }

  function DocumentText(s: Snapshot, exportedAt: string, ids: seq<Id>): string
    requires HasKeys(s) && AllPresent(s, ids)
  {
    DocumentHead(exportedAt) + Commas(QuestionTexts(s, ids)) + DocumentTail()
  }

  // ----- the appended texts are the canonical text of the document

  predicate Plain(s: string) {
    forall i | 0 <= i < |s| :: 0x20 <= s[i] as int && s[i] != '"' && s[i] != '\\'
  }

  lemma {:induction false} PlainIsUnescaped(s: string)
    requires Plain(s)
    ensures Quote(s) == "\"" + s + "\""
    decreases |s|
  {
    if |s| > 0 {
      PlainIsUnescaped(s[1..]);
      assert Escape(s[0]) == [s[0]];
      assert Quote(s[1..]) == "\"" + EscapeAll(s[1..]) + "\"";
      assert EscapeAll(s[1..]) == Quote(s[1..])[1..|Quote(s[1..])| - 1];
      assert s == [s[0]] + s[1..];
    }
  }

  lemma NamesArePlain(m: Member)
    ensures Plain(Name(m))
  {
  }

  lemma RawMember(m: Member, j: Json)
    ensures FieldText((Name(m), j)) == Raw(m) + Canonical(j)
  {
    hide Canonical, Name, Quote;
    NamesArePlain(m);
    PlainIsUnescaped(Name(m));
  }

  lemma SchemaText()
    ensures Canonical(JString(SchemaVersion())) == "\"" + SchemaVersion() + "\""
  {
    assert Plain(SchemaVersion());
    PlainIsUnescaped(SchemaVersion());
    hide SchemaVersion, Quote;
  }

  lemma NamesInOrder()
    ensures NameLess(Name(CurrentMember), Name(StatusMember))
    ensures NameLess(Name(StatusMember), Name(QuestionMember)) && NameLess(Name(QuestionMember), Name(VersionsMember))
    ensures NameLess(Name(ExportedAtMember), Name(QuestionsMember))
            && NameLess(Name(QuestionsMember), Name(SchemaMember))
  {
  }

  lemma SortThree<V>(a: (string, V), b: (string, V), c: (string, V))
    requires NameLess(b.0, c.0) && NameLess(c.0, a.0)
    ensures SortFields([a, b, c]) == [b, c, a]
  {
    NotBelow(b.0, c.0);
    NotBelow(c.0, a.0);
    assert [a, b, c][1..] == [b, c] && [b, c][1..] == [c] && [c][1..] == [];
    assert SortFields([c]) == [c];
    assert SortFields([b, c]) == [b, c];
    assert Insert(a, [c]) == [c, a] by { assert [c][1..] == []; }
    if NameLess(b.0, a.0) {
    } else {
      NameTransitive(b.0, c.0, a.0);
    }
  }

  lemma SortFour<V>(a: (string, V), b: (string, V), c: (string, V), d: (string, V))
    requires NameLess(c.0, b.0) && NameLess(b.0, a.0) && NameLess(a.0, d.0)
    ensures SortFields([a, b, c, d]) == [c, b, a, d]
  {
    NameTransitive(c.0, b.0, a.0);
    NameTransitive(c.0, a.0, d.0);
    NameTransitive(b.0, a.0, d.0);
    NotBelow(a.0, d.0);
    NotBelow(c.0, d.0);
    NotBelow(b.0, d.0);
    assert [a, b, c, d][1..] == [b, c, d] && [b, c, d][1..] == [c, d] && [c, d][1..] == [d] && [d][1..] == [];
    assert SortFields([d]) == [d];
    assert SortFields([c, d]) == [c, d];
    assert Insert(b, [c, d]) == [c] + Insert(b, [d]);
    assert SortFields([b, c, d]) == [c, b, d];
    assert [c, b, d][1..] == [b, d] && [b, d][1..] == [d];
    assert Insert(a, [c, b, d]) == [c] + ([b] + Insert(a, [d]));
  }

  lemma CommasOfThree(a: string, b: string, c: string)
    ensures Commas([a, b, c]) == a + "," + b + "," + c
  {
    assert [a, b, c][..2] == [a, b] && [a, b][..1] == [a];
    assert Commas([a, b]) == a + "," + b;
  }

  lemma CommasOfFour(a: string, b: string, c: string, d: string)
    ensures Commas([a, b, c, d]) == a + "," + b + "," + c + "," + d
  {
    assert [a, b, c, d][..3] == [a, b, c];
    CommasOfThree(a, b, c);
  }

  lemma ObjectText(fields: seq<(string, Json)>, texts: seq<string>)
    requires |texts| == |fields|
    requires forall i | 0 <= i < |fields| :: texts[i] == FieldText(SortFields(fields)[i])
    ensures Canonical(JObject(fields)) == "{" + Commas(texts) + "}"
  {
    hide FieldText, SortFields;
    var sorted := SortFields(fields);
    var own := seq(|sorted|, i requires 0 <= i < |sorted| => FieldText(sorted[i]));
    assert own == texts;
  }

  lemma ArrayText(j: Json, texts: seq<string>)
    requires j.JArray? && |texts| == |j.items|
    requires forall i | 0 <= i < |texts| :: texts[i] == Canonical(j.items[i])
    ensures Canonical(j) == "[" + Commas(texts) + "]"
  {
    var own := seq(|j.items|, i requires 0 <= i < |j.items| => Canonical(j.items[i]));
    assert own == texts;
  }

  lemma JoinTail(front: string, key: string, inner: string, tail: string)
    ensures front + (key + ("[" + inner + "]")) + tail == (front + key + "[") + inner + ("]" + tail)
  {
  }

  lemma VersionsText(s: Snapshot, question: Id)
    requires HasKeys(s)
    ensures Canonical(VersionsDocument(s, question)) == "[" + Commas(VersionTexts(s, VersionList(s, question))) + "]"
  {
    hide Canonical, VersionDocument, Commas, VersionList;
    ArrayText(VersionsDocument(s, question), VersionTexts(s, VersionList(s, question)));
  }

  /** The appended text of a question is the canonical text of its part of the document. */
  lemma QuestionTextIsCanonical(s: Snapshot, question: Id)
    requires HasKeys(s) && question in s.questions
    ensures QuestionText(s, question) == Canonical(QuestionDocument(s, question))
  {
    hide Canonical, Commas, FieldText, Raw, Name, NameLess, SortFields, IdJson, IdOrNull, VersionsDocument,
         VersionTexts, VersionList;
    var row := s.questions[question];
    var a, b := (Name(QuestionMember), IdJson(question)), (Name(StatusMember), JString(row.lifecycleStatus));
    var c, d := (Name(CurrentMember), IdOrNull(row.current)), (Name(VersionsMember), VersionsDocument(s, question));
    NamesInOrder();
    SortFour(a, b, c, d);
    var texts := [FieldText(c), FieldText(b), FieldText(a), FieldText(d)];
    ObjectText([a, b, c, d], texts);
    CommasOfFour(FieldText(c), FieldText(b), FieldText(a), FieldText(d));
    RawMember(QuestionMember, a.1);
    RawMember(StatusMember, b.1);
    RawMember(CurrentMember, c.1);
    RawMember(VersionsMember, d.1);
    VersionsText(s, question);
    var inner := Commas(VersionTexts(s, VersionList(s, question)));
    var front := "{" + FieldText(c) + "," + FieldText(b) + "," + FieldText(a) + ",";
    JoinTail(front, Raw(VersionsMember), inner, "}");
    JoinFront(FieldText(c), FieldText(b), FieldText(a), FieldText(d));
    assert QuestionHead(s, question) == front + Raw(VersionsMember) + "[";
    assert "]" + "}" == "]}";
  }

  lemma JoinFront(a: string, b: string, c: string, d: string)
    ensures "{" + (a + "," + b + "," + c + "," + d) + "}" == ("{" + a + "," + b + "," + c + ",") + d + "}"
  {
  }

  lemma JoinDocument(a: string, key: string, inner: string, c: string)
    ensures "{" + (a + "," + (key + ("[" + inner + "]")) + "," + c) + "}"
            == ("{" + a + "," + key + "[") + inner + ("]," + c + "}")
  {
  }

  /** What an export appends is the canonical text of the whole document. */
  lemma DocumentTextIsCanonical(s: Snapshot, exportedAt: string, ids: seq<Id>)
    requires HasKeys(s) && AllPresent(s, ids)
    ensures DocumentText(s, exportedAt, ids) == Canonical(Document(s, exportedAt, ids))
  {
    hide Canonical, Commas, FieldText, Raw, Name, NameLess, SortFields, QuestionDocument, QuestionText, SchemaVersion;
    var questions := QuestionsDocument(s, ids);
    var a := (Name(SchemaMember), JString(SchemaVersion()));
    var b := (Name(ExportedAtMember), JString(exportedAt));
    var c := (Name(QuestionsMember), questions);
    NamesInOrder();
    SortThree(a, b, c);
    var texts := [FieldText(b), FieldText(c), FieldText(a)];
    ObjectText([a, b, c], texts);
    CommasOfThree(FieldText(b), FieldText(c), FieldText(a));
    forall i | 0 <= i < |ids| ensures QuestionTexts(s, ids)[i] == Canonical(questions.items[i]) {
      QuestionTextIsCanonical(s, ids[i]);
    }
    ArrayText(questions, QuestionTexts(s, ids));
    RawMember(SchemaMember, a.1);
    RawMember(ExportedAtMember, b.1);
    RawMember(QuestionsMember, c.1);
    SchemaText();
    JoinDocument(FieldText(b), Raw(QuestionsMember), Commas(QuestionTexts(s, ids)), FieldText(a));
  }
}
