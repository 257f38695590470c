/** Every export is a JSON text the strict scanner accepts, and each version in it says what its row says. */
module ExportReads {
  import opened Common
  import opened Ordering
  import opened CanonicalJson
  import opened ExportDocument
  import opened CanonicalReads
  import G = JsonGrammar
  import R = JsonRecogniser

  // ----- what a version says

  /** The value under a name, as a reader looks it up. */
  function At(j: Json, name: string): Option<Json> {
    match j
    case JObject(fields) => Find(fields, name)
    case _ => None
  }

  function Find(fields: seq<(string, Json)>, name: string): Option<Json> {
    if |fields| == 0 then None
    else if fields[0].0 == name then Some(fields[0].1)
    else Find(fields[1..], name)
  }

  lemma {:induction false} Found(fields: seq<(string, Json)>, i: nat)
    requires i < |fields| && DistinctNames(fields)
    ensures Find(fields, fields[i].0) == Some(fields[i].1)
    decreases i
  {
    if i > 0 {
      Found(fields[1..], i - 1);
    }
  }

  ghost predicate OptionSays(j: Json, o: OptionRow) {
    && At(j, "id") == Some(IdJson(o.id)) && At(j, "ordinal") == Some(JNumber(o.ordinal))
    && At(j, "text") == Some(JString(o.text))
  }

  ghost predicate OptionsSay(list: seq<Json>, options: seq<OptionRow>) {
    |list| == |options| && forall i | 0 <= i < |list| :: OptionSays(list[i], options[i])
  }

  ghost predicate TagSays(j: Json, t: TagRow) {
    && At(j, "id") == Some(IdJson(t.tagId)) && At(j, "label") == Some(JString(t.tagLabel))
    && At(j, "normalizedName") == Some(JString(t.name))
  }

  ghost predicate TagsSay(list: seq<Json>, tags: seq<TagRow>) {
    |list| == |tags| && forall i | 0 <= i < |list| :: TagSays(list[i], tags[i])
  }

  /**
    * The content of a version holds every text of its row under the name of its
    * column, and its options and tags in order.
    */
  ghost predicate ContentSays(c: Json, v: VersionRow, options: seq<OptionRow>, tags: seq<TagRow>) {
    && At(c, "level") == Some(JString(v.level)) && At(c, "subject") == Some(JString(v.subject))
    && At(c, "questionType") == Some(JString(v.questionType)) && At(c, "difficulty") == Some(JString(v.difficulty))
    && At(c, "passage") == Some(if v.passage.None? then JNull else JString(v.passage.value))
    && At(c, "questionText") == Some(JString(v.questionText))
    && At(c, "explanationKo") == Some(JString(v.explanationKo))
    && At(c, "explanationJa") == Some(JString(v.explanationJa))
    && At(c, "correctOptionId") == Some(if v.correctOptionId.None? then JNull else IdJson(v.correctOptionId.value))
    && (exists list :: At(c, "options") == Some(JArray(list)) && OptionsSay(list, options))
    && (exists list :: At(c, "tags") == Some(JArray(list)) && TagsSay(list, tags))
  }

  const CONTENT_NAMES: seq<string> :=
    ["correctOptionId", "difficulty", "explanationJa", "explanationKo", "level", "options", "passage", "questionText",
     "questionType", "subject", "tags"]

  lemma ContentNamesDiffer()
    ensures forall i, j | 0 <= i < j < 11 :: CONTENT_NAMES[i] != CONTENT_NAMES[j]
  {
    var n := CONTENT_NAMES;
    assert n[0][0] == 'c' && n[1][0] == 'd' && n[2][0] == 'e' && n[3][0] == 'e' && n[4][0] == 'l' && n[5][0] == 'o'
           && n[6][0] == 'p' && n[7][0] == 'q' && n[8][0] == 'q' && n[9][0] == 's' && n[10][0] == 't';
    assert n[2][11] == 'J' && n[3][11] == 'K' && n[7][8] == 'T' && n[8][9] == 'y' && n[7][9] == 'e';
  }

  lemma OptionIsSaid(o: OptionRow)
    ensures DistinctNames(OptionJson(o).fields) && OptionSays(OptionJson(o), o)
  {
    var fields := OptionJson(o).fields;
    assert "id"[0] == 'i' && "ordinal"[0] == 'o' && "text"[0] == 't';
    Found(fields, 0);
    Found(fields, 1);
    Found(fields, 2);
  }

  lemma TagIsSaid(t: TagRow)
    ensures DistinctNames(TagJson(t).fields) && TagSays(TagJson(t), t)
  {
    var fields := TagJson(t).fields;
    assert "id"[0] == 'i' && "label"[0] == 'l' && "normalizedName"[0] == 'n';
    Found(fields, 0);
    Found(fields, 1);
    Found(fields, 2);
  }

  lemma ContentIsNamed(v: VersionRow, options: seq<OptionRow>, tags: seq<TagRow>)
    ensures var c := ContentFields(v, options, tags);
            |c| == 11 && DistinctNames(c) && forall i | 0 <= i < 11 :: c[i].0 == CONTENT_NAMES[i]
  {
    ContentNamesDiffer();
    var c := ContentFields(v, options, tags);
    assert forall i | 0 <= i < 11 :: c[i].0 == CONTENT_NAMES[i];
    hide ContentFields;
  }

  lemma FindName(c: seq<(string, Json)>, i: nat, name: string)
    requires i < |c| && DistinctNames(c) && c[i].0 == name
    ensures Find(c, name) == Some(c[i].1)
  {
    Found(c, i);
  }

  lemma TextsAreSaid(v: VersionRow, options: seq<OptionRow>, tags: seq<TagRow>)
    ensures var c := JObject(ContentFields(v, options, tags));
            && At(c, "level") == Some(JString(v.level)) && At(c, "subject") == Some(JString(v.subject))
            && At(c, "questionType") == Some(JString(v.questionType))
            && At(c, "difficulty") == Some(JString(v.difficulty))
            && At(c, "passage") == Some(if v.passage.None? then JNull else JString(v.passage.value))
            && At(c, "questionText") == Some(JString(v.questionText))
            && At(c, "explanationKo") == Some(JString(v.explanationKo))
            && At(c, "explanationJa") == Some(JString(v.explanationJa))
            && At(c, "correctOptionId")
               == Some(if v.correctOptionId.None? then JNull else IdJson(v.correctOptionId.value))
  {
    var c := ContentFields(v, options, tags);
    ContentIsNamed(v, options, tags);
    hide DistinctNames, Find;
    FindName(c, 0, "correctOptionId");
    FindName(c, 1, "difficulty");
    FindName(c, 2, "explanationJa");
    FindName(c, 3, "explanationKo");
    FindName(c, 4, "level");
    FindName(c, 6, "passage");
    FindName(c, 7, "questionText");
    FindName(c, 8, "questionType");
    FindName(c, 9, "subject");
  }

  lemma ListsAreSaid(v: VersionRow, options: seq<OptionRow>, tags: seq<TagRow>)
    ensures var c := JObject(ContentFields(v, options, tags));
            && (exists list :: At(c, "options") == Some(JArray(list)) && OptionsSay(list, options))
            && (exists list :: At(c, "tags") == Some(JArray(list)) && TagsSay(list, tags))
  {
    var c := ContentFields(v, options, tags);
    ContentIsNamed(v, options, tags);
    FindName(c, 5, "options");
    FindName(c, 10, "tags");
    hide DistinctNames, Find, OptionJson, TagJson, At;
    forall i | 0 <= i < |options| ensures OptionSays(OptionJson(options[i]), options[i]) {
      OptionIsSaid(options[i]);
    }
    forall i | 0 <= i < |tags| ensures TagSays(TagJson(tags[i]), tags[i]) {
      TagIsSaid(tags[i]);
    }
    hide OptionSays, TagSays;
    assert OptionsSay(c[5].1.items, options);
    assert TagsSay(c[10].1.items, tags);
    assert At(JObject(c), "options") == Find(c, "options") && At(JObject(c), "tags") == Find(c, "tags") by {
      AtFinds(c, "options");
      AtFinds(c, "tags");
    }
  }

  lemma AtFinds(c: seq<(string, Json)>, name: string)
    ensures At(JObject(c), name) == Find(c, name)
  {
  }

  ghost predicate VersionSaid(j: Json, v: VersionRow, options: seq<OptionRow>, tags: seq<TagRow>) {
    && At(j, "questionVersionId") == Some(IdJson(v.id))
    && At(j, "versionNumber") == Some(JNumber(v.versionNumber))
    && At(j, "versionStatus") == Some(JString(v.status))
    && At(j, "content").Some? && ContentSays(At(j, "content").value, v, options, tags)
  }

  /**
    * An exported version says its number, its status, its id and, under the names
    * of the contract, its whole content.
    */
  lemma VersionSays(v: VersionRow, options: seq<OptionRow>, tags: seq<TagRow>)
    ensures DistinctNames(VersionJson(v, options, tags).fields)
    ensures VersionSaid(VersionJson(v, options, tags), v, options, tags)
  {
    TextsAreSaid(v, options, tags);
    ListsAreSaid(v, options, tags);
    assert ContentSays(JObject(ContentFields(v, options, tags)), v, options, tags);
    hide ContentSays, ContentFields, IdJson;
    var fields := VersionJson(v, options, tags).fields;
    FourNames();
    FindName(fields, 0, "content");
    FindName(fields, 1, "questionVersionId");
    FindName(fields, 2, "versionNumber");
    FindName(fields, 3, "versionStatus");
  }

  lemma FourNames()
    ensures "content" != "questionVersionId" && "content" != "versionNumber" && "content" != "versionStatus"
    ensures "questionVersionId" != "versionNumber" && "questionVersionId" != "versionStatus"
    ensures "versionNumber" != "versionStatus"
  {
    assert "content"[0] == 'c' && "questionVersionId"[0] == 'q' && "versionNumber"[0] == 'v'
           && "versionStatus"[0] == 'v';
    assert "versionNumber"[7] == 'N' && "versionStatus"[7] == 'S';
  }

  // ----- the whole document is tidy

  lemma LeavesAreTidy(id: Id, none: Option<Id>, text: Option<string>, depth: nat)
    ensures Tidy(IdJson(id), depth) && Tidy(IdOrNull(none), depth) && Tidy(TextOrNull(text), depth)
  {
  }

  lemma StringIsTidy(text: string, depth: nat)
    ensures Tidy(JString(text), depth)
  {
  }

  lemma ObjectIsTidy(fields: seq<(string, Json)>, depth: nat)
    requires DistinctNames(fields) && depth > 0 && forall i | 0 <= i < |fields| :: Tidy(fields[i].1, depth - 1)
    ensures Tidy(JObject(fields), depth)
  {
  }

  lemma ListsAreTidy(v: VersionRow, options: seq<OptionRow>, tags: seq<TagRow>, depth: nat)
    requires depth >= 2
    ensures Tidy(JArray(seq(|options|, i requires 0 <= i < |options| => OptionJson(options[i]))), depth)
    ensures Tidy(JArray(seq(|tags|, i requires 0 <= i < |tags| => TagJson(tags[i]))), depth)
  {
    forall i | 0 <= i < |options| ensures Tidy(OptionJson(options[i]), depth - 1) {
      OptionIsSaid(options[i]);
    }
    forall i | 0 <= i < |tags| ensures Tidy(TagJson(tags[i]), depth - 1) {
      TagIsSaid(tags[i]);
    }
  }

  lemma ContentIsTidy(v: VersionRow, options: seq<OptionRow>, tags: seq<TagRow>, depth: nat)
    requires depth >= 3
    ensures Tidy(JObject(ContentFields(v, options, tags)), depth)
  {
    var c := ContentFields(v, options, tags);
    ContentIsNamed(v, options, tags);
    ListsAreTidy(v, options, tags, depth - 1);
    hide DistinctNames;
    forall i | 0 <= i < |c| ensures Tidy(c[i].1, depth - 1) {
    }
  }

  lemma VersionIsTidy(v: VersionRow, options: seq<OptionRow>, tags: seq<TagRow>, depth: nat)
    requires depth >= 4
    ensures Tidy(VersionJson(v, options, tags), depth)
  {
    VersionSays(v, options, tags);
    ContentIsTidy(v, options, tags, depth - 1);
    hide DistinctNames, ContentFields, ContentSays;
    var fields := VersionJson(v, options, tags).fields;
    forall i | 0 <= i < |fields| ensures Tidy(fields[i].1, depth - 1) {
    }
  }

  lemma MemberNamesDiffer()
    ensures Name(QuestionMember) != Name(StatusMember) && Name(QuestionMember) != Name(CurrentMember)
    ensures Name(QuestionMember) != Name(VersionsMember) && Name(StatusMember) != Name(CurrentMember)
    ensures Name(StatusMember) != Name(VersionsMember) && Name(CurrentMember) != Name(VersionsMember)
    ensures Name(SchemaMember) != Name(ExportedAtMember) && Name(SchemaMember) != Name(QuestionsMember)
    ensures Name(ExportedAtMember) != Name(QuestionsMember)
  {
    assert Name(QuestionMember)[0] == 'q' && Name(StatusMember)[0] == 'l' && Name(CurrentMember)[0] == 'c';
    assert Name(VersionsMember)[0] == 'v' && Name(SchemaMember)[0] == 's' && Name(ExportedAtMember)[0] == 'e';
    assert Name(QuestionsMember)[0] == 'q';
  }

  // ----- what the document says

  ghost predicate VersionsSaid(list: seq<Json>, s: Snapshot, question: Id)
    requires HasKeys(s)
  {
    var rows := VersionList(s, question);
    |list| == |rows| && forall i | 0 <= i < |list| ::
      VersionSaid(list[i], rows[i], OptionList(s, rows[i].id), TagList(s, rows[i].id))
  }

  /** A question says its id, its status and what is current, and every version of it in order. */
  ghost predicate QuestionSaid(j: Json, s: Snapshot, question: Id)
    requires HasKeys(s) && question in s.questions
  {
    && At(j, "questionId") == Some(IdJson(question))
    && At(j, "lifecycleStatus") == Some(JString(s.questions[question].lifecycleStatus))
    && At(j, "currentPublishedVersionId")
       == Some(if s.questions[question].current.None? then JNull else IdJson(s.questions[question].current.value))
    && exists list :: At(j, "versions") == Some(JArray(list)) && VersionsSaid(list, s, question)
  }

  ghost predicate QuestionsSaid(list: seq<Json>, s: Snapshot, ids: seq<Id>)
    requires HasKeys(s) && AllPresent(s, ids)
  {
    |list| == |ids| && forall i | 0 <= i < |list| :: QuestionSaid(list[i], s, ids[i])
  }

  /** All versions of the question and no others, by number and then by id. */
  lemma VersionsInOrder(s: Snapshot, question: Id)
    requires HasKeys(s)
    ensures var list := VersionList(s, question);
            && (forall v :: v in list <==> v in s.versions && v.questionId == question)
            && forall i, j | 0 <= i < j < |list| ::
                 || list[i].versionNumber < list[j].versionNumber
                 || (list[i].versionNumber == list[j].versionNumber && list[i].id < list[j].id)
  {
    var list := VersionList(s, question);
    forall i, j | 0 <= i < j < |list|
      ensures list[i].versionNumber < list[j].versionNumber
              || (list[i].versionNumber == list[j].versionNumber && list[i].id < list[j].id)
    {
      assert Less(VERSION_KEY(list[i]), VERSION_KEY(list[j]));
    }
  }

  /** All options of the version and no others, by ordinal and then by id. */
  lemma OptionsInOrder(s: Snapshot, version: Id)
    requires HasKeys(s)
    ensures var list := OptionList(s, version);
            && (forall o :: o in list <==> o in s.options && o.versionId == version)
            && forall i, j | 0 <= i < j < |list| ::
                 || list[i].ordinal < list[j].ordinal
                 || (list[i].ordinal == list[j].ordinal && list[i].id < list[j].id)
  {
    var list := OptionList(s, version);
    hide SeqLess;
    forall i, j | 0 <= i < j < |list|
      ensures list[i].ordinal < list[j].ordinal || (list[i].ordinal == list[j].ordinal && list[i].id < list[j].id)
    {
      assert list[i] in list && list[j] in list;
      assert Less(OPTION_KEY(list[i]), OPTION_KEY(list[j]));
      OneLess(list[i].ordinal, list[j].ordinal);
    }
  }

  /** All tags of the version and no others, by name as texts compare and then by assignment. */
  lemma TagsInOrder(s: Snapshot, version: Id)
    requires HasKeys(s)
    ensures var list := TagList(s, version);
            && (forall t :: t in list <==> t in s.tags && t.versionId == version)
            && forall i, j | 0 <= i < j < |list| ::
                 || TextBefore(list[i].name, list[j].name)
                 || (list[i].name == list[j].name && list[i].assignmentId < list[j].assignmentId)
  {
    var list := TagList(s, version);
    hide SeqLess, Scalars, TextBefore;
    forall i, j | 0 <= i < j < |list|
      ensures TextBefore(list[i].name, list[j].name)
              || (list[i].name == list[j].name && list[i].assignmentId < list[j].assignmentId)
    {
      assert list[i] in list && list[j] in list;
      assert Less(TAG_KEY(list[i]), TAG_KEY(list[j]));
      ScalarsCompare(list[i].name, list[j].name);
      ScalarsDiffer(list[i].name, list[j].name);
    }
  }

  lemma VersionsSay(s: Snapshot, question: Id)
    requires HasKeys(s)
    ensures VersionsSaid(VersionsDocument(s, question).items, s, question)
  {
    hide VersionJson, VersionList, OptionList, TagList, HasKeys, VersionSaid;
    var rows := VersionList(s, question);
    forall i | 0 <= i < |rows|
      ensures VersionSaid(VersionDocument(s, rows[i]), rows[i], OptionList(s, rows[i].id), TagList(s, rows[i].id))
    {
      VersionSays(rows[i], OptionList(s, rows[i].id), TagList(s, rows[i].id));
    }
  }

  /** The member at a place is what a reader finds under its name. */
  ghost predicate Holds(j: Json, i: nat, name: string, value: Json) {
    j.JObject? && i < |j.fields| && j.fields[i] == (name, value)
  }

  lemma AtHeld(j: Json, i: nat, name: string, value: Json)
    requires Holds(j, i, name, value) && DistinctNames(j.fields)
    ensures At(j, name) == Some(value)
  {
    Found(j.fields, i);
  }

  lemma QuestionHolds(s: Snapshot, question: Id)
    requires HasKeys(s) && question in s.questions
    ensures var j := QuestionDocument(s, question);
            && Holds(j, 0, "questionId", IdJson(question))
            && Holds(j, 1, "lifecycleStatus", JString(s.questions[question].lifecycleStatus))
            && Holds(j, 2, "currentPublishedVersionId", IdOrNull(s.questions[question].current))
            && VersionsDocument(s, question).JArray?
            && Holds(j, 3, "versions", JArray(VersionsDocument(s, question).items))
  {
    hide HasKeys, VersionList, VersionDocument, IdJson, IdOrNull;
  }

  lemma QuestionSays(s: Snapshot, question: Id)
    requires HasKeys(s) && question in s.questions
    ensures QuestionSaid(QuestionDocument(s, question), s, question)
  {
    VersionsSay(s, question);
    QuestionIsNamed(s, question);
    QuestionHolds(s, question);
    hide QuestionDocument, DistinctNames, At, VersionsDocument, VersionsSaid, HasKeys, IdJson, Holds;
    var j := QuestionDocument(s, question);
    AtHeld(j, 0, "questionId", IdJson(question));
    AtHeld(j, 1, "lifecycleStatus", JString(s.questions[question].lifecycleStatus));
    AtHeld(j, 2, "currentPublishedVersionId", IdOrNull(s.questions[question].current));
    AtHeld(j, 3, "versions", JArray(VersionsDocument(s, question).items));
  }

  /** The document says its schema, its moment and every question asked for, in the order asked. */
  lemma DocumentSays(s: Snapshot, exportedAt: string, ids: seq<Id>)
    requires HasKeys(s) && AllPresent(s, ids)
    ensures var j := Document(s, exportedAt, ids);
            && At(j, "schemaVersion") == Some(JString("admin-question-export-v1"))
            && At(j, "exportedAt") == Some(JString(exportedAt))
            && exists list :: At(j, "questions") == Some(JArray(list)) && QuestionsSaid(list, s, ids)
  {
    assert QuestionsSaid(QuestionsDocument(s, ids).items, s, ids) by {
      hide HasKeys, QuestionSaid, QuestionDocument;
      forall i | 0 <= i < |ids| ensures QuestionSaid(QuestionDocument(s, ids[i]), s, ids[i]) {
        QuestionSays(s, ids[i]);
      }
    }
    DocumentIsNamed(s, exportedAt, ids);
    hide DistinctNames, Find, QuestionsDocument, QuestionsSaid, HasKeys;
    var fields := Document(s, exportedAt, ids).fields;
    FindName(fields, 0, "schemaVersion");
    FindName(fields, 1, "exportedAt");
    FindName(fields, 2, "questions");
  }

  // ----- every part of the document is tidy

  lemma VersionsAreTidy(s: Snapshot, question: Id, depth: nat)
    requires HasKeys(s) && depth >= 5
    ensures Tidy(VersionsDocument(s, question), depth)
  {
    hide VersionJson, VersionList, OptionList, TagList, HasKeys;
    var list := VersionList(s, question);
    forall i | 0 <= i < |list| ensures Tidy(VersionDocument(s, list[i]), depth - 1) {
      VersionIsTidy(list[i], OptionList(s, list[i].id), TagList(s, list[i].id), depth - 1);
    }
  }

  lemma QuestionParts(s: Snapshot, question: Id)
    requires HasKeys(s) && question in s.questions
    ensures var j := QuestionDocument(s, question);
            && j.JObject? && |j.fields| == 4
            && j.fields[0].1 == IdJson(question)
            && j.fields[1].1 == JString(s.questions[question].lifecycleStatus)
            && j.fields[2].1 == IdOrNull(s.questions[question].current)
            && j.fields[3].1 == VersionsDocument(s, question)
  {
    hide HasKeys, VersionsDocument, IdJson, IdOrNull, Name;
  }

  lemma QuestionIsTidy(s: Snapshot, question: Id, depth: nat)
    requires HasKeys(s) && question in s.questions && depth >= 6
    ensures Tidy(QuestionDocument(s, question), depth)
  {
    hide *;
    VersionsAreTidy(s, question, depth - 1);
    LeavesAreTidy(question, s.questions[question].current, None, depth - 1);
    StringIsTidy(s.questions[question].lifecycleStatus, depth - 1);
    QuestionIsNamed(s, question);
    QuestionParts(s, question);
    ObjectIsTidy(QuestionDocument(s, question).fields, depth);
  }

  lemma QuestionIsNamed(s: Snapshot, question: Id)
    requires HasKeys(s) && question in s.questions
    ensures DistinctNames(QuestionDocument(s, question).fields)
  {
    MemberNamesDiffer();
    hide Name, VersionsDocument, HasKeys, IdJson, IdOrNull;
  }

  lemma QuestionsAreTidy(s: Snapshot, ids: seq<Id>, depth: nat)
    requires HasKeys(s) && AllPresent(s, ids) && depth >= 7
    ensures Tidy(QuestionsDocument(s, ids), depth)
  {
    hide QuestionDocument, HasKeys;
    forall i | 0 <= i < |ids| ensures Tidy(QuestionDocument(s, ids[i]), depth - 1) {
      QuestionIsTidy(s, ids[i], depth - 1);
    }
  }

  lemma DocumentIsNamed(s: Snapshot, exportedAt: string, ids: seq<Id>)
    requires HasKeys(s) && AllPresent(s, ids)
    ensures DistinctNames(Document(s, exportedAt, ids).fields)
  {
    MemberNamesDiffer();
    hide Name, QuestionsDocument, HasKeys;
  }

  lemma DocumentIsTidy(s: Snapshot, exportedAt: string, ids: seq<Id>)
    requires HasKeys(s) && AllPresent(s, ids)
    ensures Tidy(Document(s, exportedAt, ids), 100)
  {
    hide QuestionsDocument, Name, Tidy, DistinctNames, HasKeys;
    QuestionsAreTidy(s, ids, 99);
    StringIsTidy(SchemaVersion(), 99);
    StringIsTidy(exportedAt, 99);
    DocumentIsNamed(s, exportedAt, ids);
    ObjectIsTidy(Document(s, exportedAt, ids).fields, 100);
  }

  /**
    * The text of every export is one the strict scanner of request bodies accepts,
    * and a tree of the grammar spells it that says what the document says.
    */
  lemma ExportIsJson(s: Snapshot, exportedAt: string, ids: seq<Id>) returns (v: G.Value)
    requires HasKeys(s) && AllPresent(s, ids)
    ensures G.ValueText(v) == Utf16(Canonical(Document(s, exportedAt, ids))) && Means(v, Document(s, exportedAt, ids))
    ensures R.Accepts(Utf16(Canonical(Document(s, exportedAt, ids))))
  {
    DocumentIsTidy(s, exportedAt, ids);
    v := CanonicalIsJson(Document(s, exportedAt, ids));
  }
}
