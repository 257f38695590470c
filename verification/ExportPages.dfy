/**
  * An export reads the versions of each question page by page, appends their
  * texts to the bounded body, and checks afterwards that it has seen every
  * retained version.
  */
module ExportPages {
  import opened Common
  import opened Utf8
  import opened Ordering
  import opened CanonicalJson
  import opened ExportBody
  import opened ExportDocument

  datatype Problem = NotFound | TooBig | NoVersions | Incomplete

  predicate TooLong(text: string) {
    |Encode(text)| > BODY_CAP
  }

  /** A text with a part that is too long is too long. */
  lemma LongerIsTooLong(part: string, text: string)
    requires part <= text && TooLong(part)
    ensures TooLong(text)
  {
    PrefixIsShorter(part, text);
  }

  // ----- the children of one page

  /** The options of all versions of a page, in one query. */
  function PageOptions(s: Snapshot, versionIds: set<Id>): seq<OptionRow>
    requires HasKeys(s)
  {
    Ordered((set o | o in s.options && o.versionId in versionIds), OPTION_KEY)
  }

  function PageTags(s: Snapshot, versionIds: set<Id>): seq<TagRow>
    requires HasKeys(s)
  {
    Ordered((set t | t in s.tags && t.versionId in versionIds), TAG_KEY)
  }

  function OptionIsOf(version: Id): OptionRow -> bool {
    (o: OptionRow) => o.versionId == version
  }

  function TagIsOf(version: Id): TagRow -> bool {
    (t: TagRow) => t.versionId == version
  }

  lemma RowsAreKeyed(s: Snapshot, options: set<OptionRow>, tags: set<TagRow>)
    requires HasKeys(s) && options <= s.options && tags <= s.tags
    ensures Keyed(options, OPTION_KEY) && Keyed(tags, TAG_KEY)
  {
  }

  /** Splitting a page's options by version gives each version its own, in order. */
  lemma OptionsOfPage(s: Snapshot, versionIds: set<Id>, version: Id)
    requires HasKeys(s) && version in versionIds
    ensures Filter(PageOptions(s, versionIds), OptionIsOf(version)) == OptionList(s, version)
  {
    hide Ordered, Filter, Keyed;
    var options := set o | o in s.options && o.versionId in versionIds;
    RowsAreKeyed(s, options, {});
    RowsAreKeyed(s, set o | o in s.options && o.versionId == version, {});
    FilterOfOrdered(options, OPTION_KEY, OptionIsOf(version));
    assert Select(options, OptionIsOf(version)) == set o | o in s.options && o.versionId == version;
  }

  lemma TagsOfPage(s: Snapshot, versionIds: set<Id>, version: Id)
    requires HasKeys(s) && version in versionIds
    ensures Filter(PageTags(s, versionIds), TagIsOf(version)) == TagList(s, version)
  {
    hide Ordered, Filter, Keyed;
    var tags := set t | t in s.tags && t.versionId in versionIds;
    RowsAreKeyed(s, {}, tags);
    RowsAreKeyed(s, {}, set t | t in s.tags && t.versionId == version);
    FilterOfOrdered(tags, TAG_KEY, TagIsOf(version));
    assert Select(tags, TagIsOf(version)) == set t | t in s.tags && t.versionId == version;
  }

  // ----- one question

  /** The text of the first i versions. */
  function FirstVersions(s: Snapshot, list: seq<VersionRow>, i: nat): string
    requires HasKeys(s) && i <= |list|
  {
    Commas(VersionTexts(s, list[..i]))
  }

  lemma VersionTextsGrow(s: Snapshot, list: seq<VersionRow>, i: nat)
    requires HasKeys(s) && i < |list|
    ensures FirstVersions(s, list, i + 1)
            == FirstVersions(s, list, i) + Piece(i, Canonical(VersionDocument(s, list[i])))
  {
    hide Canonical, VersionDocument, Commas;
    var texts := VersionTexts(s, list);
    assert texts[..i + 1] == VersionTexts(s, list[..i + 1]);
    assert texts[..i] == VersionTexts(s, list[..i]);
    CommasGrow(texts, i);
  }

  /** The versions of a question up to the i-th are a beginning of all of them. */
  lemma {:induction false} CommasBegin(texts: seq<string>, i: nat)
    requires i <= |texts|
    ensures Commas(texts[..i]) <= Commas(texts)
    decreases |texts| - i
  {
    if i < |texts| {
      CommasGrow(texts, i);
      CommasBegin(texts, i + 1);
    } else {
      assert texts[..i] == texts;
    }
  }

  lemma QuestionBegins(s: Snapshot, question: Id, i: nat)
    requires HasKeys(s) && question in s.questions && i <= |VersionList(s, question)|
    ensures QuestionHead(s, question)
            + Commas(VersionTexts(s, VersionList(s, question)[..i])) <= QuestionText(s, question)
  {
    hide Canonical, VersionDocument, Commas, VersionList;
    var list := VersionList(s, question);
    var texts := VersionTexts(s, list);
    assert texts[..i] == VersionTexts(s, list[..i]);
    CommasBegin(texts, i);
  }

  /** Appends one version after i others; the options and tags are those read for its page. */
  method AppendVersion(body: Body, s: Snapshot, version: VersionRow, versionIds: set<Id>, i: nat,
                       ghost base: string, ghost list: seq<VersionRow>) returns (ok: bool)
    requires body.Valid() && !body.final && HasKeys(s) && version.id in versionIds
    requires i < |list| && list[i] == version && body.text == base + FirstVersions(s, list, i)
    modifies body, body.buffer
    ensures body.Valid() && !body.final
    ensures ok ==> body.text == base + FirstVersions(s, list, i + 1)
    ensures !ok ==> TooLong(base + FirstVersions(s, list, i + 1))
  {
    hide Canonical, VersionJson, FirstVersions, TooLong, OptionList, TagList, Filter, PageOptions, PageTags, Piece;
    OptionsOfPage(s, versionIds, version.id);
    TagsOfPage(s, versionIds, version.id);
    VersionTextsGrow(s, list, i);
    var options := Filter(PageOptions(s, versionIds), OptionIsOf(version.id));
    var tags := Filter(PageTags(s, versionIds), TagIsOf(version.id));
    var text := Canonical(VersionJson(version, options, tags));
    JoinPiece(base, FirstVersions(s, list, i), Piece(i, text));
    ok := AppendPiece(body, i, text);
  }

  lemma JoinPiece(a: string, b: string, c: string)
    ensures a + b + c == a + (b + c)
  {
  }

  /** Appends one more text of a list, after a comma if it is not the first. */
  method AppendPiece(body: Body, i: nat, text: string) returns (ok: bool)
    requires body.Valid() && !body.final
    modifies body, body.buffer
    ensures body.Valid() && !body.final
    ensures ok ==> body.text == old(body.text) + Piece(i, text)
    ensures !ok ==> TooLong(old(body.text) + Piece(i, text))
  {
    hide Encode;
    ghost var before := body.text;
    if i > 0 {
      JoinPiece(before, ",", text);
      var outcome := body.Append(",");
      if outcome.TooLarge? {
        LongerIsTooLong(before + ",", before + Piece(i, text));
        return false;
      }
    }
    var outcome := body.Append(text);
    ok := outcome.Appended?;
  }

  /** Appends the versions of one page. */
  method AppendPage(body: Body, s: Snapshot, page: seq<VersionRow>, from: nat,
                    ghost base: string, ghost list: seq<VersionRow>) returns (ok: bool)
    requires body.Valid() && !body.final && HasKeys(s)
    requires from + |page| <= |list| && list[from..from + |page|] == page
             && body.text == base + FirstVersions(s, list, from)
    modifies body, body.buffer
    ensures body.Valid() && !body.final
    ensures ok ==> body.text == base + FirstVersions(s, list, from + |page|)
    ensures !ok ==> exists k | 0 <= k <= |list| :: TooLong(base + FirstVersions(s, list, k))
  {
    hide Ordered, Filter, TooLong, FirstVersions;
    var versionIds := set v | v in page :: v.id;
    for i := 0 to |page|
      invariant body.Valid() && !body.final
      invariant body.text == base + FirstVersions(s, list, from + i)
    {
      assert page[i] in page && page[i] == list[from + i];
      ok := AppendVersion(body, s, page[i], versionIds, from + i, base, list);
      if !ok { return; }
    }
    ok := true;
  }

  /** The versions of a question after the cursor, at most a page of them. */
  function VersionPage(s: Snapshot, question: Id, cursor: Option<Key>, batch: nat): seq<VersionRow>
    requires HasKeys(s)
  {
    Page(VersionsOf(s, question), VERSION_KEY, cursor, batch)
  }

  function CursorAfter(list: seq<VersionRow>, k: nat): Option<Key>
    requires k <= |list|
  {
    if k == 0 then None else Some(VERSION_KEY(list[k - 1]))
  }

  lemma StartsWithout(list: seq<VersionRow>)
    ensures CursorAfter(list, 0) == None
  {
  }

  predicate IsNextPage(list: seq<VersionRow>, k: nat, batch: nat, page: seq<VersionRow>) {
    && k + |page| <= |list| && page == list[k..k + |page|]
    && (|page| < batch ==> k + |page| == |list|)
  }

  /** A page starts where the versions before it end, and only the last one is short. */
  lemma NextPage(s: Snapshot, question: Id, k: nat, batch: nat)
    requires HasKeys(s) && k <= |VersionList(s, question)|
    ensures IsNextPage(VersionList(s, question), k, batch,
                       VersionPage(s, question, CursorAfter(VersionList(s, question), k), batch))
  {
    hide Ordered, Page;
    PageContinues(VersionsOf(s, question), VERSION_KEY, k, batch);
  }

  lemma PageExtends(list: seq<VersionRow>, k: nat, batch: nat, page: seq<VersionRow>)
    requires IsNextPage(list, k, batch, page)
    ensures list[..k] + page == list[..k + |page|]
    ensures |page| > 0 ==> Some(VERSION_KEY(page[|page| - 1])) == CursorAfter(list, k + |page|)
  {
  }

  /**
    * Reads the versions of a question page by page. The loop ends with an empty
    * or a short page, whatever the page size is.
    */
  method AppendAllVersions(body: Body, s: Snapshot, question: Id, batch: nat, ghost base: string)
    returns (ok: bool, versions: seq<VersionRow>)
    requires body.Valid() && !body.final && HasKeys(s) && batch >= 1 && body.text == base
    modifies body, body.buffer
    ensures body.Valid() && !body.final
    ensures ok ==> versions == VersionList(s, question) && body.text == base + FirstVersions(s, versions, |versions|)
    ensures !ok ==> exists k | 0 <= k <= |VersionList(s, question)| ::
                      TooLong(base + FirstVersions(s, VersionList(s, question), k))
  {
    hide VersionList, TooLong, FirstVersions, VersionPage, CursorAfter, HasKeys, Encode;
    ghost var list := VersionList(s, question);
    NoCommas(s, list);
    var cursor: Option<Key> := None;
    assert cursor == CursorAfter(list, 0) by { StartsWithout(list); }
    versions := [];
    var more := true;
    while more
      invariant body.Valid() && !body.final
      invariant |versions| <= |list| && versions == list[..|versions|]
      invariant cursor == CursorAfter(list, |versions|)
      invariant !more ==> |versions| == |list|
      invariant body.text == base + FirstVersions(s, list, |versions|)
      decreases |list| - |versions|, more
    {
      NextPage(s, question, |versions|, batch);
      var page := VersionPage(s, question, cursor, batch);
      PageExtends(list, |versions|, batch, page);
      if |page| == 0 {
        more := false;
      } else {
        ok := AppendPage(body, s, page, |versions|, base, list);
        if !ok { return; }
        versions := versions + page;
        cursor := Some(VERSION_KEY(page[|page| - 1]));
        if |page| < batch { more := false; }
      }
    }
    assert versions == list;
    ok := true;
  }

  datatype QuestionOutcome = QuestionDone(versions: seq<VersionRow>) | QuestionFails(problem: Problem)

  /** Appends a question: its head, its versions and its end. */
  method AppendQuestion(body: Body, s: Snapshot, question: Id, batch: nat) returns (outcome: QuestionOutcome)
    requires body.Valid() && !body.final && HasKeys(s) && question in s.questions && batch >= 1
    modifies body, body.buffer
    ensures body.Valid() && !body.final
    ensures outcome.QuestionDone? ==>
              && outcome.versions == VersionList(s, question) && |outcome.versions| > 0
              && body.text == old(body.text) + QuestionText(s, question)
    ensures outcome.QuestionFails? ==>
              || (outcome.problem.TooBig? && TooLong(old(body.text) + QuestionText(s, question)))
              || (outcome.problem.NoVersions? && VersionList(s, question) == [])
  {
    hide VersionList, Encode, QuestionHead, FirstVersions, QuestionText;
    ghost var list := VersionList(s, question);
    ghost var before := body.text;
    ghost var base := body.text + QuestionHead(s, question);
    var appended := body.Append(QuestionHead(s, question));
    if !appended.Appended? {
      NoCommas(s, list);
      assert base + FirstVersions(s, list, 0) == base;
      TooLongQuestion(s, question, before, 0);
      return QuestionFails(TooBig);
    }
    var ok, versions := AppendAllVersions(body, s, question, batch, base);
    if !ok {
      ghost var k :| 0 <= k <= |list| && TooLong(base + FirstVersions(s, list, k));
      TooLongQuestion(s, question, before, k);
      return QuestionFails(TooBig);
    }
    if |versions| == 0 { return QuestionFails(NoVersions); }
    WholeQuestion(s, question, before);
    appended := body.Append("]}");
    outcome := if appended.Appended? then QuestionDone(versions) else QuestionFails(TooBig);
  }

  lemma WholeQuestion(s: Snapshot, question: Id, before: string)
    requires HasKeys(s) && question in s.questions
    ensures var list := VersionList(s, question);
            before + QuestionHead(s, question) + FirstVersions(s, list, |list|) + "]}"
              == before + QuestionText(s, question)
  {
    hide QuestionHead, VersionList, VersionTexts, Commas;
    var list := VersionList(s, question);
    assert list[..|list|] == list;
  }

  lemma NoCommas(s: Snapshot, list: seq<VersionRow>)
    requires HasKeys(s)
    ensures FirstVersions(s, list, 0) == ""
  {
    hide Canonical, VersionDocument;
    assert VersionTexts(s, list[..0]) == [];
  }

  lemma TooLongQuestion(s: Snapshot, question: Id, before: string, i: nat)
    requires HasKeys(s) && question in s.questions && i <= |VersionList(s, question)|
    requires TooLong(before + QuestionHead(s, question) + FirstVersions(s, VersionList(s, question), i))
    ensures TooLong(before + QuestionText(s, question))
  {
    hide QuestionHead, QuestionText, VersionList, TooLong;
    QuestionBegins(s, question, i);
    var part := QuestionHead(s, question) + FirstVersions(s, VersionList(s, question), i);
    assert before + QuestionHead(s, question) + FirstVersions(s, VersionList(s, question), i) == before + part;
    assert before + part <= before + QuestionText(s, question);
    LongerIsTooLong(before + part, before + QuestionText(s, question));
  }

  // ----- the retained versions

  function MaxNumber(list: seq<VersionRow>): nat {
    if |list| == 0 then 0
    else
      var front := MaxNumber(list[..|list| - 1]);
      if front > list[|list| - 1].versionNumber then front else list[|list| - 1].versionNumber
  }

  function IdsOf(list: seq<VersionRow>): (ids: seq<Id>)
    ensures |ids| == |list|
  {
    seq(|list|, i requires 0 <= i < |list| => list[i].id)
  }

  datatype Retained = Retained(versionCount: nat, maxVersionNumber: nat, orderedIds: seq<Id>)

  /** The retained versions of a question as the database counts them; none when there is no version. */
  function RetainedOf(s: Snapshot, question: Id): Option<Retained>
    requires HasKeys(s)
  {
    if VersionsOf(s, question) == {} then None
    else Some(Retained(|VersionsOf(s, question)|, MaxNumber(VersionList(s, question)), IdsOf(VersionList(s, question))))
  }

  /** The last loaded version of a question. */
  function LastOf(versions: seq<VersionRow>, question: Id): Option<VersionRow> {
    if |versions| == 0 then None
    else if versions[|versions| - 1].questionId == question then Some(versions[|versions| - 1])
    else LastOf(versions[..|versions| - 1], question)
  }

  predicate Agrees(retained: Option<Retained>, loadedIds: seq<Id>, last: Option<VersionRow>) {
    && retained.Some? && last.Some?
    && retained.value.versionCount == |loadedIds|
    && retained.value.maxVersionNumber == last.value.versionNumber
    && retained.value.orderedIds == loadedIds
  }

  /** Every version of the requested questions, in request order. */
  function AllVersions(s: Snapshot, ids: seq<Id>): seq<VersionRow>
    requires HasKeys(s)
  {
    if |ids| == 0 then [] else AllVersions(s, ids[..|ids| - 1]) + VersionList(s, ids[|ids| - 1])
  }

  lemma {:induction false} LastIsGreatest(list: seq<VersionRow>)
    requires Sorted(list, VERSION_KEY) && |list| > 0
    ensures MaxNumber(list) == list[|list| - 1].versionNumber
    decreases |list|
  {
    var n := |list| - 1;
    if n > 0 {
      LastIsGreatest(list[..n]);
      assert Less(VERSION_KEY(list[n - 1]), VERSION_KEY(list[n]));
    }
  }

  lemma {:induction false} LastOfPair(a: seq<VersionRow>, b: seq<VersionRow>, question: Id)
    requires forall i | 0 <= i < |b| :: b[i].questionId != question
    ensures LastOf(a + b, question) == LastOf(a, question)
    decreases |b|
  {
    if |b| == 0 {
      assert a + b == a;
    } else {
      assert (a + b)[..|a + b| - 1] == a + b[..|b| - 1];
      LastOfPair(a, b[..|b| - 1], question);
    }
  }

  /** The last loaded version of a requested question is the last of its own list. */
  lemma {:induction false} LastOfAll(s: Snapshot, ids: seq<Id>, question: Id)
    requires HasKeys(s) && question in ids && VersionList(s, question) != []
    ensures var list := VersionList(s, question); LastOf(AllVersions(s, ids), question) == Some(list[|list| - 1])
    decreases |ids|
  {
    hide Ordered;
    var n := |ids| - 1;
    var front, list := AllVersions(s, ids[..n]), VersionList(s, ids[n]);
    assert question == ids[n] || question in ids[..n];
    if question == ids[n] {
      assert (front + list)[|front + list| - 1] == list[|list| - 1];
    } else {
      LastOfAll(s, ids[..n], question);
      LastOfPair(front, list, question);
    }
  }

  /** What was loaded page by page agrees with what is retained. */
  lemma LoadedIsRetained(s: Snapshot, ids: seq<Id>, question: Id)
    requires HasKeys(s) && question in ids && VersionList(s, question) != []
    ensures Agrees(RetainedOf(s, question), IdsOf(VersionList(s, question)), LastOf(AllVersions(s, ids), question))
  {
    var list := VersionList(s, question);
    LastOfAll(s, ids, question);
    LastIsGreatest(list);
    assert list[0] in list;
  }

  // ----- the whole export

  datatype Export = Export(canonicalBody: string, versions: seq<VersionRow>)

  lemma QuestionTextsGrow(s: Snapshot, ids: seq<Id>, i: nat)
    requires HasKeys(s) && AllPresent(s, ids) && i < |ids|
    ensures FirstQuestions(s, ids, i + 1) == FirstQuestions(s, ids, i) + Piece(i, QuestionText(s, ids[i]))
  {
    hide QuestionText, Commas;
    var texts := QuestionTexts(s, ids);
    assert texts[..i + 1] == QuestionTexts(s, ids[..i + 1]);
    assert texts[..i] == QuestionTexts(s, ids[..i]);
    CommasGrow(texts, i);
  }

  /** The text of the first i questions. */
  function FirstQuestions(s: Snapshot, ids: seq<Id>, i: nat): string
    requires HasKeys(s) && AllPresent(s, ids) && i <= |ids|
  {
    Commas(QuestionTexts(s, ids[..i]))
  }

  lemma TooLongDocument(s: Snapshot, exportedAt: string, ids: seq<Id>, i: nat)
    requires HasKeys(s) && AllPresent(s, ids) && i <= |ids|
    requires TooLong(DocumentHead(exportedAt) + FirstQuestions(s, ids, i))
    ensures TooLong(DocumentText(s, exportedAt, ids))
  {
    hide DocumentHead, DocumentTail, QuestionText, Commas, TooLong;
    var texts := QuestionTexts(s, ids);
    assert texts[..i] == QuestionTexts(s, ids[..i]);
    CommasBegin(texts, i);
    LongerIsTooLong(DocumentHead(exportedAt) + FirstQuestions(s, ids, i), DocumentText(s, exportedAt, ids));
  }

  lemma WholeDocument(s: Snapshot, exportedAt: string, ids: seq<Id>)
    requires HasKeys(s) && AllPresent(s, ids)
    ensures DocumentHead(exportedAt) + FirstQuestions(s, ids, |ids|) + DocumentTail()
            == DocumentText(s, exportedAt, ids)
    ensures FirstQuestions(s, ids, 0) == ""
  {
    hide DocumentHead, DocumentTail, QuestionText;
    assert ids[..|ids|] == ids;
    assert QuestionTexts(s, ids[..0]) == [];
  }

  /** Appends one question after i others. */
  method AppendListed(body: Body, s: Snapshot, ids: seq<Id>, i: nat, batch: nat, ghost head: string)
    returns (outcome: QuestionOutcome)
    requires body.Valid() && !body.final && HasKeys(s) && AllPresent(s, ids) && i < |ids| && batch >= 1
    requires body.text == head + FirstQuestions(s, ids, i)
    modifies body, body.buffer
    ensures body.Valid() && !body.final
    ensures outcome.QuestionDone? ==>
              && outcome.versions == VersionList(s, ids[i]) && |outcome.versions| > 0
              && body.text == head + FirstQuestions(s, ids, i + 1)
    ensures outcome.QuestionFails? ==>
              || (outcome.problem.TooBig? && TooLong(head + FirstQuestions(s, ids, i + 1)))
              || (outcome.problem.NoVersions? && VersionList(s, ids[i]) == [])
  {
    hide QuestionText, FirstQuestions, Encode, VersionList;
    QuestionTextsGrow(s, ids, i);
    ghost var before, text := body.text, QuestionText(s, ids[i]);
    JoinPiece(head, FirstQuestions(s, ids, i), Piece(i, text));
    if i > 0 {
      JoinPiece(before, ",", text);
      var appended := body.Append(",");
      if !appended.Appended? {
        LongerIsTooLong(before + ",", before + Piece(i, text));
        return QuestionFails(TooBig);
      }
    }
    outcome := AppendQuestion(body, s, ids[i], batch);
  }

  predicate Fits(s: Snapshot, exportedAt: string, ids: seq<Id>)
    requires HasKeys(s) && AllPresent(s, ids)
  {
    |Encode(Canonical(Document(s, exportedAt, ids)))| <= BODY_CAP
  }

  /** The versions loaded for each question, by question. */
  predicate LoadedIds(s: Snapshot, ids: seq<Id>, i: nat, versionIds: map<Id, seq<Id>>)
    requires HasKeys(s) && i <= |ids|
  {
    forall j | 0 <= j < i :: ids[j] in versionIds && versionIds[ids[j]] == IdsOf(VersionList(s, ids[j]))
  }

  predicate HasVersions(s: Snapshot, ids: seq<Id>, i: nat)
    requires HasKeys(s) && i <= |ids|
  {
    forall j | 0 <= j < i :: VersionList(s, ids[j]) != []
  }

  /** Appends the questions in request order and collects their versions. */
  method AppendQuestions(body: Body, s: Snapshot, ids: seq<Id>, exportedAt: string, batch: nat)
    returns (ok: bool, problem: Problem, versions: seq<VersionRow>, versionIds: map<Id, seq<Id>>)
    requires body.Valid() && !body.final && HasKeys(s) && AllPresent(s, ids) && batch >= 1
    requires body.text == DocumentHead(exportedAt)
    modifies body, body.buffer
    ensures body.Valid() && !body.final
    ensures ok ==>
              && body.text == DocumentHead(exportedAt) + FirstQuestions(s, ids, |ids|)
              && versions == AllVersions(s, ids)
              && LoadedIds(s, ids, |ids|, versionIds) && HasVersions(s, ids, |ids|)
    ensures !ok ==>
              || (problem.TooBig? && TooLong(DocumentText(s, exportedAt, ids)))
              || (problem.NoVersions? && !HasVersions(s, ids, |ids|))
  {
    hide Encode, DocumentHead, DocumentText, FirstQuestions, VersionList, TooLong;
    ghost var head := DocumentHead(exportedAt);
    WholeDocument(s, exportedAt, ids);
    assert head + FirstQuestions(s, ids, 0) == head;
    ok, problem, versions, versionIds := true, NotFound, [], map[];
    for i := 0 to |ids|
      invariant body.Valid() && !body.final
      invariant ok && body.text == head + FirstQuestions(s, ids, i)
      invariant versions == AllVersions(s, ids[..i])
      invariant LoadedIds(s, ids, i, versionIds) && HasVersions(s, ids, i)
    {
      var outcome := AppendListed(body, s, ids, i, batch, head);
      if outcome.QuestionFails? {
        if outcome.problem.TooBig? { TooLongDocument(s, exportedAt, ids, i + 1); }
        ok, problem := false, outcome.problem;
        return;
      }
      assert ids[..i + 1][..i] == ids[..i];
      versions := versions + outcome.versions;
      versionIds := versionIds[ids[i] := IdsOf(outcome.versions)];
    }
    assert ids[..|ids|] == ids;
  }

  /** Compares what was loaded with what is retained; it always agrees. */
  method CheckRetained(s: Snapshot, ids: seq<Id>, versions: seq<VersionRow>, versionIds: map<Id, seq<Id>>)
    returns (complete: bool)
    requires HasKeys(s) && versions == AllVersions(s, ids) && LoadedIds(s, ids, |ids|, versionIds)
             && HasVersions(s, ids, |ids|)
    ensures complete
  {
    hide VersionList, Agrees, AllVersions, RetainedOf;
    for i := 0 to |ids| {
      LoadedIsRetained(s, ids, ids[i]);
      if !Agrees(RetainedOf(s, ids[i]), versionIds[ids[i]], LastOf(versions, ids[i])) { return false; }
    }
    complete := true;
  }

  /**
    * Builds the bounded export. It gives the canonical text of the whole
    * document and every version of every requested question, in order, or fails
    * because a question is missing or has no version, or because the document
    * does not fit; the check against the retained versions never fails.
    */
  method BuildExport(s: Snapshot, ids: seq<Id>, exportedAt: string, batch: nat) returns (r: Result<Export, Problem>)
    requires HasKeys(s) && batch >= 1
    ensures r == Err(NotFound) <==> !AllPresent(s, ids)
    ensures r.Ok? ==> r.value == Export(Canonical(Document(s, exportedAt, ids)), AllVersions(s, ids))
    ensures r.Ok? ==> HasVersions(s, ids, |ids|) && Fits(s, exportedAt, ids)
    ensures AllPresent(s, ids) && HasVersions(s, ids, |ids|) ==> (r.Ok? <==> Fits(s, exportedAt, ids))
    ensures r == Err(TooBig) ==> !Fits(s, exportedAt, ids)
    ensures r == Err(NoVersions) ==> !HasVersions(s, ids, |ids|)
    ensures r != Err(Incomplete)
  {
    hide Encode, Canonical, Document, DocumentHead, DocumentTail, DocumentText, FirstQuestions, LoadedIds, HasVersions,
         AllVersions;
    var missing := exists i | 0 <= i < |ids| :: ids[i] !in s.questions;
    if missing { return Err(NotFound); }
    DocumentTextIsCanonical(s, exportedAt, ids);
    WholeDocument(s, exportedAt, ids);
    ghost var head := DocumentHead(exportedAt);
    var body := new Body();
    var appended := body.Append(DocumentHead(exportedAt));
    if !appended.Appended? {
      assert "" + head == head && head + FirstQuestions(s, ids, 0) == head;
      TooLongDocument(s, exportedAt, ids, 0);
      return Err(TooBig);
    }
    var ok, problem, versions, versionIds := AppendQuestions(body, s, ids, exportedAt, batch);
    if !ok { return Err(problem); }
    appended := body.Append(DocumentTail());
    if !appended.Appended? { return Err(TooBig); }
    var complete := CheckRetained(s, ids, versions, versionIds);
    if !complete { return Err(Incomplete); }
    var value := body.Value();
    r := Ok(Export(value.value, versions));
  }
}
