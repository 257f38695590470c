/** The loops that collect the issues of an import. */
module ImportValidator {
  import opened Common
  import opened Ordering
  import opened ImportValidation

  function Members<T>(list: seq<T>): set<T> {
    set x | x in list
  }

  /** An issue with the same item, path and code is not recorded twice. */
  function PushIssue(issues: seq<Issue>, issue: Issue): (r: seq<Issue>)
    requires Distinct(issues)
    ensures Distinct(r) && Members(r) == Members(issues) + {issue}
  {
    if issue in issues then issues else issues + [issue]
  }

  /** The values before the n-th. */
  function Seen<T>(list: seq<T>, n: nat): set<T>
    requires n <= |list|
  {
    Members(list[..n])
  }

  lemma SeenGrows<T>(list: seq<T>, n: nat)
    requires n < |list|
    ensures Seen(list, n + 1) == Seen(list, n) + {list[n]}
    ensures list[n] in Seen(list, n) <==> Repeats(list, n)
  {
    assert list[..n + 1] == list[..n] + [list[n]];
  }

  lemma SeenNone<T>(list: seq<T>)
    ensures Seen(list, 0) == {}
  {
  }

  // ----- the faults, as sets of issues

  /** The issue at a spot, if the spot is a fault. */
  function One(ctx: Context, items: seq<Item>, i: nat, place: Place, code: Code): set<Issue>
    requires i < |items|
  {
    if IsFault(ctx, items, i, Spot(place, code)) then {IssueAt(i, Spot(place, code))} else {}
  }

  function OptionIssues(ctx: Context, items: seq<Item>, i: nat, n: nat): set<Issue>
    requires i < |items|
  {
    if n == 0 then {}
    else
      OptionIssues(ctx, items, i, n - 1)
      + One(ctx, items, i, OptionKeyPlace(n - 1), DuplicateOptionKey)
      + One(ctx, items, i, OptionTextPlace(n - 1), DuplicateOptionText)
  }

  function TagIssues(ctx: Context, items: seq<Item>, i: nat, n: nat): set<Issue>
    requires i < |items|
  {
    if n == 0 then {}
    else
      TagIssues(ctx, items, i, n - 1)
      + One(ctx, items, i, TagPlace(n - 1), DuplicateTag)
      + One(ctx, items, i, TagPlace(n - 1), UnknownTag)
      + One(ctx, items, i, TagPlace(n - 1), TagSubjectMismatch)
  }

  function ItemIssues(ctx: Context, items: seq<Item>, i: nat): set<Issue>
    requires i < |items|
  {
    One(ctx, items, i, ItemIdPlace, DuplicateItemId)
    + OptionIssues(ctx, items, i, |items[i].content.options|)
    + One(ctx, items, i, CorrectKeyPlace, CorrectKeyMissing)
    + TagIssues(ctx, items, i, |items[i].content.tagNames|)
    + One(ctx, items, i, PassagePlace, InvalidPassage)
    + One(ctx, items, i, TypePlace, InvalidContent)
  }

  /** The issues of the first n items, without duplicates of questions. */
  function FirstIssues(ctx: Context, items: seq<Item>, n: nat): set<Issue>
    requires n <= |items|
  {
    if n == 0 then {} else FirstIssues(ctx, items, n - 1) + ItemIssues(ctx, items, n - 1)
  }

  function DuplicateIssues(ctx: Context, items: seq<Item>, n: nat): set<Issue>
    requires n <= |items|
  {
    if n == 0 then {}
    else DuplicateIssues(ctx, items, n - 1) + One(ctx, items, n - 1, QuestionTextPlace, DuplicateContent)
  }

  function AllIssues(ctx: Context, items: seq<Item>): set<Issue> {
    FirstIssues(ctx, items, |items|) + DuplicateIssues(ctx, items, |items|)
  }

  // ----- the sets hold exactly the faults

  ghost predicate IsIssueOf(ctx: Context, items: seq<Item>, x: Issue) {
    x.itemIndex < |items| && exists spot :: IsFault(ctx, items, x.itemIndex, spot) && x == IssueAt(x.itemIndex, spot)
  }

  lemma OneHolds(ctx: Context, items: seq<Item>, i: nat, place: Place, code: Code)
    requires i < |items|
    ensures forall x | x in One(ctx, items, i, place, code) :: x.itemIndex == i && IsIssueOf(ctx, items, x)
    ensures IsFault(ctx, items, i, Spot(place, code)) ==>
              IssueAt(i, Spot(place, code)) in One(ctx, items, i, place, code)
  {
    hide IsFault, PathOf;
  }

  /** Which codes a place can have. */
  lemma CodesOf(ctx: Context, items: seq<Item>, i: nat, n: nat, code: Code)
    requires i < |items|
    ensures IsFault(ctx, items, i, Spot(OptionKeyPlace(n), code)) ==> code == DuplicateOptionKey
    ensures IsFault(ctx, items, i, Spot(OptionTextPlace(n), code)) ==> code == DuplicateOptionText
    ensures IsFault(ctx, items, i, Spot(TagPlace(n), code)) ==>
              code == DuplicateTag || code == UnknownTag || code == TagSubjectMismatch
  {
  }

  lemma {:induction false} OptionIssuesHold(ctx: Context, items: seq<Item>, i: nat, n: nat)
    requires i < |items|
    ensures forall x | x in OptionIssues(ctx, items, i, n) :: x.itemIndex == i && IsIssueOf(ctx, items, x)
    ensures forall k: nat, code | k < n && IsFault(ctx, items, i, Spot(OptionKeyPlace(k), code)) ::
              IssueAt(i, Spot(OptionKeyPlace(k), code)) in OptionIssues(ctx, items, i, n)
    ensures forall k: nat, code | k < n && IsFault(ctx, items, i, Spot(OptionTextPlace(k), code)) ::
              IssueAt(i, Spot(OptionTextPlace(k), code)) in OptionIssues(ctx, items, i, n)
    decreases n
  {
    hide IsFault, PathOf, One, IsIssueOf;
    if n > 0 {
      OptionIssuesHold(ctx, items, i, n - 1);
      OneHolds(ctx, items, i, OptionKeyPlace(n - 1), DuplicateOptionKey);
      OneHolds(ctx, items, i, OptionTextPlace(n - 1), DuplicateOptionText);
      var m := n - 1;
      forall code | IsFault(ctx, items, i, Spot(OptionKeyPlace(m), code)) ensures code == DuplicateOptionKey {
        CodesOf(ctx, items, i, m, code);
      }
      forall code | IsFault(ctx, items, i, Spot(OptionTextPlace(m), code)) ensures code == DuplicateOptionText {
        CodesOf(ctx, items, i, m, code);
      }
    }
  }

  lemma {:induction false} TagIssuesHold(ctx: Context, items: seq<Item>, i: nat, n: nat)
    requires i < |items|
    ensures forall x | x in TagIssues(ctx, items, i, n) :: x.itemIndex == i && IsIssueOf(ctx, items, x)
    ensures forall k: nat, code | k < n && IsFault(ctx, items, i, Spot(TagPlace(k), code)) ::
              IssueAt(i, Spot(TagPlace(k), code)) in TagIssues(ctx, items, i, n)
    decreases n
  {
    hide IsFault, PathOf, One, IsIssueOf;
    if n > 0 {
      TagIssuesHold(ctx, items, i, n - 1);
      OneHolds(ctx, items, i, TagPlace(n - 1), DuplicateTag);
      OneHolds(ctx, items, i, TagPlace(n - 1), UnknownTag);
      OneHolds(ctx, items, i, TagPlace(n - 1), TagSubjectMismatch);
      var m := n - 1;
      forall code | IsFault(ctx, items, i, Spot(TagPlace(m), code))
        ensures IssueAt(i, Spot(TagPlace(m), code)) in TagIssues(ctx, items, i, n)
      {
        CodesOf(ctx, items, i, m, code);
      }
    }
  }

  lemma ItemIssuesHold(ctx: Context, items: seq<Item>, i: nat)
    requires i < |items|
    ensures forall x | x in ItemIssues(ctx, items, i) :: x.itemIndex == i && IsIssueOf(ctx, items, x)
    ensures forall spot: Spot | IsFault(ctx, items, i, spot) && !spot.place.QuestionTextPlace? ::
              IssueAt(i, spot) in ItemIssues(ctx, items, i)
  {
    hide Repeats, Keys, Texts, Identities, PathOf, OptionIssues, TagIssues;
    var c := items[i].content;
    OptionIssuesHold(ctx, items, i, |c.options|);
    TagIssuesHold(ctx, items, i, |c.tagNames|);
    forall spot: Spot | IsFault(ctx, items, i, spot) && !spot.place.QuestionTextPlace?
      ensures IssueAt(i, spot) in ItemIssues(ctx, items, i)
    {
      assert spot == Spot(spot.place, spot.code);
      RepeatsInside(ctx, c, spot);
    }
  }

  lemma RepeatsInside(ctx: Context, c: Content, spot: Spot)
    ensures spot.place.OptionKeyPlace? && Repeats(Keys(c), spot.place.n) ==> spot.place.n < |c.options|
    ensures spot.place.OptionTextPlace? && Repeats(Texts(ctx, c), spot.place.n) ==> spot.place.n < |c.options|
  {
  }

  lemma LastIssuesHold(ctx: Context, items: seq<Item>, m: nat)
    requires m < |items|
    ensures forall spot :: IsFault(ctx, items, m, spot) ==>
              IssueAt(m, spot) in FirstIssues(ctx, items, m + 1) + DuplicateIssues(ctx, items, m + 1)
  {
    hide ItemIssues, PathOf, Repeats, Eligible, FingerprintOf;
    ItemIssuesHold(ctx, items, m);
    forall spot ensures IsFault(ctx, items, m, spot) ==>
        IssueAt(m, spot) in FirstIssues(ctx, items, m + 1) + DuplicateIssues(ctx, items, m + 1)
    {
      assert spot == Spot(spot.place, spot.code);
    }
  }

  lemma {:induction false} FirstIssuesHold(ctx: Context, items: seq<Item>, n: nat)
    requires n <= |items|
    ensures forall x | x in FirstIssues(ctx, items, n) + DuplicateIssues(ctx, items, n) :: IsIssueOf(ctx, items, x)
    ensures forall i: nat, spot | i < n && IsFault(ctx, items, i, spot) ::
              IssueAt(i, spot) in FirstIssues(ctx, items, n) + DuplicateIssues(ctx, items, n)
    decreases n
  {
    hide ItemIssues, PathOf, Repeats, Eligible, FingerprintOf;
    if n > 0 {
      FirstIssuesHold(ctx, items, n - 1);
      ItemIssuesHold(ctx, items, n - 1);
      LastIssuesHold(ctx, items, n - 1);
    }
  }

  lemma RankIsInjective(a: Code, b: Code)
    requires Rank(a) == Rank(b)
    ensures a == b
  {
  }

  lemma IssuesAreKeyed(issues: set<Issue>)
    ensures Keyed(issues, ISSUE_KEY)
  {
    forall a, b | a in issues && b in issues && ISSUE_KEY(a) == ISSUE_KEY(b) ensures a == b {
      RankIsInjective(a.code, b.code);
      ScalarsDiffer(a.fieldPath, b.fieldPath);
    }
  }

  // ----- the loops

  lemma OneOption(ctx: Context, items: seq<Item>, i: nat, n: nat)
    requires i < |items| && n < |items[i].content.options|
    ensures OptionIssues(ctx, items, i, n + 1)
         == OptionIssues(ctx, items, i, n)
            + (if Repeats(Keys(items[i].content), n) then {IssueAt(i, Spot(OptionKeyPlace(n), DuplicateOptionKey))}
               else {})
            + (if Repeats(Texts(ctx, items[i].content), n)
               then {IssueAt(i, Spot(OptionTextPlace(n), DuplicateOptionText))} else {})
  {
  }

  method CollectOptions(ctx: Context, items: seq<Item>, i: nat, before: seq<Issue>)
    returns (issues: seq<Issue>, duplicateKey: bool, duplicateText: bool)
    requires i < |items| && Distinct(before)
    ensures Distinct(issues)
    ensures Members(issues) == Members(before) + OptionIssues(ctx, items, i, |items[i].content.options|)
    ensures duplicateKey <==> !Distinct(Keys(items[i].content))
    ensures duplicateText <==> !Distinct(Texts(ctx, items[i].content))
  {
    hide PathOf, Distinct, OptionIssues, Repeats, Seen, Members, IssueAt, PushIssue;
    var c := items[i].content;
    ghost var keys, texts := Keys(c), Texts(ctx, c);
    issues, duplicateKey, duplicateText := before, false, false;
    var optionKeys: set<string>, optionTexts: set<string> := {}, {};
    SeenNone(keys);
    SeenNone(texts);
    assert OptionIssues(ctx, items, i, 0) == {} by { NoIssues(ctx, items, i); }
    for n := 0 to |c.options|
      invariant Distinct(issues) && Members(issues) == Members(before) + OptionIssues(ctx, items, i, n)
      invariant optionKeys == Seen(keys, n) && optionTexts == Seen(texts, n)
      invariant duplicateKey <==> exists k: nat | k < n :: Repeats(keys, k)
      invariant duplicateText <==> exists k: nat | k < n :: Repeats(texts, k)
    {
      SeenGrows(keys, n);
      SeenGrows(texts, n);
      OneOption(ctx, items, i, n);
      var option := c.options[n];
      if option.key in optionKeys {
        duplicateKey := true;
        issues := PushIssue(issues, IssueAt(i, Spot(OptionKeyPlace(n), DuplicateOptionKey)));
      }
      var normalized := ctx.comparison(option.text);
      if normalized in optionTexts {
        duplicateText := true;
        issues := PushIssue(issues, IssueAt(i, Spot(OptionTextPlace(n), DuplicateOptionText)));
      }
      optionKeys, optionTexts := optionKeys + {option.key}, optionTexts + {normalized};
    }
    DistinctMeansNoRepeat(keys);
    DistinctMeansNoRepeat(texts);
  }

  lemma NoIssues(ctx: Context, items: seq<Item>, i: nat)
    requires i < |items|
    ensures OptionIssues(ctx, items, i, 0) == {} && TagIssues(ctx, items, i, 0) == {}
  {
  }

  lemma OneTag(ctx: Context, items: seq<Item>, i: nat, n: nat)
    requires i < |items| && n < |items[i].content.tagNames|
    ensures TagIssues(ctx, items, i, n + 1)
         == TagIssues(ctx, items, i, n)
            + (if IsTagFault(ctx, items[i].content, n, DuplicateTag) then {IssueAt(i, Spot(TagPlace(n), DuplicateTag))}
               else {})
            + (if IsTagFault(ctx, items[i].content, n, UnknownTag) then {IssueAt(i, Spot(TagPlace(n), UnknownTag))}
               else {})
            + (if IsTagFault(ctx, items[i].content, n, TagSubjectMismatch)
               then {IssueAt(i, Spot(TagPlace(n), TagSubjectMismatch))} else {})
  {
    hide IsTagFault, IssueAt;
  }

  method CollectTags(ctx: Context, items: seq<Item>, i: nat, before: seq<Issue>) returns (issues: seq<Issue>)
    requires i < |items| && Distinct(before)
    ensures Distinct(issues)
    ensures Members(issues) == Members(before) + TagIssues(ctx, items, i, |items[i].content.tagNames|)
  {
    hide PathOf, Distinct, TagIssues, Repeats, Seen, Members, IssueAt, PushIssue;
    var c := items[i].content;
    ghost var identities := Identities(ctx, c);
    issues := before;
    var tagKeys: set<string> := {};
    SeenNone(identities);
    NoIssues(ctx, items, i);
    for n := 0 to |c.tagNames|
      invariant Distinct(issues) && Members(issues) == Members(before) + TagIssues(ctx, items, i, n)
      invariant tagKeys == Seen(identities, n)
    {
      SeenGrows(identities, n);
      OneTag(ctx, items, i, n);
      var reference := ctx.tagKey(c.tagNames[n]);
      var identity := if reference in ctx.tags then ctx.tags[reference].id else reference;
      if identity in tagKeys {
        issues := PushIssue(issues, IssueAt(i, Spot(TagPlace(n), DuplicateTag)));
      }
      if reference !in ctx.tags {
        issues := PushIssue(issues, IssueAt(i, Spot(TagPlace(n), UnknownTag)));
      } else if ctx.tags[reference].subject != None && ctx.tags[reference].subject != Some(c.subject) {
        issues := PushIssue(issues, IssueAt(i, Spot(TagPlace(n), TagSubjectMismatch)));
      }
      tagKeys := tagKeys + {identity};
    }
  }

  method CountCorrect(c: Content) returns (count: nat)
    ensures count == CountKey(c.options, c.correctKey)
  {
    count := 0;
    for n := 0 to |c.options|
      invariant count == CountKey(c.options[..n], c.correctKey)
    {
      assert c.options[..n + 1][..n] == c.options[..n];
      if c.options[n].key == c.correctKey { count := count + 1; }
    }
    assert c.options[..|c.options|] == c.options;
  }

  function When(fault: bool, issue: Issue): set<Issue> {
    if fault then {issue} else {}
  }

  function ItemFaults(ctx: Context, items: seq<Item>, i: nat): set<Issue>
    requires i < |items|
  {
    var c := items[i].content;
    When(Repeats(ItemIds(items), i), IssueAt(i, Spot(ItemIdPlace, DuplicateItemId)))
    + OptionIssues(ctx, items, i, |c.options|)
    + When(CountKey(c.options, c.correctKey) == 0, IssueAt(i, Spot(CorrectKeyPlace, CorrectKeyMissing)))
    + TagIssues(ctx, items, i, |c.tagNames|)
    + When(!PassageIsValid(c), IssueAt(i, Spot(PassagePlace, InvalidPassage)))
    + When(!IsApplicable(c.level, c.subject, c.questionType), IssueAt(i, Spot(TypePlace, InvalidContent)))
  }

  lemma ItemParts(ctx: Context, items: seq<Item>, i: nat)
    requires i < |items|
    ensures ItemIssues(ctx, items, i) == ItemFaults(ctx, items, i)
  {
    hide OptionIssues, TagIssues, CountKey, PassageIsValid, IsApplicable, Repeats, IssueAt;
  }

  /** The issues of one item; a fingerprint when the item is eligible. */
  method CollectItem(ctx: Context, items: seq<Item>, i: nat, seenItemIds: set<string>, before: seq<Issue>)
    returns (issues: seq<Issue>, fingerprint: Option<Fingerprint>)
    requires i < |items| && Distinct(before) && seenItemIds == Seen(ItemIds(items), i)
    ensures Distinct(issues) && Members(issues) == Members(before) + ItemIssues(ctx, items, i)
    ensures fingerprint == EligibleFingerprint(ctx, items[i].content)
  {
    hide Distinct, OptionIssues, TagIssues, FingerprintOf, CountKey, Keys, Texts, IsApplicable, PassageIsValid,
         Repeats, Seen, Members, IssueAt, PushIssue, One, ItemIssues;
    var c := items[i].content;
    issues := before;
    SeenGrows(ItemIds(items), i);
    ItemParts(ctx, items, i);
    if items[i].clientItemId in seenItemIds {
      issues := PushIssue(issues, IssueAt(i, Spot(ItemIdPlace, DuplicateItemId)));
    }
    var duplicateKey, duplicateText;
    issues, duplicateKey, duplicateText := CollectOptions(ctx, items, i, issues);
    var correctCount := CountCorrect(c);
    if correctCount == 0 {
      issues := PushIssue(issues, IssueAt(i, Spot(CorrectKeyPlace, CorrectKeyMissing)));
    }
    issues := CollectTags(ctx, items, i, issues);
    if !PassageIsValid(c) {
      issues := PushIssue(issues, IssueAt(i, Spot(PassagePlace, InvalidPassage)));
    }
    if !IsApplicable(c.level, c.subject, c.questionType) {
      issues := PushIssue(issues, IssueAt(i, Spot(TypePlace, InvalidContent)));
    }
    fingerprint := None;
    if !duplicateKey && !duplicateText && correctCount == 1 && PassageIsValid(c)
       && IsApplicable(c.level, c.subject, c.questionType) {
      fingerprint := Some(FingerprintOf(ctx, c));
    }
  }

  /** The duplicates among the eligible items and of the store. */
  method CollectDuplicates(ctx: Context, items: seq<Item>, fingerprints: seq<Option<Fingerprint>>, before: seq<Issue>)
    returns (issues: seq<Issue>)
    requires Distinct(before) && fingerprints == EligibleFingerprints(ctx, items)
    ensures Distinct(issues) && Members(issues) == Members(before) + DuplicateIssues(ctx, items, |items|)
  {
    hide PathOf, Distinct, FingerprintOf, Eligible;
    issues := before;
    var seen: set<Fingerprint> := {};
    for i := 0 to |items|
      invariant Distinct(issues) && Members(issues) == Members(before) + DuplicateIssues(ctx, items, i)
      invariant forall f :: f in seen <==> Some(f) in fingerprints[..i]
    {
      assert fingerprints[..i + 1] == fingerprints[..i] + [fingerprints[i]];
      if fingerprints[i].Some? {
        var f := fingerprints[i].value;
        if f in ctx.existing || f in seen {
          issues := PushIssue(issues, IssueAt(i, Spot(QuestionTextPlace, DuplicateContent)));
        }
        seen := seen + {f};
      }
    }
  }

  datatype Response = Response(valid: bool, itemCount: nat, errors: seq<Issue>)

  /**
    * Validates an import: the errors are exactly its faults, sorted, and it is
    * valid exactly when every rule holds.
    */
  method CollectValidation(ctx: Context, items: seq<Item>) returns (response: Response)
    ensures AreTheIssues(ctx, items, response.errors)
    ensures response.valid <==> IsValidImport(ctx, items)
    ensures response.valid <==> response.errors == []
    ensures response.itemCount == |items|
  {
    hide Distinct, ItemIssues, EligibleFingerprint, DuplicateIssues, IsFault, Seen, Repeats;
    SeenNone(ItemIds(items));
    var issues: seq<Issue> := [];
    var seenItemIds: set<string> := {};
    var fingerprints: seq<Option<Fingerprint>> := [];
    assert Distinct(issues) by { NothingRepeats(issues); }
    for i := 0 to |items|
      invariant Distinct(issues) && Members(issues) == FirstIssues(ctx, items, i)
      invariant seenItemIds == Seen(ItemIds(items), i)
      invariant fingerprints == EligibleFingerprints(ctx, items)[..i]
    {
      SeenGrows(ItemIds(items), i);
      var fingerprint;
      issues, fingerprint := CollectItem(ctx, items, i, seenItemIds, issues);
      seenItemIds := seenItemIds + {items[i].clientItemId};
      fingerprints := fingerprints + [fingerprint];
    }
    issues := CollectDuplicates(ctx, items, fingerprints, issues);
    var errors := SortIssues(issues);
    IssuesMean(ctx, items, errors);
    response := Response(|errors| == 0, |items|, errors);
  }

  lemma NothingRepeats(issues: seq<Issue>)
    requires issues == []
    ensures Distinct(issues)
  {
  }

  /** In the order of item, path and code. */
  method SortIssues(issues: seq<Issue>) returns (sorted: seq<Issue>)
    requires Distinct(issues)
    ensures Sorted(sorted, ISSUE_KEY) && Members(sorted) == Members(issues)
  {
    IssuesAreKeyed(Members(issues));
    sorted := Ordered(Members(issues), ISSUE_KEY);
  }

  lemma IssuesMean(ctx: Context, items: seq<Item>, errors: seq<Issue>)
    requires Sorted(errors, ISSUE_KEY) && Members(errors) == AllIssues(ctx, items)
    ensures AreTheIssues(ctx, items, errors)
    ensures errors == [] <==> IsValidImport(ctx, items)
  {
    hide FirstIssues, DuplicateIssues, IsFault, IsValidImport;
    FirstIssuesHold(ctx, items, |items|);
    forall x | x in errors ensures IsIssueOf(ctx, items, x) {
      assert x in Members(errors);
    }
    forall i: nat, spot | i < |items| && IsFault(ctx, items, i, spot) ensures IssueAt(i, spot) in errors {
      assert IssueAt(i, spot) in Members(errors);
    }
    ValidMeansNoFault(ctx, items);
    if errors != [] {
      assert errors[0] in errors;
    }
  }

  method OptionsRepeat(ctx: Context, c: Content) returns (duplicateKey: bool, duplicateText: bool)
    ensures duplicateKey <==> !Distinct(Keys(c))
    ensures duplicateText <==> !Distinct(Texts(ctx, c))
  {
    hide Seen, Repeats, Distinct;
    ghost var keys, texts := Keys(c), Texts(ctx, c);
    duplicateKey, duplicateText := false, false;
    var optionKeys: set<string>, optionTexts: set<string> := {}, {};
    SeenNone(keys);
    SeenNone(texts);
    for n := 0 to |c.options|
      invariant optionKeys == Seen(keys, n) && optionTexts == Seen(texts, n)
      invariant duplicateKey <==> exists k: nat | k < n :: Repeats(keys, k)
      invariant duplicateText <==> exists k: nat | k < n :: Repeats(texts, k)
    {
      SeenGrows(keys, n);
      SeenGrows(texts, n);
      if c.options[n].key in optionKeys { duplicateKey := true; }
      var normalized := ctx.comparison(c.options[n].text);
      if normalized in optionTexts { duplicateText := true; }
      optionKeys, optionTexts := optionKeys + {c.options[n].key}, optionTexts + {normalized};
    }
    DistinctMeansNoRepeat(keys);
    DistinctMeansNoRepeat(texts);
  }

  /** The fingerprints another query may ask for are those of the eligible items. */
  method EligibleImportFingerprints(ctx: Context, items: seq<Item>) returns (fingerprints: set<Fingerprint>)
    ensures forall f :: f in fingerprints <==> Some(f) in EligibleFingerprints(ctx, items)
  {
    hide FingerprintOf, CountKey, IsApplicable, PassageIsValid, Seen, Repeats, Distinct;
    fingerprints := {};
    ghost var all := EligibleFingerprints(ctx, items);
    for i := 0 to |items|
      invariant forall f :: f in fingerprints <==> Some(f) in all[..i]
    {
      var c := items[i].content;
      var duplicateKey, duplicateText := OptionsRepeat(ctx, c);
      var correctCount := CountCorrect(c);
      assert all[..i + 1] == all[..i] + [all[i]];
      if !duplicateKey && !duplicateText && correctCount == 1 && PassageIsValid(c)
         && IsApplicable(c.level, c.subject, c.questionType) {
        fingerprints := fingerprints + {FingerprintOf(ctx, c)};
      }
    }
    assert all[..|items|] == all;
  }
}
