/** The canonical text of a JSON value: no white space, members in the order of their names. */
module CanonicalJson {
  import opened Common

  datatype Json =
    | JNull
    | JNumber(n: nat)
    | JString(s: string)
    | JArray(items: seq<Json>)
    | JObject(fields: seq<(string, Json)>)

  function Digit(d: nat): char
    requires d < 16
  {
    if d < 10 then ('0' as int + d) as char else ('a' as int + d - 10) as char
  }

  function Decimal(n: nat): string {
    if n < 10 then [Digit(n)] else Decimal(n / 10) + [Digit(n % 10)]
  }

  function Escape(c: char): string {
    var n := c as int;
    if c == '"' then "\\\""
    else if c == '\\' then "\\\\"
    else if n == 8 then "\\b"
    else if n == 9 then "\\t"
    else if n == 10 then "\\n"
    else if n == 12 then "\\f"
    else if n == 13 then "\\r"
    else if n < 0x20 then "\\u00" + [Digit(n / 16), Digit(n % 16)]
    else [c]
  }

  function EscapeAll(s: string): string {
    if |s| == 0 then "" else Escape(s[0]) + EscapeAll(s[1..])
  }

  function Quote(s: string): string {
    "\"" + EscapeAll(s) + "\""
  }

  /** Texts with commas between them. */
  function Commas(texts: seq<string>): string {
    if |texts| == 0 then ""
    else if |texts| == 1 then texts[0]
    else Commas(texts[..|texts| - 1]) + "," + texts[|texts| - 1]
  }

  predicate NameLess(a: string, b: string) {
    |b| > 0 && (|a| == 0 || a[0] < b[0] || (a[0] == b[0] && NameLess(a[1..], b[1..])))
  }

  /** Names are compared at the first place they differ, and a prefix comes first. */
  lemma {:induction false} NamesCompare(a: string, b: string)
    ensures NameLess(a, b) <==> TextBefore(a, b)
    decreases |a|
  {
    BeforeByHead(a, b);
    if |a| > 0 && |b| > 0 {
      NamesCompare(a[1..], b[1..]);
    }
  }

  /** Puts a member before the first one whose name is not smaller. */
  function Insert<V>(field: (string, V), sorted: seq<(string, V)>): (r: seq<(string, V)>)
    ensures |r| == |sorted| + 1
    ensures forall i | 0 <= i < |r| :: r[i] == field || r[i] in sorted
  {
    if |sorted| == 0 || !NameLess(sorted[0].0, field.0) then [field] + sorted
    else [sorted[0]] + Insert(field, sorted[1..])
  }

  function SortFields<V>(fields: seq<(string, V)>): (r: seq<(string, V)>)
    ensures |r| == |fields|
    ensures forall i | 0 <= i < |r| :: r[i] in fields
  {
    if |fields| == 0 then []
    else
      var rest := SortFields(fields[1..]);
      var r := Insert(fields[0], rest);
      assert forall i | 0 <= i < |r| :: r[i] == fields[0] || r[i] in rest;
      r
  }

  /** Members in strictly increasing order of their names. */
  predicate InNameOrder<V>(fields: seq<(string, V)>) {
    |fields| <= 1 || (NameLess(fields[0].0, fields[1].0) && InNameOrder(fields[1..]))
  }

  lemma {:induction false} NotBelow(a: string, b: string)
    requires NameLess(a, b)
    ensures !NameLess(b, a)
    decreases |a|
  {
    if |a| > 0 && a[0] == b[0] {
      NotBelow(a[1..], b[1..]);
    }
  }

  predicate DistinctNames<V>(fields: seq<(string, V)>) {
    forall i, j | 0 <= i < j < |fields| :: fields[i].0 != fields[j].0
  }

  lemma {:induction false} NamesTotal(a: string, b: string)
    ensures a == b || NameLess(a, b) || NameLess(b, a)
    ensures !NameLess(a, a)
    decreases |a|
  {
    if |a| > 0 && |b| > 0 {
      NamesTotal(a[1..], b[1..]);
      assert a == [a[0]] + a[1..] && b == [b[0]] + b[1..];
    } else if |a| > 0 {
      NamesTotal(a[1..], a[1..]);
    }
  }

  /** Inserting keeps the order and adds the one member. */
  lemma {:induction false} InsertOrdered<V>(field: (string, V), sorted: seq<(string, V)>)
    requires InNameOrder(sorted) && forall i | 0 <= i < |sorted| :: sorted[i].0 != field.0
    ensures InNameOrder(Insert(field, sorted))
    ensures multiset(Insert(field, sorted)) == multiset(sorted) + multiset{field}
    decreases |sorted|
  {
    var r := Insert(field, sorted);
    if |sorted| == 0 {
      assert r == [field];
    } else {
      assert sorted == [sorted[0]] + sorted[1..];
      NamesTotal(sorted[0].0, field.0);
      if NameLess(sorted[0].0, field.0) {
        InsertOrdered(field, sorted[1..]);
        var rest := Insert(field, sorted[1..]);
        assert r == [sorted[0]] + rest && r[1..] == rest;
        assert rest[0] == field || rest[0] == sorted[1];
      } else {
        assert r[1..] == sorted;
      }
    }
  }

  /** Sorting puts members with distinct names in order and keeps them all. */
  lemma {:induction false} SortOrders<V>(fields: seq<(string, V)>)
    requires DistinctNames(fields)
    ensures InNameOrder(SortFields(fields))
    ensures multiset(SortFields(fields)) == multiset(fields)
    decreases |fields|
  {
    if |fields| > 0 {
      assert fields == [fields[0]] + fields[1..];
      var rest := SortFields(fields[1..]);
      SortOrders(fields[1..]);
      forall i | 0 <= i < |rest| ensures rest[i].0 != fields[0].0 {
        assert rest[i] in fields[1..];
      }
      InsertOrdered(fields[0], rest);
    }
  }

  lemma {:induction false} NameTransitive(a: string, b: string, c: string)
    requires NameLess(a, b) && NameLess(b, c)
    ensures NameLess(a, c)
    decreases |a|
  {
    if |a| > 0 && a[0] == b[0] == c[0] {
      NameTransitive(a[1..], b[1..], c[1..]);
    }
  }

  lemma {:induction false} HeadIsLeast<V>(fields: seq<(string, V)>, i: nat)
    requires InNameOrder(fields) && 0 < i < |fields|
    ensures NameLess(fields[0].0, fields[i].0)
    decreases |fields|
  {
    if i > 1 {
      HeadIsLeast(fields[1..], i - 1);
      NameTransitive(fields[0].0, fields[1].0, fields[i].0);
    }
  }

  /** The member with the least name comes first in every order of the names. */
  lemma HeadsAgree<V>(a: seq<(string, V)>, b: seq<(string, V)>)
    requires InNameOrder(a) && InNameOrder(b) && multiset(a) == multiset(b) && |a| > 0 && |b| > 0
    ensures a[0] == b[0]
  {
    hide InNameOrder, NameLess;
    assert a[0] in multiset(b) && b[0] in multiset(a);
    var i :| 0 <= i < |b| && b[i] == a[0];
    var j :| 0 <= j < |a| && a[j] == b[0];
    if i > 0 {
      HeadIsLeast(b, i);
      NotBelow(b[0].0, b[i].0);
      NamesTotal(a[0].0, a[0].0);
      if j > 0 { HeadIsLeast(a, j); }
    }
  }

  lemma TailMembers<V>(s: seq<V>)
    requires |s| > 0
    ensures multiset(s[1..]) == multiset(s) - multiset{s[0]}
  {
    assert s == [s[0]] + s[1..];
  }

  /** Two lists in name order with the same members are the same list. */
  lemma {:induction false} OrderedIsUnique<V>(a: seq<(string, V)>, b: seq<(string, V)>)
    requires InNameOrder(a) && InNameOrder(b) && multiset(a) == multiset(b)
    ensures a == b
    decreases |a|
  {
    hide NameLess;
    assert |a| == |multiset(a)| == |b|;
    if |a| > 0 {
      HeadsAgree(a, b);
      TailMembers(a);
      TailMembers(b);
      OrderedIsUnique(a[1..], b[1..]);
    }
  }

  /** The canonical text of an object does not depend on the order its members are given in. */
  lemma CanonicalIgnoresOrder(a: seq<(string, Json)>, b: seq<(string, Json)>)
    requires DistinctNames(a) && DistinctNames(b) && multiset(a) == multiset(b)
    ensures Canonical(JObject(a)) == Canonical(JObject(b))
  {
    SortOrders(a);
    SortOrders(b);
    OrderedIsUnique(SortFields(a), SortFields(b));
  }

  function FieldText(field: (string, Json)): string {
    Quote(field.0) + ":" + Canonical(field.1)
  }

  function Canonical(j: Json): string {
    match j
    case JNull => "null"
    case JNumber(n) => Decimal(n)
    case JString(s) => Quote(s)
    case JArray(items) => "[" + Commas(seq(|items|, i requires 0 <= i < |items| => Canonical(items[i]))) + "]"
    case JObject(fields) =>
      var sorted := SortFields(fields);
      "{" + Commas(seq(|sorted|, i requires 0 <= i < |sorted| => FieldText(sorted[i]))) + "}"
  }

  // ----- growing a list of texts

  /** What is appended for one more text. */
  function Piece(i: nat, text: string): string {
    if i > 0 then "," + text else text
  }

  lemma CommasGrow(texts: seq<string>, i: nat)
    requires i < |texts|
    ensures Commas(texts[..i + 1]) == Commas(texts[..i]) + Piece(i, texts[i])
  {
    assert texts[..i + 1][..i] == texts[..i];
    if i == 0 {
      assert texts[..1] == [texts[0]] && texts[..0] == [];
    }
  }
}
