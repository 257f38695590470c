/** Small datatypes every component of the model shares, the sizes of sets and the order of texts. */
module Common {

  /** A database key. Fresh keys come from an unbounded supply. */
  type Id = nat

  /** Milliseconds of the database clock. */
  type Time = int

  datatype Option<+T> = None | Some(value: T)

  datatype Result<+T, +E> = Ok(value: T) | Err(error: E)

  /** The keys of an optional reference: none or one. */
  function OptionSet<T(==)>(o: Option<T>): set<T> {
    if o.Some? then {o.value} else {}
  }

  function Image<A, B>(f: A -> B, s: set<A>): set<B> {
    set a | a in s :: f(a)
  }

  /** An image is no larger than its source. */
  lemma {:induction false} ImageSmaller<A, B>(f: A -> B, s: set<A>)
    ensures |Image(f, s)| <= |s|
    decreases |s|
  {
    if s != {} {
      var a :| a in s;
      ImageSmaller(f, s - {a});
      assert Image(f, s) == Image(f, s - {a}) + {f(a)};
    }
  }

  lemma {:induction false} SubsetSmaller<A>(s: set<A>, t: set<A>)
    requires s <= t
    ensures |s| <= |t|
    decreases |s|
  {
    if s != {} {
      var a :| a in s;
      SubsetSmaller(s - {a}, t - {a});
    }
  }

  /** A text comes before another: it is the beginning of the other, or smaller at the first place they differ. */
  ghost predicate TextBefore(a: string, b: string) {
    a < b || exists k :: 0 <= k < |a| && k < |b| && a[..k] == b[..k] && a[k] < b[k]
  }

  lemma BeforeByHead(a: string, b: string)
    ensures TextBefore(a, b) <==>
              |b| > 0 && (|a| == 0 || a[0] < b[0] || (a[0] == b[0] && TextBefore(a[1..], b[1..])))
  {
    if |a| > 0 && |b| > 0 && a[0] == b[0] {
      assert a == [a[0]] + a[1..] && b == [b[0]] + b[1..];
      assert a < b <==> a[1..] < b[1..];
      if k :| 0 <= k < |a| && k < |b| && a[..k] == b[..k] && a[k] < b[k] {
        assert a[1..][..k - 1] == a[..k][1..] && b[1..][..k - 1] == b[..k][1..];
        assert a[1..][k - 1] < b[1..][k - 1];
      }
      if k :| 0 <= k < |a[1..]| && k < |b[1..]| && a[1..][..k] == b[1..][..k] && a[1..][k] < b[1..][k] {
        assert a[..k + 1] == [a[0]] + a[1..][..k] && b[..k + 1] == [b[0]] + b[1..][..k];
        assert a[k + 1] < b[k + 1];
      }
    } else if |a| > 0 && |b| > 0 && a[0] < b[0] {
      assert a[..0] == b[..0];
    }
  }
}
