/** Facts about sequences used throughout the model. */
module Seqs {

  predicate Distinct<T(==)>(s: seq<T>) {
    forall i, j :: 0 <= i < j < |s| ==> s[i] != s[j]
  }

  function ToSet<T(==)>(s: seq<T>): set<T> {
    set x | x in s
  }

  lemma {:induction false} ToSetSnoc<T>(s: seq<T>, x: T)
    ensures ToSet(s + [x]) == ToSet(s) + {x}
  {
    assert forall y :: y in s + [x] <==> y in s || y == x;
  }

  /** The converse: dropping the last element keeps the rest distinct,
      and the dropped element occurs nowhere before it. */
  lemma {:induction false} DistinctInit<T>(s: seq<T>, x: T)
    requires Distinct(s + [x])
    ensures Distinct(s) && x !in s
  {
    var t := s + [x];
    assert forall i :: 0 <= i < |s| ==> t[i] == s[i];
    assert t[|s|] == x;
  }

  lemma {:induction false} DistinctSnoc<T>(s: seq<T>, x: T)
    requires Distinct(s) && x !in s
    ensures Distinct(s + [x])
  {
  }

  /** A sequence has as many distinct elements as positions exactly when
      no element repeats; this is what `len(xs) != len(set(xs))` tests. */
  lemma {:induction false} DistinctCardinality<T>(s: seq<T>)
    ensures |ToSet(s)| <= |s|
    ensures Distinct(s) <==> |ToSet(s)| == |s|
  {
    if s != [] {
      var t, x := s[..|s| - 1], s[|s| - 1];
      DistinctCardinality(t);
      assert s == t + [x];
      ToSetSnoc(t, x);
      if x in ToSet(t) {
        assert ToSet(s) == ToSet(t);
        var j :| 0 <= j < |t| && t[j] == x;
        assert s[j] == s[|s| - 1];
      } else {
        assert |ToSet(s)| == |ToSet(t)| + 1;
        if Distinct(t) {
          forall i, k | 0 <= i < k < |s|
            ensures s[i] != s[k]
          {
            if k == |s| - 1 {
              assert s[i] == t[i];
            } else {
              assert s[i] == t[i] && s[k] == t[k];
            }
          }
        } else {
          var i, k :| 0 <= i < k < |t| && t[i] == t[k];
          assert s[i] == s[k];
        }
      }
    }
  }

  /** The non-empty members of `ss`, in order. */
  function NonEmpty<T>(ss: seq<seq<T>>): (r: seq<seq<T>>)
    ensures forall i :: 0 <= i < |r| ==> |r[i]| > 0
    ensures forall x :: x in r ==> x in ss
  {
    if ss == [] then []
    else if |ss[0]| == 0 then NonEmpty(ss[1..])
    else [ss[0]] + NonEmpty(ss[1..])
  }

  lemma {:induction false} NonEmptyAppend<T>(a: seq<seq<T>>, b: seq<seq<T>>)
    ensures NonEmpty(a + b) == NonEmpty(a) + NonEmpty(b)
  {
    if a != [] {
      assert (a + b)[0] == a[0] && (a + b)[1..] == a[1..] + b;
      NonEmptyAppend(a[1..], b);
      assert [a[0]] + NonEmpty(a[1..]) + NonEmpty(b) == [a[0]] + (NonEmpty(a[1..]) + NonEmpty(b));
    } else {
      assert a + b == b;
    }
  }

  /** `sep.join(parts)` */
  function Join(parts: seq<string>, sep: string): string {
    if |parts| == 0 then ""
    else if |parts| == 1 then parts[0]
    else parts[0] + sep + Join(parts[1..], sep)
  }

  /** Every character of a joined string comes from a part or from the
      separator. */
  lemma {:induction false} JoinChars(parts: seq<string>, sep: string, P: char -> bool)
    requires forall i, j :: 0 <= i < |parts| && 0 <= j < |parts[i]| ==> P(parts[i][j])
    requires forall j :: 0 <= j < |sep| ==> P(sep[j])
    ensures forall j :: 0 <= j < |Join(parts, sep)| ==> P(Join(parts, sep)[j])
  {
    if |parts| > 1 {
      JoinChars(parts[1..], sep, P);
      var rest := Join(parts[1..], sep);
      var r := parts[0] + sep + rest;
      assert Join(parts, sep) == r;
      forall j | 0 <= j < |r|
        ensures P(r[j])
      {
        if j < |parts[0]| {
          assert r[j] == parts[0][j];
        } else if j < |parts[0]| + |sep| {
          assert r[j] == sep[j - |parts[0]|];
        } else {
          assert r[j] == rest[j - |parts[0]| - |sep|];
        }
      }
    }
  }

  /** The elements up to and including the first that is not `ok`: what a
      loop that stops at its first failure gets through. */
  function UpToFirst<T>(xs: seq<T>, ok: T -> bool): (r: seq<T>)
    ensures |r| <= |xs| && r == xs[..|r|]
    ensures |xs| > 0 ==> |r| > 0
    ensures forall i :: 0 <= i < |r| - 1 ==> ok(r[i])
    ensures |r| < |xs| ==> !ok(r[|r| - 1])
  {
    if xs == [] then []
    else if !ok(xs[0]) then [xs[0]]
    else
      var rest := UpToFirst(xs[1..], ok);
      assert [xs[0]] + xs[1..][..|rest|] == xs[..|rest| + 1];
      [xs[0]] + rest
  }
}
