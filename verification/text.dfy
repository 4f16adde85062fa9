/** String operations of Python's `str` that the modelled code relies on:
    decimal formatting, `upper`, substring search, `replace` and splitting. */
module Text {

  import opened Seqs

  function DigitChar(d: nat): char
    requires d < 10
  {
    (48 + d) as char
  }

  function DigitValue(c: char): nat {
    if '0' <= c <= '9' then c as int - 48 else 0
  }

  predicate IsDigit(c: char) {
    '0' <= c <= '9'
  }

  /** `str(n)` for a natural number: its decimal digits, no leading zero. */
  function Dec(n: nat): (s: string)
    ensures |s| >= 1
    ensures forall i :: 0 <= i < |s| ==> IsDigit(s[i])
    ensures |s| > 1 ==> s[0] != '0'
  {
    if n < 10 then [DigitChar(n)] else Dec(n / 10) + [DigitChar(n % 10)]
  }

  /** `int(s)` for a string of decimal digits. */
  function ParseDec(s: string): nat {
    if s == [] then 0 else ParseDec(s[..|s| - 1]) * 10 + DigitValue(s[|s| - 1])
  }

  /** Parsing undoes formatting. */
  lemma {:induction false} ParseDecOfDec(n: nat)
    ensures ParseDec(Dec(n)) == n
  {
    if n < 10 {
      assert Dec(n)[..0] == [];
    } else {
      var s := Dec(n);
      assert s[..|s| - 1] == Dec(n / 10);
      ParseDecOfDec(n / 10);
    }
  }

  /** Distinct numbers format to distinct strings. */
  lemma {:induction false} DecInjective(m: nat, n: nat)
    ensures Dec(m) == Dec(n) ==> m == n
  {
    ParseDecOfDec(m);
    ParseDecOfDec(n);
  }

  /** `str.upper()` restricted to ASCII letters. */
  function UpperChar(c: char): char {
    if 'a' <= c <= 'z' then (c as int - 32) as char else c
  }

  function Upper(s: string): (r: string)
    ensures |r| == |s|
    ensures forall i :: 0 <= i < |s| ==> r[i] == UpperChar(s[i])
  {
    if s == [] then [] else [UpperChar(s[0])] + Upper(s[1..])
  }

  /** Upper-casing twice is upper-casing once. */
  lemma {:induction false} UpperIdempotent(s: string)
    ensures Upper(Upper(s)) == Upper(s)
  {
    assert forall i :: 0 <= i < |s| ==> UpperChar(UpperChar(s[i])) == UpperChar(s[i]);
  }

  /** `t in s` for two strings: `t` occurs as a contiguous substring. */
  predicate Occurs(s: string, t: string) {
    exists i | 0 <= i <= |s| :: OccursAt(s, t, i)
  }

  predicate OccursAt(s: string, t: string, i: int) {
    0 <= i <= |s| - |t| && s[i..i + |t|] == t
  }

  /** `s.replace(pat, rep)`: every non-overlapping occurrence of `pat`,
      scanning from the left, is replaced by `rep`. */
  function ReplaceAll(s: string, pat: string, rep: string): string
    requires |pat| > 0
    decreases |s|
  {
    if |s| < |pat| then s
    else if s[..|pat|] == pat then rep + ReplaceAll(s[|pat|..], pat, rep)
    else [s[0]] + ReplaceAll(s[1..], pat, rep)
  }

  /** A string in which `pat` does not occur is left unchanged. */
  lemma {:induction false} ReplaceAllAbsent(s: string, pat: string, rep: string)
    requires |pat| > 0
    requires !Occurs(s, pat)
    ensures ReplaceAll(s, pat, rep) == s
    decreases |s|
  {
    if |s| >= |pat| {
      assert s[0..|pat|] == s[..|pat|];
      assert !OccursAt(s, pat, 0);
      if Occurs(s[1..], pat) {
        var i :| 0 <= i <= |s[1..]| && OccursAt(s[1..], pat, i);
        assert 0 <= i <= |s| - 1 - |pat|;
        assert s[1..][i..i + |pat|] == s[i + 1..i + 1 + |pat|];
        assert OccursAt(s, pat, i + 1);
      }
      ReplaceAllAbsent(s[1..], pat, rep);
    }
  }

  /** `s.replace(c, "")` for one character: exactly the other characters
      remain, in order. */
  function Without(s: string, c: char): (r: string)
    ensures c !in r
    ensures forall x :: x in r <==> x in s && x != c
  {
    if s == [] then [] else if s[0] == c then Without(s[1..], c) else [s[0]] + Without(s[1..], c)
  }

  lemma {:induction false} ReplaceCharIsWithout(s: string, c: char)
    ensures ReplaceAll(s, [c], "") == Without(s, c)
  {
    if s != [] {
      ReplaceCharIsWithout(s[1..], c);
      assert s[..1] == [s[0]];
    }
  }

  /** `re.split`-like splitting at every separator character: the pieces
      between separators, including empty ones, in order. */
  function Split(s: string, isSep: char -> bool): (r: seq<string>)
    ensures |r| >= 1
    ensures forall i, j :: 0 <= i < |r| && 0 <= j < |r[i]| ==> !isSep(r[i][j])
  {
    if s == [] then [""]
    else
      var rest := Split(s[1..], isSep);
      if isSep(s[0]) then [""] + rest
      else [[s[0]] + rest[0]] + rest[1..]
  }

  /** A separator cuts a string into the pieces of either side. */
  lemma {:induction false} SplitAtSeparator(a: string, c: char, b: string, isSep: char -> bool)
    requires isSep(c)
    ensures Split(a + [c] + b, isSep) == Split(a, isSep) + Split(b, isSep)
  {
    if a == [] {
      assert a + [c] + b == [c] + b;
      assert ([c] + b)[1..] == b;
    } else {
      var s := a + [c] + b;
      assert s[0] == a[0] && s[1..] == a[1..] + [c] + b;
      SplitAtSeparator(a[1..], c, b, isSep);
    }
  }

  /** A string without separators is a single piece. */
  lemma {:induction false} SplitNoSeparator(s: string, isSep: char -> bool)
    requires forall i :: 0 <= i < |s| ==> !isSep(s[i])
    ensures Split(s, isSep) == [s]
  {
    if s != [] {
      assert forall i :: 0 <= i < |s[1..]| ==> s[1..][i] == s[i + 1];
      SplitNoSeparator(s[1..], isSep);
      assert [s[0]] + s[1..] == s;
    }
  }

  lemma {:induction false} SplitSingle(c: char, isSep: char -> bool)
    requires !isSep(c)
    ensures Split([c], isSep) == [[c]]
  {
    assert [c][1..] == [];
    assert [c] + "" == [c];
  }

  /** Extending the last piece commutes with putting a piece in front. */
  lemma {:induction false} PrependSnocLast(x: string, q: seq<string>, c: char)
    requires |q| >= 1
    ensures var p := [x] + q;
            [x] + (q[..|q| - 1] + [q[|q| - 1] + [c]]) == p[..|p| - 1] + [p[|p| - 1] + [c]]
  {
    var p := [x] + q;
    assert p[..|p| - 1] == [x] + q[..|q| - 1];
  }

  /** ... and with extending the first piece at its front. */
  lemma {:induction false} ConsFirstSnocLast(h: string, q: seq<string>, c: char)
    requires |q| >= 1
    ensures var p := [h + q[0]] + q[1..];
            var q' := q[..|q| - 1] + [q[|q| - 1] + [c]];
            [h + q'[0]] + q'[1..] == p[..|p| - 1] + [p[|p| - 1] + [c]]
  {
    var q' := q[..|q| - 1] + [q[|q| - 1] + [c]];
    if |q| == 1 {
      assert q' == [q[0] + [c]];
      assert h + (q[0] + [c]) == (h + q[0]) + [c];
    } else {
      assert q'[0] == q[0];
      assert q'[1..] == q[1..|q| - 1] + [q[|q| - 1] + [c]];
    }
  }

  /** Appending a non-separator extends the last piece. */
  lemma {:induction false} SplitSnocChar(s: string, c: char, isSep: char -> bool)
    requires !isSep(c)
    ensures var p := Split(s, isSep);
            Split(s + [c], isSep) == p[..|p| - 1] + [p[|p| - 1] + [c]]
  {
    if s == [] {
      assert s + [c] == [c];
      SplitSingle(c, isSep);
    } else {
      var t := s + [c];
      assert t[0] == s[0] && t[1..] == s[1..] + [c];
      SplitSnocChar(s[1..], c, isSep);
      var q := Split(s[1..], isSep);
      if isSep(s[0]) {
        PrependSnocLast("", q, c);
      } else {
        ConsFirstSnocLast([s[0]], q, c);
      }
    }
  }

  /** Appending a separator starts a new, empty piece. */
  lemma {:induction false} SplitSnocSeparator(s: string, c: char, isSep: char -> bool)
    requires isSep(c)
    ensures Split(s + [c], isSep) == Split(s, isSep) + [""]
  {
    SplitAtSeparator(s, c, [], isSep);
    assert s + [c] + [] == s + [c];
  }

  /** A string made only of separators has only empty pieces. */
  lemma {:induction false} SplitAllSeparators(s: string, isSep: char -> bool)
    requires forall i :: 0 <= i < |s| ==> isSep(s[i])
    ensures NonEmpty(Split(s, isSep)) == []
  {
    if s != [] {
      SplitAllSeparators(s[1..], isSep);
    }
  }

  /** Removing `.rel` from a dot-free stem followed by `.rel` leaves the
      stem. */
  lemma {:induction false} ReplaceRelSuffix(stem: string)
    requires '.' !in stem
    ensures ReplaceAll(stem + ".rel", ".rel", "") == stem
  {
    var s := stem + ".rel";
    if stem == [] {
      assert s == ".rel";
      assert s[4..] == [];
    } else {
      assert s[0] == stem[0] != '.';
      assert s[1..] == stem[1..] + ".rel";
      ReplaceRelSuffix(stem[1..]);
      assert [stem[0]] + stem[1..] == stem;
    }
  }
}
