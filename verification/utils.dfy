/** `cell_has_inputs` and `sanitize_query_name`. */
module Utils {

  import opened Base
  import opened Seqs
  import opened Values
  import Text

  /** `\w` or `_`, restricted to ASCII: letters, digits and the
      underscore. */
  predicate IsWordChar(c: char) {
    || ('a' <= c <= 'z')
    || ('A' <= c <= 'Z')
    || ('0' <= c <= '9')
    || c == '_'
  }

  predicate IsNonWord(c: char) {
    !IsWordChar(c)
  }

  /** `cell_has_inputs(cell)`: the `inputs` key is present and its value is
      truthy, so an empty list or table counts as no inputs. */
  function CellHasInputs(cell: map<string, Value>): (r: bool)
    ensures r <==> "inputs" in cell && Truthy(cell["inputs"])
    ensures "inputs" in cell && cell["inputs"] == Arr([]) ==> !r
  {
    "inputs" in cell && Truthy(cell["inputs"])
  }

  /** For a container, "present and populated" is a non-zero `len`; for a
      number, a non-zero value. */
  lemma {:induction false} CellHasInputsLen(cell: map<string, Value>)
    requires "inputs" in cell
    ensures var v := cell["inputs"];
            && (Len(v).Ok? ==> (CellHasInputs(cell) <==> Len(v).value > 0))
            && (v.Int? ==> (CellHasInputs(cell) <==> v.i != 0))
            && (v.Bool? ==> (CellHasInputs(cell) <==> v.b))
  {
  }

  /** `re.findall("[_\w]+", s)`: the maximal runs of word characters, in
      order. */
  function Runs(s: string): (r: seq<string>)
    ensures forall i, j :: 0 <= i < |r| && 0 <= j < |r[i]| ==> IsWordChar(r[i][j])
    ensures forall i :: 0 <= i < |r| ==> |r[i]| > 0
  {
    var pieces := Text.Split(s, IsNonWord);
    var r := NonEmpty(pieces);
    forall i, j | 0 <= i < |r| && 0 <= j < |r[i]|
      ensures IsWordChar(r[i][j])
    {
      assert r[i] in pieces;
      var k :| 0 <= k < |pieces| && pieces[k] == r[i];
    }
    r
  }

  /** `"_".join(re.findall("[_\w]+", s))` */
  function SanitizeText(s: string): (r: string)
    ensures forall i :: 0 <= i < |r| ==> IsWordChar(r[i])
  {
    var runs := Runs(s);
    JoinChars(runs, "_", IsWordChar);
    Join(runs, "_")
  }

  /** `sanitize_query_name(qry)`: the step must have a `name`, and it must
      be a string. */
  function SanitizeQueryName(qry: Value): (r: Py<string>)
    ensures r.Ok? <==> qry.Table? && "name" in qry.fields && qry.fields["name"].Str?
    ensures qry.Table? && "name" !in qry.fields ==> r == Raise(KeyError("name"))
    ensures r.Ok? ==> r.value == SanitizeText(qry.fields["name"].s)
  {
    var name :- GetItem(qry, "name");
    if name.Str? then Ok(SanitizeText(name.s)) else Raise(TypeError)
  }

  // ---------------------------------------------------------------------
  // Runs: a word character extends a run, anything else ends it
  // ---------------------------------------------------------------------

  /** A non-word character cuts the name into the runs of either side. */
  lemma {:induction false} RunsAtNonWord(a: string, c: char, b: string)
    requires !IsWordChar(c)
    ensures Runs(a + [c] + b) == Runs(a) + Runs(b)
  {
    Text.SplitAtSeparator(a, c, b, IsNonWord);
    NonEmptyAppend(Text.Split(a, IsNonWord), Text.Split(b, IsNonWord));
  }

  /** A non-empty string of word characters is one run. */
  lemma {:induction false} RunsOfWord(w: string)
    requires |w| > 0 && forall i :: 0 <= i < |w| ==> IsWordChar(w[i])
    ensures Runs(w) == [w]
  {
    Text.SplitNoSeparator(w, IsNonWord);
    assert NonEmpty([w]) == [w] by {
      assert [w][1..] == [];
    }
  }

  /** A string without word characters has no runs. */
  lemma {:induction false} RunsOfNonWords(s: string)
    requires forall i :: 0 <= i < |s| ==> !IsWordChar(s[i])
    ensures Runs(s) == []
  {
    Text.SplitAllSeparators(s, IsNonWord);
  }

  /** Non-word characters at either end of the name vanish. */
  lemma {:induction false} RunsTrimmed(p: string, s: string, q: string)
    requires forall i :: 0 <= i < |p| ==> !IsWordChar(p[i])
    requires forall i :: 0 <= i < |q| ==> !IsWordChar(q[i])
    ensures Runs(p + s + q) == Runs(s)
  {
    if |p| > 0 {
      var p' := p[1..];
      assert p + s + q == [] + [p[0]] + (p' + s + q);
      RunsAtNonWord([], p[0], p' + s + q);
      RunsOfNonWords([]);
      RunsTrimmed(p', s, q);
    } else if |q| > 0 {
      var q' := q[..|q| - 1];
      assert p + s + q == (s + q') + [q[|q| - 1]] + [];
      RunsAtNonWord(s + q', q[|q| - 1], []);
      RunsOfNonWords([]);
      RunsTrimmed([], s, q');
      assert [] + s + q' == s + q';
    } else {
      assert p + s + q == s;
    }
  }

  // ---------------------------------------------------------------------
  // Sanitising
  // ---------------------------------------------------------------------

  /** A name with no word characters sanitises to the empty string. */
  lemma {:induction false} SanitizeNoWordChars(s: string)
    requires forall i :: 0 <= i < |s| ==> !IsWordChar(s[i])
    ensures SanitizeText(s) == ""
  {
    RunsOfNonWords(s);
  }

  /** Sanitising twice is sanitising once. */
  lemma {:induction false} SanitizeIdempotent(s: string)
    ensures SanitizeText(SanitizeText(s)) == SanitizeText(s)
  {
    var t := SanitizeText(s);
    if |t| > 0 {
      RunsOfWord(t);
    } else {
      RunsOfNonWords(t);
    }
  }

  /** Two words joined by non-word characters become the words joined by
      a single underscore. */
  lemma {:induction false} SanitizeJoinsWords(a: string, sep: string, b: string)
    requires |a| > 0 && forall i :: 0 <= i < |a| ==> IsWordChar(a[i])
    requires |b| > 0 && forall i :: 0 <= i < |b| ==> IsWordChar(b[i])
    requires |sep| > 0 && forall i :: 0 <= i < |sep| ==> !IsWordChar(sep[i])
    ensures SanitizeText(a + sep + b) == a + "_" + b
  {
    var sep' := sep[1..];
    assert a + sep + b == a + [sep[0]] + (sep' + b);
    RunsAtNonWord(a, sep[0], sep' + b);
    RunsTrimmed(sep', b, []);
    assert sep' + b + [] == sep' + b;
    RunsOfWord(a);
    RunsOfWord(b);
    assert Runs(sep' + b) == [b];
    assert Runs(a + sep + b) == [a, b];
    assert [a, b][1..] == [b];
    assert Join([a, b], "_") == a + "_" + b;
  }

  /** The state of a left-to-right scan of `t`: the runs completed so far
      and the run in progress (possibly empty). */
  predicate ScanState(t: string, cur: string, runs: seq<string>) {
    var p := Text.Split(t, IsNonWord);
    cur == p[|p| - 1] && runs == NonEmpty(p[..|p| - 1])
  }

  function Flush(cur: string, runs: seq<string>): seq<string> {
    if |cur| > 0 then runs + [cur] else runs
  }

  lemma {:induction false} ScanDone(t: string, cur: string, runs: seq<string>)
    requires ScanState(t, cur, runs)
    ensures Runs(t) == Flush(cur, runs)
  {
    var p := Text.Split(t, IsNonWord);
    NonEmptyAppend(p[..|p| - 1], [cur]);
    assert p[..|p| - 1] + [cur] == p;
    assert [cur][1..] == [];
  }

  lemma {:induction false} ScanWordChar(t: string, c: char, cur: string, runs: seq<string>)
    requires ScanState(t, cur, runs) && IsWordChar(c)
    ensures ScanState(t + [c], cur + [c], runs)
  {
    Text.SplitSnocChar(t, c, IsNonWord);
    var p := Text.Split(t, IsNonWord);
    var p' := Text.Split(t + [c], IsNonWord);
    assert p'[..|p'| - 1] == p[..|p| - 1];
  }

  lemma {:induction false} ScanNonWordChar(t: string, c: char, cur: string, runs: seq<string>)
    requires ScanState(t, cur, runs) && !IsWordChar(c)
    ensures ScanState(t + [c], "", Flush(cur, runs))
  {
    Text.SplitSnocSeparator(t, c, IsNonWord);
    ScanDone(t, cur, runs);
    var p := Text.Split(t, IsNonWord);
    assert (p + [""])[..|p|] == p;
  }

  /** `re.findall` as a scan: the same runs, found left to right. */
  method FindWordRuns(s: string) returns (runs: seq<string>)
    ensures runs == Runs(s)
  {
    runs := [];
    var cur := "";
    var i := 0;
    while i < |s|
      invariant 0 <= i <= |s|
      invariant ScanState(s[..i], cur, runs)
    {
      var c := s[i];
      assert s[..i + 1] == s[..i] + [c];
      if IsWordChar(c) {
        ScanWordChar(s[..i], c, cur, runs);
        cur := cur + [c];
      } else {
        ScanNonWordChar(s[..i], c, cur, runs);
        runs := Flush(cur, runs);
        cur := "";
      }
      i := i + 1;
    }
    assert s[..i] == s;
    ScanDone(s, cur, runs);
    runs := Flush(cur, runs);
  }
}
