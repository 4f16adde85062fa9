/** `data_query` and the output name of `log_result`. A remote call is not
    made but described: the planner returns the `railib` call it would
    issue. */
module QueryUtils {

  import opened Base
  import opened Values
  import Text

  /** A `railib` call with the arguments that depend on the step (context,
      database and engine are the same for every call and are left out). */
  datatype Call =
    | Exec(source: string, inputs: Option<map<string, string>>, readonly: bool)
    | InstallModel(model: string, source: string)
    | LoadCsv(relation: string, source: string)
    | LoadJson(relation: string, source: string)
    | NoCall

  /** Python truthiness of an `inputs` argument (`None` or a dict). */
  predicate HasInputs(inputs: Option<map<string, string>>) {
    inputs.Some? && |inputs.value| > 0
  }

  /** `data_query(..., inputs, source, name, logger, file_type)` */
  function DataQuery(inputs: Option<map<string, string>>, source: string, name: string,
                     fileType: Option<string>): (r: Call)
    ensures HasInputs(inputs) <==> r.Exec?
    ensures r.Exec? ==> r == Exec(source, inputs, false)
    ensures r.LoadCsv? <==> !HasInputs(inputs) && fileType == Some(".csv")
    ensures r.LoadJson? <==> !HasInputs(inputs) && fileType == Some(".json")
    ensures r.LoadCsv? || r.LoadJson? ==> r.relation == name && r.source == source
    ensures !r.InstallModel?
  {
    if HasInputs(inputs) then Exec(source, inputs, false)
    else if fileType == Some(".csv") then LoadCsv(name, source)
    else if fileType == Some(".json") then LoadJson(name, source)
    else NoCall
  }

  /** An empty `inputs` dictionary is falsy: the call is the one made
      without inputs. */
  lemma {:induction false} DataQueryEmptyInputsAsNone(source: string, name: string, fileType: Option<string>)
    ensures DataQuery(Some(map[]), source, name, fileType) == DataQuery(None, source, name, fileType)
  {
  }

  /** The file `log_result` writes in the logger's output directory:
      `f"{index}-{query_name}.json"`. */
  function LogResultName(index: Value, queryName: string): (r: string)
    requires Hashable(index)
    ensures var n := |Format(index)|;
            && |r| == n + 1 + |queryName| + 5
            && r[..n] == Format(index) && r[n] == '-'
            && r[n + 1..|r| - 5] == queryName && r[|r| - 5..] == ".json"
  {
    Format(index) + "-" + queryName + ".json"
  }

  /** Two steps with different integer indices never write the same file,
      whatever their names. */
  lemma {:induction false} LogResultNamesDiffer(i: int, j: int, a: string, b: string)
    requires i != j
    ensures LogResultName(Int(i), a) != LogResultName(Int(j), b)
  {
    LogResultNameSplits(i, a);
    LogResultNameSplits(j, b);
    if LogResultName(Int(i), a) == LogResultName(Int(j), b) {
      IntTextPrefix(i, "-" + a + ".json", j, "-" + b + ".json");
    }
  }

  lemma {:induction false} LogResultNameSplits(i: int, a: string)
    ensures LogResultName(Int(i), a) == IntText(i) + ("-" + a + ".json")
  {
  }

  /** The text of an integer followed by a tail starting with `-`
      determines the integer. */
  lemma {:induction false} IntTextPrefix(i: int, t1: string, j: int, t2: string)
    requires |t1| > 0 && t1[0] == '-' && |t2| > 0 && t2[0] == '-'
    requires IntText(i) + t1 == IntText(j) + t2
    ensures i == j
  {
    if i >= 0 && j >= 0 {
      DigitsPrefix(Text.Dec(i), t1, Text.Dec(j), t2);
      Text.DecInjective(i, j);
    } else if i < 0 && j < 0 {
      NegativePrefix(-i, t1, -j, t2);
      Text.DecInjective(-i, -j);
    } else if i >= 0 {
      SignsAgree(i, t1, -j, t2);
    } else {
      SignsAgree(j, t2, -i, t1);
    }
  }

  lemma {:induction false} NegativePrefix(m: nat, t1: string, n: nat, t2: string)
    requires |t1| > 0 && t1[0] == '-' && |t2| > 0 && t2[0] == '-'
    requires "-" + Text.Dec(m) + t1 == "-" + Text.Dec(n) + t2
    ensures Text.Dec(m) == Text.Dec(n)
  {
    var x := "-" + Text.Dec(m) + t1;
    assert x[1..] == Text.Dec(m) + t1;
    assert x[1..] == Text.Dec(n) + t2;
    DigitsPrefix(Text.Dec(m), t1, Text.Dec(n), t2);
  }

  /** A non-negative integer's text never starts like a negative one's. */
  lemma {:induction false} SignsAgree(m: nat, t1: string, n: nat, t2: string)
    ensures Text.Dec(m) + t1 != "-" + Text.Dec(n) + t2
  {
    assert Text.IsDigit(Text.Dec(m)[0]);
    assert (Text.Dec(m) + t1)[0] == Text.Dec(m)[0];
  }

  /** Two strings of the form digits + "-" + ... agree on their digit
      prefixes when they are equal. */
  lemma {:induction false} DigitsPrefix(d1: string, t1: string, d2: string, t2: string)
    requires forall k :: 0 <= k < |d1| ==> Text.IsDigit(d1[k])
    requires forall k :: 0 <= k < |d2| ==> Text.IsDigit(d2[k])
    requires |t1| > 0 && t1[0] == '-' && |t2| > 0 && t2[0] == '-'
    requires d1 + t1 == d2 + t2
    ensures d1 == d2
  {
    var s := d1 + t1;
    assert s[|d1|] == '-' && s[|d2|] == '-';
    assert forall k :: 0 <= k < |d1| ==> s[k] == d1[k] != '-';
    assert forall k :: 0 <= k < |d2| ==> s[k] == d2[k] != '-';
    assert |d1| == |d2|;
    assert d1 == s[..|d1|] == d2;
  }
}
