/** The `run_harness.py` script: its inline validator, the routing in
    `dispatch_operation` with the two helpers it calls, and the run loop.
    Each step either issues a `railib` call (described, not made) or ends
    the script with an exception. */
module Harness {

  import opened Base
  import opened Values
  import Validation
  import ValidationFacts
  import Seqs
  import Paths
  import Text

  /** The script's fixed inputs: the directory of the TOML file, the
      configured `data_dir` and `source_dir`, and the output directory. */
  datatype Script = Script(tomlDir: string, dataDir: string, sourceDir: string, outputDir: string)

  /** A call `dispatch_operation` issues. `source` is `None` when the step's
      file could not be read: the error is logged and the call goes ahead. */
  datatype Op =
    | Query(source: Option<string>, readonly: bool, inputs: Option<map<string, string>>)
    | Install(model: string, source: Option<string>)
    | LoadCsv(relation: Value, source: Option<string>)
    | LoadJson(relation: Value, source: Option<string>)
      /** A DATA step whose output file has neither suffix: an error is
          logged and nothing is loaded. */
    | UnsupportedFormat(suffix: string)
      /** A type other than the four: an error is logged. */
    | UnsupportedType

  datatype Outcome = Issued(op: Op) | Crashed(error: PyError)

  /** What the inline `validate` guarantees of a step, once the run loop
      has upper-cased its `type`. */
  predicate ScriptStep(cell: Value) {
    && cell.Table?
    && "file_name" in cell.fields
    && "index" in cell.fields && Hashable(cell.fields["index"])
    && "type" in cell.fields && cell.fields["type"].Str?
  }

  /** `toml_path.parent / dir_to_use / cell["file_name"]`, where the data
      directory is used exactly when the step names a `relation_name`. */
  function SourcePath(cell: Value, s: Script): (r: Py<string>)
    requires ScriptStep(cell)
    ensures r.Ok? <==> cell.fields["file_name"].Str?
    ensures r.Ok? ==> r.value == Paths.Join(Paths.Join(s.tomlDir,
                        if "relation_name" in cell.fields then s.dataDir else s.sourceDir),
                        cell.fields["file_name"].s)
  {
    var name := cell.fields["file_name"];
    if !name.Str? then Raise(TypeError)
    else
      var dir := if "relation_name" in cell.fields then s.dataDir else s.sourceDir;
      Ok(Paths.Join(Paths.Join(s.tomlDir, dir), name.s))
  }

  /** One entry of `cell["inputs"]`: each value names a file under the
      project's data directory, which must exist. */
  function EntryInputs(entry: Value, dataDir: string, fs: map<string, string>): (r: Py<map<string, string>>)
    ensures r.Ok? ==> entry.Table? && r.value.Keys == entry.fields.Keys
    ensures r.Ok? ==> forall k :: k in r.value ==>
                        && Hashable(entry.fields[k])
                        && dataDir + "/" + Format(entry.fields[k]) in fs
                        && r.value[k] == fs[dataDir + "/" + Format(entry.fields[k])]
    ensures entry.Table? && (forall k :: k in entry.fields ==> Hashable(entry.fields[k]))
            ==> (r.Ok? <==> forall k :: k in entry.fields ==> dataDir + "/" + Format(entry.fields[k]) in fs)
  {
    if !entry.Table? then Raise(AttributeError)
    else if exists k :: k in entry.fields && !Hashable(entry.fields[k]) then Raise(TypeError)
    else if exists k :: k in entry.fields && dataDir + "/" + Format(entry.fields[k]) !in fs then Raise(FileNotFound)
    else Ok(map k | k in entry.fields :: fs[dataDir + "/" + Format(entry.fields[k])])
  }

  /** The comprehension over the entries, left to right. */
  function EntriesInputs(entries: seq<Value>, dataDir: string, fs: map<string, string>): (r: Py<map<string, string>>)
    ensures r.Ok? <==> forall i :: 0 <= i < |entries| ==> EntryInputs(entries[i], dataDir, fs).Ok?
    decreases |entries|
  {
    if entries == [] then Ok(map[])
    else
      var init := entries[..|entries| - 1];
      var acc :- EntriesInputs(init, dataDir, fs);
      var last :- EntryInputs(entries[|entries| - 1], dataDir, fs);
      assert forall i :: 0 <= i < |init| ==> init[i] == entries[i];
      Ok(acc + last)
  }

  /** Iterating a non-empty `inputs` value: a list yields its entries; a
      string yields characters and a table its keys, neither of which has
      `items`. */
  function BuildInputs(inputs: Value, dataDir: string, fs: map<string, string>): (r: Py<map<string, string>>)
    ensures inputs.Arr? ==> r == EntriesInputs(inputs.items, dataDir, fs)
    ensures !inputs.Arr? ==> r == Raise(AttributeError)
  {
    match inputs
    case Arr(xs) => EntriesInputs(xs, dataDir, fs)
    case _ => Raise(AttributeError)
  }

  /** `output_dir / f"{cell['index']}-{cell['file_name']}"` */
  function OutputPath(cell: Value, s: Script): string
    requires ScriptStep(cell) && cell.fields["file_name"].Str?
  {
    Paths.Join(s.outputDir, Format(cell.fields["index"]) + "-" + cell.fields["file_name"].s)
  }

  /** The relation load for a DATA step without inputs, chosen by the
      suffix of the output path `output_dir / f"{index}-{file_name}"`. */
  function LoadOp(cell: Value, s: Script, source: Option<string>): (r: Py<Op>)
    requires ScriptStep(cell) && cell.fields["file_name"].Str?
    ensures r.Ok? <==> "relation_name" in cell.fields
    ensures r.Raise? ==> r.error == KeyError("relation_name")
    ensures r.Ok? ==> r.value.LoadCsv? || r.value.LoadJson? || r.value.UnsupportedFormat?
    ensures r.Ok? && (r.value.LoadCsv? || r.value.LoadJson?) ==>
              r.value.relation == cell.fields["relation_name"] && r.value.source == source
    ensures var sfx := Paths.Suffix(OutputPath(cell, s));
            && (r.Ok? && sfx == ".csv" ==> r.value.LoadCsv?)
            && (r.Ok? && sfx == ".json" ==> r.value.LoadJson?)
            && (r.Ok? && sfx != ".csv" && sfx != ".json" ==> r.value == UnsupportedFormat(sfx))
  {
    var rel :- GetItem(cell, "relation_name");
    var sfx := Paths.Suffix(OutputPath(cell, s));
    if sfx == ".csv" then Ok(LoadCsv(rel, source))
    else if sfx == ".json" then Ok(LoadJson(rel, source))
    else Ok(UnsupportedFormat(sfx))
  }

  /** `dispatch_operation(cell, ...)`, with the two defects below removed:
      a QUERY is issued read-only, and an unsupported data format is
      logged without raising. */
  function Dispatch(cell: Value, s: Script, fs: map<string, string>): (r: Outcome)
    requires ScriptStep(cell)
    ensures SourcePath(cell, s).Raise? ==> r == Crashed(TypeError)
    ensures r.Issued? && r.op.Query? ==> (r.op.readonly <==> cell.fields["type"] == Str("QUERY"))
    ensures r.Issued? && r.op.Query? && r.op.inputs.Some? ==> |r.op.inputs.value| > 0
    ensures r.Issued? && r.op.Query? ==> r.op.source == Read(SourcePath(cell, s).value, fs)
    ensures r.Issued? && r.op.Install? ==>
              r.op.model == "notebooks/" + Text.ReplaceAll(SourcePath(cell, s).value, ".rel", "")
    ensures cell.fields["type"] == Str("DATA") && SourcePath(cell, s).Ok? && "inputs" !in cell.fields
            ==> (r.Issued? <==> "relation_name" in cell.fields)
    ensures r.Issued? && r.op.UnsupportedType? <==> cell.fields["type"].s !in {"QUERY", "UPDATE", "INSTALL", "DATA"}
                                                    && SourcePath(cell, s).Ok?
    ensures SourcePath(cell, s).Ok? ==>
              var p, ty := SourcePath(cell, s).value, cell.fields["type"].s;
              && (ty == "QUERY" ==> r == Issued(Query(Read(p, fs), true, None)))
              && (ty == "UPDATE" ==> r == Issued(Query(Read(p, fs), false, None)))
              && (ty == "INSTALL" ==> r == Issued(Install("notebooks/" + Text.ReplaceAll(p, ".rel", ""), Read(p, fs))))
              && (ty == "DATA" ==> var d := DataOp(cell, s, fs, Read(p, fs));
                                   && (r.Issued? <==> d.Ok?)
                                   && (r.Issued? ==> r.op == d.value)
                                   && (r.Crashed? ==> r.error == d.error))
  {
    match SourcePath(cell, s)
    case Raise(e) => Crashed(e)
    case Ok(path) =>
      var source := Read(path, fs);
      var ty := cell.fields["type"].s;
      if ty == "QUERY" then Issued(Query(source, true, None))
      else if ty == "UPDATE" then Issued(Query(source, false, None))
      else if ty == "INSTALL" then Issued(Install("notebooks/" + Text.ReplaceAll(path, ".rel", ""), source))
      else if ty == "DATA" then
        match DataOp(cell, s, fs, source)
        case Ok(op) => Issued(op)
        case Raise(e) => Crashed(e)
      else Issued(UnsupportedType)
  }

  /** `read_cell(source_path)`, with a failure logged and `None` kept. */
  function Read(path: string, fs: map<string, string>): (r: Option<string>)
    ensures r.Some? <==> path in fs
    ensures r.Some? ==> r.value == fs[path]
  {
    if path in fs then Some(fs[path]) else None
  }

  /** The DATA branch: a write with the inputs when `inputs` is non-empty,
      otherwise a load. */
  function DataOp(cell: Value, s: Script, fs: map<string, string>, source: Option<string>): (r: Py<Op>)
    requires ScriptStep(cell) && cell.fields["file_name"].Str?
    ensures r.Ok? ==> r.value.Query? || r.value.LoadCsv? || r.value.LoadJson? || r.value.UnsupportedFormat?
    ensures r.Ok? && r.value.Query? ==> !r.value.readonly && r.value.source == source
                                        && (r.value.inputs.Some? ==> |r.value.inputs.value| > 0)
    ensures "inputs" !in cell.fields ==> (r.Ok? <==> "relation_name" in cell.fields)
    ensures "inputs" !in cell.fields || Len(cell.fields["inputs"]) == Ok(0) ==> r == LoadOp(cell, s, source)
    ensures "inputs" in cell.fields && Len(cell.fields["inputs"]).Raise? ==> r == Raise(TypeError)
    ensures "inputs" in cell.fields && Len(cell.fields["inputs"]).Ok? && Len(cell.fields["inputs"]).value > 0 ==>
              var b := BuildInputs(cell.fields["inputs"], Paths.Join(s.tomlDir, s.dataDir), fs);
              && (r.Ok? <==> b.Ok?)
              && (r.Ok? ==> r.value == Query(source, false, if |b.value| > 0 then Some(b.value) else None))
              && (r.Raise? ==> r.error == b.error)
  {
    var n :- if "inputs" in cell.fields then Len(cell.fields["inputs"]) else Ok(0);
    if n > 0 then
      var m :- BuildInputs(cell.fields["inputs"], Paths.Join(s.tomlDir, s.dataDir), fs);
      Ok(Query(source, false, if |m| > 0 then Some(m) else None))
    else LoadOp(cell, s, source)
  }

  /** `dispatch_operation` as written. A QUERY passes a string where
      `run_query_log_result` expects a path, and `file_path.name` raises;
      an unsupported data format leaves `result` unbound when it is
      tested. */
  function DispatchAsWritten(cell: Value, s: Script, fs: map<string, string>): (r: Outcome)
    requires ScriptStep(cell)
    ensures cell.fields["type"] == Str("QUERY") && SourcePath(cell, s).Ok? ==> r == Crashed(AttributeError)
    ensures Dispatch(cell, s, fs).Issued? && Dispatch(cell, s, fs).op.UnsupportedFormat?
            ==> r == Crashed(UnboundLocal("result"))
    ensures r.Issued? ==> r == Dispatch(cell, s, fs)
  {
    match Dispatch(cell, s, fs)
    case Issued(Query(_, true, _)) => Crashed(AttributeError)
    case Issued(UnsupportedFormat(_)) => Crashed(UnboundLocal("result"))
    case o => o
  }

  // ---------------------------------------------------------------------
  // The run loop
  // ---------------------------------------------------------------------

  /** What the inline `validate` guarantees of a step before the loop. */
  predicate ValidatedStep(cell: Value) {
    && cell.Table?
    && "file_name" in cell.fields
    && "index" in cell.fields && Hashable(cell.fields["index"])
    && "type" in cell.fields
  }

  /** The step after `query["type"] = query["type"].upper()`. */
  function Upcased(cell: Value): (r: Value)
    requires ValidatedStep(cell) && cell.fields["type"].Str?
    ensures ScriptStep(r) && r.fields["type"] == Str(Text.Upper(cell.fields["type"].s))
    ensures forall k :: k in cell.fields && k != "type" ==> k in r.fields && r.fields[k] == cell.fields[k]
    ensures r.fields.Keys == cell.fields.Keys
  {
    Table(cell.fields["type" := Str(Text.Upper(cell.fields["type"].s))])
  }

  /** `query["type"] = query["type"].upper()`, then dispatch: the routing
      sees the upper-cased type, so `update` is run as UPDATE. */
  function RunStep(cell: Value, s: Script, fs: map<string, string>): (r: Outcome)
    requires ValidatedStep(cell)
    ensures !cell.fields["type"].Str? ==> r == Crashed(AttributeError)
    ensures cell.fields["type"].Str? && SourcePath(Upcased(cell), s).Raise? ==> r == Crashed(TypeError)
    ensures cell.fields["type"].Str? && SourcePath(Upcased(cell), s).Ok? ==>
              var p, ty := SourcePath(Upcased(cell), s).value, Text.Upper(cell.fields["type"].s);
              && (ty == "QUERY" ==> r == Issued(Query(Read(p, fs), true, None)))
              && (ty == "UPDATE" ==> r == Issued(Query(Read(p, fs), false, None)))
              && (ty == "INSTALL" ==> r == Issued(Install("notebooks/" + Text.ReplaceAll(p, ".rel", ""), Read(p, fs))))
              && (ty == "DATA" ==> (r.Issued? <==> DataOp(Upcased(cell), s, fs, Read(p, fs)).Ok?))
              && (ty !in {"QUERY", "UPDATE", "INSTALL", "DATA"} ==> r == Issued(UnsupportedType))
  {
    if !cell.fields["type"].Str? then Crashed(AttributeError)
    else Dispatch(Upcased(cell), s, fs)
  }

  /** Case does not matter to the run loop: a step typed `update` runs as
      one typed `UPDATE` does. */
  lemma {:induction false} RunStepIgnoresCase(cell: Value, s: Script, fs: map<string, string>, t: string)
    requires ValidatedStep(cell)
    ensures RunStep(Table(cell.fields["type" := Str(t)]), s, fs)
            == RunStep(Table(cell.fields["type" := Str(Text.Upper(t))]), s, fs)
  {
    UpcasedIgnoresCase(cell, t);
  }

  lemma {:induction false} UpcasedIgnoresCase(cell: Value, t: string)
    requires ValidatedStep(cell)
    ensures ValidatedStep(Table(cell.fields["type" := Str(t)]))
    ensures ValidatedStep(Table(cell.fields["type" := Str(Text.Upper(t))]))
    ensures Upcased(Table(cell.fields["type" := Str(t)])) == Upcased(Table(cell.fields["type" := Str(Text.Upper(t))]))
  {
    Text.UpperIdempotent(t);
  }

  /** `for query in config["queries"]`: every step in order until one
      raises. */
  function RunScript(steps: seq<Value>, s: Script, fs: map<string, string>): (r: seq<Outcome>)
    requires forall i :: 0 <= i < |steps| ==> ValidatedStep(steps[i])
    ensures |r| <= |steps|
    ensures forall i :: 0 <= i < |r| ==> r[i] == RunStep(steps[i], s, fs)
    ensures forall i :: 0 <= i < |r| - 1 ==> r[i].Issued?
    ensures |r| < |steps| ==> |r| > 0 && r[|r| - 1].Crashed?
  {
    Seqs.UpToFirst(seq(|steps|, i requires 0 <= i < |steps| => RunStep(steps[i], s, fs)), (o: Outcome) => o.Issued?)
  }

  /** The inline validator accepts only documents whose steps the loop can
      start on. */
  lemma {:induction false} ValidatedScriptSteps(doc: Document)
    requires Validation.Validate(doc, Validation.ScriptHarness).Pass?
    ensures var steps := Validation.StepsOf(doc["queries"]);
            forall i :: 0 <= i < |steps| ==> ValidatedStep(steps[i])
  {
    ValidationFacts.ValidateAcceptsExactly(doc, Validation.ScriptHarness);
    var steps := Validation.StepsOf(doc["queries"]);
    forall i | 0 <= i < |steps|
      ensures ValidatedStep(steps[i])
    {
      assert "file_name" in Validation.ScriptHarness.stepKeys;
      assert "type" in Validation.ScriptHarness.stepKeys;
    }
  }

  // ---------------------------------------------------------------------
  // The two defects
  // ---------------------------------------------------------------------

  /** Every QUERY step of the script raises, where the evident intent is a
      read-only query of the step's source. */
  lemma {:induction false} QueryStepCrashes(cell: Value, s: Script, fs: map<string, string>)
    requires ScriptStep(cell) && cell.fields["type"] == Str("QUERY")
    requires cell.fields["file_name"].Str?
    ensures DispatchAsWritten(cell, s, fs) == Crashed(AttributeError)
    ensures Dispatch(cell, s, fs) == Issued(Query(Read(SourcePath(cell, s).value, fs), true, None))
  {
  }

  /** A DATA step without inputs whose output name has neither `.csv` nor
      `.json` raises, where the evident intent is to log the format and
      go on. */
  lemma {:induction false} UnsupportedFormatCrashes(cell: Value, s: Script, fs: map<string, string>, stem: string)
    requires ScriptStep(cell) && cell.fields["type"] == Str("DATA")
    requires "inputs" !in cell.fields && "relation_name" in cell.fields
    requires cell.fields["file_name"] == Str(stem + ".parquet")
    requires stem != "" && '/' !in stem
    requires cell.fields["index"] == Int(1)
    ensures DispatchAsWritten(cell, s, fs) == Crashed(UnboundLocal("result"))
    ensures Dispatch(cell, s, fs) == Issued(UnsupportedFormat(".parquet"))
  {
    OutputSuffix(s.outputDir, stem);
    assert Format(Int(1)) == "1";
    assert LoadOp(cell, s, Read(SourcePath(cell, s).value, fs)) == Ok(UnsupportedFormat(".parquet"));
  }

  lemma {:induction false} OutputSuffix(dir: string, stem: string)
    requires stem != "" && '/' !in stem
    ensures Paths.Suffix(Paths.Join(dir, "1" + "-" + (stem + ".parquet"))) == ".parquet"
  {
    var out := "1" + "-" + (stem + ".parquet");
    assert out == ("1-" + stem) + ".parquet";
    Paths.SuffixOfExtension("1-" + stem, ".parquet");
    assert forall i :: 0 <= i < |out| ==> out[i] != '/' by {
      assert forall i :: 2 <= i < 2 + |stem| ==> out[i] == stem[i - 2];
    }
    assert out != "." by {
      assert |out| > 1;
    }
    Paths.NameOfJoin(dir, out);
    Paths.NameOfComponent(out);
    Paths.SuffixOfName(Paths.Join(dir, out), out);
  }

  function RunStepAsWritten(cell: Value, s: Script, fs: map<string, string>): (r: Outcome)
    requires ValidatedStep(cell)
    ensures r.Issued? ==> r == RunStep(cell, s, fs)
  {
    if !cell.fields["type"].Str? then Crashed(AttributeError)
    else DispatchAsWritten(Upcased(cell), s, fs)
  }

  /** The run loop as written. */
  function RunScriptAsWritten(steps: seq<Value>, s: Script, fs: map<string, string>): (r: seq<Outcome>)
    requires forall i :: 0 <= i < |steps| ==> ValidatedStep(steps[i])
    ensures |r| <= |steps|
    ensures forall i :: 0 <= i < |r| ==> r[i] == RunStepAsWritten(steps[i], s, fs)
    ensures forall i :: 0 <= i < |r| - 1 ==> r[i].Issued?
    ensures |r| < |steps| ==> |r| > 0 && r[|r| - 1].Crashed?
  {
    Seqs.UpToFirst(seq(|steps|, i requires 0 <= i < |steps| => RunStepAsWritten(steps[i], s, fs)), (o: Outcome) => o.Issued?)
  }

  /** As written, the script ends at its first QUERY step: no later step
      is dispatched. */
  lemma {:induction false} RunEndsAtFirstQuery(steps: seq<Value>, s: Script, fs: map<string, string>, k: nat)
    requires forall i :: 0 <= i < |steps| ==> ValidatedStep(steps[i])
    requires k < |steps| && ValidatedStep(steps[k])
    requires steps[k].fields["type"].Str? && Text.Upper(steps[k].fields["type"].s) == "QUERY"
    requires steps[k].fields["file_name"].Str?
    ensures |RunScriptAsWritten(steps, s, fs)| <= k + 1
  {
    var cell := Table(steps[k].fields["type" := Str("QUERY")]);
    assert DispatchAsWritten(cell, s, fs) == Crashed(AttributeError);
    assert RunStepAsWritten(steps[k], s, fs).Crashed?;
  }
}
