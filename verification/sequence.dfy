/** `Sequence.exec` of the python harness, recast as a planner: for each
    step, in array order, the `railib` call it would issue and the file its
    result is logged to, or the reason the run ends there. */
module Sequence {

  import opened Base
  import opened Seqs
  import opened Values
  import opened QueryUtils
  import Validation
  import ValidationFacts
  import Schema
  import Utils
  import Paths
  import Text

  /** `Sequence.data_dir` and `Sequence.source_dir`, already resolved. */
  datatype Dirs = Dirs(dataDir: string, sourceDir: string)

  /** The file system as the planner sees it: the text of each regular
      file, by path. */
  type Files = map<string, string>

  /** What became of one step. `Abort` is the `exit()` after a missing
      source file; `Crash` an exception that escapes `exec`. */
  datatype StepOutcome =
    | Planned(call: Call, logFile: string)
    | Abort(path: string)
    | Crash(error: PyError)

  /** What a validated python-harness step is guaranteed to be. */
  predicate WellFormedStep(step: Value) {
    && step.Table?
    && "index" in step.fields && Hashable(step.fields["index"])
    && "file_path" in step.fields
    && "type" in step.fields && step.fields["type"].Str?
  }

  /** `qry["type"] == "data" and ("inputs" not in qry)`: exact, lower-case
      comparison, and presence of the key rather than its truthiness. */
  predicate ReadsFromDataDir(step: Value)
    requires WellFormedStep(step)
  {
    step.fields["type"] == Str("data") && "inputs" !in step.fields
  }

  /** `Path(dir / qry["file_path"])`; a non-string path raises. */
  function SourcePath(step: Value, dirs: Dirs): (r: Py<string>)
    requires WellFormedStep(step)
    ensures r.Ok? <==> step.fields["file_path"].Str?
    ensures r.Raise? ==> r.error == TypeError
    ensures r.Ok? && ReadsFromDataDir(step) ==> r.value == Paths.Join(dirs.dataDir, step.fields["file_path"].s)
    ensures r.Ok? && !ReadsFromDataDir(step) ==> r.value == Paths.Join(dirs.sourceDir, step.fields["file_path"].s)
  {
    var fp := step.fields["file_path"];
    if !fp.Str? then Raise(TypeError)
    else Ok(Paths.Join(if ReadsFromDataDir(step) then dirs.dataDir else dirs.sourceDir, fp.s))
  }

  // ---------------------------------------------------------------------
  // The `inputs` dictionary
  // ---------------------------------------------------------------------

  /** `open_file(data_dir / value) if (data_dir / value).is_file() else value` */
  function Resolve(value: string, dirs: Dirs, fs: Files): (r: string)
    ensures Paths.Join(dirs.dataDir, value) !in fs ==> r == value
    ensures Paths.Join(dirs.dataDir, value) in fs ==> r == fs[Paths.Join(dirs.dataDir, value)]
  {
    var p := Paths.Join(dirs.dataDir, value);
    if p in fs then fs[p] else value
  }

  /** The part of the comprehension one `inputs` entry contributes. An
      entry that is not a table has no `items`; a value that is not a
      string cannot be joined to a path. */
  function EntryInputs(entry: Value, dirs: Dirs, fs: Files): (r: Py<map<string, string>>)
    ensures r.Ok? <==> entry.Table? && forall k :: k in entry.fields ==> entry.fields[k].Str?
    ensures r.Ok? ==> r.value.Keys == entry.fields.Keys
                      && forall k :: k in r.value ==> r.value[k] == Resolve(entry.fields[k].s, dirs, fs)
    ensures !entry.Table? ==> r == Raise(AttributeError)
  {
    if !entry.Table? then Raise(AttributeError)
    else if exists k :: k in entry.fields && !entry.fields[k].Str? then Raise(TypeError)
    else Ok(map k | k in entry.fields :: Resolve(entry.fields[k].s, dirs, fs))
  }

  /** The comprehension over a list of entries: left to right, a later
      entry's key overwriting an earlier one's. */
  function EntriesInputs(entries: seq<Value>, dirs: Dirs, fs: Files): (r: Py<map<string, string>>)
    ensures r.Ok? <==> forall i :: 0 <= i < |entries| ==> EntryInputs(entries[i], dirs, fs).Ok?
    decreases |entries|
  {
    if entries == [] then Ok(map[])
    else
      var init := entries[..|entries| - 1];
      var acc :- EntriesInputs(init, dirs, fs);
      var last :- EntryInputs(entries[|entries| - 1], dirs, fs);
      assert forall i :: 0 <= i < |init| ==> init[i] == entries[i];
      Ok(acc + last)
  }

  /** Iterating the `inputs` value, which is known to be truthy: a list
      yields its entries; a string yields characters and a table its keys,
      and neither has `items`; a number is not iterable. */
  function BuildInputs(inputs: Value, dirs: Dirs, fs: Files): (r: Py<map<string, string>>)
    requires Truthy(inputs)
    ensures inputs.Arr? ==> r == EntriesInputs(inputs.items, dirs, fs)
    ensures inputs.Str? || inputs.Table? ==> r == Raise(AttributeError)
    ensures inputs.Int? || inputs.Bool? ==> r == Raise(TypeError)
  {
    match inputs
    case Arr(xs) => EntriesInputs(xs, dirs, fs)
    case Str(_) => Raise(AttributeError)
    case Table(_) => Raise(AttributeError)
    case Int(_) => Raise(TypeError)
    case Bool(_) => Raise(TypeError)
  }

  /** The index of the last entry that has key `k`. */
  predicate LastWithKey(entries: seq<Value>, k: string, j: int) {
    && 0 <= j < |entries| && entries[j].Table? && k in entries[j].fields
    && forall i :: j < i < |entries| && entries[i].Table? ==> k !in entries[i].fields
  }

  /** The last entry naming `k` stays the last when an entry without `k` is
      appended. */
  lemma {:induction false} LastWithKeySnoc(entries: seq<Value>, k: string, j: int)
    requires entries != [] && LastWithKey(entries[..|entries| - 1], k, j)
    requires entries[|entries| - 1].Table? ==> k !in entries[|entries| - 1].fields
    ensures LastWithKey(entries, k, j)
  {
    var init := entries[..|entries| - 1];
    forall i | j < i < |entries| && entries[i].Table?
      ensures k !in entries[i].fields
    {
      if i < |init| {
        assert init[i] == entries[i];
      }
    }
  }

  /** Every key of the built dictionary holds the resolved value of the last
      entry that names it, and the keys are exactly those the entries name. */
  lemma {:induction false} EntriesInputsLastWins(entries: seq<Value>, dirs: Dirs, fs: Files, k: string)
    requires EntriesInputs(entries, dirs, fs).Ok?
    ensures var m := EntriesInputs(entries, dirs, fs).value;
            && (k in m <==> exists i :: 0 <= i < |entries| && entries[i].Table? && k in entries[i].fields)
            && (k in m ==> exists j :: LastWithKey(entries, k, j)
                                       && m[k] == Resolve(entries[j].fields[k].s, dirs, fs))
  {
    EntriesInputsKeys(entries, dirs, fs, k);
    EntriesInputsValues(entries, dirs, fs, k);
  }

  /** One step of the comprehension: the last entry's map laid over the
      map of the entries before it. */
  lemma {:induction false} EntriesInputsSnoc(entries: seq<Value>, dirs: Dirs, fs: Files)
    requires entries != [] && EntriesInputs(entries, dirs, fs).Ok?
    ensures var init := entries[..|entries| - 1];
            && EntriesInputs(init, dirs, fs).Ok?
            && EntryInputs(entries[|entries| - 1], dirs, fs).Ok?
            && EntriesInputs(entries, dirs, fs).value
               == EntriesInputs(init, dirs, fs).value + EntryInputs(entries[|entries| - 1], dirs, fs).value
  {
  }

  lemma {:induction false} EntriesInputsKeys(entries: seq<Value>, dirs: Dirs, fs: Files, k: string)
    requires EntriesInputs(entries, dirs, fs).Ok?
    ensures k in EntriesInputs(entries, dirs, fs).value
            <==> exists i :: 0 <= i < |entries| && entries[i].Table? && k in entries[i].fields
    decreases |entries|
  {
    if entries != [] {
      var n := |entries| - 1;
      var init := entries[..n];
      EntriesInputsSnoc(entries, dirs, fs);
      EntriesInputsKeys(init, dirs, fs, k);
      assert forall i :: 0 <= i < n ==> init[i] == entries[i];
    }
  }

  lemma {:induction false} EntriesInputsValues(entries: seq<Value>, dirs: Dirs, fs: Files, k: string)
    requires EntriesInputs(entries, dirs, fs).Ok?
    ensures var m := EntriesInputs(entries, dirs, fs).value;
            k in m ==> exists j :: LastWithKey(entries, k, j)
                                   && m[k] == Resolve(entries[j].fields[k].s, dirs, fs)
    decreases |entries|
  {
    if entries != [] {
      var n := |entries| - 1;
      var init := entries[..n];
      EntriesInputsSnoc(entries, dirs, fs);
      EntriesInputsValues(init, dirs, fs, k);
      var acc := EntriesInputs(init, dirs, fs).value;
      var last := EntryInputs(entries[n], dirs, fs).value;
      var m := acc + last;
      if k in last {
        assert k in entries[n].fields && m[k] == last[k];
        assert LastWithKey(entries, k, n);
      } else if k in acc {
        var j :| LastWithKey(init, k, j) && acc[k] == Resolve(init[j].fields[k].s, dirs, fs);
        assert init[j] == entries[j] && m[k] == acc[k];
        assert k !in entries[n].fields;
        LastWithKeySnoc(entries, k, j);
      }
    }
  }

  // ---------------------------------------------------------------------
  // Dispatch on the upper-cased type
  // ---------------------------------------------------------------------

  /** `source_path.name.replace('.rel', '')`: every occurrence goes. */
  function ModelName(path: string): string {
    Text.ReplaceAll(Paths.Name(path), ".rel", "")
  }

  /** The suffix handed to `data_query`: only `.csv` and `.json` pass. */
  function LoadableSuffix(filePath: string): (r: Option<string>)
    ensures r.Some? <==> Paths.Suffix(filePath) in {".csv", ".json"}
    ensures r.Some? ==> r.value == Paths.Suffix(filePath)
  {
    var sfx := Paths.Suffix(filePath);
    if sfx == ".csv" || sfx == ".json" then Some(sfx) else None
  }

  /** The call for a step of upper-cased type `ty`. */
  function Dispatch(ty: string, path: string, filePath: string, source: string,
                    inputs: Option<map<string, string>>, name: string): (r: Call)
    ensures r.Exec? && r.readonly <==> ty == "QUERY"
    ensures r.Exec? && !r.readonly <==> ty == "UPDATE" || (ty == "DATA" && HasInputs(inputs))
    ensures r.Exec? ==> r.source == source && r.inputs == inputs
    ensures r.InstallModel? <==> ty == "INSTALL"
    ensures r.InstallModel? ==> r == InstallModel(ModelName(path), source)
    ensures r.LoadCsv? <==> ty == "DATA" && !HasInputs(inputs) && Paths.Suffix(filePath) == ".csv"
    ensures r.LoadJson? <==> ty == "DATA" && !HasInputs(inputs) && Paths.Suffix(filePath) == ".json"
    ensures r.LoadCsv? || r.LoadJson? ==> r.relation == name && r.source == source
    ensures ty !in {"QUERY", "UPDATE", "INSTALL", "DATA"} ==> r == NoCall
  {
    if ty == "QUERY" || ty == "UPDATE" then Exec(source, inputs, ty != "UPDATE")
    else if ty == "INSTALL" then InstallModel(ModelName(path), source)
    else if ty == "DATA" then DataQuery(inputs, source, name, LoadableSuffix(filePath))
    else NoCall
  }

  // ---------------------------------------------------------------------
  // One step, and the run
  // ---------------------------------------------------------------------

  /** The `inputs` argument: `None` unless `cell_has_inputs`, else the
      built dictionary. */
  function StepInputs(step: Value, dirs: Dirs, fs: Files): (r: Py<Option<map<string, string>>>)
    requires step.Table?
    ensures !Utils.CellHasInputs(step.fields) ==> r == Ok(None)
    ensures Utils.CellHasInputs(step.fields) && step.fields["inputs"].Arr? ==>
              match EntriesInputs(step.fields["inputs"].items, dirs, fs)
              case Ok(m) => r == Ok(Some(m))
              case Raise(e) => r == Raise(e)
    ensures Utils.CellHasInputs(step.fields) && (step.fields["inputs"].Str? || step.fields["inputs"].Table?)
            ==> r == Raise(AttributeError)
    ensures Utils.CellHasInputs(step.fields) && (step.fields["inputs"].Int? || step.fields["inputs"].Bool?)
            ==> r == Raise(TypeError)
  {
    if Utils.CellHasInputs(step.fields) then
      var m :- BuildInputs(step.fields["inputs"], dirs, fs);
      Ok(Some(m))
    else Ok(None)
  }

  /** The body of the loop in `exec` for one step. */
  function PlanStep(step: Value, dirs: Dirs, fs: Files): (r: StepOutcome)
    requires WellFormedStep(step)
    ensures Utils.SanitizeQueryName(step).Raise? ==> r == Crash(Utils.SanitizeQueryName(step).error)
    ensures r.Abort? <==> && Utils.SanitizeQueryName(step).Ok?
                          && SourcePath(step, dirs).Ok?
                          && SourcePath(step, dirs).value !in fs
    ensures r.Abort? ==> r.path == SourcePath(step, dirs).value
    ensures r.Planned? ==> && Utils.SanitizeQueryName(step).Ok?
                           && SourcePath(step, dirs).Ok?
                           && SourcePath(step, dirs).value in fs
                           && r.logFile == LogResultName(step.fields["index"], Utils.SanitizeQueryName(step).value)
    ensures Utils.SanitizeQueryName(step).Ok? && SourcePath(step, dirs).Raise? ==> r == Crash(TypeError)
    ensures Utils.SanitizeQueryName(step).Ok? && SourcePath(step, dirs).Ok? && SourcePath(step, dirs).value in fs ==>
              (r.Crash? <==> StepInputs(step, dirs, fs).Raise?)
    ensures r.Crash? && Utils.SanitizeQueryName(step).Ok? && SourcePath(step, dirs).Ok? ==>
              r.error == StepInputs(step, dirs, fs).error
    ensures r.Planned? ==> r.call == Dispatch(Text.Upper(step.fields["type"].s), SourcePath(step, dirs).value,
                                              step.fields["file_path"].s, fs[SourcePath(step, dirs).value],
                                              StepInputs(step, dirs, fs).value, Utils.SanitizeQueryName(step).value)
  {
    match Utils.SanitizeQueryName(step)
    case Raise(e) => Crash(e)
    case Ok(name) =>
      match SourcePath(step, dirs)
      case Raise(e) => Crash(e)
      case Ok(path) =>
        if path !in fs then Abort(path)
        else
          match StepInputs(step, dirs, fs)
          case Raise(e) => Crash(e)
          case Ok(inputs) =>
            var call := Dispatch(Text.Upper(step.fields["type"].s), path, step.fields["file_path"].s,
                                 fs[path], inputs, name);
            Planned(call, LogResultName(step.fields["index"], name))
  }

  /** `for qry in queries`: the steps in array order, each planned once,
      until one ends the run. */
  function PlanRun(steps: seq<Value>, dirs: Dirs, fs: Files): (r: seq<StepOutcome>)
    requires forall i :: 0 <= i < |steps| ==> WellFormedStep(steps[i])
    ensures |r| <= |steps|
    ensures |steps| > 0 ==> |r| > 0
    ensures forall i :: 0 <= i < |r| ==> r[i] == PlanStep(steps[i], dirs, fs)
    ensures forall i :: 0 <= i < |r| - 1 ==> r[i].Planned?
    ensures |r| < |steps| ==> !r[|r| - 1].Planned?
  {
    UpToFirst(seq(|steps|, i requires 0 <= i < |steps| => PlanStep(steps[i], dirs, fs)), (o: StepOutcome) => o.Planned?)
  }

  /** A step that ends the run is the last one planned: no later step is
      dispatched. */
  lemma {:induction false} RunStopsAtFirstFailure(steps: seq<Value>, dirs: Dirs, fs: Files, k: nat)
    requires forall i :: 0 <= i < |steps| ==> WellFormedStep(steps[i])
    requires k < |steps| && !PlanStep(steps[k], dirs, fs).Planned?
    requires forall i :: 0 <= i < k ==> PlanStep(steps[i], dirs, fs).Planned?
    ensures |PlanRun(steps, dirs, fs)| == k + 1
    ensures PlanRun(steps, dirs, fs)[k] == PlanStep(steps[k], dirs, fs)
  {
  }

  // ---------------------------------------------------------------------
  // What a step plans, by type
  // ---------------------------------------------------------------------

  /** A DATA step without an `inputs` key reads its source from `data_dir`
      only when its type is spelled exactly `data`; any other spelling that
      upper-cases to `DATA` (such as `Data`) reads from `source_dir`, and is
      still loaded as data. The load is chosen by the file's suffix and
      targets the sanitised name. */
  lemma {:induction false} DataStepWithoutInputs(step: Value, dirs: Dirs, fs: Files)
    requires WellFormedStep(step) && "inputs" !in step.fields
    requires Text.Upper(step.fields["type"].s) == "DATA"
    requires "name" in step.fields && step.fields["name"].Str?
    requires step.fields["file_path"].Str?
    ensures var fp := step.fields["file_path"].s;
            var dir := if step.fields["type"].s == "data" then dirs.dataDir else dirs.sourceDir;
            var path := Paths.Join(dir, fp);
            var name := Utils.SanitizeText(step.fields["name"].s);
            var log := LogResultName(step.fields["index"], name);
            var r := PlanStep(step, dirs, fs);
            && (path !in fs ==> r == Abort(path))
            && (path in fs && Paths.Suffix(fp) == ".csv" ==> r == Planned(LoadCsv(name, fs[path]), log))
            && (path in fs && Paths.Suffix(fp) == ".json" ==> r == Planned(LoadJson(name, fs[path]), log))
            && (path in fs && Paths.Suffix(fp) !in {".csv", ".json"} ==> r == Planned(NoCall, log))
  {
    assert ReadsFromDataDir(step) <==> step.fields["type"].s == "data";
  }

  /** QUERY and UPDATE steps read their source from `source_dir` and are
      executed with the step's inputs, read-only exactly for QUERY. */
  lemma {:induction false} ExecStep(step: Value, dirs: Dirs, fs: Files)
    requires WellFormedStep(step)
    requires Text.Upper(step.fields["type"].s) in {"QUERY", "UPDATE"}
    requires "name" in step.fields && step.fields["name"].Str?
    requires step.fields["file_path"].Str?
    requires StepInputs(step, dirs, fs).Ok?
    ensures var path := Paths.Join(dirs.sourceDir, step.fields["file_path"].s);
            var name := Utils.SanitizeText(step.fields["name"].s);
            var readonly := Text.Upper(step.fields["type"].s) == "QUERY";
            var r := PlanStep(step, dirs, fs);
            && (path !in fs ==> r == Abort(path))
            && (path in fs ==> r == Planned(Exec(fs[path], StepInputs(step, dirs, fs).value, readonly),
                                            LogResultName(step.fields["index"], name)))
  {
    assert !ReadsFromDataDir(step);
  }

  /** A DATA step whose `inputs` build a non-empty dictionary is executed
      as a writing query with that dictionary, whatever the file's suffix;
      since the key is present, its source is read from `source_dir`. An
      entry that fails to resolve ends the run with its error. */
  lemma {:induction false} DataStepWithInputs(step: Value, dirs: Dirs, fs: Files)
    requires WellFormedStep(step)
    requires Text.Upper(step.fields["type"].s) == "DATA"
    requires "inputs" in step.fields && step.fields["inputs"].Arr? && |step.fields["inputs"].items| > 0
    requires "name" in step.fields && step.fields["name"].Str?
    requires step.fields["file_path"].Str?
    ensures var path := Paths.Join(dirs.sourceDir, step.fields["file_path"].s);
            var name := Utils.SanitizeText(step.fields["name"].s);
            var r := PlanStep(step, dirs, fs);
            && (path !in fs ==> r == Abort(path))
            && (path in fs ==>
                  match EntriesInputs(step.fields["inputs"].items, dirs, fs)
                  case Raise(e) => r == Crash(e)
                  case Ok(m) => |m| > 0 ==> r == Planned(Exec(fs[path], Some(m), false),
                                                         LogResultName(step.fields["index"], name)))
  {
    assert !ReadsFromDataDir(step);
    assert Utils.CellHasInputs(step.fields);
  }

  /** A step whose upper-cased type is none of QUERY, UPDATE, INSTALL and
      DATA makes no call, yet is still logged and does not end the run. */
  lemma {:induction false} UnknownTypeStep(step: Value, dirs: Dirs, fs: Files)
    requires WellFormedStep(step)
    requires Text.Upper(step.fields["type"].s) !in {"QUERY", "UPDATE", "INSTALL", "DATA"}
    requires "name" in step.fields && step.fields["name"].Str?
    requires step.fields["file_path"].Str?
    requires StepInputs(step, dirs, fs).Ok?
    ensures var path := Paths.Join(dirs.sourceDir, step.fields["file_path"].s);
            var name := Utils.SanitizeText(step.fields["name"].s);
            var r := PlanStep(step, dirs, fs);
            && (path !in fs ==> r == Abort(path))
            && (path in fs ==> r == Planned(NoCall, LogResultName(step.fields["index"], name)))
  {
    assert Text.Upper("data") == "DATA";
    assert !ReadsFromDataDir(step);
  }

  /** An INSTALL step whose file is `stem.rel` installs one model named
      `stem`, holding the file's text. */
  lemma {:induction false} InstallStep(step: Value, dirs: Dirs, fs: Files, stem: string)
    requires WellFormedStep(step) && "inputs" !in step.fields
    requires Text.Upper(step.fields["type"].s) == "INSTALL"
    requires "name" in step.fields && step.fields["name"].Str?
    requires step.fields["file_path"] == Str(stem + ".rel")
    requires stem != "" && '.' !in stem && '/' !in stem
    requires Paths.Join(dirs.sourceDir, stem + ".rel") in fs
    ensures var path := Paths.Join(dirs.sourceDir, stem + ".rel");
            PlanStep(step, dirs, fs).Planned?
            && PlanStep(step, dirs, fs).call == InstallModel(stem, fs[path])
  {
    var fp := stem + ".rel";
    assert !ReadsFromDataDir(step);
    assert forall i :: 0 <= i < |fp| ==> fp[i] != '/' by {
      assert forall i :: 0 <= i < |stem| ==> fp[i] == stem[i];
    }
    assert fp != "." by {
      assert |fp| > 1;
    }
    Paths.NameOfJoin(dirs.sourceDir, fp);
    Text.ReplaceRelSuffix(stem);
  }

  /** `inputs = [{}]` has inputs by `cell_has_inputs`, yet builds an empty
      dictionary, so a DATA step with it is loaded rather than executed;
      and since the key is present, its source is read from `source_dir`. */
  lemma {:induction false} EmptyInputEntryLoads(step: Value, dirs: Dirs, fs: Files)
    requires WellFormedStep(step)
    requires step.fields["type"] == Str("data")
    requires "inputs" in step.fields && step.fields["inputs"] == Arr([EmptyTable])
    requires "name" in step.fields && step.fields["name"].Str?
    requires step.fields["file_path"].Str? && Paths.Suffix(step.fields["file_path"].s) == ".json"
    requires Paths.Join(dirs.sourceDir, step.fields["file_path"].s) in fs
    ensures var path := Paths.Join(dirs.sourceDir, step.fields["file_path"].s);
            var name := Utils.SanitizeText(step.fields["name"].s);
            PlanStep(step, dirs, fs) == Planned(LoadJson(name, fs[path]), LogResultName(step.fields["index"], name))
  {
    assert Utils.CellHasInputs(step.fields);
    var entries := step.fields["inputs"].items;
    assert EntriesInputs(entries, dirs, fs) == Ok(map[]) by {
      assert entries[..0] == [];
      assert EntryInputs(EmptyTable, dirs, fs) == Ok(map[]);
    }
    assert StepInputs(step, dirs, fs) == Ok(Some(map[]));
    assert Text.Upper("data") == "DATA";
  }

  /** Every step of a schema that passed the python validator is well
      formed. */
  lemma {:induction false} ValidatedStepsWellFormed(s: Schema.Schema)
    requires s.flavour == Schema.PythonFlavour && Schema.Valid(s)
    ensures var steps := Validation.StepsOf(s.doc["queries"]);
            forall i :: 0 <= i < |steps| ==> WellFormedStep(steps[i])
  {
    var steps := Validation.StepsOf(s.doc["queries"]);
    forall i | 0 <= i < |steps|
      ensures WellFormedStep(steps[i])
    {
      assert "file_path" in Validation.PythonHarness.stepKeys;
      assert "type" in Validation.PythonHarness.stepKeys;
      assert Validation.DataRuleHolds(steps[i]);
    }
  }

  /** `Sequence(schema).exec()`: the steps of the validated schema. */
  function Run(s: Schema.Schema, dirs: Dirs, fs: Files): (r: seq<StepOutcome>)
    requires s.flavour == Schema.PythonFlavour && Schema.Valid(s)
    ensures var steps := Validation.StepsOf(s.doc["queries"]);
            && |r| <= |steps|
            && (|steps| > 0 ==> |r| > 0)
            && (forall i :: 0 <= i < |r| - 1 ==> r[i].Planned?)
            && (|r| < |steps| ==> |r| > 0 && !r[|r| - 1].Planned?)
            && forall i :: 0 <= i < |r| ==> WellFormedStep(steps[i]) && r[i] == PlanStep(steps[i], dirs, fs)
  {
    ValidatedStepsWellFormed(s);
    PlanRun(Validation.StepsOf(s.doc["queries"]), dirs, fs)
  }
}
