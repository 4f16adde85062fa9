/** `valid_schema_or_exit`: the run-specification validator. The repository
    holds three copies that differ only in their required-key lists (the
    python harness, the sdk harness, and the `validate` function of the
    `run_harness.py` script); the model is one validator parameterised by a
    `Variant`. Each check runs in a fixed order and the first failure ends
    validation: an `exit(...)` is a `Reject` naming the check, an uncaught
    Python exception is a `Crash`. */
module Validation {

  import opened Base
  import opened Seqs
  import opened Values
  import Text
  import Paths

  /** What distinguishes the three copies of the validator. */
  datatype Variant = Variant(globalKeys: seq<string>, stepKeys: seq<string>, checkDataName: bool)

  const PythonHarness: Variant := Variant(
    ["authors", "engine", "create_database", "data_dir", "database", "description", "project", "source_dir"],
    ["file_path", "index", "type"],
    true)

  const SdkHarness: Variant := Variant(
    ["authors", "compute", "create_database", "data_dir", "database", "description", "project", "source_dir"],
    ["source_path", "index", "type"],
    false)

  const ScriptHarness: Variant := Variant(
    ["authors", "create_database", "data_dir", "database", "description", "engine", "project", "source_dir"],
    ["file_name", "index", "type"],
    false)

  /** The `exit(...)` messages, one per check. */
  datatype ConfigError =
    | BadExtension(suffix: string)
    | Unloadable
    | MissingGlobalKey(key: string)
    | MissingVersionControl
    | MissingUrl
    | EmptyUrl
    | MissingQueries
    | EmptyQueries
    | DuplicateIndex
    | MissingStepKey(index: Value, key: string)
      /** `offending` is the index of the step that lacks `name`; `printed`
          is the index the message actually shows. */
    | DataStepNeedsName(offending: Value, printed: Value)

  /** The outcome of one check, or of the whole validation. */
  datatype Check<+T> = Pass(value: T) | Reject(error: ConfigError) | Crash(fault: PyError) {

    predicate IsFailure() {
      !Pass?
    }

    function PropagateFailure<U>(): Check<U>
      requires !Pass?
    {
      if Reject? then Reject(error) else Crash(fault)
    }

    function Extract(): T
      requires Pass?
    {
      value
    }
  }

  /** An exception raised while evaluating a check ends validation. */
  function Lift<T>(p: Py<T>): Check<T> {
    match p
    case Ok(x) => Pass(x)
    case Raise(e) => Crash(e)
  }

  // ---------------------------------------------------------------------
  // The checks, in the order the validator applies them
  // ---------------------------------------------------------------------

  /** `valid_file_extension_or_exit(schema_path, ".toml")` */
  function ExtensionCheck(path: string): (r: Check<()>)
    ensures r.Pass? <==> Paths.Suffix(path) == ".toml"
    ensures !r.Pass? ==> r == Reject(BadExtension(Paths.Suffix(path)))
  {
    var sfx := Paths.Suffix(path);
    if sfx != ".toml" then Reject(BadExtension(sfx)) else Pass(())
  }

  /** `load_toml_or_exit` as written: the parsed document, or, when the
      TOML loader raised, the handler itself raises. Its message names
      `schema_path`, which is not bound in that function (and in the sdk
      copy the `except err` clause names an unbound `err`), so a load
      failure ends in `NameError` rather than in `exit`. */
  function LoadAsWritten(loaded: Option<Document>): (r: Check<Document>)
    ensures r.Pass? <==> loaded.Some?
    ensures r.Pass? ==> loaded == Some(r.value)
    ensures loaded.None? ==> r == Crash(NameError)
  {
    match loaded
    case Some(doc) => Pass(doc)
    case None => Crash(NameError)
  }

  /** `load_toml_or_exit` as intended: a load failure ends in the `exit`
      with the "error loading" message. */
  function Load(loaded: Option<Document>): (r: Check<Document>)
    ensures r.Pass? <==> loaded.Some?
    ensures r.Pass? ==> loaded == Some(r.value)
    ensures loaded.None? ==> r == Reject(Unloadable)
  {
    match loaded
    case Some(doc) => Pass(doc)
    case None => Reject(Unloadable)
  }

  /** Each global key, in list order, must be present. */
  function GlobalKeysCheck(doc: Document, keys: seq<string>): (r: Check<()>)
    ensures r.Pass? <==> forall k :: k in keys ==> k in doc
    ensures !r.Pass? ==> r.Reject? && r.error.MissingGlobalKey?
                         && r.error.key in keys && r.error.key !in doc
  {
    if keys == [] then Pass(())
    else if keys[0] !in doc then Reject(MissingGlobalKey(keys[0]))
    else GlobalKeysCheck(doc, keys[1..])
  }

  /** The `version_control` table must exist, have a `url`, and the `url`
      must have non-zero length. */
  predicate VersionControlOk(doc: Document) {
    && "version_control" in doc
    && doc["version_control"].Table?
    && "url" in doc["version_control"].fields
    && var n := Len(doc["version_control"].fields["url"]);
       n.Ok? && n.value > 0
  }

  function VersionControlCheck(doc: Document): (r: Check<()>)
    ensures r.Pass? <==> VersionControlOk(doc)
  {
    if "version_control" !in doc then Reject(MissingVersionControl)
    else
      var vc := doc["version_control"];
      var hasUrl :- Lift(Contains(vc, "url"));
      if !hasUrl then Reject(MissingUrl)
      else
        var url :- Lift(GetItem(vc, "url"));
        var n :- Lift(Len(url));
        if n == 0 then Reject(EmptyUrl) else Pass(())
  }

  /** `schema["queries"][0] == {}`, asked only when the length is one. */
  function FirstIsEmptyTable(q: Value): Py<bool> {
    match q
    case Arr(xs) => if |xs| > 0 then Ok(xs[0] == EmptyTable) else Raise(IndexError)
    case Str(_) => Ok(false)
    case Table(_) => Raise(KeyError("0"))
    case Int(_) => Raise(TypeError)
    case Bool(_) => Raise(TypeError)
  }

  /** `for qry in schema["queries"]`: an array yields its elements and a
      string its characters. A non-empty table yields its key strings, and
      the next use of each (`qry["index"]`) raises `TypeError`; the model
      raises it here. */
  function Iterate(q: Value): (r: Py<seq<Value>>)
    ensures q.Arr? ==> r == Ok(q.items)
  {
    match q
    case Arr(xs) => Ok(xs)
    case Str(s) => Ok(seq(|s|, i requires 0 <= i < |s| => Str([s[i]])))
    case Table(m) => if |m| == 0 then Ok([]) else Raise(TypeError)
    case Int(_) => Raise(TypeError)
    case Bool(_) => Raise(TypeError)
  }

  /** The `queries` shapes that can pass validation: an array other than the
      single-empty-table placeholder, or an empty string or table. */
  predicate QueriesOk(q: Value) {
    || (q.Arr? && q.items != [EmptyTable])
    || q == Str("")
    || q == EmptyTable
  }

  /** The steps of a `queries` value that passes. */
  function StepsOf(q: Value): seq<Value> {
    if q.Arr? then q.items else []
  }

  predicate IsIndexed(step: Value) {
    step.Table? && "index" in step.fields
  }

  predicate AllIndexed(steps: seq<Value>) {
    forall i :: 0 <= i < |steps| ==> IsIndexed(steps[i])
  }

  function QueriesCheck(doc: Document): (r: Check<seq<Value>>)
    ensures "queries" in doc && QueriesOk(doc["queries"]) ==> r == Pass(StepsOf(doc["queries"]))
    ensures r.Pass? && AllIndexed(r.value) ==> "queries" in doc && QueriesOk(doc["queries"])
    ensures "queries" in doc && doc["queries"].Arr? && doc["queries"] != Arr([EmptyTable])
            ==> r == Pass(doc["queries"].items)
  {
    if "queries" !in doc then Reject(MissingQueries)
    else
      var q := doc["queries"];
      var n :- Lift(Len(q));
      var placeholder :- if n == 1 then Lift(FirstIsEmptyTable(q)) else Pass(false);
      if placeholder then Reject(EmptyQueries)
      else
        var steps :- Lift(Iterate(q));
        assert q.Str? && |q.s| > 0 ==> steps[0] == Str([q.s[0]]);
        assert q.Table? && |q.fields| == 0 ==> q.fields.Keys == {} && q == EmptyTable;
        Pass(steps)
  }

  /** `indices = [qry["index"] for qry in schema["queries"]]` */
  function Indices(steps: seq<Value>): (r: Check<seq<Value>>)
    ensures r.Pass? <==> AllIndexed(steps)
    ensures r.Pass? ==> |r.value| == |steps|
                        && forall i :: 0 <= i < |steps| ==> r.value[i] == steps[i].fields["index"]
    ensures !r.Pass? ==> r.Crash?
  {
    if steps == [] then Pass([])
    else
      var x :- Lift(GetItem(steps[0], "index"));
      var rest :- Indices(steps[1..]);
      assert forall i :: 1 <= i < |steps| ==> steps[i] == steps[1..][i - 1];
      Pass([x] + rest)
  }

  /** `set(indices)` hashes every index in order; an array or a table
      raises `TypeError`. */
  function HashKeys(idx: seq<Value>): (r: Check<seq<HashKey>>)
    ensures r.Pass? <==> forall i :: 0 <= i < |idx| ==> Hashable(idx[i])
    ensures r.Pass? ==> |r.value| == |idx| && forall i :: 0 <= i < |idx| ==> r.value[i] == KeyOf(idx[i])
    ensures !r.Pass? ==> r == Crash(TypeError)
  {
    if idx == [] then Pass([])
    else if !Hashable(idx[0]) then Crash(TypeError)
    else
      var rest :- HashKeys(idx[1..]);
      Pass([KeyOf(idx[0])] + rest)
  }

  /** `len(indices) != len(set(indices))` */
  function UniqueCheck(idx: seq<Value>): (r: Check<()>)
    ensures r.Pass? <==> (forall i :: 0 <= i < |idx| ==> Hashable(idx[i]))
                         && forall i, j :: 0 <= i < j < |idx| ==> KeyOf(idx[i]) != KeyOf(idx[j])
    ensures (forall i :: 0 <= i < |idx| ==> Hashable(idx[i])) && !r.Pass? ==> r == Reject(DuplicateIndex)
  {
    var keys :- HashKeys(idx);
    DistinctCardinality(keys);
    if |idx| != |ToSet(keys)| then Reject(DuplicateIndex) else Pass(())
  }

  /** The first of `keys`, in list order, that `fields` lacks. */
  function FirstAbsent(fields: map<string, Value>, keys: seq<string>): (r: Option<string>)
    ensures r.None? <==> forall k :: k in keys ==> k in fields
    ensures r.Some? ==> r.value in keys && r.value !in fields
  {
    if keys == [] then None
    else if keys[0] !in fields then Some(keys[0])
    else FirstAbsent(fields, keys[1..])
  }

  /** Every step, in order, must carry every step key; the message shows
      the step's index. */
  function StepKeysCheck(steps: seq<Value>, keys: seq<string>): (r: Check<()>)
    requires AllIndexed(steps)
    ensures r.Pass? <==> forall x, k :: x in steps && k in keys ==> k in x.fields
    ensures !r.Pass? ==> r.Reject? && r.error.MissingStepKey?
                         && exists x :: x in steps && r.error.index == x.fields["index"]
                                        && r.error.key in keys && r.error.key !in x.fields
  {
    if steps == [] then Pass(())
    else
      match FirstAbsent(steps[0].fields, keys)
      case Some(k) => Reject(MissingStepKey(steps[0].fields["index"], k))
      case None =>
        assert forall y :: y in steps ==> y == steps[0] || y in steps[1..];
        assert AllIndexed(steps[1..]) by {
          assert forall i :: 0 <= i < |steps[1..]| ==> steps[1..][i] == steps[i + 1];
        }
        StepKeysCheck(steps[1..], keys)
  }

  /** The rule a step must satisfy in the python harness: its `type` is a
      string, and an upper-cased `DATA` step without an `inputs` key has a
      `name` key. */
  predicate DataRuleHolds(step: Value)
    requires step.Table?
  {
    && "type" in step.fields
    && step.fields["type"].Str?
    && (Text.Upper(step.fields["type"].s) == "DATA" && "inputs" !in step.fields ==> "name" in step.fields)
  }

  /** `(qry["type"].upper() == "DATA") and ("inputs" not in qry)` */
  function IsDataWithoutInputs(step: Value): (r: Py<bool>)
    requires step.Table?
    ensures r.Ok? <==> "type" in step.fields && step.fields["type"].Str?
    ensures r == Ok(true) ==> Text.Upper(step.fields["type"].s) == "DATA" && "inputs" !in step.fields
    ensures r == Ok(false) ==> Text.Upper(step.fields["type"].s) != "DATA" || "inputs" in step.fields
  {
    var ty :- GetItem(step, "type");
    if !ty.Str? then Raise(AttributeError)
    else Ok(Text.Upper(ty.s) == "DATA" && "inputs" !in step.fields)
  }

  /** `data_queries_without_input_key`: the list comprehension evaluates the
      test on every step, in order, before any `name` is looked at. */
  function DataStepsWithoutInputs(steps: seq<Value>): (r: Py<seq<Value>>)
    requires forall x :: x in steps ==> x.Table?
    ensures r.Ok? <==> forall x :: x in steps ==> "type" in x.fields && x.fields["type"].Str?
    ensures r.Ok? ==> forall x :: x in r.value <==> x in steps && IsDataWithoutInputs(x) == Ok(true)
  {
    if steps == [] then Ok([])
    else
      var b :- IsDataWithoutInputs(steps[0]);
      var rest :- DataStepsWithoutInputs(steps[1..]);
      assert forall y :: y in steps ==> y == steps[0] || y in steps[1..];
      Ok(if b then [steps[0]] + rest else rest)
  }

  /** The first step of `ds` without a `name` key. */
  function FirstNameless(ds: seq<Value>): (r: Option<Value>)
    requires forall x :: x in ds ==> x.Table?
    ensures r.None? <==> forall x :: x in ds ==> "name" in x.fields
    ensures r.Some? ==> r.value in ds && "name" !in r.value.fields
  {
    if ds == [] then None
    else if "name" !in ds[0].fields then Some(ds[0])
    else FirstNameless(ds[1..])
  }

  /** The `name` check. Its message formats `query['index']`, where `query`
      is the variable left over from the step-key loop, that is, the last
      step: `printed` records that, `offending` the step at fault. */
  function DataNameCheck(steps: seq<Value>): (r: Check<()>)
    requires AllIndexed(steps)
    ensures r.Pass? <==> forall x :: x in steps ==> DataRuleHolds(x)
    ensures r.Reject? ==> r.error.DataStepNeedsName? && |steps| > 0
                          && r.error.printed == steps[|steps| - 1].fields["index"]
                          && exists x :: x in steps && x.fields["index"] == r.error.offending
                                         && !DataRuleHolds(x)
  {
    var ds :- Lift(DataStepsWithoutInputs(steps));
    match FirstNameless(ds)
    case None => Pass(())
    case Some(d) => Reject(DataStepNeedsName(d.fields["index"], steps[|steps| - 1].fields["index"]))
  }

  // ---------------------------------------------------------------------
  // The validator
  // ---------------------------------------------------------------------

  /** The checks that follow loading and that all three copies share, in
      the source's order; on success, the steps. */
  function StepChecks(doc: Document, v: Variant): (r: Check<seq<Value>>)
    ensures r.Pass? ==> && AllIndexed(r.value)
                        && "queries" in doc && QueriesOk(doc["queries"])
                        && r.value == StepsOf(doc["queries"])
  {
    var u1 :- GlobalKeysCheck(doc, v.globalKeys);
    var u2 :- VersionControlCheck(doc);
    var steps :- QueriesCheck(doc);
    var idx :- Indices(steps);
    var u3 :- UniqueCheck(idx);
    var u4 :- StepKeysCheck(steps, v.stepKeys);
    Pass(steps)
  }

  /** All checks that follow loading. On success the document is returned
      as it was parsed. */
  function Validate(doc: Document, v: Variant): (r: Check<Document>)
    ensures r.Pass? ==> r.value == doc
  {
    var steps :- StepChecks(doc, v);
    var u :- if v.checkDataName then DataNameCheck(steps) else Pass(());
    Pass(doc)
  }

  /** `valid_schema_or_exit(schema_path)`: the extension is checked before
      anything is loaded. */
  function ValidSchemaOrExit(path: string, loaded: Option<Document>, v: Variant): (r: Check<Document>)
    ensures Paths.Suffix(path) != ".toml" ==> r == Reject(BadExtension(Paths.Suffix(path)))
    ensures Paths.Suffix(path) == ".toml" && loaded.None? ==> r == Reject(Unloadable)
    ensures r.Pass? ==> loaded == Some(r.value)
  {
    var u :- ExtensionCheck(path);
    var doc :- Load(loaded);
    Validate(doc, v)
  }

  /** `valid_schema_or_exit` with the loader as written: it agrees with
      the corrected validator except on a document that does not load. */
  function ValidSchemaOrExitAsWritten(path: string, loaded: Option<Document>, v: Variant): (r: Check<Document>)
    ensures Paths.Suffix(path) == ".toml" && loaded.None? ==> r == Crash(NameError)
    ensures loaded.Some? || Paths.Suffix(path) != ".toml" ==> r == ValidSchemaOrExit(path, loaded, v)
  {
    var u :- ExtensionCheck(path);
    var doc :- LoadAsWritten(loaded);
    Validate(doc, v)
  }
}

/** Properties of the validator. */
module ValidationFacts {

  import opened Base
  import opened Seqs
  import opened Values
  import opened Validation
  import Text
  import Paths

  /** What the steps of an accepted document satisfy. */
  predicate StepsOk(steps: seq<Value>, v: Variant) {
    && AllIndexed(steps)
    && (forall i :: 0 <= i < |steps| ==> Hashable(steps[i].fields["index"]))
    && (forall i, j :: 0 <= i < j < |steps| ==>
          KeyOf(steps[i].fields["index"]) != KeyOf(steps[j].fields["index"]))
    && (forall i, k :: 0 <= i < |steps| && k in v.stepKeys ==> k in steps[i].fields)
    && (v.checkDataName ==> forall i :: 0 <= i < |steps| ==> DataRuleHolds(steps[i]))
  }

  /** A declarative description of the documents the validator accepts,
      with no reference to the order of the checks. */
  predicate Acceptable(doc: Document, v: Variant) {
    && (forall k :: k in v.globalKeys ==> k in doc)
    && VersionControlOk(doc)
    && "queries" in doc
    && QueriesOk(doc["queries"])
    && StepsOk(StepsOf(doc["queries"]), v)
  }

  /** The checks all copies share pass on every document acceptable
      without the `name` rule. */
  lemma {:induction false} StepChecksComplete(doc: Document, v: Variant)
    requires Acceptable(doc, v.(checkDataName := false))
    ensures StepChecks(doc, v) == Pass(StepsOf(doc["queries"]))
  {
    var steps := StepsOf(doc["queries"]);
    assert QueriesCheck(doc) == Pass(steps);
    assert Indices(steps).Pass?;
    assert UniqueCheck(Indices(steps).value).Pass?;
    assert StepKeysCheck(steps, v.stepKeys).Pass?;
  }

  /** ... and only on those. */
  lemma {:induction false} StepChecksSound(doc: Document, v: Variant)
    requires StepChecks(doc, v).Pass?
    ensures Acceptable(doc, v.(checkDataName := false))
  {
    var steps := QueriesCheck(doc).value;
    assert Indices(steps).Pass?;
    assert steps == StepsOf(doc["queries"]);
    assert UniqueCheck(Indices(steps).value).Pass?;
    assert StepKeysCheck(steps, v.stepKeys).Pass?;
  }

  /** The ordered checks accept exactly the acceptable documents. */
  lemma {:induction false} ValidateAcceptsExactly(doc: Document, v: Variant)
    ensures Validate(doc, v).Pass? <==> Acceptable(doc, v)
  {
    if Acceptable(doc, v) {
      AcceptableValidates(doc, v);
    }
    if Validate(doc, v).Pass? {
      ValidatesAcceptable(doc, v);
    }
  }

  /** The sdk harness's validator accepts exactly the acceptable documents
      for its key lists. */
  lemma {:induction false} SdkValidateAcceptsExactly(doc: Document)
    ensures Validate(doc, SdkHarness).Pass? <==> Acceptable(doc, SdkHarness)
  {
    ValidateAcceptsExactly(doc, SdkHarness);
  }

  /** So does the legacy script's. */
  lemma {:induction false} ScriptValidateAcceptsExactly(doc: Document)
    ensures Validate(doc, ScriptHarness).Pass? <==> Acceptable(doc, ScriptHarness)
  {
    ValidateAcceptsExactly(doc, ScriptHarness);
  }

  lemma {:induction false} AcceptableValidates(doc: Document, v: Variant)
    requires Acceptable(doc, v)
    ensures Validate(doc, v).Pass?
  {
    assert Acceptable(doc, v.(checkDataName := false));
    StepChecksComplete(doc, v);
  }

  lemma {:induction false} ValidatesAcceptable(doc: Document, v: Variant)
    requires Validate(doc, v).Pass?
    ensures Acceptable(doc, v)
  {
    assert StepChecks(doc, v).Pass?;
    StepChecksSound(doc, v);
  }

  // ---------------------------------------------------------------------
  // First failure wins: each check's error, once the earlier checks pass
  // ---------------------------------------------------------------------

  lemma {:induction false} GlobalKeysFirstMissing(doc: Document, keys: seq<string>, i: nat)
    requires i < |keys| && keys[i] !in doc
    requires forall j :: 0 <= j < i ==> keys[j] in doc
    ensures GlobalKeysCheck(doc, keys) == Reject(MissingGlobalKey(keys[i]))
  {
    if i > 0 {
      GlobalKeysFirstMissing(doc, keys[1..], i - 1);
    }
  }

  /** The global keys are checked in list order: the error names the first
      missing one, and nothing later is looked at. */
  lemma {:induction false} FirstMissingGlobalKeyReported(doc: Document, v: Variant, i: nat)
    requires i < |v.globalKeys| && v.globalKeys[i] !in doc
    requires forall j :: 0 <= j < i ==> v.globalKeys[j] in doc
    ensures Validate(doc, v) == Reject(MissingGlobalKey(v.globalKeys[i]))
  {
    GlobalKeysFirstMissing(doc, v.globalKeys, i);
  }

  /** The `version_control` table is checked in three stages. */
  lemma {:induction false} VersionControlStages(doc: Document, v: Variant)
    requires forall k :: k in v.globalKeys ==> k in doc
    ensures "version_control" !in doc ==> Validate(doc, v) == Reject(MissingVersionControl)
    ensures "version_control" in doc && doc["version_control"].Table?
            && "url" !in doc["version_control"].fields
            ==> Validate(doc, v) == Reject(MissingUrl)
    ensures "version_control" in doc && doc["version_control"].Table?
            && "url" in doc["version_control"].fields
            && Len(doc["version_control"].fields["url"]) == Ok(0)
            ==> Validate(doc, v) == Reject(EmptyUrl)
  {
  }

  /** A missing `queries` key and the one-empty-table placeholder are
      rejected; an empty array passes, and with it the whole document. */
  lemma {:induction false} QueriesStages(doc: Document, v: Variant)
    requires forall k :: k in v.globalKeys ==> k in doc
    requires VersionControlOk(doc)
    ensures "queries" !in doc ==> Validate(doc, v) == Reject(MissingQueries)
    ensures "queries" in doc && doc["queries"] == Arr([EmptyTable]) ==> Validate(doc, v) == Reject(EmptyQueries)
    ensures "queries" in doc && doc["queries"] == Arr([]) ==> Validate(doc, v) == Pass(doc)
  {
    if "queries" in doc && doc["queries"] == Arr([]) {
      ValidateAcceptsExactly(doc, v);
    }
  }

  /** Two steps whose indices are equal as set members are rejected. */
  lemma {:induction false} DuplicateIndexRejected(doc: Document, v: Variant, i: nat, j: nat)
    requires forall k :: k in v.globalKeys ==> k in doc
    requires VersionControlOk(doc)
    requires "queries" in doc && doc["queries"].Arr? && doc["queries"] != Arr([EmptyTable])
    requires var steps := doc["queries"].items;
             && AllIndexed(steps)
             && (forall n :: 0 <= n < |steps| ==> Hashable(steps[n].fields["index"]))
             && i < j < |steps|
             && KeyOf(steps[i].fields["index"]) == KeyOf(steps[j].fields["index"])
    ensures Validate(doc, v) == Reject(DuplicateIndex)
  {
  }

  /** A step without an `index` makes the index list raise before any step
      key is checked. */
  lemma {:induction false} MissingIndexCrashes(doc: Document, v: Variant, i: nat)
    requires forall k :: k in v.globalKeys ==> k in doc
    requires VersionControlOk(doc)
    requires "queries" in doc && doc["queries"].Arr? && doc["queries"] != Arr([EmptyTable])
    requires i < |doc["queries"].items| && !IsIndexed(doc["queries"].items[i])
    ensures Validate(doc, v).Crash?
  {
  }

  /** Once the indices are unique, a step missing a step key is rejected,
      naming that key and the step's index. */
  lemma {:induction false} MissingStepKeyRejected(doc: Document, v: Variant, i: nat, k: string)
    requires forall g :: g in v.globalKeys ==> g in doc
    requires VersionControlOk(doc)
    requires "queries" in doc && doc["queries"].Arr? && doc["queries"] != Arr([EmptyTable])
    requires var steps := doc["queries"].items;
             && AllIndexed(steps)
             && (forall n :: 0 <= n < |steps| ==> Hashable(steps[n].fields["index"]))
             && (forall m, n :: 0 <= m < n < |steps| ==>
                   KeyOf(steps[m].fields["index"]) != KeyOf(steps[n].fields["index"]))
             && i < |steps| && k in v.stepKeys && k !in steps[i].fields
    ensures var r := Validate(doc, v);
            && r.Reject? && r.error.MissingStepKey? && r.error.key in v.stepKeys
            && exists n :: 0 <= n < |doc["queries"].items|
                           && doc["queries"].items[n].fields["index"] == r.error.index
                           && r.error.key !in doc["queries"].items[n].fields
  {
    var steps := doc["queries"].items;
    assert steps[i] in steps;
    var idx := Indices(steps).value;
    assert UniqueCheck(idx).Pass?;
  }

  // ---------------------------------------------------------------------
  // The `name` check and its message
  // ---------------------------------------------------------------------

  /** The steps a document's validation looked at, once it got as far as
      the `name` check. */
  lemma {:induction false} DataNameErrorComesFromSteps(doc: Document, v: Variant, o: Value, p: Value)
    requires Validate(doc, v) == Reject(DataStepNeedsName(o, p))
    ensures v.checkDataName
    ensures "queries" in doc && QueriesOk(doc["queries"])
    ensures AllIndexed(StepsOf(doc["queries"]))
    ensures DataNameCheck(StepsOf(doc["queries"])) == Reject(DataStepNeedsName(o, p))
  {
    assert StepChecks(doc, v).Pass?;
  }

  /** As written: the message shows the index of the LAST step, whichever
      step lacks the `name`. */
  lemma {:induction false} DataNameMessageShowsLastStep(doc: Document, v: Variant, o: Value, p: Value)
    requires Validate(doc, v) == Reject(DataStepNeedsName(o, p))
    ensures "queries" in doc
    ensures var steps := StepsOf(doc["queries"]);
            |steps| > 0 && AllIndexed(steps) && p == steps[|steps| - 1].fields["index"]
  {
    DataNameErrorComesFromSteps(doc, v, o, p);
  }

  /** Corrected: the error identifies a step that breaks the rule. */
  lemma {:induction false} DataNameErrorNamesOffendingStep(doc: Document, v: Variant, o: Value, p: Value)
    requires Validate(doc, v) == Reject(DataStepNeedsName(o, p))
    ensures "queries" in doc
    ensures var steps := StepsOf(doc["queries"]);
            AllIndexed(steps)
            && exists i :: 0 <= i < |steps| && steps[i].fields["index"] == o && !DataRuleHolds(steps[i])
  {
    DataNameErrorComesFromSteps(doc, v, o, p);
    var steps := StepsOf(doc["queries"]);
    var x :| x in steps && x.fields["index"] == o && !DataRuleHolds(x);
    var i :| 0 <= i < |steps| && steps[i] == x;
  }

  /** A DATA step (index 1) with neither `inputs` nor `name`, followed by
      a query step (index 2). */
  function TwoSteps(): seq<Value> {
    [NamelessDataStep(), NamedQueryStep()]
  }

  function NamelessDataStep(): Value {
    Table(map["file_path" := Str("a.csv"), "index" := Int(1), "type" := Str("data")])
  }

  function NamedQueryStep(): Value {
    Table(map["file_path" := Str("b.rel"), "index" := Int(2), "type" := Str("query"), "name" := Str("b")])
  }

  /** A python-harness document with those steps. */
  function TwoStepDocument(): Document {
    map["authors" := Str("a"), "engine" := Str("e"), "create_database" := Bool(false),
        "data_dir" := Str("data"), "database" := Str("db"), "description" := Str("d"),
        "project" := Str("p"), "source_dir" := Str("src"),
        "version_control" := Table(map["url" := Str("u")]),
        "queries" := Arr(TwoSteps())]
  }

  /** When every check before the `name` check passes, the outcome is that
      of the `name` check. */
  lemma {:induction false} ValidateReachesDataName(doc: Document, v: Variant)
    requires v.checkDataName
    requires Acceptable(doc, v.(checkDataName := false))
    ensures StepChecks(doc, v) == Pass(StepsOf(doc["queries"]))
    ensures var r := DataNameCheck(StepsOf(doc["queries"]));
            && (r.Pass? ==> Validate(doc, v) == Pass(doc))
            && (r.Reject? ==> Validate(doc, v) == Reject(r.error))
            && (r.Crash? ==> Validate(doc, v) == Crash(r.fault))
  {
    StepChecksComplete(doc, v);
  }

  lemma {:induction false} TwoStepsPassEarlierChecks()
    ensures StepsOk(TwoSteps(), PythonHarness.(checkDataName := false))
  {
    var steps := TwoSteps();
    assert KeyOf(steps[0].fields["index"]) == NumKey(1);
    assert KeyOf(steps[1].fields["index"]) == NumKey(2);
  }

  lemma {:induction false} TwoStepDocumentPassesEarlierChecks()
    ensures Acceptable(TwoStepDocument(), PythonHarness.(checkDataName := false))
  {
    var doc := TwoStepDocument();
    assert doc["queries"] == Arr(TwoSteps());
    assert QueriesOk(doc["queries"]) by {
      assert TwoSteps() != [EmptyTable] by {
        assert TwoSteps()[0] != EmptyTable by {
          assert "index" in TwoSteps()[0].fields;
        }
      }
    }
    TwoStepsPassEarlierChecks();
  }

  lemma {:induction false} NamelessDataStepIsData()
    ensures IsDataWithoutInputs(NamelessDataStep()) == Ok(true)
  {
    assert Text.Upper("data") == "DATA";
  }

  lemma {:induction false} NamedQueryStepIsNotData()
    ensures IsDataWithoutInputs(NamedQueryStep()) == Ok(false)
  {
    assert Text.Upper("query") == "QUERY";
  }

  /** Of a DATA step without `inputs` followed by another step, only the
      first is collected. */
  lemma {:induction false} DataStepsOfPair(a: Value, b: Value)
    requires a.Table? && b.Table?
    requires IsDataWithoutInputs(a) == Ok(true) && IsDataWithoutInputs(b) == Ok(false)
    ensures DataStepsWithoutInputs([a, b]) == Ok([a])
  {
    assert [a, b][1..] == [b];
    assert [b][1..] == [];
    assert DataStepsWithoutInputs([]) == Ok([]);
    assert DataStepsWithoutInputs([b]) == Ok([]);
    assert [a, b][0] == a && [a] + [] == [a];
  }

  lemma {:induction false} TwoStepsDataSteps()
    ensures DataStepsWithoutInputs(TwoSteps()) == Ok([NamelessDataStep()])
  {
    NamelessDataStepIsData();
    NamedQueryStepIsNotData();
    DataStepsOfPair(NamelessDataStep(), NamedQueryStep());
  }

  /** The `name` check on steps whose only DATA step without `inputs` is
      a nameless `d`. */
  lemma {:induction false} SingleNamelessDataStep(steps: seq<Value>, d: Value)
    requires AllIndexed(steps) && d.Table? && "index" in d.fields && "name" !in d.fields
    requires DataStepsWithoutInputs(steps) == Ok([d])
    ensures DataNameCheck(steps) == Reject(DataStepNeedsName(d.fields["index"], steps[|steps| - 1].fields["index"]))
  {
    assert d in steps;
    assert FirstNameless([d]) == Some(d);
  }

  lemma {:induction false} TwoStepDocumentNameCheck()
    ensures AllIndexed(TwoSteps()) && DataNameCheck(TwoSteps()) == Reject(DataStepNeedsName(Int(1), Int(2)))
  {
    TwoStepsDataSteps();
    TwoStepsShape();
    SingleNamelessDataStep(TwoSteps(), NamelessDataStep());
  }

  lemma {:induction false} TwoStepsShape()
    ensures AllIndexed(TwoSteps())
    ensures var d := NamelessDataStep();
            d.Table? && "index" in d.fields && "name" !in d.fields && d.fields["index"] == Int(1)
    ensures TwoSteps()[|TwoSteps()| - 1].fields["index"] == Int(2)
  {
    assert AllIndexed(TwoSteps());
  }

  /** The discrepancy on a concrete document: the step at fault has index 1,
      the message shows index 2. */
  lemma {:induction false} DataNameMessageNamesWrongStep()
    ensures Validate(TwoStepDocument(), PythonHarness) == Reject(DataStepNeedsName(Int(1), Int(2)))
  {
    TwoStepDocumentPassesEarlierChecks();
    ValidateReachesDataName(TwoStepDocument(), PythonHarness);
    assert TwoStepDocument()["queries"] == Arr(TwoSteps());
    TwoStepDocumentNameCheck();
  }
}
