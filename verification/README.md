# rai-python-harness in Dafny

A model of the core of `rai-python-harness`. The harness reads a TOML run specification, checks it, and runs its `queries` steps, in order, against a RelationalAI database through the `railib` SDK. The model covers four parts:

- **The run-specification validator** `valid_schema_or_exit`, in its three copies: the python harness, the sdk harness, and the inline `validate` of the `run_harness.py` script. The copies differ only in their required-key lists and in whether the DATA-step `name` rule is checked. The model is one validator parameterised by a `Variant`, in `validation.dfy`. The checks run in the source's order and the first failure ends validation. An `exit(...)` becomes `Reject` with the message's reason, and an uncaught Python exception becomes `Crash`. `ValidationFacts.Acceptable` describes the accepted documents declaratively, and `ValidateAcceptsExactly` proves that the ordered checks accept exactly those.
- **`Schema`** (`schema.dfy`): construction through the validator, and `get`, which raises `KeyError` in the python harness and `ValueError` in the sdk harness.
- **The step planner.**
  - `Sequence.exec` with `data_query`, `log_result`'s file name, `cell_has_inputs` and `sanitize_query_name` (`sequence.dfy`, `query_utils.dfy`, `utils.dfy`). For each step it computes the `railib` call that step would issue (`QueryUtils.Call`) and the JSON file its result is logged to, or else the `exit()` or exception that ends the loop.
  - The legacy `run_harness.py` script's `dispatch_operation` and run loop (`harness.dfy`), in the same style.
- **The ragged-right table builder** `to_DF` (`frames.dfy`): the single-key builder and the multi-key builder, which fills each row out over the union of all labels. The model produces the dictionary the builders hand to pandas.

Supporting modules:

- `base.dfy`: `Option`, Python exceptions, and `Py<T>` for "returns or raises".
- `values.dfy`: TOML values with Python truthiness, `len`, `in`, subscripting and hashing. Set membership identifies `True` with `1`.
- `text.dfy`: decimal formatting, ASCII `upper`, `str.replace` and splitting.
- `paths.dfy`: `pathlib` `name`, `suffix` and `/`.
- `seqs.dfy`: distinctness, joining, and the prefix of a run up to its first failure.
- `dict.dfy`: Python's insertion-ordered `dict` as a sequence of pairs.

All I/O goes through parameters:

- The TOML loader's result is an `Option<Document>`.
- The file system is a map from path to file text.
- Directories are plain strings.
- A remote call is described by a datatype value; it is never made.

Behaviour of the code worth knowing:

- **Row key.** A multi-key row key drops *every* `:` from the relation key (`str.replace`), not only a trailing marker.
- **Repeated row key.** A repeated normalised row key does not add a row. It overwrites the earlier row's cells, at the earlier row's position.
- **Exceptions during validation.** Validation is not exception-free. A step without `index`, an unhashable index, or a non-string `type` (python harness) raises from inside the validator (`Crash`).
- **Load failure.** A TOML load failure raises `NameError` in the code instead of exiting (see Findings).

## Model

| member | source | states |
|---|---|---|
| Validation.ExtensionCheck | src/rai_python_harness/validation.py:17-22 | passes exactly when the path's suffix is `.toml`; otherwise rejects, naming the suffix found |
| Validation.GlobalKeysCheck | src/rai_python_harness/validation.py:52-55 | passes iff every required global key is present; a rejection names a required key the document lacks |
| Validation.VersionControlCheck | src/rai_python_harness/validation.py:57-69 | passes iff `version_control` is present, holds `url`, and the url has non-zero length |
| Validation.QueriesCheck | src/rai_python_harness/validation.py:71-77 | a `queries` array other than the one-empty-table placeholder passes with its elements as the steps; any passing value whose steps are indexed is one of the accepted shapes |
| Validation.Indices | src/rai_python_harness/validation.py:80 | the index list exists iff every step has an `index`; it lists them in step order; otherwise the comprehension raises |
| Validation.HashKeys | src/rai_python_harness/validation.py:82 | `set(indices)` succeeds iff every index is hashable, giving each index's set key; otherwise `TypeError` |
| Validation.UniqueCheck | src/rai_python_harness/validation.py:82-83 | passes iff all indices are hashable and pairwise distinct as set members; hashable duplicates are rejected as duplicates |
| Validation.StepKeysCheck | src/rai_python_harness/validation.py:85-89 | passes iff every step carries every required step key; a rejection names a step's index and a required key that step lacks |
| Validation.IsDataWithoutInputs | src/rai_python_harness/validation.py:95 | evaluates iff `type` is present and a string; true exactly for an upper-cased `DATA` type without an `inputs` key |
| Validation.DataStepsWithoutInputs | src/rai_python_harness/validation.py:92-96 | the comprehension succeeds iff every step's `type` is a string, and then holds exactly the DATA steps without `inputs` |
| Validation.DataNameCheck | src/rai_python_harness/validation.py:98-102 | passes iff every step satisfies the DATA `name` rule; a rejection identifies a step that breaks it, and prints the last step's index |
| Validation.LoadAsWritten | src/rai_python_harness/validation.py:7-14 | a document that does not load makes the handler raise `NameError` |
| Validation.Load | src/rai_python_harness/validation.py:7-14 | corrected loader: a document that does not load is rejected with the loading message, as the handler evidently intends; a loaded one passes unchanged |
| Validation.ValidSchemaOrExit | src/rai_python_harness/validation.py:25-32 | the extension is checked before loading; a load failure is rejected; what passes is the loaded document |
| Validation.ValidSchemaOrExitAsWritten | src/rai_sdk_harness/validation.py:7-32 | with the loader as written, a `.toml` path that does not load crashes with `NameError`; every other input meets the corrected validator's outcome |
| ValidationFacts.ValidateAcceptsExactly | src/rai_python_harness/validation.py:52-105 | the ordered checks accept a document iff it has the global keys, a valid `version_control`, an accepted `queries` shape, indexed steps with distinct hashable indices, the step keys and (python harness) the DATA `name` rule |
| ValidationFacts.SdkValidateAcceptsExactly | src/rai_sdk_harness/validation.py:25-92 | the same characterisation for the sdk key lists, without the `name` rule |
| ValidationFacts.ScriptValidateAcceptsExactly | run_harness.py:27-78 | the same characterisation for the script's key lists, without the `name` rule |
| ValidationFacts.FirstMissingGlobalKeyReported | src/rai_python_harness/validation.py:53-55 | global keys are checked in list order: the rejection names the first missing key |
| ValidationFacts.VersionControlStages | src/rai_python_harness/validation.py:57-69 | once the global keys are present, a missing table, a missing `url` and an empty `url` give their three distinct rejections |
| ValidationFacts.QueriesStages | src/rai_python_harness/validation.py:71-77 | a missing `queries` and the one-empty-table placeholder are rejected; an empty array is accepted |
| ValidationFacts.DuplicateIndexRejected | src/rai_python_harness/validation.py:79-83 | two steps with indices equal as set members make the document rejected as a duplicate |
| ValidationFacts.MissingIndexCrashes | src/rai_python_harness/validation.py:80 | a step without `index` makes validation raise before any step key is checked |
| ValidationFacts.MissingStepKeyRejected | src/rai_python_harness/validation.py:85-89 | with unique indices, a step missing a step key gets a rejection naming a step's index and a key that step lacks |
| ValidationFacts.DataNameErrorComesFromSteps | src/rai_python_harness/validation.py:91-102 | a `name` rejection arises only in the python harness, only once all earlier checks passed, and equals the `name` check on the steps |
| ValidationFacts.DataNameMessageShowsLastStep | src/rai_python_harness/validation.py:101 | the `name` message always shows the index of the last step |
| ValidationFacts.DataNameErrorNamesOffendingStep | src/rai_python_harness/validation.py:98-99 | the step identified by a `name` rejection is a step that breaks the rule |
| ValidationFacts.ValidateReachesDataName | src/rai_python_harness/validation.py:91-105 | when every earlier check passes, the validator's outcome is the `name` check's outcome |
| ValidationFacts.DataNameMessageNamesWrongStep | src/rai_python_harness/validation.py:98-102 | on a two-step document whose first step (index 1) breaks the rule, the message shows index 2 |
| Schema.Open | src/rai_python_harness/schema.py:21-22 | construction, with the corrected loader, succeeds exactly when the corrected `valid_schema_or_exit` does, and then holds the loaded document, which satisfies `Valid`; otherwise it fails as that validator does (as written, an unloadable `.toml` raises `NameError` instead, see Findings) |
| Schema.Get | src/rai_python_harness/schema.py:26-31 | `get` returns the stored value iff the key is present; otherwise it raises `KeyError` naming the key |
| Schema.GetFlavoursAgree | src/rai_sdk_harness/schema.py:19-24 | on the same document the sdk `get` serves the same keys with the same values and raises `ValueError` naming the key where the python `get` raises `KeyError` |
| Schema.GetRequiredKeys | src/rai_python_harness/schema.py:26-31 | a constructed schema serves every key the validator required |
| Schema.OpenNeedsTomlSuffix | src/rai_sdk_harness/schema.py:14-15 | a path without the `.toml` suffix is rejected with its suffix, whatever was loaded |
| Schema.OpenAcceptable | src/rai_sdk_harness/schema.py:14-15 | an acceptable document at a `.toml` path yields the schema holding that document |
| Utils.CellHasInputs | src/rai_python_harness/utils.py:10-12 | true iff `inputs` is present and truthy; `inputs = []` counts as none |
| Utils.CellHasInputsLen | src/rai_python_harness/utils.py:10-12 | for a list, string or table `inputs` the test is a non-zero `len`; for a number, non-zero; for a boolean, `True` |
| Utils.Runs | src/rai_python_harness/utils.py:46-47 | every match found is non-empty and made of word characters |
| Utils.SanitizeText | src/rai_python_harness/utils.py:44-47 | a sanitised name holds only word characters |
| Utils.SanitizeQueryName | src/rai_python_harness/utils.py:44-47 | succeeds iff the step has a string `name`, giving its sanitised text; without `name`, `KeyError('name')` |
| Utils.RunsAtNonWord | src/rai_python_harness/utils.py:46-47 | a non-word character splits the matches into those of either side |
| Utils.RunsOfWord | src/rai_python_harness/utils.py:46-47 | a non-empty word is a single match |
| Utils.RunsOfNonWords | src/rai_python_harness/utils.py:46-47 | a string without word characters has no matches |
| Utils.RunsTrimmed | src/rai_python_harness/utils.py:46-47 | non-word characters at either end do not change the matches |
| Utils.SanitizeNoWordChars | src/rai_python_harness/utils.py:44-47 | a name without word characters sanitises to the empty string |
| Utils.SanitizeIdempotent | src/rai_python_harness/utils.py:44-47 | sanitising a sanitised name changes nothing |
| Utils.SanitizeJoinsWords | src/rai_python_harness/utils.py:44-47 | two words separated by any non-word characters become the words joined by one `_` |
| Utils.FindWordRuns | src/rai_python_harness/utils.py:46-47 | a left-to-right scan finds exactly the matches of the declarative definition |
| QueryUtils.DataQuery | src/rai_python_harness/query_utils.py:12-58 | truthy inputs give a writing `exec` with those inputs; otherwise `.csv` loads CSV and `.json` loads JSON into the named relation with the source; anything else makes no call |
| QueryUtils.DataQueryEmptyInputsAsNone | src/rai_python_harness/query_utils.py:25-58 | an empty inputs dictionary is falsy: the call is the one made with no inputs |
| QueryUtils.LogResultName | src/rai_python_harness/query_utils.py:61-75 | the log file name splits into the formatted index, a `-`, the query name and `.json`, in that order |
| QueryUtils.LogResultNamesDiffer | src/rai_python_harness/query_utils.py:75 | steps with distinct integer indices never share a log file, whatever their names |
| Sequence.SourcePath | src/rai_python_harness/sequence.py:83-87 | a lower-case `data` step without an `inputs` key reads from `data_dir`, every other step from `source_dir`; a non-string path raises |
| Sequence.EntryInputs | src/rai_python_harness/sequence.py:102-108 | an entry contributes all its keys, each with its resolved value; a non-table entry has no `items` |
| Sequence.EntriesInputs | src/rai_python_harness/sequence.py:102-108 | the dictionary is built iff every entry contributes |
| Sequence.BuildInputs | src/rai_python_harness/sequence.py:102-108 | a list is iterated entry by entry; a string or a table yields items without `items`; a number is not iterable |
| Sequence.EntriesInputsLastWins | src/rai_python_harness/sequence.py:102-108 | the built keys are exactly those the entries name, and each holds the resolved value from the last entry that names it |
| Sequence.LoadableSuffix | src/rai_python_harness/sequence.py:138-152 | only the suffixes `.csv` and `.json` are handed on |
| Sequence.Dispatch | src/rai_python_harness/sequence.py:113-157 | QUERY executes read-only and UPDATE writes, both with the step's source and inputs; INSTALL installs one model named after the file; DATA writes when inputs are present, else loads CSV or JSON by suffix into the sanitised name; any other type makes no call; each call kind arises exactly for its types |
| Sequence.StepInputs | src/rai_python_harness/sequence.py:96-108 | `inputs` is `None` unless `cell_has_inputs`; a truthy list gives the built dictionary or the error building it raised; a truthy string or table raises `AttributeError`, a non-zero number `TypeError` |
| Sequence.PlanStep | src/rai_python_harness/sequence.py:75-159 | a step crashes if its name cannot be sanitised or its `file_path` is not a string; it aborts iff its source file is missing; with the file present it crashes iff building `inputs` raises, with that error; once planned, its call is the dispatch of the upper-cased type on the file's text and the built inputs, and its result is logged to `{index}-{name}.json` |
| Sequence.PlanRun | src/rai_python_harness/sequence.py:75-159 | steps are planned in array order, each once; every step but the last planned succeeded; the loop ends early only at a step that aborted or crashed |
| Sequence.RunStopsAtFirstFailure | src/rai_python_harness/sequence.py:90-94 | the first step that does not succeed is the last step processed |
| Sequence.DataStepWithoutInputs | src/rai_python_harness/sequence.py:84-153 | a DATA step without `inputs` reads from `data_dir` only when spelled exactly `data`; it loads CSV or JSON by suffix, else makes no call, and aborts on a missing file |
| Sequence.ExecStep | src/rai_python_harness/sequence.py:116-126 | QUERY and UPDATE read from `source_dir` and execute the file's text with the step's inputs, read-only exactly for QUERY |
| Sequence.DataStepWithInputs | src/rai_python_harness/sequence.py:96-153 | a DATA step whose `inputs` build a non-empty dictionary reads from `source_dir` and is executed as a writing query with that dictionary, whatever the suffix; an entry that fails to resolve crashes the step with its error |
| Sequence.UnknownTypeStep | src/rai_python_harness/sequence.py:154-159 | a step of any other upper-cased type reads from `source_dir`, makes no call, and is still planned and logged, so the run goes on |
| Sequence.InstallStep | src/rai_python_harness/sequence.py:127-135 | an INSTALL of `stem.rel` installs one model named `stem` holding the file's text |
| Sequence.EmptyInputEntryLoads | src/rai_python_harness/sequence.py:96-153 | `inputs = [{}]` passes `cell_has_inputs` but builds an empty dictionary, so the DATA step is loaded, from `source_dir` |
| Sequence.ValidatedStepsWellFormed | src/rai_python_harness/validation.py:85-96 | every step of a validated python-harness schema has a hashable index, a `file_path` and a string `type` |
| Sequence.Run | src/rai_python_harness/sequence.py:71-159 | `exec` plans the validated schema's steps in order, each once and well-formed; every step before the last planned succeeded; stopping early means the last planned step did not succeed |
| Harness.SourcePath | run_harness.py:137-145 | a step with `relation_name` reads from `data_dir`, every other step from `source_dir`, below the TOML file's directory |
| Harness.EntryInputs | run_harness.py:188-192 | an entry's keys map to the text of the file each value names under the data directory; a missing file fails |
| Harness.EntriesInputs | run_harness.py:188-192 | the inputs are built iff every entry contributes |
| Harness.LoadOp | run_harness.py:206-215 | a DATA step without inputs needs `relation_name`, else `KeyError`; an output path ending `.csv` loads CSV and `.json` loads JSON into that relation with the source; any other suffix is reported as that format |
| Harness.DataOp | run_harness.py:182-215 | non-empty `inputs` give a writing query of the source, with the built inputs when they are non-empty, or the error building them; empty or absent `inputs` give the load; an unsized `inputs` raises `TypeError` |
| Harness.Dispatch | run_harness.py:134-217 | QUERY is a read-only and UPDATE a writing query of the source read, without inputs; INSTALL installs `notebooks/` plus the path without `.rel`; DATA is the data branch's outcome; other types are reported; a bad source path raises `TypeError` |
| Harness.DispatchAsWritten | run_harness.py:153-161 | a QUERY step raises `AttributeError`; an unsupported data format raises on the unbound `result`; whatever it does issue, the corrected dispatch issues too |
| Harness.RunStep | run_harness.py:418-420 | the step's type is upper-cased before dispatch, so `update` runs as a writing query and `install` as an install; a non-string type raises `AttributeError` |
| Harness.RunStepIgnoresCase | run_harness.py:418-420 | a step gives the same outcome whatever the case of its type |
| Harness.RunScript | run_harness.py:418-420 | steps run in order, each once; every step before the last run was issued; stopping early means the last step raised |
| Harness.ValidatedScriptSteps | run_harness.py:74-78 | every step the inline validator accepted has `file_name`, a hashable `index` and a `type` |
| Harness.QueryStepCrashes | run_harness.py:289-302 | as written, every QUERY step raises; corrected, it is a read-only query of its source |
| Harness.UnsupportedFormatCrashes | run_harness.py:259-267 | as written, a DATA load of a `.parquet` file raises; corrected, the format is reported and the run goes on |
| Harness.RunStepAsWritten | run_harness.py:418-420 | as written, a step that does not raise has the corrected outcome |
| Harness.RunScriptAsWritten | run_harness.py:418-420 | as written, steps run in order, each once; every step before the last run was issued; stopping early means the last step raised |
| Harness.RunEndsAtFirstQuery | run_harness.py:153-161 | as written, no step after the first QUERY step is dispatched |
| Frames.AllLabels | run_harness.py:361-363 | the union holds every label of every entry and nothing else |
| Frames.LabelValues | run_harness.py:372-374 | the label-to-value dictionary exists iff every label has a value at its position; otherwise `IndexError` |
| Frames.Row | run_harness.py:383-385 | a row has one cell per label of the set, present exactly when the entry has the label |
| Frames.RowKey | run_harness.py:383 | an entry has a row key iff it has a relation key; the key holds no `:`; an entry without keys raises `IndexError` |
| Frames.RowKeyReplaces | run_harness.py:383 | the row key is the first relation key with every `:` replaced by nothing |
| Frames.EntryRows | run_harness.py:370-385 | the loop completes iff every entry builds its row, and the rows come in entry order |
| Frames.EntryRowsKeyed | run_harness.py:370-385 | once the loop completes, every entry has a row key and that key is a key of the built dictionary |
| Frames.MultiKey | run_harness.py:352-388 | an entry without columns raises `IndexError`, an empty output raises `TypeError` (reduce of nothing), a result that is built is keyed rows, and the builder never exits |
| Frames.MultiKeyFailsWithEntry | run_harness.py:370-385 | with columns everywhere, the builder succeeds iff the entry loop completes; otherwise it raises the loop's exception, and some entry's row fails to build (an entry with labels but no value column, a value column shorter than its labels, or empty `keys`) |
| Frames.MultiKeyRectangular | run_harness.py:361-385 | every row has exactly one cell per distinct label |
| Frames.MultiKeyCells | run_harness.py:370-385 | the row under a key is that of the last entry with the key; its cell for a label is that entry's (last) value for the label, or `None` |
| Frames.MultiKeyEveryEntryHasRow | run_harness.py:370-385 | each entry contributes a row: its normalised key is a row key of the built frame |
| Frames.MultiKeyOrderIndependent | run_harness.py:361-385 | any iteration order of the label set gives the same row keys, in the same order, and the same cell for each label |
| Frames.SingleKey | run_harness.py:391-412 | explicit names of the wrong number exit; explicit names label the columns in order; the builder never raises |
| Frames.SingleKeyPositional | run_harness.py:408-412 | without names, column `x{i}` is the entry's i-th column, in order, and there are no others |
| Frames.SingleKeyNamed | run_harness.py:403-406 | with distinct names of the right number, name i holds the i-th column |
| Frames.ToDF | run_harness.py:340-349 | a one-entry output is built by columns, any other by rows; only the single-key builder exits and only the multi-key builder raises |
| Frames.ToDFOneEntry | run_harness.py:345-349 | a one-entry output gives column `x{i}` for the i-th column without names, name i for the i-th column with distinct names of the right number, and exits on a wrong number |
| Frames.ToDFSeveralEntries | run_harness.py:345-349 | a several-entry output, when built, is rows: every entry's key is a row key, and a key's row holds the last entry with that key's value for each label |

## Left out

- I/O: logging, file writing, directory creation, timestamps and the TOML parser. The loader's result and the file system are parameters.
- Remote calls: every `railib` call is described by a datatype value and never made. Remote failures, the `problems` inspection of results and the exceptions that follow an empty result are not modelled.
- pandas: `DataFrame(...)` and `to_csv` are not modelled. The builders return the dictionary, as with `return_df=False`.
- Text: `str.upper` and `\w` are ASCII-only. Non-ASCII letters, which Python upper-cases and counts as word characters, are not modelled.
- Paths: path normalisation, `.absolute()` and `.resolve()` are not modelled. `Sequence.Dirs` and `Harness.Script` take the resolved directories as parameters. So `Sequence.__post_init__` is reduced to those parameters.
- Sets: iteration order of `set(...)` is a parameter (`order` in `Frames.MultiKey`), constrained only to list each label once.
- Floating-point and date TOML values: these are not modelled. `Values.Value` has strings, integers, booleans, arrays and tables.
- Labels and cell values in the frames are a type parameter. Unhashable labels, which make the Python dict comprehension raise, are not modelled.
- The sdk harness's `sequence.py`, `query_utils.py` and `utils.py`: these are not part of this model. Its validator and `Schema` are.
- The argv and database-creation code at the top of `run_harness.py`: not modelled. Its `validate` is, through `Validation.ScriptHarness`.
- `install_model_log_result` and the output file names `with_suffix("")` produces: not modelled.
- `Harness.EntryInputs`: a list or table input value, which Python formats into a file name, raises `TypeError` in the model.
- `Harness.EntryInputs`: a missing input file is `FileNotFound` without the path, because the model builds the entry from an unordered map and so cannot say which file Python tries first.
- QueryUtils.LogResultNamesDiffer: covers integer indices only; string and boolean indices, which can collide with an integer's text, are not covered.
- `Frames.ToDF` is reachable in the script only from a QUERY step, which raises before it (see Findings). The builders are modelled on their own.
- Sequence.PlanStep: the file system `fs` holds only readable regular files, so a source path that is a directory or unreadable is treated as missing and ends the run with `exit()`; in the code such a path raises `IsADirectoryError` or `PermissionError`, which the `except FileNotFoundError` at src/rai_python_harness/sequence.py:92 does not catch.
- Sequence loggers and the `log_dir`, `log_path`, `refresh_log_path` and `show` accessors: not modelled.

## Findings

| source | as written | input that shows it | evidently intended | confidence | as-written member | corrected member |
|---|---|---|---|---|---|---|
| run_harness.py:153-161 | a QUERY step passes a string as `file_path`, and `file_path.name` at line 302 raises `AttributeError` | any step whose type upper-cases to `QUERY` | a read-only query of the step's source, logged under the output directory | high; not executed | Harness.QueryStepCrashes | Harness.Dispatch |
| run_harness.py:259-267 | an unsupported file format leaves `result` unbound, and `if result` raises `UnboundLocalError` | a DATA step without `inputs`, with `relation_name`, `index = 1` and `file_name = "x.parquet"` | log the unsupported format and continue with the next step | high; not executed | Harness.UnsupportedFormatCrashes | Harness.Dispatch |
| src/rai_python_harness/validation.py:98-102 | the message formats `query['index']`, the variable left over from the step-key loop, so it shows the last step's index | steps `[{index=1, type="data", file_path="a.csv"}, {index=2, type="query", file_path="b.rel", name="b"}]` | show the index of the DATA step that lacks `name` | high; not executed | ValidationFacts.DataNameMessageNamesWrongStep | ValidationFacts.DataNameErrorNamesOffendingStep |
| src/rai_python_harness/validation.py:7-14 | the handler's message names `schema_path`, unbound in `load_toml_or_exit`; the sdk copy's `except err` names an unbound `err`; either way a load failure raises `NameError` | a `.toml` path whose file does not parse | exit with the "error loading" message | high; not executed | Validation.ValidSchemaOrExitAsWritten | Validation.ValidSchemaOrExit |
