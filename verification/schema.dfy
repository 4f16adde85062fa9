/** `Schema`: the run specification after validation, and its `get`
    accessor. The python and the sdk harness each have one; they differ in
    the validator they call and in the exception `get` raises. */
module Schema {

  import opened Base
  import opened Values
  import opened Validation
  import opened ValidationFacts
  import Paths

  datatype Flavour = PythonFlavour | SdkFlavour

  function VariantOf(f: Flavour): Variant {
    match f
    case PythonFlavour => PythonHarness
    case SdkFlavour => SdkHarness
  }

  /** A constructed `Schema`: the path it was loaded from and the document
      `valid_schema_or_exit` returned. Being a value, it is never modified
      after construction. */
  datatype Schema = Schema(flavour: Flavour, tomlPath: string, doc: Document)

  /** What construction establishes. */
  predicate Valid(s: Schema) {
    Paths.Suffix(s.tomlPath) == ".toml" && Acceptable(s.doc, VariantOf(s.flavour))
  }

  /** `Schema(toml_path)`: `__post_init__` stores the validated document;
      `loaded` is what the TOML loader returned for the path. */
  function Open(f: Flavour, path: string, loaded: Option<Document>): (r: Check<Schema>)
    ensures r.Pass? <==> ValidSchemaOrExit(path, loaded, VariantOf(f)).Pass?
    ensures r.Pass? ==> && Valid(r.value) && r.value.flavour == f && r.value.tomlPath == path
                        && loaded == Some(r.value.doc)
    ensures !r.Pass? ==> r == ValidSchemaOrExit(path, loaded, VariantOf(f)).PropagateFailure()
  {
    var doc :- ValidSchemaOrExit(path, loaded, VariantOf(f));
    ValidateAcceptsExactly(doc, VariantOf(f));
    Pass(Schema(f, path, doc))
  }

  /** `schema.get(name)`: the stored value, or the flavour's exception. */
  function Get(s: Schema, name: string): (r: Py<Value>)
    ensures r.Ok? <==> name in s.doc
    ensures r.Ok? ==> r.value == s.doc[name]
    ensures name !in s.doc && s.flavour == PythonFlavour ==> r == Raise(KeyError(name))
    ensures name !in s.doc && s.flavour == SdkFlavour ==> r == Raise(ValueError(name))
  {
    if name in s.doc then Ok(s.doc[name])
    else if s.flavour == PythonFlavour then Raise(KeyError(name))
    else Raise(ValueError(name))
  }

  /** The two flavours of `get` on the same document serve the same keys
      with the same values and differ only in the exception for a missing
      key. */
  lemma {:induction false} GetFlavoursAgree(path: string, doc: Document, name: string)
    ensures var p, q := Get(Schema(PythonFlavour, path, doc), name), Get(Schema(SdkFlavour, path, doc), name);
            && p.Ok? == q.Ok?
            && (p.Ok? ==> p.value == q.value)
            && (!p.Ok? ==> p == Raise(KeyError(name)) && q == Raise(ValueError(name)))
  {
  }

  /** A constructed schema serves every key the validator insisted on. */
  lemma {:induction false} GetRequiredKeys(s: Schema, name: string)
    requires Valid(s)
    requires name in VariantOf(s.flavour).globalKeys || name == "version_control" || name == "queries"
    ensures Get(s, name).Ok?
  {
  }

  /** A path that opens has the `.toml` suffix, whatever was loaded. */
  lemma {:induction false} OpenNeedsTomlSuffix(f: Flavour, path: string, loaded: Option<Document>)
    requires Paths.Suffix(path) != ".toml"
    ensures Open(f, path, loaded) == Reject(BadExtension(Paths.Suffix(path)))
  {
  }

  /** The schema built from an acceptable document holds that document. */
  lemma {:induction false} OpenAcceptable(f: Flavour, path: string, doc: Document)
    requires Paths.Suffix(path) == ".toml"
    requires Acceptable(doc, VariantOf(f))
    ensures Open(f, path, Some(doc)) == Pass(Schema(f, path, doc))
  {
    ValidateAcceptsExactly(doc, VariantOf(f));
  }
}
