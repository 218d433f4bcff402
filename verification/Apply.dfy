/** Turning a file from Git into the object that is applied (internal/sync/apply.go), and why the
    stamp on that object lets the controller recognise its echo. */
module Apply {
  import opened Wrappers
  import Text
  import opened Normalize
  import Documents
  import opened Paths

  const API_VERSION := "argoproj.io/v1alpha1"

  datatype ApplyError =
    | HashFailed
    | NotAnObject
    | UnsupportedPlural
    | Mismatch(field: string, pathExpect: string, manifestSeen: string)
    | PatchFailed

  // ---------- reading an unstructured object ----------

  /** A string field; "" when it is missing or no string. */
  function StringAt(o: Fields, k: string): string {
    if k in o && o[k].Str? then o[k].s else ""
  }

  function MetadataString(obj: Fields, k: string): string {
    match MapAt(obj, "metadata")
    case None => ""
    case Some(meta) => StringAt(meta, k)
  }

  predicate AllStrings(ann: Fields) {
    forall k :: k in ann ==> ann[k].Str?
  }

  /** GetAnnotations: all annotations, or none at all as soon as one of them is no string. */
  function AnnotationsIn(meta: Fields): map<string, string> {
    match MapAt(meta, "annotations")
    case None => map[]
    case Some(ann) => if AllStrings(ann) then map k | k in ann :: ann[k].s else map[]
  }

  function Annotations(obj: Fields): map<string, string> {
    match MapAt(obj, "metadata")
    case None => map[]
    case Some(meta) => AnnotationsIn(meta)
  }

  function StampOf(obj: Fields): Option<string> {
    Lookup(Annotations(obj), STAMP)
  }

  function Lift(ann: map<string, string>): Fields {
    map k | k in ann :: Str(ann[k])
  }

  /** SetAnnotations. */
  function WithAnnotations(obj: Fields, ann: map<string, string>): Fields {
    match MapAt(obj, "metadata")
    case None => obj
    case Some(meta) => obj["metadata" := Obj(meta["annotations" := Obj(Lift(ann))])]
  }

  // ---------- ApplyInventoryYAML up to the patch ----------

  /** validatePathManifestIdentity. */
  function ValidateIdentity(parsed: Target, obj: Fields): Option<ApplyError> {
    if StringAt(obj, "apiVersion") != API_VERSION then
      Some(Mismatch("apiVersion", API_VERSION, StringAt(obj, "apiVersion")))
    else
      match ArgoKindFromPlural(parsed.plural)
      case None => Some(UnsupportedPlural)
      case Some(kind) =>
        if StringAt(obj, "kind") != kind then Some(Mismatch("kind", kind, StringAt(obj, "kind")))
        else if MetadataString(obj, "namespace") != parsed.namespace then
          Some(Mismatch("namespace", parsed.namespace, MetadataString(obj, "namespace")))
        else if MetadataString(obj, "name") != parsed.name then
          Some(Mismatch("name", parsed.name, MetadataString(obj, "name")))
        else None
  }

  /** Decoding as an unstructured object needs a kind. */
  function Decode(lib: Library, gitYAML: string): Option<Fields> {
    match lib.toJson(Documents.FirstDocument(gitYAML))
    case Some(Obj(f)) => if StringAt(f, "kind") == "" then None else Some(f)
    case _ => None
  }

  function Stamped(obj: Fields, hash: string): Fields {
    WithAnnotations(obj, Annotations(obj)[STAMP := hash])
  }

  /** The object that is sent to the API server, or why nothing is sent. */
  function Prepare(lib: Library, parsed: Target, gitYAML: string): Result<Fields, ApplyError> {
    match MaterialHash(lib, gitYAML)
    case None => Err(HashFailed)
    case Some(hash) =>
      match Decode(lib, gitYAML)
      case None => Err(NotAnObject)
      case Some(obj) =>
        match ValidateIdentity(parsed, obj)
        case Some(e) => Err(e)
        case None => Ok(Stamped(obj, hash))
  }

  // ---------- what validation accepts ----------

  /** The manifest declares the identity. */
  ghost predicate Declares(t: Target, obj: Fields) {
    && Lookup(obj, "apiVersion") == Some(Str("argoproj.io/v1alpha1"))
    && (|| (t.plural == "applications" && Lookup(obj, "kind") == Some(Str("Application")))
        || (t.plural == "applicationsets" && Lookup(obj, "kind") == Some(Str("ApplicationSet"))))
    && exists meta ::
         && Lookup(obj, "metadata") == Some(Obj(meta))
         && Lookup(meta, "namespace") == Some(Str(t.namespace)) && Lookup(meta, "name") == Some(Str(t.name))
  }

  /** Validation accepts exactly the manifests that declare the path's identity. */
  lemma AcceptedIff(t: Target, obj: Fields)
    requires t.namespace != "" && t.name != ""
    ensures ValidateIdentity(t, obj) == None <==> Declares(t, obj)
  {
    if ValidateIdentity(t, obj) == None {
      var meta := obj["metadata"].fields;
      assert Lookup(obj, "metadata") == Some(Obj(meta));
      assert Lookup(meta, "namespace") == Some(Str(t.namespace)) && Lookup(meta, "name") == Some(Str(t.name));
    }
  }

  /** A field of the manifest beside what the path expects of it. */
  datatype Check = Check(field: string, wanted: string, seen: string)

  function FirstFailure(checks: seq<Check>): Option<ApplyError> {
    if checks == [] then None
    else if checks[0].wanted != checks[0].seen then
      Some(Mismatch(checks[0].field, checks[0].wanted, checks[0].seen))
    else FirstFailure(checks[1..])
  }

  /** The four checks, in the order in which their failures are reported. */
  function Checks(t: Target, obj: Fields): seq<Check> {
    [Check("apiVersion", "argoproj.io/v1alpha1", StringAt(obj, "apiVersion"))]
    + ([Check("kind", if t.plural == "applications" then "Application" else "ApplicationSet", StringAt(obj, "kind"))]
       + ([Check("namespace", t.namespace, MetadataString(obj, "namespace"))]
          + [Check("name", t.name, MetadataString(obj, "name"))]))
  }

  lemma FailureOfFirst(c: Check, rest: seq<Check>)
    ensures FirstFailure([c] + rest)
         == if c.wanted != c.seen then Some(Mismatch(c.field, c.wanted, c.seen)) else FirstFailure(rest)
  {
    assert ([c] + rest)[1..] == rest;
  }

  /** A mismatch reports the first field that differs. */
  lemma FirstMismatchReported(t: Target, obj: Fields)
    requires ArgoPlural(t.plural)
    ensures ValidateIdentity(t, obj) == FirstFailure(Checks(t, obj))
  {
    var a := Check("apiVersion", "argoproj.io/v1alpha1", StringAt(obj, "apiVersion"));
    var k := Check("kind", if t.plural == "applications" then "Application" else "ApplicationSet", StringAt(obj, "kind"));
    var ns := Check("namespace", t.namespace, MetadataString(obj, "namespace"));
    var n := Check("name", t.name, MetadataString(obj, "name"));
    FailureOfFirst(a, [k] + ([ns] + [n]));
    FailureOfFirst(k, [ns] + [n]);
    FailureOfFirst(ns, [n]);
    FailureOfFirst(n, []);
    assert [n] + [] == [n];
  }

  /** A file is prepared for an identity exactly when its first document declares it. */
  lemma PreparedIff(lib: Library, t: Target, gitYAML: string)
    requires t.namespace != "" && t.name != ""
    ensures Prepare(lib, t, gitYAML).Ok? <==>
            match lib.toJson(Documents.FirstDocument(gitYAML))
            case Some(Obj(f)) => Declares(t, f)
            case _ => false
  {
    match lib.toJson(Documents.FirstDocument(gitYAML))
    case Some(Obj(f)) => AcceptedIff(t, f);
    case _ =>
  }

  /** The other two errors: no JSON at all, and JSON that is no object with a kind. */
  lemma UnreadableIff(lib: Library, t: Target, gitYAML: string)
    ensures Prepare(lib, t, gitYAML) == Err(HashFailed) <==>
            match lib.toJson(Documents.FirstDocument(gitYAML))
            case Some(Null) => false
            case Some(Obj(_)) => false
            case _ => true
    ensures Prepare(lib, t, gitYAML) == Err(NotAnObject) <==>
            match lib.toJson(Documents.FirstDocument(gitYAML))
            case Some(Null) => true
            case Some(Obj(f)) => StringAt(f, "kind") == ""
            case _ => false
  {
    match lib.toJson(Documents.FirstDocument(gitYAML))
    case Some(Obj(f)) => ValidationErrors(t, f);
    case _ =>
  }

  lemma ValidationErrors(t: Target, obj: Fields)
    ensures ValidateIdentity(t, obj) !in {Some(HashFailed), Some(NotAnObject), Some(PatchFailed)}
  {
  }

  /** No file is applied to two objects. */
  lemma PreparedOnce(lib: Library, t: Target, u: Target, gitYAML: string)
    requires Prepare(lib, t, gitYAML).Ok? && Prepare(lib, u, gitYAML).Ok?
    ensures t == u
  {
  }

  /** Stamping changes the annotations and nothing else: they become the string annotations of the file, if all
      are strings, and the stamp. */
  lemma StampedExactly(obj: Fields, meta: Fields, hash: string)
    requires Lookup(obj, "metadata") == Some(Obj(meta))
    ensures forall k :: k != "metadata" ==> Lookup(Stamped(obj, hash), k) == Lookup(obj, k)
    ensures exists meta' ::
              && Lookup(Stamped(obj, hash), "metadata") == Some(Obj(meta'))
              && (forall k :: k != "annotations" ==> Lookup(meta', k) == Lookup(meta, k))
              && exists ann ::
                   && Lookup(meta', "annotations") == Some(Obj(ann))
                   && Lookup(ann, "accord.io/sync-content-hash") == Some(Str(hash))
                   && forall k :: k != "accord.io/sync-content-hash" ==>
                        Lookup(ann, k) ==
                          if MapAt(meta, "annotations").Some? && AllStrings(MapAt(meta, "annotations").value)
                          then Lookup(MapAt(meta, "annotations").value, k) else None
  {
    var ann := Lift(AnnotationsIn(meta)[STAMP := hash]);
    var meta' := meta["annotations" := Obj(ann)];
    assert Stamped(obj, hash) == obj["metadata" := Obj(meta')];
    assert Lookup(meta', "annotations") == Some(Obj(ann));
    assert Lookup(Stamped(obj, hash), "metadata") == Some(Obj(meta'));
    forall k | k != "accord.io/sync-content-hash"
      ensures Lookup(ann, k) ==
                if MapAt(meta, "annotations").Some? && AllStrings(MapAt(meta, "annotations").value)
                then Lookup(MapAt(meta, "annotations").value, k) else None
    {
    }
  }

  // ---------- the stamp ----------

  /** The annotations that stamping keeps as they are: absent, a map of strings, or a map that holds
      nothing but the two bookkeeping keys. */
  predicate Stampable(obj: Fields) {
    match MapAt(obj, "metadata")
    case None => true
    case Some(meta) =>
      match MapAt(meta, "annotations")
      case None => false
      case Some(ann) => AllStrings(ann) || ann.Keys <= {LAST_APPLIED, STAMP}
  }

  /** The identity of a valid manifest is in a metadata map. */
  predicate HasMetadata(obj: Fields) {
    "metadata" in obj && obj["metadata"].Obj?
  }

  lemma StampedMetadata(obj: Fields, hash: string)
    requires HasMetadata(obj)
    ensures var meta := obj["metadata"].fields;
            var ann := Lift(AnnotationsIn(meta)[STAMP := hash]);
            && MapAt(Stamped(obj, hash), "metadata") == Some(meta["annotations" := Obj(ann)])
            && AllStrings(ann)
            && StampOf(Stamped(obj, hash)) == Some(hash)
  {
    var meta := obj["metadata"].fields;
    var strings := AnnotationsIn(meta)[STAMP := hash];
    var ann := Lift(strings);
    var meta' := meta["annotations" := Obj(ann)];
    assert MapAt(meta', "annotations") == Some(ann);
    assert AnnotationsIn(meta')[STAMP] == strings[STAMP];
  }

  lemma StampedAnnotationsIff(meta: Fields, hash: string)
    ensures var ann := Lift(AnnotationsIn(meta)[STAMP := hash]);
            SameAnnotations(meta["annotations" := Obj(ann)], meta)
            <==> match MapAt(meta, "annotations")
                 case None => false
                 case Some(before) => AllStrings(before) || before.Keys <= {LAST_APPLIED, STAMP}
  {
    var ann := Lift(AnnotationsIn(meta)[STAMP := hash]);
    var meta' := meta["annotations" := Obj(ann)];
    assert MapAt(meta', "annotations") == Some(ann);
    if MapAt(meta, "annotations").Some? {
      var before := MapAt(meta, "annotations").value;
      if AllStrings(before) {
        forall k | k !in {LAST_APPLIED, STAMP} ensures Lookup(ann, k) == Lookup(before, k) {
        }
      } else {
        assert ann.Keys == {STAMP};
        if before.Keys <= {LAST_APPLIED, STAMP} {
          forall k | k !in {LAST_APPLIED, STAMP} ensures Lookup(ann, k) == Lookup(before, k) {
          }
        } else {
          var k :| k in before && k !in {LAST_APPLIED, STAMP};
          assert Lookup(ann, k) != Lookup(before, k);
        }
      }
    }
  }

  /** Stamping keeps the material exactly when the annotations are stampable. */
  lemma StampKeepsMaterialIff(obj: Fields, hash: string)
    requires HasMetadata(obj)
    ensures SameMaterial(Stamped(obj, hash), obj) <==> Stampable(obj)
  {
    StampedMetadata(obj, hash);
    var meta := obj["metadata"].fields;
    var ann := Lift(AnnotationsIn(meta)[STAMP := hash]);
    var meta' := meta["annotations" := Obj(ann)];
    StampedAnnotationsIff(meta, hash);
    forall k | k !in {"status", "metadata"} ensures Lookup(Stamped(obj, hash), k) == Lookup(obj, k) {
    }
    forall k | k !in Volatile() + {"annotations"} ensures Lookup(meta', k) == Lookup(meta, k) {
    }
    assert AgreeOutside(meta', meta, Volatile() + {"annotations"});
    assert MapAt(obj, "metadata") == Some(meta);
  }

  /** What the API server may do to an applied object: add or change status and volatile metadata.
      The stamp stays. */
  ghost predicate ServedAs(desired: Fields, live: Fields) {
    SameMaterial(live, desired) && StampOf(live) == StampOf(desired)
  }

  /** The annotation check at the head of `handle`. */
  predicate StampMatches(lib: Library, obj: Fields) {
    StampOf(obj) == Some(ObjectHash(lib, obj))
  }

  lemma PrepareFacts(lib: Library, parsed: Target, gitYAML: string)
    requires parsed.name != "" && Prepare(lib, parsed, gitYAML).Ok?
    ensures Decode(lib, gitYAML).Some? && HasMetadata(Decode(lib, gitYAML).value)
    ensures ValidateIdentity(parsed, Decode(lib, gitYAML).value) == None
    ensures Prepare(lib, parsed, gitYAML).value
         == Stamped(Decode(lib, gitYAML).value, ObjectHash(lib, Decode(lib, gitYAML).value))
  {
  }

  /** Loop break: whatever the API server adds to an applied file, the controller finds the stamp equal
      to the digest of what it sees if, and only if, the annotations in the file are stampable. */
  lemma EchoRecognisedIff(lib: Library, parsed: Target, gitYAML: string, live: Fields)
    requires CollisionFree(lib) && parsed.name != ""
    requires Prepare(lib, parsed, gitYAML).Ok? && ServedAs(Prepare(lib, parsed, gitYAML).value, live)
    ensures StampMatches(lib, live) <==> Stampable(Decode(lib, gitYAML).value)
  {
    PrepareFacts(lib, parsed, gitYAML);
    var obj := Decode(lib, gitYAML).value;
    var hash := ObjectHash(lib, obj);
    var desired := Stamped(obj, hash);
    StampedMetadata(obj, hash);
    StampKeepsMaterialIff(obj, hash);
    NormalizedEqualIff(live, desired);
    HashEqualIff(lib, desired, obj);
    assert ObjectHash(lib, live) == ObjectHash(lib, desired);
  }

  /** The useful half needs no assumption on the digest. */
  lemma EchoRecognised(lib: Library, parsed: Target, gitYAML: string, live: Fields)
    requires parsed.name != ""
    requires Prepare(lib, parsed, gitYAML).Ok? && ServedAs(Prepare(lib, parsed, gitYAML).value, live)
    requires Stampable(Decode(lib, gitYAML).value)
    ensures StampMatches(lib, live)
    ensures SameMaterial(live, Decode(lib, gitYAML).value)
  {
    PrepareFacts(lib, parsed, gitYAML);
    var obj := Decode(lib, gitYAML).value;
    var hash := ObjectHash(lib, obj);
    StampedMetadata(obj, hash);
    StampKeepsMaterialIff(obj, hash);
    NormalizedEqualIff(live, Stamped(obj, hash));
    NormalizedEqualIff(Stamped(obj, hash), obj);
    NormalizedEqualIff(live, obj);
  }

  /** `annotations:` left empty (a null) is a file whose echo is not recognised. */
  lemma NullAnnotationsBreakTheStamp(lib: Library, parsed: Target, gitYAML: string, live: Fields, meta: Fields)
    requires CollisionFree(lib) && parsed.name != ""
    requires Prepare(lib, parsed, gitYAML).Ok? && ServedAs(Prepare(lib, parsed, gitYAML).value, live)
    requires MapAt(Decode(lib, gitYAML).value, "metadata") == Some(meta) && Lookup(meta, "annotations") == Some(Null)
    ensures !StampMatches(lib, live)
  {
    EchoRecognisedIff(lib, parsed, gitYAML, live);
  }

  // ---------- identity survives normalization ----------

  lemma IdentityOfMaterial(t: Target, a: Fields, b: Fields)
    requires SameMaterial(a, b)
    ensures ValidateIdentity(t, a) == ValidateIdentity(t, b)
  {
    assert Lookup(a, "apiVersion") == Lookup(b, "apiVersion");
    assert Lookup(a, "kind") == Lookup(b, "kind");
    MetadataStringOfMaterial(a, b, "namespace");
    MetadataStringOfMaterial(a, b, "name");
  }

  lemma MetadataStringOfMaterial(a: Fields, b: Fields, k: string)
    requires SameMaterial(a, b) && k in {"namespace", "name"}
    ensures MetadataString(a, k) == MetadataString(b, k)
  {
    NameIsNotVolatile();
    var x, y := MapAt(a, "metadata"), MapAt(b, "metadata");
    if x.Some? && y.Some? {
      assert Lookup(x.value, k) == Lookup(y.value, k);
    }
  }

  lemma NameIsNotVolatile()
    ensures "name" !in Volatile() && "namespace" !in Volatile()
  {
  }

  // ---------- exported files can be applied ----------

  const TOP_LEVEL: set<string> := {"apiVersion", "kind", "metadata", "operation", "spec"}

  /** The top-level fields of an Application or ApplicationSet, as their schemas have them. */
  predicate Typed(obj: Fields) {
    "spec" in obj && obj.Keys <= TOP_LEVEL + {"status"}
  }

  /** An object as the API server holds it for an identity: the fields say so, and the annotations
      are strings. */
  predicate WellFormed(t: Target, obj: Fields) {
    && ValidateIdentity(t, obj) == None
    && Typed(obj)
    && HasMetadata(obj)
    && match MapAt(obj["metadata"].fields, "annotations")
       case None => false
       case Some(ann) => AllStrings(ann)
  }

  lemma TypedOfMaterial(live: Fields, file: Fields)
    requires SameMaterial(live, file) && Typed(file)
    ensures Typed(live)
  {
    assert Lookup(live, "spec") == Lookup(file, "spec");
    forall k | k in live ensures k in TOP_LEVEL + {"status"} {
      if k !in {"status", "metadata"} { assert Lookup(live, k) == Lookup(file, k); }
    }
  }

  /** An object with a stamp has string annotations. */
  lemma StampedIsWellFormed(t: Target, live: Fields)
    requires ValidateIdentity(t, live) == None && Typed(live) && StampOf(live).Some?
    ensures WellFormed(t, live)
  {
  }

  /** A file that the sync side applies to `t` and whose echo is recognised. */
  predicate Deployable(lib: Library, t: Target, content: string) {
    Prepare(lib, t, content).Ok? && Stampable(Decode(lib, content).value) && Typed(Decode(lib, content).value)
  }

  /** The material of a file. */
  function Material(lib: Library, content: string): Fields {
    match Decode(lib, content)
    case None => map[]
    case Some(obj) => Normalized(obj)
  }

  // ---------- what trimming may do to an export ----------

  /** YAML lists keys in order, so what an export ends with is the last field of its spec. Cutting off the
      blanks at the end of the text can change that field, but removes none. */
  ghost predicate ClipsOnlySpec(lib: Library) {
    forall f: Fields :: "spec" in f && f.Keys <= TOP_LEVEL ==>
      exists g: Fields :: lib.toJson(Text.TrimSpace(lib.toYaml(Obj(f)))) == Some(Obj(g)) && Clipped(f, g)
  }

  ghost predicate Clipped(f: Fields, g: Fields) {
    AgreeOutside(f, g, {"spec"}) && Positions(Obj(f)) == Positions(Obj(g))
  }

  /** What is assumed of the YAML and JSON libraries. */
  ghost predicate Dependable(lib: Library) {
    Lossless(lib) && ClipsOnlySpec(lib)
  }

  /** What the export of a material reads as. */
  function Reading(lib: Library, material: Fields): Fields {
    Material(lib, lib.toYaml(Obj(material)))
  }

  lemma PositionOfField(f: Fields, k: string)
    ensures [k] in Positions(Obj(f)) <==> k in f
  {
    if k in f {
      assert [] in Positions(f[k]);
      assert [k] + [] == [k];
    }
    if [k] in Positions(Obj(f)) {
      var k', p :| k' in f && p in Positions(f[k']) && [k'] + p == [k];
      assert k' == ([k'] + p)[0];
    }
  }

  lemma ClippedIsNormalized(obj: Fields, g: Fields)
    requires Clipped(Normalized(obj), g)
    ensures Normalized(g) == g
  {
    var n, volatile := Normalized(obj), Volatile();
    AnnotationsAreNotVolatile();
    NormalizedIdempotent(obj);
    MetadataAfter(n, volatile);
    MetadataAfter(g, volatile);
    assert Lookup(n, "metadata") == Lookup(g, "metadata");
    OtherKeysAfter(n, volatile, "status");
    assert Lookup(n, "status") == Lookup(g, "status");
    forall k ensures Lookup(Normalized(g), k) == Lookup(g, k) {
      if k != "metadata" { OtherKeysAfter(g, volatile, k); }
    }
    ExtEq(Normalized(g), g);
  }

  /** How an export reads back. */
  lemma ExportClipped(lib: Library, t: Target, obj: Fields) returns (g: Fields)
    requires Dependable(lib) && Named(t) && WellFormed(t, obj)
    ensures Clipped(Normalized(obj), g) && Normalized(g) == g && "spec" in g
    ensures lib.toJson(Documents.FirstDocument(ExportYaml(lib, obj))) == Some(Obj(g))
    ensures lib.toJson(Text.TrimSpace(ExportYaml(lib, obj))) == Some(Obj(g))
  {
    var n := Normalized(obj);
    OtherKeysAfter(obj, Volatile(), "spec");
    NormalizedTopLevel(obj);
    ExportReads(lib, obj);
    g :| lib.toJson(Text.TrimSpace(lib.toYaml(Obj(n)))) == Some(Obj(g)) && Clipped(n, g);
    ClippedIsNormalized(obj, g);
    PositionOfField(n, "spec");
    PositionOfField(g, "spec");
  }

  lemma NormalizedTopLevel(obj: Fields)
    requires Typed(obj)
    ensures "spec" in Normalized(obj) && Normalized(obj).Keys <= TOP_LEVEL
  {
    forall k | k in Normalized(obj) ensures k in TOP_LEVEL {
      if k != "metadata" { OtherKeysAfter(obj, Volatile(), k); }
    }
    OtherKeysAfter(obj, Volatile(), "spec");
  }

  lemma ClippedIdentity(t: Target, f: Fields, g: Fields)
    requires Clipped(f, g)
    ensures ValidateIdentity(t, f) == ValidateIdentity(t, g) && Stampable(f) == Stampable(g)
  {
    assert Lookup(f, "apiVersion") == Lookup(g, "apiVersion");
    assert Lookup(f, "kind") == Lookup(g, "kind");
    assert Lookup(f, "metadata") == Lookup(g, "metadata");
  }

  lemma ClippedTyped(f: Fields, g: Fields)
    requires Clipped(f, g) && f.Keys <= TOP_LEVEL && "spec" in g
    ensures Typed(g)
  {
    forall k | k in g ensures k in TOP_LEVEL {
      if k != "spec" { assert Lookup(f, k) == Lookup(g, k); }
    }
  }

  /** What the controller exports can be applied again, with all its fields; and it carries the object's own
      material if, and only if, it can be trimmed without harm. */
  lemma ExportDeployable(lib: Library, t: Target, obj: Fields)
    requires Dependable(lib) && Named(t) && WellFormed(t, obj)
    ensures Deployable(lib, t, ExportYaml(lib, obj))
    ensures Positions(Obj(Material(lib, ExportYaml(lib, obj)))) == Positions(Obj(Normalized(obj)))
    ensures Material(lib, ExportYaml(lib, obj)) == Reading(lib, Normalized(obj))
    ensures Material(lib, ExportYaml(lib, obj)) == Normalized(obj) <==> TrimSafe(lib, obj)
  {
    var n := Normalized(obj);
    var g := ExportClipped(lib, t, obj);
    NormalizedIdempotent(obj);
    IdentityOfMaterial(t, n, obj);
    ClippedIdentity(t, n, g);
    NormalizedStampable(t, obj);
    NormalizedTopLevel(obj);
    ClippedTyped(n, g);
    assert StringAt(g, "kind") == ArgoKindFromPlural(t.plural).value;
    ExportDecodes(lib, ExportYaml(lib, obj), g);
  }

  lemma ExportDecodes(lib: Library, content: string, g: Fields)
    requires lib.toJson(Documents.FirstDocument(content)) == Some(Obj(g)) && Normalized(g) == g && StringAt(g, "kind") != ""
    ensures Decode(lib, content) == Some(g) && Material(lib, content) == g
    ensures MaterialHash(lib, content) == Some(lib.sha(Obj(g)))
  {
  }

  lemma NormalizedStampable(t: Target, obj: Fields)
    requires WellFormed(t, obj)
    ensures Stampable(Normalized(obj))
  {
    var volatile := Volatile();
    AnnotationsAreNotVolatile();
    MetadataAfter(obj, volatile);
    var meta := obj["metadata"].fields;
    AnnotationsAfter(meta, volatile);
  }
}
