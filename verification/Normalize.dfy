/** Manifests and their material: what internal/inventory/normalize.go strips, hashes and exports. */
module Normalize {
  import opened Wrappers
  import Text
  import Documents

  /** A decoded JSON value. Numbers keep their text. */
  datatype Json =
    | Null
    | Bool(b: bool)
    | Number(text: string)
    | Str(s: string)
    | Arr(items: seq<Json>)
    | Obj(fields: map<string, Json>)

  type Fields = map<string, Json>

  /** The libraries the code leans on. `toJson` and `toYaml` convert documents, `sha` stands for
      the hex SHA-256 of the canonical JSON encoding. */
  datatype Library = Library(toJson: string -> Option<Json>, toYaml: Json -> string, sha: Json -> string)

  const STAMP := "accord.io/sync-content-hash"
  const LAST_APPLIED := "kubectl.kubernetes.io/last-applied-configuration"
  const STRIP_METADATA: seq<string> :=
    ["uid", "resourceVersion", "creationTimestamp", "deletionTimestamp", "generation", "managedFields", "selfLink"]

  /** No two materials share a digest. */
  ghost predicate CollisionFree(lib: Library) {
    forall a, b :: lib.sha(a) == lib.sha(b) ==> a == b
  }

  /** Writing a map as YAML and reading it back loses nothing, and puts no document separator in
      between. */
  ghost predicate Lossless(lib: Library) {
    forall f: Fields ::
      lib.toJson(lib.toYaml(Obj(f))) == Some(Obj(f)) && Documents.SingleDocument(lib.toYaml(Obj(f)))
  }

  /** The positions of all fields in a value, at any depth. */
  function Positions(v: Json): (r: set<seq<string>>)
    ensures [] in r
    decreases v
  {
    if v.Obj? then {[]} + set k, p | k in v.fields && p in Positions(v.fields[k]) :: [k] + p else {[]}
  }

  // ---------- normalization ----------

  function NormalizedAnnotations(ann: Fields): Fields {
    ann - {LAST_APPLIED, STAMP}
  }

  /** The metadata without the `volatile` keys and the bookkeeping annotations. */
  function NormalizedMetadata(meta: Fields, volatile: set<string>): Fields {
    var m := meta - volatile;
    if "annotations" in m && m["annotations"].Obj? then
      var ann := NormalizedAnnotations(m["annotations"].fields);
      if |ann| == 0 then m - {"annotations"} else m["annotations" := Obj(ann)]
    else m
  }

  function NormalizedUpTo(obj: Fields, volatile: set<string>): Fields {
    var o := obj - {"status"};
    if "metadata" in o && o["metadata"].Obj? then
      var meta := NormalizedMetadata(o["metadata"].fields, volatile);
      if |meta| == 0 then o - {"metadata"} else o["metadata" := Obj(meta)]
    else o
  }

  function Volatile(): set<string> {
    set k | k in STRIP_METADATA
  }

  function Normalized(obj: Fields): Fields {
    NormalizedUpTo(obj, Volatile())
  }

  method DeleteKeys(m: Fields, keys: seq<string>) returns (r: Fields)
    ensures r == m - set k | k in keys
  {
    r := m;
    for i := 0 to |keys|
      invariant r == m - set k | k in keys[..i]
    {
      r := r - {keys[i]};
      assert keys[..i + 1] == keys[..i] + [keys[i]];
    }
    assert keys[..|keys|] == keys;
  }

  /** The metadata part of normalizeKubernetesObject. */
  method CleanMetadata(original: Fields) returns (meta: Fields)
    ensures meta == NormalizedMetadata(original, Volatile())
  {
    meta := DeleteKeys(original, STRIP_METADATA);
    assert meta == original - Volatile();
    if "annotations" in meta && meta["annotations"].Obj? {
      var ann := DeleteKeys(meta["annotations"].fields, [LAST_APPLIED, STAMP]);
      assert (set k | k in [LAST_APPLIED, STAMP]) == {LAST_APPLIED, STAMP};
      if |ann| == 0 {
        meta := meta - {"annotations"};
      } else {
        meta := meta["annotations" := Obj(ann)];
      }
    }
  }

  /** A decoded manifest, edited in place. */
  class Manifest {
    var obj: Fields

    constructor (obj: Fields)
      ensures this.obj == obj
    {
      this.obj := obj;
    }

    /** normalizeKubernetesObject. */
    method Normalize()
      modifies this
      ensures obj == Normalized(old(obj))
    {
      obj := obj - {"status"};
      if "metadata" !in obj || !obj["metadata"].Obj? {
        return;
      }
      var meta := CleanMetadata(obj["metadata"].fields);
      if |meta| == 0 {
        obj := obj - {"metadata"};
      } else {
        obj := obj["metadata" := Obj(meta)];
      }
    }
  }

  // ---------- hashing and exporting ----------

  /** MaterialHashFromNormalizedYAML; None is a document that is no JSON object (or null). */
  function MaterialHash(lib: Library, src: string): Option<string> {
    match lib.toJson(Documents.FirstDocument(src))
    case Some(Null) => Some(lib.sha(Null))
    case Some(Obj(f)) => Some(lib.sha(Obj(Normalized(f))))
    case _ => None
  }

  /** The two results of NormalizedYAMLAndMaterialHash. */
  function ExportYaml(lib: Library, obj: Fields): string {
    lib.toYaml(Obj(Normalized(obj)))
  }

  function ObjectHash(lib: Library, obj: Fields): string {
    lib.sha(Obj(Normalized(obj)))
  }

  // ---------- what normalization means ----------

  /** The two maps agree on every key outside `hidden`. */
  ghost predicate AgreeOutside(a: Fields, b: Fields, hidden: set<string>) {
    forall k :: k !in hidden ==> Lookup(a, k) == Lookup(b, k)
  }

  /** A map-valued entry; a missing one counts as empty. Any other value is not a map. */
  function MapAt(o: Fields, k: string): Option<Fields> {
    if k !in o then Some(map[])
    else if o[k].Obj? then Some(o[k].fields)
    else None
  }

  ghost predicate SameAnnotations(a: Fields, b: Fields) {
    match (MapAt(a, "annotations"), MapAt(b, "annotations"))
    case (Some(x), Some(y)) => AgreeOutside(x, y, {LAST_APPLIED, STAMP})
    case _ => Lookup(a, "annotations") == Lookup(b, "annotations")
  }

  ghost predicate SameMetadataMap(x: Fields, y: Fields, volatile: set<string>) {
    AgreeOutside(x, y, volatile + {"annotations"}) && SameAnnotations(x, y)
  }

  ghost predicate SameMetadata(a: Fields, b: Fields, volatile: set<string>) {
    match (MapAt(a, "metadata"), MapAt(b, "metadata"))
    case (Some(x), Some(y)) => SameMetadataMap(x, y, volatile)
    case _ => Lookup(a, "metadata") == Lookup(b, "metadata")
  }

  ghost predicate SameUpTo(a: Fields, b: Fields, volatile: set<string>) {
    AgreeOutside(a, b, {"status", "metadata"}) && SameMetadata(a, b, volatile)
  }

  /** Two manifests carry the same material: they differ at most in status, in the volatile
      metadata, in the two bookkeeping annotations, and in whether an emptied annotation or
      metadata map is present at all. */
  ghost predicate SameMaterial(a: Fields, b: Fields) {
    SameUpTo(a, b, Volatile())
  }

  lemma ExtEq(a: Fields, b: Fields)
    requires AgreeOutside(a, b, {})
    ensures a == b
  {
    forall k ensures k in a <==> k in b {
      assert Lookup(a, k) == Lookup(b, k);
    }
    forall k | k in a ensures a[k] == b[k] {
      assert Lookup(a, k) == Lookup(b, k);
    }
  }

  /** Removing keys identifies exactly the maps that agree outside them. */
  lemma StripIff(x: Fields, y: Fields, hidden: set<string>)
    ensures x - hidden == y - hidden <==> AgreeOutside(x, y, hidden)
  {
    if x - hidden == y - hidden {
      forall k | k !in hidden ensures Lookup(x, k) == Lookup(y, k) {
        assert Lookup(x, k) == Lookup(x - hidden, k);
        assert Lookup(y, k) == Lookup(y - hidden, k);
      }
    }
    if AgreeOutside(x, y, hidden) {
      forall k ensures Lookup(x - hidden, k) == Lookup(y - hidden, k) {
        if k !in hidden { assert Lookup(x, k) == Lookup(y, k); }
      }
      ExtEq(x - hidden, y - hidden);
    }
  }

  lemma EmptyMap(m: Fields)
    ensures |m| == 0 <==> m == map[]
  {
  }

  /** What each lookup sees after normalization. */
  lemma AnnotationsAfter(meta: Fields, volatile: set<string>)
    requires "annotations" !in volatile
    ensures Lookup(NormalizedMetadata(meta, volatile), "annotations") ==
              match MapAt(meta, "annotations")
              case None => Lookup(meta, "annotations")
              case Some(ann) =>
                if NormalizedAnnotations(ann) == map[] then None else Some(Obj(NormalizedAnnotations(ann)))
    ensures forall k :: k != "annotations" ==>
              Lookup(NormalizedMetadata(meta, volatile), k) == if k in volatile then None else Lookup(meta, k)
  {
    if "annotations" !in meta {
      assert NormalizedAnnotations(map[]) == map[];
    } else if meta["annotations"].Obj? {
      EmptyMap(NormalizedAnnotations(meta["annotations"].fields));
    }
  }

  lemma OtherKeysAfter(obj: Fields, volatile: set<string>, k: string)
    requires k != "metadata"
    ensures Lookup(NormalizedUpTo(obj, volatile), k) == if k == "status" then None else Lookup(obj, k)
  {
  }

  lemma EmptyMetadata(volatile: set<string>)
    ensures NormalizedMetadata(map[], volatile) == map[]
  {
  }

  lemma MetadataAfter(obj: Fields, volatile: set<string>)
    ensures Lookup(NormalizedUpTo(obj, volatile), "metadata") ==
              match MapAt(obj, "metadata")
              case None => Lookup(obj, "metadata")
              case Some(meta) =>
                if NormalizedMetadata(meta, volatile) == map[] then None
                else Some(Obj(NormalizedMetadata(meta, volatile)))
  {
    EmptyMetadata(volatile);
    var o := obj - {"status"};
    assert "metadata" != "status";
    if "metadata" in obj {
      assert o["metadata"] == obj["metadata"];
      if obj["metadata"].Obj? {
        EmptyMap(NormalizedMetadata(obj["metadata"].fields, volatile));
      }
    }
  }

  lemma SameAnnotationsIff(a: Fields, b: Fields, volatile: set<string>)
    requires "annotations" !in volatile
    ensures SameAnnotations(a, b) <==>
            Lookup(NormalizedMetadata(a, volatile), "annotations") == Lookup(NormalizedMetadata(b, volatile), "annotations")
  {
    AnnotationsAfter(a, volatile);
    AnnotationsAfter(b, volatile);
    var x, y := MapAt(a, "annotations"), MapAt(b, "annotations");
    if x.Some? && y.Some? {
      StripIff(x.value, y.value, {LAST_APPLIED, STAMP});
    }
  }

  lemma SameMetadataMapIff(x: Fields, y: Fields, volatile: set<string>)
    requires "annotations" !in volatile
    ensures SameMetadataMap(x, y, volatile) <==> NormalizedMetadata(x, volatile) == NormalizedMetadata(y, volatile)
  {
    AnnotationsAfter(x, volatile);
    AnnotationsAfter(y, volatile);
    SameAnnotationsIff(x, y, volatile);
    var nx, ny := NormalizedMetadata(x, volatile), NormalizedMetadata(y, volatile);
    if SameMetadataMap(x, y, volatile) {
      forall k ensures Lookup(nx, k) == Lookup(ny, k) {
        if k != "annotations" && k !in volatile { assert Lookup(x, k) == Lookup(y, k); }
      }
      ExtEq(nx, ny);
    }
    if nx == ny {
      forall k | k !in volatile + {"annotations"} ensures Lookup(x, k) == Lookup(y, k) {
        assert Lookup(nx, k) == Lookup(ny, k);
      }
    }
  }

  lemma SameMetadataSeen(a: Fields, b: Fields, volatile: set<string>)
    requires "annotations" !in volatile
    ensures SameMetadata(a, b, volatile) <==>
            Lookup(NormalizedUpTo(a, volatile), "metadata") == Lookup(NormalizedUpTo(b, volatile), "metadata")
  {
    MetadataAfter(a, volatile);
    MetadataAfter(b, volatile);
    var x, y := MapAt(a, "metadata"), MapAt(b, "metadata");
    if x.Some? && y.Some? {
      SameMetadataMapIff(x.value, y.value, volatile);
    }
  }

  lemma NormalizedEqualOnlyIf(a: Fields, b: Fields, volatile: set<string>)
    requires NormalizedUpTo(a, volatile) == NormalizedUpTo(b, volatile)
    ensures AgreeOutside(a, b, {"status", "metadata"})
  {
    forall k | k !in {"status", "metadata"} ensures Lookup(a, k) == Lookup(b, k) {
      OtherKeysAfter(a, volatile, k);
      OtherKeysAfter(b, volatile, k);
      assert Lookup(NormalizedUpTo(a, volatile), k) == Lookup(NormalizedUpTo(b, volatile), k);
    }
  }

  lemma NormalizedEqualIfSame(a: Fields, b: Fields, volatile: set<string>)
    requires AgreeOutside(a, b, {"status", "metadata"})
    requires Lookup(NormalizedUpTo(a, volatile), "metadata") == Lookup(NormalizedUpTo(b, volatile), "metadata")
    ensures NormalizedUpTo(a, volatile) == NormalizedUpTo(b, volatile)
  {
    var na, nb := NormalizedUpTo(a, volatile), NormalizedUpTo(b, volatile);
    forall k ensures Lookup(na, k) == Lookup(nb, k) {
      if k != "metadata" {
        OtherKeysAfter(a, volatile, k);
        OtherKeysAfter(b, volatile, k);
        if k != "status" { assert Lookup(a, k) == Lookup(b, k); }
      }
    }
    ExtEq(na, nb);
  }

  lemma EqualIffSame(a: Fields, b: Fields, volatile: set<string>)
    requires "annotations" !in volatile
    ensures NormalizedUpTo(a, volatile) == NormalizedUpTo(b, volatile) <==> SameUpTo(a, b, volatile)
  {
    SameMetadataSeen(a, b, volatile);
    if NormalizedUpTo(a, volatile) == NormalizedUpTo(b, volatile) {
      NormalizedEqualOnlyIf(a, b, volatile);
    }
    if SameUpTo(a, b, volatile) {
      NormalizedEqualIfSame(a, b, volatile);
    }
  }

  lemma MetadataIdempotent(meta: Fields, volatile: set<string>)
    requires "annotations" !in volatile
    ensures SameMetadataMap(NormalizedMetadata(meta, volatile), meta, volatile)
  {
    AnnotationsAfter(meta, volatile);
    var n := NormalizedMetadata(meta, volatile);
    if MapAt(meta, "annotations").Some? {
      var ann := MapAt(meta, "annotations").value;
      assert MapAt(n, "annotations") == Some(NormalizedAnnotations(ann));
    }
    forall k | k !in volatile + {"annotations"} ensures Lookup(n, k) == Lookup(meta, k) {
    }
  }

  lemma NormalizedSame(obj: Fields, volatile: set<string>)
    requires "annotations" !in volatile
    ensures SameUpTo(NormalizedUpTo(obj, volatile), obj, volatile)
  {
    MetadataAfter(obj, volatile);
    var n := NormalizedUpTo(obj, volatile);
    if MapAt(obj, "metadata").Some? {
      var meta := MapAt(obj, "metadata").value;
      assert MapAt(n, "metadata") == Some(NormalizedMetadata(meta, volatile));
      MetadataIdempotent(meta, volatile);
    }
    forall k | k !in {"status", "metadata"} ensures Lookup(n, k) == Lookup(obj, k) {
      OtherKeysAfter(obj, volatile, k);
    }
  }

  lemma AnnotationsAreNotVolatile()
    ensures "annotations" !in Volatile()
  {
  }

  /** Normalization forgets exactly what `SameMaterial` allows to differ: it identifies two
      manifests if, and only if, they agree on everything else. */
  lemma NormalizedEqualIff(a: Fields, b: Fields)
    ensures Normalized(a) == Normalized(b) <==> SameMaterial(a, b)
  {
    AnnotationsAreNotVolatile();
    EqualIffSame(a, b, Volatile());
  }

  // ---------- exactly what is stripped ----------

  lemma VolatileKeys()
    ensures Volatile() == {"uid", "resourceVersion", "creationTimestamp", "deletionTimestamp", "generation",
                           "managedFields", "selfLink"}
  {
    var keys := ["uid", "resourceVersion", "creationTimestamp", "deletionTimestamp", "generation",
                 "managedFields", "selfLink"];
    assert STRIP_METADATA == keys;
    assert forall k :: k in keys <==> k in {"uid", "resourceVersion", "creationTimestamp", "deletionTimestamp",
                                            "generation", "managedFields", "selfLink"};
  }

  /** Changing one top-level field goes unnoticed if, and only if, it is the status. */
  lemma TopLevelStrippedIff(obj: Fields, k: string, v: Json)
    requires k != "metadata" && Lookup(obj, k) != Some(v)
    ensures Normalized(obj[k := v]) == Normalized(obj) <==> k == "status"
  {
    var changed := obj[k := v];
    NormalizedEqualIff(changed, obj);
    if k == "status" {
      SameMap(changed, obj, "metadata");
      AgreeReflexive(changed, obj);
    } else {
      assert Lookup(changed, k) == Some(v);
    }
  }

  lemma SameMap(a: Fields, b: Fields, k: string)
    requires Lookup(a, k) == Lookup(b, k)
    ensures MapAt(a, k) == MapAt(b, k)
  {
  }

  lemma AgreeReflexive(a: Fields, b: Fields)
    requires AgreeOutside(a, b, {"status"})
    ensures SameMaterial(a, b)
  {
    assert Lookup(a, "metadata") == Lookup(b, "metadata");
    SameMap(a, b, "metadata");
  }

  /** Changing one metadata field goes unnoticed if, and only if, it is one of seven. */
  lemma MetadataStrippedIff(obj: Fields, meta: Fields, k: string, v: Json)
    requires Lookup(obj, "metadata") == Some(Obj(meta)) && k != "annotations" && Lookup(meta, k) != Some(v)
    ensures Normalized(obj["metadata" := Obj(meta[k := v])]) == Normalized(obj)
            <==> k in {"uid", "resourceVersion", "creationTimestamp", "deletionTimestamp", "generation",
                       "managedFields", "selfLink"}
  {
    var changed := obj["metadata" := Obj(meta[k := v])];
    NormalizedEqualIff(changed, obj);
    VolatileKeys();
    OneMetadataKey(obj, meta, k, v, Volatile());
  }

  lemma OneMetadataKey(obj: Fields, meta: Fields, k: string, v: Json, volatile: set<string>)
    requires Lookup(obj, "metadata") == Some(Obj(meta)) && k != "annotations" && Lookup(meta, k) != Some(v)
    ensures SameUpTo(obj["metadata" := Obj(meta[k := v])], obj, volatile) <==> k in volatile
  {
    var changed := obj["metadata" := Obj(meta[k := v])];
    assert MapAt(changed, "metadata") == Some(meta[k := v]) && MapAt(obj, "metadata") == Some(meta);
    SameMap(meta[k := v], meta, "annotations");
    assert Lookup(meta[k := v], k) == Some(v);
  }

  /** Changing one annotation goes unnoticed if, and only if, it is the stamp or kubectl's. */
  lemma AnnotationStrippedIff(obj: Fields, meta: Fields, ann: Fields, k: string, v: Json)
    requires Lookup(obj, "metadata") == Some(Obj(meta)) && Lookup(meta, "annotations") == Some(Obj(ann))
    requires Lookup(ann, k) != Some(v)
    ensures Normalized(obj["metadata" := Obj(meta["annotations" := Obj(ann[k := v])])]) == Normalized(obj)
            <==> k in {"kubectl.kubernetes.io/last-applied-configuration", "accord.io/sync-content-hash"}
  {
    NormalizedEqualIff(obj["metadata" := Obj(meta["annotations" := Obj(ann[k := v])])], obj);
    BookkeepingKeys(k);
    AnnotationsAreNotVolatile();
    OneAnnotation(meta, ann, k, v);
    OneMetadataMap(obj, meta, meta["annotations" := Obj(ann[k := v])], Volatile());
  }

  lemma BookkeepingKeys(k: string)
    ensures k in {LAST_APPLIED, STAMP}
            <==> k in {"kubectl.kubernetes.io/last-applied-configuration", "accord.io/sync-content-hash"}
  {
  }

  lemma OneMetadataMap(obj: Fields, meta: Fields, meta': Fields, volatile: set<string>)
    requires Lookup(obj, "metadata") == Some(Obj(meta)) && AgreeOutside(meta', meta, {"annotations"})
    ensures SameUpTo(obj["metadata" := Obj(meta')], obj, volatile) <==> SameAnnotations(meta', meta)
  {
    var changed := obj["metadata" := Obj(meta')];
    assert MapAt(changed, "metadata") == Some(meta') && MapAt(obj, "metadata") == Some(meta);
  }

  lemma OneAnnotation(meta: Fields, ann: Fields, k: string, v: Json)
    requires Lookup(meta, "annotations") == Some(Obj(ann)) && Lookup(ann, k) != Some(v)
    ensures SameAnnotations(meta["annotations" := Obj(ann[k := v])], meta) <==> k in {LAST_APPLIED, STAMP}
    ensures AgreeOutside(meta["annotations" := Obj(ann[k := v])], meta, {"annotations"})
  {
    var meta' := meta["annotations" := Obj(ann[k := v])];
    assert MapAt(meta', "annotations") == Some(ann[k := v]) && MapAt(meta, "annotations") == Some(ann);
    assert Lookup(ann[k := v], k) == Some(v);
  }

  /** A normalized manifest carries the same material as the original, so normalizing twice
      is normalizing once. */
  lemma NormalizedIdempotent(obj: Fields)
    ensures SameMaterial(Normalized(obj), obj)
    ensures Normalized(Normalized(obj)) == Normalized(obj)
  {
    AnnotationsAreNotVolatile();
    NormalizedSame(obj, Volatile());
    NormalizedEqualIff(Normalized(obj), obj);
  }

  /** Cutting the blanks off the ends of the exported text, as reading a file does, keeps the material.
      (It does not for an object whose last field is a string with a newline at its end.) */
  predicate TrimSafe(lib: Library, obj: Fields) {
    match lib.toJson(Text.TrimSpace(ExportYaml(lib, obj)))
    case Some(Obj(f)) => Normalized(f) == Normalized(obj)
    case _ => false
  }

  /** Untrimmed, the exported text reads as the normalized object. */
  lemma ExportReads(lib: Library, obj: Fields)
    requires Lossless(lib)
    ensures lib.toJson(ExportYaml(lib, obj)) == Some(Obj(Normalized(obj)))
    ensures Documents.FirstDocument(ExportYaml(lib, obj)) == Text.TrimSpace(ExportYaml(lib, obj))
  {
    var f := Normalized(obj);
    assert lib.toJson(lib.toYaml(Obj(f))) == Some(Obj(f)) && Documents.SingleDocument(lib.toYaml(Obj(f)));
    Documents.FirstOfSingle(lib.toYaml(Obj(f)));
  }

  /** An exported file hashes to the digest that the controller cached for the object if, and only if, it
      can be trimmed without harm. */
  lemma ExportRehash(lib: Library, obj: Fields)
    requires CollisionFree(lib) && Lossless(lib)
    ensures MaterialHash(lib, ExportYaml(lib, obj)) == Some(ObjectHash(lib, obj)) <==> TrimSafe(lib, obj)
  {
    ExportReads(lib, obj);
  }

  /** Two objects have one digest if, and only if, they carry the same material. */
  lemma HashEqualIff(lib: Library, a: Fields, b: Fields)
    requires CollisionFree(lib)
    ensures ObjectHash(lib, a) == ObjectHash(lib, b) <==> SameMaterial(a, b)
  {
    NormalizedEqualIff(a, b);
  }
}
