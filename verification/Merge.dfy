/** Server-side apply as a field-wise merge: fields that the file does not mention stay in the object.
    The echo of a merged object may differ from the file, and then costs one more round. */
module Merge {
  import opened Wrappers
  import opened Paths
  import Tree
  import opened Normalize
  import opened Apply
  import Inventory

  /** Maps are merged key by key; anything else is replaced. */
  function MergeValue(before: Json, applied: Json): Json
    decreases applied
  {
    if before.Obj? && applied.Obj? then
      Obj(map k | k in before.fields.Keys + applied.fields.Keys ::
            if k !in applied.fields then before.fields[k]
            else if k !in before.fields then applied.fields[k]
            else MergeValue(before.fields[k], applied.fields[k]))
    else applied
  }

  function MergeFields(live: Fields, applied: Fields): Fields {
    MergeValue(Obj(live), Obj(applied)).fields
  }

  /** Merging at one key. */
  function MergeAt(x: Option<Json>, y: Option<Json>): Option<Json> {
    if y.None? then x else if x.None? then y else Some(MergeValue(x.value, y.value))
  }

  lemma MergedAt(live: Fields, applied: Fields, k: string)
    ensures Lookup(MergeFields(live, applied), k) == MergeAt(Lookup(live, k), Lookup(applied, k))
  {
  }

  /** The old value has no field, at any depth, that the applied one lacks. */
  predicate Within(before: Json, applied: Json)
    decreases applied
  {
    before.Obj? && applied.Obj? ==>
      forall k :: k in before.fields ==> k in applied.fields && Within(before.fields[k], applied.fields[k])
  }

  /** Merging leaves exactly the applied value when, and only when, nothing else was there. */
  lemma {:induction false} MergeIsAppliedIff(before: Json, applied: Json)
    ensures MergeValue(before, applied) == applied <==> Within(before, applied)
    decreases applied
  {
    if before.Obj? && applied.Obj? {
      var merged := MergeValue(before, applied).fields;
      forall k | k in before.fields && k in applied.fields
        ensures merged[k] == applied.fields[k] <==> Within(before.fields[k], applied.fields[k])
      {
        MergeIsAppliedIff(before.fields[k], applied.fields[k]);
      }
      if Within(before, applied) {
        assert merged == applied.fields;
      } else {
        var k :| k in before.fields && (k !in applied.fields || !Within(before.fields[k], applied.fields[k]));
        assert k in merged;
      }
    }
  }

  lemma {:induction false} MergeSelf(v: Json)
    ensures MergeValue(v, v) == v
    decreases v
  {
    if v.Obj? {
      forall k | k in v.fields ensures MergeValue(v.fields[k], v.fields[k]) == v.fields[k] {
        MergeSelf(v.fields[k]);
      }
      assert MergeValue(v, v).fields == v.fields;
    }
  }

  // ---------- how much there is in a value ----------

  lemma PositionsBelow(v: Json, k: string, p: seq<string>)
    requires v.Obj?
    ensures [k] + p in Positions(v) <==> k in v.fields && p in Positions(v.fields[k])
  {
    if [k] + p in Positions(v) {
      var k', p' :| k' in v.fields && p' in Positions(v.fields[k']) && [k'] + p' == [k] + p;
      assert k' == ([k'] + p')[0] == k;
      assert p' == ([k'] + p')[1..] == p;
    }
  }

  /** Merging invents nothing, keeps everything applied, and adds to it unless the result is just that. */
  lemma {:induction false} MergedPositions(before: Json, applied: Json)
    ensures Positions(applied) <= Positions(MergeValue(before, applied)) <= Positions(before) + Positions(applied)
    ensures MergeValue(before, applied) != applied ==> Positions(MergeValue(before, applied)) != Positions(applied)
    decreases applied
  {
    if before.Obj? && applied.Obj? {
      var merged := MergeValue(before, applied);
      forall k | k in before.fields && k in applied.fields
        ensures Positions(applied.fields[k]) <= Positions(merged.fields[k])
             <= Positions(before.fields[k]) + Positions(applied.fields[k])
        ensures merged.fields[k] != applied.fields[k] ==> Positions(merged.fields[k]) != Positions(applied.fields[k])
      {
        MergedPositions(before.fields[k], applied.fields[k]);
      }
      forall q | q in Positions(applied) ensures q in Positions(merged) {
        PositionKept(before, applied, q);
      }
      forall q | q in Positions(merged) ensures q in Positions(before) + Positions(applied) {
        PositionKnown(before, applied, q);
      }
      if merged != applied {
        NewPosition(before, applied);
      }
    }
  }

  lemma PositionKept(before: Json, applied: Json, q: seq<string>)
    requires before.Obj? && applied.Obj? && q in Positions(applied)
    requires forall k :: k in before.fields && k in applied.fields ==>
               Positions(applied.fields[k]) <= Positions(MergeValue(before, applied).fields[k])
    ensures q in Positions(MergeValue(before, applied))
  {
    if q != [] {
      assert q == [q[0]] + q[1..];
      PositionsBelow(applied, q[0], q[1..]);
      PositionsBelow(MergeValue(before, applied), q[0], q[1..]);
    }
  }

  lemma PositionKnown(before: Json, applied: Json, q: seq<string>)
    requires before.Obj? && applied.Obj? && q in Positions(MergeValue(before, applied))
    requires forall k :: k in before.fields && k in applied.fields ==>
               Positions(MergeValue(before, applied).fields[k]) <= Positions(before.fields[k]) + Positions(applied.fields[k])
    ensures q in Positions(before) + Positions(applied)
  {
    if q != [] {
      assert q == [q[0]] + q[1..];
      PositionsBelow(MergeValue(before, applied), q[0], q[1..]);
      PositionsBelow(before, q[0], q[1..]);
      PositionsBelow(applied, q[0], q[1..]);
    }
  }

  lemma NewPosition(before: Json, applied: Json)
    requires before.Obj? && applied.Obj? && MergeValue(before, applied) != applied
    requires var merged := MergeValue(before, applied).fields;
             forall k :: k in before.fields && k in applied.fields ==>
               && Positions(applied.fields[k]) <= Positions(merged[k])
               && (merged[k] != applied.fields[k] ==> Positions(merged[k]) != Positions(applied.fields[k]))
    ensures Positions(MergeValue(before, applied)) != Positions(applied)
  {
    var merged := MergeValue(before, applied);
    if k :| k in before.fields && k !in applied.fields {
      PositionsBelow(merged, k, []);
      PositionsBelow(applied, k, []);
    } else {
      assert merged.fields.Keys == applied.fields.Keys;
      var k :| k in applied.fields && merged.fields[k] != applied.fields[k];
      var q :| q in Positions(merged.fields[k]) && q !in Positions(applied.fields[k]);
      PositionsBelow(merged, k, q);
      PositionsBelow(applied, k, q);
    }
  }

  // ---------- merging and normalizing ----------

  /** Stamping sends the file's annotations on, or the object has the very same ones anyway. (Stamping
      drops all annotations of a file as soon as one of them is no string.) */
  ghost predicate CarriedIn(live: Fields, file: Fields) {
    match (MapAt(live, "annotations"), MapAt(file, "annotations"))
    case (Some(before), Some(ann)) =>
      AllStrings(ann) || ann.Keys <= {LAST_APPLIED, STAMP} || AgreeOutside(before, ann, {LAST_APPLIED, STAMP})
    case _ => false
  }

  ghost predicate Carried(live: Fields, file: Fields) {
    match (MapAt(live, "metadata"), MapAt(file, "metadata"))
    case (Some(x), Some(y)) => CarriedIn(x, y)
    case _ => false
  }

  /** The annotations that are sent. */
  function Sent(meta: Fields, hash: string): Fields {
    Lift(AnnotationsIn(meta)[STAMP := hash])
  }

  lemma SentAt(meta: Fields, ann: Fields, hash: string, k: string)
    requires MapAt(meta, "annotations") == Some(ann) && k !in {LAST_APPLIED, STAMP}
    ensures Lookup(Sent(meta, hash), k) == if AllStrings(ann) then Lookup(ann, k) else None
  {
  }

  lemma AnnotationsCommute(live: Fields, meta: Fields, hash: string, before: Fields, ann: Fields)
    requires CarriedIn(live, meta) && MapAt(live, "annotations") == Some(before) && MapAt(meta, "annotations") == Some(ann)
    ensures NormalizedAnnotations(MergeFields(before, Sent(meta, hash)))
         == MergeFields(NormalizedAnnotations(before), NormalizedAnnotations(ann))
  {
    var left := NormalizedAnnotations(MergeFields(before, Sent(meta, hash)));
    var right := MergeFields(NormalizedAnnotations(before), NormalizedAnnotations(ann));
    forall k ensures Lookup(left, k) == Lookup(right, k) {
      MergedAt(NormalizedAnnotations(before), NormalizedAnnotations(ann), k);
      if k !in {LAST_APPLIED, STAMP} {
        MergedAt(before, Sent(meta, hash), k);
        SentAt(meta, ann, hash, k);
        if k in ann { MergeSelf(ann[k]); }
      }
    }
    ExtEq(left, right);
  }

  /** Merging with nothing. */
  lemma MergeNothing(m: Fields)
    ensures MergeFields(map[], m) == m && MergeFields(m, map[]) == m
  {
    forall k ensures Lookup(MergeFields(map[], m), k) == Lookup(m, k) && Lookup(MergeFields(m, map[]), k) == Lookup(m, k) {
      MergedAt(map[], m, k);
      MergedAt(m, map[], k);
    }
    ExtEq(MergeFields(map[], m), m);
    ExtEq(MergeFields(m, map[]), m);
  }

  lemma MergedMapAt(live: Fields, applied: Fields, k: string, before: Fields, after: Fields)
    requires MapAt(live, k) == Some(before) && Lookup(applied, k) == Some(Obj(after))
    ensures MapAt(MergeFields(live, applied), k) == Some(MergeFields(before, after))
  {
    MergedAt(live, applied, k);
    MergeNothing(after);
  }

  /** A map as it shows after normalization: gone when it is empty. */
  function Shown(m: Fields): Option<Json> {
    if m == map[] then None else Some(Obj(m))
  }

  lemma ShownMerge(x: Fields, y: Fields)
    ensures MergeAt(Shown(x), Shown(y)) == Shown(MergeFields(x, y))
  {
    MergeNothing(x);
    MergeNothing(y);
    if y != map[] {
      var k :| k in y;
      MergedAt(x, y, k);
      assert k in MergeFields(x, y);
    }
  }

  lemma AnnotationsShown(meta: Fields, volatile: set<string>)
    requires "annotations" !in volatile && MapAt(meta, "annotations").Some?
    ensures Lookup(NormalizedMetadata(meta, volatile), "annotations")
         == Shown(NormalizedAnnotations(MapAt(meta, "annotations").value))
  {
    AnnotationsAfter(meta, volatile);
  }

  lemma OtherMetadataAfter(meta: Fields, volatile: set<string>, k: string)
    requires "annotations" !in volatile && k != "annotations"
    ensures Lookup(NormalizedMetadata(meta, volatile), k) == if k in volatile then None else Lookup(meta, k)
  {
    AnnotationsAfter(meta, volatile);
  }

  lemma AnnotationsCommuteAt(live: Fields, meta: Fields, applied: Fields, hash: string, volatile: set<string>)
    requires CarriedIn(live, meta) && "annotations" !in volatile
    requires Lookup(applied, "annotations") == Some(Obj(Sent(meta, hash)))
    ensures Lookup(NormalizedMetadata(MergeFields(live, applied), volatile), "annotations")
         == Lookup(MergeFields(NormalizedMetadata(live, volatile), NormalizedMetadata(meta, volatile)), "annotations")
  {
    var before, ann := MapAt(live, "annotations").value, MapAt(meta, "annotations").value;
    MergedMapAt(live, applied, "annotations", before, Sent(meta, hash));
    AnnotationsShown(MergeFields(live, applied), volatile);
    AnnotationsShown(live, volatile);
    AnnotationsShown(meta, volatile);
    AnnotationsCommute(live, meta, hash, before, ann);
    ShownMerge(NormalizedAnnotations(before), NormalizedAnnotations(ann));
    MergedAt(NormalizedMetadata(live, volatile), NormalizedMetadata(meta, volatile), "annotations");
  }

  lemma OtherMetadataCommutes(live: Fields, meta: Fields, applied: Fields, volatile: set<string>, k: string)
    requires "annotations" !in volatile && k != "annotations" && Lookup(applied, k) == Lookup(meta, k)
    ensures Lookup(NormalizedMetadata(MergeFields(live, applied), volatile), k)
         == Lookup(MergeFields(NormalizedMetadata(live, volatile), NormalizedMetadata(meta, volatile)), k)
  {
    OtherMetadataAfter(MergeFields(live, applied), volatile, k);
    OtherMetadataAfter(live, volatile, k);
    OtherMetadataAfter(meta, volatile, k);
    MergedAt(live, applied, k);
    MergedAt(NormalizedMetadata(live, volatile), NormalizedMetadata(meta, volatile), k);
  }

  lemma MetadataCommutes(live: Fields, meta: Fields, hash: string, volatile: set<string>)
    requires CarriedIn(live, meta) && "annotations" !in volatile
    ensures NormalizedMetadata(MergeFields(live, meta["annotations" := Obj(Sent(meta, hash))]), volatile)
         == MergeFields(NormalizedMetadata(live, volatile), NormalizedMetadata(meta, volatile))
  {
    var applied := meta["annotations" := Obj(Sent(meta, hash))];
    var left := NormalizedMetadata(MergeFields(live, applied), volatile);
    var right := MergeFields(NormalizedMetadata(live, volatile), NormalizedMetadata(meta, volatile));
    AnnotationsCommuteAt(live, meta, applied, hash, volatile);
    forall k ensures Lookup(left, k) == Lookup(right, k) {
      if k != "annotations" { OtherMetadataCommutes(live, meta, applied, volatile, k); }
    }
    ExtEq(left, right);
  }

  /** Merging commutes with normalizing. */
  lemma MergeCommutes(live: Fields, file: Fields, hash: string)
    requires HasMetadata(file) && Carried(live, file)
    ensures Normalized(MergeFields(live, Stamped(file, hash))) == MergeFields(Normalized(live), Normalized(file))
  {
    AnnotationsAreNotVolatile();
    var desired := Stamped(file, hash);
    var merged := MergeFields(live, desired);
    var x, y := MapAt(live, "metadata").value, file["metadata"].fields;
    StampedMetadata(file, hash);
    MergedMapAt(live, desired, "metadata", x, y["annotations" := Obj(Sent(y, hash))]);
    MetadataCommutes(x, y, hash, Volatile());
    ObjectsCommute(live, file, desired, merged, Volatile());
  }

  lemma ObjectsCommute(live: Fields, file: Fields, desired: Fields, merged: Fields, volatile: set<string>)
    requires MapAt(live, "metadata").Some? && MapAt(file, "metadata").Some? && MapAt(merged, "metadata").Some?
    requires merged == MergeFields(live, desired) && AgreeOutside(desired, file, {"metadata"})
    requires NormalizedMetadata(MapAt(merged, "metadata").value, volatile)
          == MergeFields(NormalizedMetadata(MapAt(live, "metadata").value, volatile),
                         NormalizedMetadata(MapAt(file, "metadata").value, volatile))
    ensures NormalizedUpTo(merged, volatile) == MergeFields(NormalizedUpTo(live, volatile), NormalizedUpTo(file, volatile))
  {
    var left := NormalizedUpTo(merged, volatile);
    var x, y := NormalizedUpTo(live, volatile), NormalizedUpTo(file, volatile);
    MetadataAfter(merged, volatile);
    MetadataAfter(live, volatile);
    MetadataAfter(file, volatile);
    ShownMerge(NormalizedMetadata(MapAt(live, "metadata").value, volatile),
               NormalizedMetadata(MapAt(file, "metadata").value, volatile));
    forall k ensures Lookup(left, k) == Lookup(MergeFields(x, y), k) {
      MergedAt(x, y, k);
      if k != "metadata" {
        OtherKeysAfter(merged, volatile, k);
        OtherKeysAfter(live, volatile, k);
        OtherKeysAfter(file, volatile, k);
        MergedAt(live, desired, k);
      }
    }
    ExtEq(left, MergeFields(x, y));
  }

  // ---------- applying a file over an object of the cluster ----------

  /** An applied map of strings that holds the stamp leaves the stamp in any map of strings. */
  lemma MergedStrings(live: Fields, applied: Fields)
    requires AllStrings(live) && AllStrings(applied)
    ensures AllStrings(MergeFields(live, applied))
    ensures forall k :: k in applied ==> Lookup(MergeFields(live, applied), k) == Some(applied[k])
  {
    forall k ensures k in MergeFields(live, applied) ==> MergeFields(live, applied)[k].Str?
             ensures k in applied ==> Lookup(MergeFields(live, applied), k) == Some(applied[k])
    {
      MergedAt(live, applied, k);
    }
  }

  lemma MergedMetadata(meta: Fields, applied: Fields, ann: Fields)
    requires MapAt(meta, "annotations").Some? && AllStrings(MapAt(meta, "annotations").value)
    requires Lookup(applied, "annotations") == Some(Obj(ann)) && AllStrings(ann) && STAMP in ann
    ensures var merged := MergeFields(meta, applied);
            && MapAt(merged, "annotations").Some? && AllStrings(MapAt(merged, "annotations").value)
            && Lookup(AnnotationsIn(merged), STAMP) == Some(ann[STAMP].s)
  {
    var before := MapAt(meta, "annotations").value;
    MergedStrings(before, ann);
    MergedMapAt(meta, applied, "annotations", before, ann);
  }

  /** The stamp of an applied file survives the merge, among string annotations. */
  lemma MergeStamps(live: Fields, obj: Fields, hash: string)
    requires HasMetadata(obj) && HasMetadata(live)
    requires var ann := MapAt(live["metadata"].fields, "annotations"); ann.Some? && AllStrings(ann.value)
    ensures StampOf(MergeFields(live, Stamped(obj, hash))) == Some(hash)
    ensures HasMetadata(MergeFields(live, Stamped(obj, hash)))
    ensures var ann := MapAt(MergeFields(live, Stamped(obj, hash))["metadata"].fields, "annotations");
            ann.Some? && AllStrings(ann.value)
  {
    StampedMetadata(obj, hash);
    var meta := obj["metadata"].fields;
    var applied := meta["annotations" := Obj(Sent(meta, hash))];
    MergedMapAt(live, Stamped(obj, hash), "metadata", live["metadata"].fields, applied);
    MergedAt(live, Stamped(obj, hash), "metadata");
    MergedMetadata(live["metadata"].fields, applied, Sent(meta, hash));
  }

  lemma MergedString(live: Fields, applied: Fields, k: string)
    requires StringAt(applied, k) != ""
    ensures StringAt(MergeFields(live, applied), k) == StringAt(applied, k)
  {
    MergedAt(live, applied, k);
  }

  lemma StampedString(obj: Fields, hash: string, k: string)
    requires k != "metadata"
    ensures StringAt(Stamped(obj, hash), k) == StringAt(obj, k)
  {
  }

  lemma MergedMetadataString(live: Fields, file: Fields, hash: string, k: string)
    requires HasMetadata(live) && HasMetadata(file) && k != "annotations" && MetadataString(file, k) != ""
    ensures MetadataString(MergeFields(live, Stamped(file, hash)), k) == MetadataString(file, k)
  {
    StampedMetadata(file, hash);
    var meta := file["metadata"].fields;
    var applied := meta["annotations" := Obj(Sent(meta, hash))];
    MergedMapAt(live, Stamped(file, hash), "metadata", live["metadata"].fields, applied);
    assert StringAt(applied, k) == StringAt(meta, k);
    MergedString(live["metadata"].fields, applied, k);
  }

  lemma SameIdentity(t: Target, a: Fields, b: Fields)
    requires forall k :: k in {"apiVersion", "kind"} ==> StringAt(a, k) == StringAt(b, k)
    requires forall k :: k in {"namespace", "name"} ==> MetadataString(a, k) == MetadataString(b, k)
    ensures ValidateIdentity(t, a) == ValidateIdentity(t, b)
  {
    assert StringAt(a, "apiVersion") == StringAt(b, "apiVersion") && StringAt(a, "kind") == StringAt(b, "kind");
    assert MetadataString(a, "namespace") == MetadataString(b, "namespace");
    assert MetadataString(a, "name") == MetadataString(b, "name");
  }

  /** The merged object has the file's identity. */
  lemma MergedIdentity(t: Target, live: Fields, file: Fields, hash: string)
    requires Named(t) && HasMetadata(live) && HasMetadata(file) && ValidateIdentity(t, file) == None
    ensures ValidateIdentity(t, MergeFields(live, Stamped(file, hash))) == None
  {
    var merged := MergeFields(live, Stamped(file, hash));
    forall k | k in {"apiVersion", "kind"} ensures StringAt(merged, k) == StringAt(file, k) {
      StampedString(file, hash, k);
      MergedString(live, Stamped(file, hash), k);
    }
    forall k | k in {"namespace", "name"} ensures MetadataString(merged, k) == MetadataString(file, k) {
      MergedMetadataString(live, file, hash, k);
    }
    SameIdentity(t, merged, file);
  }

  lemma MergedTyped(live: Fields, applied: Fields)
    requires Typed(live) && applied.Keys <= TOP_LEVEL + {"status"}
    ensures Typed(MergeFields(live, applied))
  {
  }

  lemma MergedWellFormed(lib: Library, t: Target, gitYAML: string, live: Fields)
    requires Named(t) && WellFormed(t, live) && Prepare(lib, t, gitYAML).Ok? && Typed(Decode(lib, gitYAML).value)
    ensures WellFormed(t, MergeFields(live, Prepare(lib, t, gitYAML).value))
  {
    PrepareFacts(lib, t, gitYAML);
    var file := Decode(lib, gitYAML).value;
    MergeStamps(live, file, ObjectHash(lib, file));
    MergedIdentity(t, live, file, ObjectHash(lib, file));
    MergedTyped(live, Stamped(file, ObjectHash(lib, file)));
  }

  lemma StampableCarried(t: Target, live: Fields, file: Fields)
    requires WellFormed(t, live) && HasMetadata(file) && Stampable(file)
    ensures Carried(live, file)
  {
  }

  /** Stampable annotations are not needed for that: here the file's stamp is no string, which makes stamping
      drop the other annotation, but the object has that one anyway. */
  lemma CarriedUnstampable(live: Fields, file: Fields)
    requires MapAt(live, "metadata") == Some(map["annotations" := Obj(map["team" := Str("a")])])
    requires MapAt(file, "metadata") == Some(map["annotations" := Obj(map["team" := Str("a"), STAMP := Bool(true)])])
    ensures Carried(live, file) && !Stampable(file)
  {
    var ann: Fields := map["team" := Str("a"), STAMP := Bool(true)];
    var other := "team";
    assert other in ann.Keys && other != STAMP && other != LAST_APPLIED;
    assert !ann[STAMP].Str?;
  }

  /** What a merge leaves has the file's material exactly when the annotations are carried over and the
      object has no other field. */
  lemma MergedMaterialIff(t: Target, live: Fields, file: Fields, hash: string)
    requires WellFormed(t, live) && HasMetadata(file)
    ensures SameMaterial(MergeFields(live, Stamped(file, hash)), file)
            <==> Carried(live, file) && Within(Obj(Normalized(live)), Obj(Normalized(file)))
  {
    var merged := MergeFields(live, Stamped(file, hash));
    NormalizedEqualIff(merged, file);
    MergeIsAppliedIff(Obj(Normalized(live)), Obj(Normalized(file)));
    if Carried(live, file) {
      MergeCommutes(live, file, hash);
    } else if SameMaterial(merged, file) {
      SameImpliesCarried(live, file, hash);
    }
  }

  lemma SameImpliesCarried(live: Fields, file: Fields, hash: string)
    requires HasMetadata(live) && HasMetadata(file) && MapAt(live["metadata"].fields, "annotations").Some?
    requires SameMaterial(MergeFields(live, Stamped(file, hash)), file)
    ensures Carried(live, file)
  {
    StampedMetadata(file, hash);
    var x, y := live["metadata"].fields, file["metadata"].fields;
    var applied := y["annotations" := Obj(Sent(y, hash))];
    var merged := MergeFields(live, Stamped(file, hash));
    MergedMapAt(live, Stamped(file, hash), "metadata", x, applied);
    var before := MapAt(x, "annotations").value;
    MergedMapAt(x, applied, "annotations", before, Sent(y, hash));
    assert SameAnnotations(MergeFields(x, applied), y);
    if MapAt(y, "annotations").Some? && !AllStrings(MapAt(y, "annotations").value) {
      var ann := MapAt(y, "annotations").value;
      forall k | k !in {LAST_APPLIED, STAMP} ensures Lookup(before, k) == Lookup(ann, k) {
        SentAt(y, ann, hash, k);
        MergedAt(before, Sent(y, hash), k);
      }
    }
  }

  /** Applying a file by merge over an object of the cluster: the controller recognises the echo by its
      stamp if, and only if, the object has no material field, at any depth, that the file lacks, and the
      file's annotations are carried over. For a file whose annotations are stampable, which every
      exported file is, the fields alone decide. */
  lemma MergedEchoIff(lib: Library, t: Target, gitYAML: string, live: Fields)
    requires CollisionFree(lib) && Named(t) && WellFormed(t, live) && Prepare(lib, t, gitYAML).Ok?
    ensures var file := Decode(lib, gitYAML).value;
            var recognised := StampMatches(lib, MergeFields(live, Prepare(lib, t, gitYAML).value));
            var nothingElse := Within(Obj(Normalized(live)), Obj(Normalized(file)));
            && (recognised <==> Carried(live, file) && nothingElse)
            && (Stampable(file) ==> (recognised <==> nothingElse))
  {
    PrepareFacts(lib, t, gitYAML);
    var file := Decode(lib, gitYAML).value;
    var hash := ObjectHash(lib, file);
    MergeStamps(live, file, hash);
    HashEqualIff(lib, MergeFields(live, Stamped(file, hash)), file);
    MergedMaterialIff(t, live, file, hash);
    if Stampable(file) { StampableCarried(t, live, file); }
  }

  // ---------- one more round ----------

  /** A value whose positions are all found in another one adds nothing to it. */
  lemma {:induction false} WithinByPositions(before: Json, applied: Json)
    requires Positions(before) <= Positions(applied)
    ensures Within(before, applied)
    decreases applied
  {
    if before.Obj? && applied.Obj? {
      forall k | k in before.fields ensures k in applied.fields && Within(before.fields[k], applied.fields[k]) {
        PositionsBelow(before, k, []);
        PositionsBelow(applied, k, []);
        forall p | p in Positions(before.fields[k]) ensures p in Positions(applied.fields[k]) {
          PositionsBelow(before, k, p);
          PositionsBelow(applied, k, p);
        }
        WithinByPositions(before.fields[k], applied.fields[k]);
      }
    }
  }

  lemma SamePositionsReplaced(before: Fields, applied: Fields)
    requires Positions(Obj(before)) <= Positions(Obj(applied))
    ensures MergeFields(before, applied) == applied
  {
    WithinByPositions(Obj(before), Obj(applied));
    MergeIsAppliedIff(Obj(before), Obj(applied));
  }

  /** An object's own export, merged back, is recognised by its stamp, whatever the controller remembers; and it
      keeps the object's material if, and only if, the export can be trimmed without harm. */
  lemma OwnExportSettles(lib: Library, c: Inventory.Memory, t: Target, live: Fields)
    requires Dependable(lib) && Named(t) && WellFormed(t, live)
    ensures var content := ExportYaml(lib, live);
            && Prepare(lib, t, content).Ok?
            && var merged := MergeFields(live, Prepare(lib, t, content).value);
               && StampMatches(lib, merged)
               && Inventory.Handled(lib, c, t, merged) == c
               && Normalized(merged) == Material(lib, content)
               && (SameMaterial(merged, live) <==> TrimSafe(lib, live))
  {
    var content := ExportYaml(lib, live);
    ExportDeployable(lib, t, live);
    PrepareFacts(lib, t, content);
    var file := Decode(lib, content).value;
    var hash := ObjectHash(lib, file);
    var merged := MergeFields(live, Stamped(file, hash));
    StampableCarried(t, live, file);
    MergeCommutes(live, file, hash);
    SamePositionsReplaced(Normalized(live), Normalized(file));
    NormalizedEqualIff(merged, live);
    MergeStamps(live, file, hash);
  }

  /** One more round settles: when a file is applied by merge and its echo is neither recognised nor
      cached, the controller queues the merged object; once a flush has landed that, in any order and
      over any tree, applying the new file by merge is recognised, whatever the controller remembers
      by then. */
  lemma ExtraRoundSettles(lib: Library, c: Inventory.Memory, t: Target, gitYAML: string, live: Fields,
                          tree: Tree.Files, order: seq<string>, tree': Tree.Files, later: Inventory.Memory)
    requires Dependable(lib) && Named(t) && WellFormed(t, live)
    requires Prepare(lib, t, gitYAML).Ok? && Typed(Decode(lib, gitYAML).value)
    requires var merged := MergeFields(live, Prepare(lib, t, gitYAML).value);
             var c' := Inventory.Handled(lib, c, t, merged);
             && !StampMatches(lib, merged)
             && Lookup(c.cache, CacheKeyOf(t)) != Some(ObjectHash(lib, merged))
             && Tree.LiveBatch(c'.pending) && Tree.Iterates(order, c'.pending)
             && Tree.RunOps(tree, order, c'.pending) == Some(tree')
    ensures var merged := MergeFields(live, Prepare(lib, t, gitYAML).value);
            && PathOf(t) in tree' && Prepare(lib, t, tree'[PathOf(t)]).Ok?
            && var again := MergeFields(merged, Prepare(lib, t, tree'[PathOf(t)]).value);
               StampMatches(lib, again) && Inventory.Handled(lib, later, t, again) == later
               && (SameMaterial(again, merged) <==> TrimSafe(lib, merged))
  {
    var merged := MergeFields(live, Prepare(lib, t, gitYAML).value);
    var c' := Inventory.Handled(lib, c, t, merged);
    MergedWellFormed(lib, t, gitYAML, live);
    Tree.BatchConfluent(tree, order, c'.pending);
    assert Lookup(tree', PathOf(t)) == Tree.After(tree, c'.pending, PathOf(t));
    OwnExportSettles(lib, later, t, merged);
  }
}
