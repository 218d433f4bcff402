/** The push webhook (internal/sync/webhook.go): two loops over the reported paths that change the
    cluster one object at a time. */
module Webhook {
  import opened Wrappers
  import Text
  import opened Paths
  import opened Normalize
  import opened Apply

  type Objects = map<Target, Fields>

  /** What the outside world answers while one push is served: the raw file at the head commit, the
      object that server-side apply leaves (None is an error), and whether a delete is accepted. */
  datatype World = World(
    fetch: string -> Option<string>,
    patch: (Target, Option<Fields>, Fields) -> Option<Fields>,
    deletes: Target -> bool)

  datatype Status =
    | Applied
    | Deleted
    | AlreadyGone
    | Ignored
    | FetchError
    | ApplyFailed(e: ApplyError)
    | DeleteFailed

  datatype WebhookResult = WebhookResult(path: string, status: Status)

  // ---------- one path ----------

  function ApplyFile(lib: Library, w: World, objects: Objects, t: Target, raw: string): (Objects, Option<ApplyError>) {
    match Prepare(lib, t, raw)
    case Err(e) => (objects, Some(e))
    case Ok(desired) =>
      match w.patch(t, Lookup(objects, t), desired)
      case None => (objects, Some(PatchFailed))
      case Some(stored) => (objects[t := stored], None)
  }

  function AddPath(lib: Library, w: World, objects: Objects, p: string): (Objects, Status) {
    match ParseInventoryExportPath(p)
    case None => (objects, Ignored)
    case Some(t) =>
      match w.fetch(p)
      case None => (objects, FetchError)
      case Some(raw) =>
        match ApplyFile(lib, w, objects, t, raw)
        case (objects', None) => (objects', Applied)
        case (objects', Some(e)) => (objects', ApplyFailed(e))
  }

  function RemovePath(w: World, objects: Objects, p: string): (Objects, Status) {
    match ParseInventoryExportPath(p)
    case None => (objects, Ignored)
    case Some(t) =>
      if ArgoKindFromPlural(t.plural).None? then (objects, Ignored)
      else if !w.deletes(t) then (objects, DeleteFailed)
      else if t !in objects then (objects, AlreadyGone)
      else (objects - {t}, Deleted)
  }

  // ---------- the two loops ----------

  function AddAll(lib: Library, w: World, objects: Objects, paths: seq<string>): (Objects, seq<WebhookResult>) {
    if paths == [] then (objects, [])
    else
      var (before, results) := AddAll(lib, w, objects, paths[..|paths| - 1]);
      var p := paths[|paths| - 1];
      var (after, status) := AddPath(lib, w, before, p);
      (after, results + [WebhookResult(p, status)])
  }

  function RemoveAll(w: World, objects: Objects, paths: seq<string>): (Objects, seq<WebhookResult>) {
    if paths == [] then (objects, [])
    else
      var (before, results) := RemoveAll(w, objects, paths[..|paths| - 1]);
      var p := paths[|paths| - 1];
      var (after, status) := RemovePath(w, before, p);
      (after, results + [WebhookResult(p, status)])
  }

  class WebhookHandler {
    const lib: Library
    /** The cluster behind the Kubernetes client. */
    var objects: Objects

    constructor (lib: Library, objects: Objects)
      ensures this.lib == lib && this.objects == objects
    {
      this.lib, this.objects := lib, objects;
    }

    /** The annotation loop of ApplyInventoryYAML. */
    method StampedCopy(ann: map<string, string>, hash: string) returns (next: map<string, string>)
      ensures next == ann[STAMP := hash]
    {
      next := map[];
      var todo := ann.Keys;
      while todo != {}
        invariant todo <= ann.Keys
        invariant next == ann - todo
        decreases |todo|
      {
        var k :| k in todo;
        next := next[k := ann[k]];
        todo := todo - {k};
      }
      assert ann - {} == ann;
      next := next[STAMP := hash];
    }

    method ApplyInventoryYAML(w: World, parsed: Target, gitYAML: string) returns (err: Option<ApplyError>)
      modifies this
      ensures (objects, err) == ApplyFile(lib, w, old(objects), parsed, gitYAML)
    {
      var incomingHash := MaterialHash(lib, gitYAML);
      if incomingHash.None? {
        return Some(HashFailed);
      }
      var obj := Decode(lib, gitYAML);
      if obj.None? {
        return Some(NotAnObject);
      }
      err := ValidateIdentity(parsed, obj.value);
      if err.Some? {
        return;
      }
      var next := StampedCopy(Annotations(obj.value), incomingHash.value);
      var desired := WithAnnotations(obj.value, next);
      var stored := w.patch(parsed, if parsed in objects then Some(objects[parsed]) else None, desired);
      if stored.None? {
        return Some(PatchFailed);
      }
      objects := objects[parsed := stored.value];
      err := None;
    }

    /** The first loop of ServeHTTP. */
    method ServeAdded(w: World, addedPaths: seq<string>) returns (results: seq<WebhookResult>)
      modifies this
      ensures (objects, results) == AddAll(lib, w, old(objects), addedPaths)
    {
      results := [];
      for i := 0 to |addedPaths|
        invariant (objects, results) == AddAll(lib, w, old(objects), addedPaths[..i])
      {
        var p := addedPaths[i];
        assert addedPaths[..i + 1][..i] == addedPaths[..i];
        var parsed := ParseInventoryExportPath(p);
        if parsed.None? {
          results := results + [WebhookResult(p, Ignored)];
          continue;
        }
        var raw := w.fetch(p);
        if raw.None? {
          results := results + [WebhookResult(p, FetchError)];
          continue;
        }
        var err := ApplyInventoryYAML(w, parsed.value, raw.value);
        if err.Some? {
          results := results + [WebhookResult(p, ApplyFailed(err.value))];
          continue;
        }
        results := results + [WebhookResult(p, Applied)];
      }
      assert addedPaths[..|addedPaths|] == addedPaths;
    }

    /** The second loop of ServeHTTP. */
    method ServeRemoved(w: World, removedPaths: seq<string>) returns (results: seq<WebhookResult>)
      modifies this
      ensures (objects, results) == RemoveAll(w, old(objects), removedPaths)
    {
      results := [];
      for i := 0 to |removedPaths|
        invariant (objects, results) == RemoveAll(w, old(objects), removedPaths[..i])
      {
        var p := removedPaths[i];
        assert removedPaths[..i + 1][..i] == removedPaths[..i];
        var parsed := ParseInventoryExportPath(p);
        if parsed.None? {
          results := results + [WebhookResult(p, Ignored)];
          continue;
        }
        var kind := ArgoKindFromPlural(parsed.value.plural);
        if kind.None? {
          results := results + [WebhookResult(p, Ignored)];
          continue;
        }
        if !w.deletes(parsed.value) {
          results := results + [WebhookResult(p, DeleteFailed)];
          continue;
        }
        if parsed.value !in objects {
          results := results + [WebhookResult(p, AlreadyGone)];
          continue;
        }
        objects := objects - {parsed.value};
        results := results + [WebhookResult(p, Deleted)];
      }
      assert removedPaths[..|removedPaths|] == removedPaths;
    }

    /** ServeHTTP once the payload is accepted: first the added paths, then the removed ones. */
    method Serve(w: World, addedPaths: seq<string>, removedPaths: seq<string>) returns (results: seq<WebhookResult>)
      modifies this
      ensures objects == Served(lib, w, old(objects), addedPaths, removedPaths)
      ensures results == AddAll(lib, w, old(objects), addedPaths).1
                       + RemoveAll(w, AddAll(lib, w, old(objects), addedPaths).0, removedPaths).1
    {
      var first := ServeAdded(w, addedPaths);
      var second := ServeRemoved(w, removedPaths);
      results := first + second;
    }
  }

  /** The cluster after a push with the given paths. */
  function Served(lib: Library, w: World, objects: Objects, added: seq<string>, removed: seq<string>): Objects {
    RemoveAll(w, AddAll(lib, w, objects, added).0, removed).0
  }

  // ---------- results: one per path, in order ----------

  /** What the first loop answers for a path, with the cluster as it is when the path's turn comes: "ignored"
      for a path that names no object, "applied" exactly when the file was fetched, passed validation and was
      accepted by the API server, and otherwise the error in question. */
  ghost predicate ReportsAdded(lib: Library, w: World, objects: Objects, r: WebhookResult, p: string) {
    && r.path == p
    && match ParseInventoryExportPath(p)
       case None => r.status == Ignored
       case Some(t) =>
         match w.fetch(p)
         case None => r.status == FetchError
         case Some(raw) =>
           match Prepare(lib, t, raw)
           case Err(e) => r.status == ApplyFailed(e)
           case Ok(desired) =>
             if w.patch(t, Lookup(objects, t), desired).Some? then r.status == Applied
             else r.status == ApplyFailed(PatchFailed)
  }

  /** What the second loop answers: "deleted" exactly when the delete was accepted and the object was there,
      "already gone" when it was not there. */
  ghost predicate ReportsRemoved(w: World, objects: Objects, r: WebhookResult, p: string) {
    && r.path == p
    && match ParseInventoryExportPath(p)
       case None => r.status == Ignored
       case Some(t) =>
         && (r.status == Deleted <==> w.deletes(t) && t in objects)
         && (r.status == AlreadyGone <==> w.deletes(t) && t !in objects)
         && (r.status == DeleteFailed <==> !w.deletes(t))
  }

  lemma ParsedIsArgo(p: string)
    ensures ParseInventoryExportPath(p).Some? ==> ArgoPlural(ParseInventoryExportPath(p).value.plural)
  {
  }

  lemma AddReports(lib: Library, w: World, objects: Objects, p: string)
    ensures ReportsAdded(lib, w, objects, WebhookResult(p, AddPath(lib, w, objects, p).1), p)
  {
  }

  lemma RemoveReports(w: World, objects: Objects, p: string)
    ensures ReportsRemoved(w, objects, WebhookResult(p, RemovePath(w, objects, p).1), p)
  {
    ParsedIsArgo(p);
  }

  /** A path is reported as applied if, and only if, its file was fetched, passed validation, and was accepted; the
      object is then what the API server made of it. In every other case the cluster is as before. */
  lemma AppliedIff(lib: Library, w: World, objects: Objects, p: string, t: Target)
    requires ParseInventoryExportPath(p) == Some(t)
    ensures var (after, status) := AddPath(lib, w, objects, p);
            && (status == Applied <==>
                  && w.fetch(p).Some? && Prepare(lib, t, w.fetch(p).value).Ok?
                  && w.patch(t, Lookup(objects, t), Prepare(lib, t, w.fetch(p).value).value).Some?)
            && (status == Applied ==>
                  Lookup(after, t) == w.patch(t, Lookup(objects, t), Prepare(lib, t, w.fetch(p).value).value))
            && (status != Applied ==> after == objects)
  {
  }

  /** A path is reported as deleted if, and only if, its object was there and is gone. */
  lemma DeletedIff(w: World, objects: Objects, p: string, t: Target)
    requires ParseInventoryExportPath(p) == Some(t)
    ensures var (after, status) := RemovePath(w, objects, p);
            && (status == Deleted <==> t in objects && t !in after)
            && (status == AlreadyGone <==> t !in objects && w.deletes(t))
            && (status == DeleteFailed <==> !w.deletes(t))
            && (status != Deleted ==> after == objects)
  {
    ParsedIsArgo(p);
  }

  lemma AddLastResult(lib: Library, w: World, objects: Objects, paths: seq<string>, k: nat)
    requires 0 < k <= |paths|
    ensures AddAll(lib, w, objects, paths[..k]).1
         == AddAll(lib, w, objects, paths[..k - 1]).1
            + [WebhookResult(paths[k - 1], AddPath(lib, w, AddAll(lib, w, objects, paths[..k - 1]).0, paths[k - 1]).1)]
  {
    assert paths[..k][..k - 1] == paths[..k - 1];
  }

  lemma {:induction false} AddResultAt(lib: Library, w: World, objects: Objects, paths: seq<string>, k: nat, i: nat)
    requires i < k <= |paths|
    ensures |AddAll(lib, w, objects, paths[..k]).1| == k
    ensures AddAll(lib, w, objects, paths[..k]).1[i]
         == WebhookResult(paths[i], AddPath(lib, w, AddAll(lib, w, objects, paths[..i]).0, paths[i]).1)
  {
    AddLastResult(lib, w, objects, paths, k);
    AddCount(lib, w, objects, paths[..k - 1]);
    if i < k - 1 {
      AddResultAt(lib, w, objects, paths, k - 1, i);
    }
  }

  lemma {:induction false} AddCount(lib: Library, w: World, objects: Objects, paths: seq<string>)
    ensures |AddAll(lib, w, objects, paths).1| == |paths|
  {
    if paths != [] { AddCount(lib, w, objects, paths[..|paths| - 1]); }
  }

  lemma AddResults(lib: Library, w: World, objects: Objects, paths: seq<string>)
    ensures |AddAll(lib, w, objects, paths).1| == |paths|
    ensures forall i :: 0 <= i < |paths| ==>
              ReportsAdded(lib, w, AddAll(lib, w, objects, paths[..i]).0, AddAll(lib, w, objects, paths).1[i], paths[i])
  {
    AddCount(lib, w, objects, paths);
    forall i | 0 <= i < |paths|
      ensures ReportsAdded(lib, w, AddAll(lib, w, objects, paths[..i]).0, AddAll(lib, w, objects, paths).1[i], paths[i])
    {
      AddResultAt(lib, w, objects, paths, |paths|, i);
      assert paths[..|paths|] == paths;
      AddReports(lib, w, AddAll(lib, w, objects, paths[..i]).0, paths[i]);
    }
  }

  lemma {:induction false} RemoveCount(w: World, objects: Objects, paths: seq<string>)
    ensures |RemoveAll(w, objects, paths).1| == |paths|
  {
    if paths != [] { RemoveCount(w, objects, paths[..|paths| - 1]); }
  }

  lemma RemoveLastResult(w: World, objects: Objects, paths: seq<string>, k: nat)
    requires 0 < k <= |paths|
    ensures RemoveAll(w, objects, paths[..k]).1
         == RemoveAll(w, objects, paths[..k - 1]).1
            + [WebhookResult(paths[k - 1], RemovePath(w, RemoveAll(w, objects, paths[..k - 1]).0, paths[k - 1]).1)]
  {
    assert paths[..k][..k - 1] == paths[..k - 1];
  }

  lemma {:induction false} RemoveResultAt(w: World, objects: Objects, paths: seq<string>, k: nat, i: nat)
    requires i < k <= |paths|
    ensures |RemoveAll(w, objects, paths[..k]).1| == k
    ensures RemoveAll(w, objects, paths[..k]).1[i]
         == WebhookResult(paths[i], RemovePath(w, RemoveAll(w, objects, paths[..i]).0, paths[i]).1)
  {
    RemoveLastResult(w, objects, paths, k);
    RemoveCount(w, objects, paths[..k - 1]);
    if i < k - 1 {
      RemoveResultAt(w, objects, paths, k - 1, i);
    }
  }

  lemma RemoveResults(w: World, objects: Objects, paths: seq<string>)
    ensures |RemoveAll(w, objects, paths).1| == |paths|
    ensures forall i :: 0 <= i < |paths| ==>
              ReportsRemoved(w, RemoveAll(w, objects, paths[..i]).0, RemoveAll(w, objects, paths).1[i], paths[i])
  {
    RemoveCount(w, objects, paths);
    forall i | 0 <= i < |paths|
      ensures ReportsRemoved(w, RemoveAll(w, objects, paths[..i]).0, RemoveAll(w, objects, paths).1[i], paths[i])
    {
      RemoveResultAt(w, objects, paths, |paths|, i);
      assert paths[..|paths|] == paths;
      RemoveReports(w, RemoveAll(w, objects, paths[..i]).0, paths[i]);
    }
  }

  /** The response holds exactly one result per path, the added ones first, in order, and each says what
      happened to its path in the cluster that the paths before it left. */
  lemma OneResultPerPath(lib: Library, w: World, objects: Objects, added: seq<string>, removed: seq<string>)
    ensures var mid := AddAll(lib, w, objects, added).0;
            var results := AddAll(lib, w, objects, added).1 + RemoveAll(w, mid, removed).1;
            && |results| == |added| + |removed|
            && (forall i :: 0 <= i < |added| ==>
                  ReportsAdded(lib, w, AddAll(lib, w, objects, added[..i]).0, results[i], added[i]))
            && (forall i :: 0 <= i < |removed| ==>
                  ReportsRemoved(w, RemoveAll(w, mid, removed[..i]).0, results[|added| + i], removed[i]))
  {
    AddResults(lib, w, objects, added);
    RemoveResults(w, AddAll(lib, w, objects, added).0, removed);
  }

  // ---------- each object sees only its own paths ----------

  /** The object `t` after the added loop, from its own paths alone. */
  function AddedTo(lib: Library, w: World, t: Target, o: Option<Fields>, paths: seq<string>): Option<Fields> {
    if paths == [] then o
    else
      var before := AddedTo(lib, w, t, o, paths[..|paths| - 1]);
      var p := paths[|paths| - 1];
      if ParseInventoryExportPath(p) == Some(t) then ApplyTo(lib, w, t, before, p) else before
  }

  function ApplyTo(lib: Library, w: World, t: Target, o: Option<Fields>, p: string): Option<Fields> {
    match w.fetch(p)
    case None => o
    case Some(raw) =>
      match Prepare(lib, t, raw)
      case Err(_) => o
      case Ok(desired) =>
        match w.patch(t, o, desired)
        case None => o
        case Some(stored) => Some(stored)
  }

  lemma AddPathByObject(lib: Library, w: World, objects: Objects, p: string, t: Target)
    ensures Lookup(AddPath(lib, w, objects, p).0, t) ==
            if ParseInventoryExportPath(p) == Some(t) then ApplyTo(lib, w, t, Lookup(objects, t), p)
            else Lookup(objects, t)
  {
    var parsed := ParseInventoryExportPath(p);
    if parsed.Some? && w.fetch(p).Some? {
      ApplyFileByObject(lib, w, objects, parsed.value, w.fetch(p).value, t);
    }
  }

  lemma ApplyFileByObject(lib: Library, w: World, objects: Objects, at: Target, raw: string, t: Target)
    ensures Lookup(ApplyFile(lib, w, objects, at, raw).0, t) ==
            if at != t then Lookup(objects, t)
            else match Prepare(lib, t, raw)
                 case Err(_) => Lookup(objects, t)
                 case Ok(desired) =>
                   var stored := w.patch(t, Lookup(objects, t), desired);
                   if stored.None? then Lookup(objects, t) else stored
  {
  }

  /** The push refines independent replays: what becomes of an object depends on its own paths only. */
  lemma {:induction false} AddAllByObject(lib: Library, w: World, objects: Objects, paths: seq<string>, t: Target)
    ensures Lookup(AddAll(lib, w, objects, paths).0, t) == AddedTo(lib, w, t, Lookup(objects, t), paths)
  {
    if paths != [] {
      var front, last := paths[..|paths| - 1], paths[|paths| - 1];
      AddAllByObject(lib, w, objects, front, t);
      AddPathByObject(lib, w, AddAll(lib, w, objects, front).0, last, t);
    }
  }

  lemma RemovePathByObject(w: World, objects: Objects, p: string, t: Target)
    ensures Lookup(RemovePath(w, objects, p).0, t) ==
            if w.deletes(t) && ParseInventoryExportPath(p) == Some(t) then None else Lookup(objects, t)
  {
    ParsedIsArgo(p);
  }

  lemma {:induction false} RemoveAllByObject(w: World, objects: Objects, paths: seq<string>, t: Target)
    ensures Lookup(RemoveAll(w, objects, paths).0, t) ==
            if w.deletes(t) && exists p :: p in paths && ParseInventoryExportPath(p) == Some(t) then None
            else Lookup(objects, t)
  {
    if paths != [] {
      var front, last := paths[..|paths| - 1], paths[|paths| - 1];
      assert paths == front + [last];
      RemoveAllByObject(w, objects, front, t);
      RemovePathByObject(w, RemoveAll(w, objects, front).0, last, t);
    }
  }

  /** Among these paths, only the rendered path speaks for an object. */
  ghost predicate CanonicalPaths(paths: seq<string>) {
    forall p :: p in paths && ParseInventoryExportPath(p).Some? ==> p == PathOf(ParseInventoryExportPath(p).value)
  }

  /** When a single path of the list can speak for the object, it is applied once or not at all. */
  lemma {:induction false} AddedToOnce(lib: Library, w: World, t: Target, o: Option<Fields>, paths: seq<string>, at: string)
    requires ParseInventoryExportPath(at) == Some(t) && Text.NoDuplicates(paths)
    requires forall p :: p in paths && ParseInventoryExportPath(p) == Some(t) ==> p == at
    ensures AddedTo(lib, w, t, o, paths) == if at in paths then ApplyTo(lib, w, t, o, at) else o
  {
    if paths != [] {
      var front, last := paths[..|paths| - 1], paths[|paths| - 1];
      assert paths == front + [last];
      AddedToOnce(lib, w, t, o, front, at);
      assert last !in front;
    }
  }

  /** For canonical paths the outcome at an object is one formula, which mentions neither the order of
      the paths nor any other file: it is deleted if its path was removed, else replaced by its file if
      its path was added, else left alone. */
  lemma ServedByObject(lib: Library, w: World, objects: Objects, added: seq<string>, removed: seq<string>, t: Target)
    requires Valid(t) && CanonicalPaths(added) && CanonicalPaths(removed) && Text.NoDuplicates(added)
    ensures Lookup(Served(lib, w, objects, added, removed), t) ==
            if PathOf(t) in removed && w.deletes(t) then None
            else if PathOf(t) in added then ApplyTo(lib, w, t, Lookup(objects, t), PathOf(t))
            else Lookup(objects, t)
  {
    RoundTrip(t);
    var mid := AddAll(lib, w, objects, added).0;
    AddAllByObject(lib, w, objects, added, t);
    AddedToOnce(lib, w, t, Lookup(objects, t), added, PathOf(t));
    RemoveAllByObject(w, mid, removed, t);
    if PathOf(t) in removed {
      assert exists p :: p in removed && ParseInventoryExportPath(p) == Some(t);
    }
  }

  /** What the removal of an object's file deletes: whatever the file's path parses to. */
  lemma RemovalDeletes(w: World, objects: Objects, u: Target, t: Target)
    requires Named(u) && forall x :: w.deletes(x)
    ensures Lookup(RemoveAll(w, objects, [PathOf(u)]).0, t) ==
            if t == u.(name := Text.TrimSuffix(u.name, ".yml")) then None else Lookup(objects, t)
  {
    ParseRendered(u);
    RemoveAllByObject(w, objects, [PathOf(u)], t);
    assert PathOf(u) in [PathOf(u)];
  }

  /** Removing the file of an object deletes no other object if, and only if, the object's name does not end in
      ".yml". For a name that does, it deletes the object with the shorter name. */
  lemma RemovalSparesOthersIff(w: World, u: Target)
    requires Named(u) && forall x :: w.deletes(x)
    ensures (forall objects, t :: t != u ==> Lookup(RemoveAll(w, objects, [PathOf(u)]).0, t) == Lookup(objects, t))
            <==> !Text.HasSuffix(u.name, ".yml")
  {
    var short := u.(name := Text.TrimSuffix(u.name, ".yml"));
    if Text.HasSuffix(u.name, ".yml") {
      assert |short.name| < |u.name|;
      var objects: Objects := map[short := map[]];
      RemovalDeletes(w, objects, u, short);
      assert Lookup(RemoveAll(w, objects, [PathOf(u)]).0, short) != Lookup(objects, short);
    } else {
      forall objects, t | t != u ensures Lookup(RemoveAll(w, objects, [PathOf(u)]).0, t) == Lookup(objects, t) {
        RemovalDeletes(w, objects, u, t);
      }
    }
  }

  /** An object that no path names is left alone, whatever the paths look like. */
  lemma UnnamedObjectsUntouched(lib: Library, w: World, objects: Objects, added: seq<string>, removed: seq<string>, t: Target)
    requires forall p :: p in added || p in removed ==> ParseInventoryExportPath(p) != Some(t)
    ensures Lookup(Served(lib, w, objects, added, removed), t) == Lookup(objects, t)
  {
    AddAllByObject(lib, w, objects, added, t);
    NothingAdded(lib, w, t, Lookup(objects, t), added);
    RemoveAllByObject(w, AddAll(lib, w, objects, added).0, removed, t);
  }

  lemma {:induction false} NothingAdded(lib: Library, w: World, t: Target, o: Option<Fields>, paths: seq<string>)
    requires forall p :: p in paths ==> ParseInventoryExportPath(p) != Some(t)
    ensures AddedTo(lib, w, t, o, paths) == o
  {
    if paths != [] {
      assert paths[|paths| - 1] in paths;
      NothingAdded(lib, w, t, o, paths[..|paths| - 1]);
    }
  }
}
