/** Runs of the joint system that end in disagreement. */
module Witnesses {
  import opened Wrappers
  import opened Paths
  import opened Tree
  import opened Normalize
  import opened Apply
  import opened Inventory
  import opened Push
  import opened Webhook
  import opened Protocol
  import Projection
  import opened Convergence
  import Termination

  /** A single object with a single file, and an event that waits. */
  function Alone(t: Target, obj: Fields, p: string, content: string): System {
    System(map[t := obj], {t}, Memory(map[], map[]), None, map[p := content], [])
  }

  /** Start-up when the object has been exported before. */
  function Listed(lib: Library, t: Target, obj: Fields): System {
    Alone(t, obj, PathOf(t), ExportYaml(lib, obj))
  }

  predicate Admitted(t: Target, obj: Fields) {
    Valid(t) && WellFormed(t, obj)
  }

  lemma AloneOrderly(lib: Library, t: Target, obj: Fields, p: string, content: string)
    requires Admitted(t, obj)
    ensures Orderly(lib, Alone(t, obj, p, content))
  {
  }

  lemma OnlyPath(t: Target, u: Target)
    requires Valid(t) && Valid(u) && PathOf(u) == PathOf(t)
    ensures u == t
  {
    RenderingInjective(t, u);
  }

  lemma ListedStarts(lib: Library, t: Target, obj: Fields)
    requires Admitted(t, obj) && StampOf(obj) == None
    ensures Start(lib, Listed(lib, t, obj))
  {
    var s := Listed(lib, t, obj);
    AloneOrderly(lib, t, obj, PathOf(t), ExportYaml(lib, obj));
    forall u | Valid(u) && PathOf(u) in s.remote ensures u in s.objects {
      OnlyPath(t, u);
    }
    AloneStarts(lib, t, obj, PathOf(t), ExportYaml(lib, obj));
  }

  lemma AloneStarts(lib: Library, t: Target, obj: Fields, p: string, content: string)
    requires var s := Alone(t, obj, p, content);
             && Orderly(lib, s) && StampOf(obj) == None
             && forall u :: Valid(u) && PathOf(u) in s.remote ==> u in s.objects
    ensures Start(lib, Alone(t, obj, p, content))
  {
  }

  // ---------- the lost archive operation ----------

  /** The object is deleted, its archive operation is queued, and the controller restarts: nothing is left
      to do, and the file stays. */
  lemma LostArchiveRun(lib: Library, t: Target, obj: Fields) returns (run: seq<System>, restarted: System)
    requires Admitted(t, obj) && StampOf(obj) == None
    ensures ClusterRun(lib, run) && Restart(Last(run), restarted)
    ensures Quiet(restarted) && !AgreesAt(lib, restarted, t)
  {
    var s0 := Listed(lib, t, obj);
    ListedStarts(lib, t, obj);
    var s1, s2 := DeletedAndHandled(lib, t, obj, PathOf(t), ExportYaml(lib, obj));
    run := [s0];
    ExtendCluster(lib, run, s1);
    ExtendCluster(lib, run + [s1], s2);
    run := run + [s1] + [s2];
    restarted := s2.(memory := Memory(map[], map[]), dirty := {});
  }

  lemma DeletedAndHandled(lib: Library, t: Target, obj: Fields, p: string, content: string)
      returns (s1: System, s2: System)
    requires Valid(t)
    ensures Edit(Alone(t, obj, p, content), t, None, s1) && Event(lib, s1, t, s2)
    ensures s2.objects == map[] && s2.remote == map[p := content] && s2.batch == None && s2.pushes == []
  {
    s1 := Alone(t, obj, p, content).(objects := map[]);
    s2 := s1.(dirty := {}, memory := Reconciled(lib, s1.memory, t, None));
    assert Lookup(s1.objects, t) == None;
  }

  lemma ExtendCluster(lib: Library, run: seq<System>, s: System)
    requires ClusterRun(lib, run) && ClusterStep(lib, Last(run), s)
    ensures ClusterRun(lib, run + [s]) && Last(run + [s]) == s
  {
    var longer := run + [s];
    forall i | 0 <= i < |longer| - 1 ensures ClusterLink(lib, longer, i) {
      if i < |run| - 1 { assert ClusterLink(lib, run, i); }
    }
  }

  lemma Extend(lib: Library, run: seq<System>, s: System)
    requires AnyRun(lib, run) && AnyStep(lib, Last(run), s)
    ensures AnyRun(lib, run + [s]) && Last(run + [s]) == s
  {
    var longer := run + [s];
    forall i | 0 <= i < |longer| - 1 ensures AnyLink(lib, longer, i) {
      if i < |run| - 1 { assert AnyLink(lib, run, i); }
    }
  }

  // ---------- the stale cache ----------

  /** Nothing is left to do. */
  function Resting(t: Target, obj: Fields, cache: map<string, string>, p: string, content: string): System {
    System(map[t := obj], {}, Memory(cache, map[]), None, map[p := content], [])
  }

  /** Writing a file that is there already makes no difference. */
  lemma SameFileAgain(p: string, content: string)
    ensures Iterates([p], map[p := Write(content)])
    ensures RunOps(map[p := content], [p], map[p := Write(content)]) == Some(map[p := content])
  {
    assert [p][..0] == [];
    var files: Files := map[p := content];
    assert !Ancestor(p, p);
    assert !Blocked(files, p);
    assert files[p := content] == files;
  }

  /** The commit of somebody who changes the one file. */
  lemma OneCommit(p: string, before: string, after: string)
    requires p != "" && before != after
    ensures Describes([Commit([], [p], [])], map[p := before], map[p := after])
  {
    OneCommitPaths(p);
  }

  lemma OneCommitPaths(p: string)
    requires p != ""
    ensures AddedPaths([Commit([], [p], [])]) == {p} && GonePaths([Commit([], [p], [])]) == {}
  {
    var c := Commit([], [p], []);
    assert [c][..0] == [];
    assert AddedPaths([c]) == AddedPaths([]) + Names([]) + Names([p]);
    assert RemovedPaths([c]) == RemovedPaths([]) + Names([]);
    assert Names([p]) == {p} && Names([]) == {};
  }

  lemma ApplyOne(lib: Library, w: World, objects: Objects, t: Target, content: string, desired: Fields)
    requires Prepare(lib, t, content) == Ok(desired) && w.patch(t, Lookup(objects, t), desired) == Some(desired)
    ensures ApplyFile(lib, w, objects, t, content) == (objects[t := desired], None)
  {
  }

  lemma AddOne(lib: Library, w: World, objects: Objects, p: string, t: Target, content: string, after: Objects)
    requires ParseInventoryExportPath(p) == Some(t) && w.fetch(p) == Some(content)
    requires ApplyFile(lib, w, objects, t, content) == (after, None)
    ensures AddPath(lib, w, objects, p).0 == after
  {
  }

  lemma ServedOne(lib: Library, w: World, objects: Objects, p: string)
    ensures Served(lib, w, objects, [p], []) == AddPath(lib, w, objects, p).0
  {
    assert [p][..0] == [];
    assert AddAll(lib, w, objects, [p][..0]) == (objects, []);
  }

  /** Serving a push of one file. */
  lemma ServeOne(lib: Library, s: System, t: Target, p: string, commits: seq<Commit>, content: string, desired: Fields)
      returns (s': System)
    requires Valid(t) && ParseInventoryExportPath(p) == Some(t) && t !in s.dirty
    requires s.pushes == [Note(commits, map[p := content])]
    requires AddedPaths(commits) == {p} && GonePaths(commits) == {}
    requires Prepare(lib, t, content) == Ok(desired) && Lookup(s.objects, t) != Some(desired)
    ensures InternalStep(lib, s, s')
    ensures s' == s.(objects := s.objects[t := desired], dirty := s.dirty + {t}, pushes := [])
  {
    var head: Files := map[p := content];
    var w := Termination.PlainWorld(head);
    Termination.PlainWorldObliges(head);
    ApplyOne(lib, w, s.objects, t, content, desired);
    AddOne(lib, w, s.objects, p, t, content, s.objects[t := desired]);
    ServedOne(lib, w, s.objects, p);
    s' := s.(objects := s.objects[t := desired], dirty := s.dirty + {t}, pushes := []);
    ServesOne(lib, s, t, p, commits, w, desired, s');
  }

  lemma ServesOne(lib: Library, s: System, t: Target, p: string, commits: seq<Commit>, w: World, desired: Fields, s': System)
    requires Valid(t) && t !in s.dirty && |s.pushes| == 1 && s.pushes[0].commits == commits
    requires AddedPaths(commits) == {p} && GonePaths(commits) == {} && Obliging(w, s.pushes[0].head)
    requires Served(lib, w, s.objects, [p], []) == s.objects[t := desired] && Lookup(s.objects, t) != Some(desired)
    requires s' == s.(objects := s.objects[t := desired], dirty := s.dirty + {t}, pushes := [])
    ensures InternalStep(lib, s, s')
  {
    assert s.pushes[1..] == [];
    assert Serves(lib, s, w, [p], [], s');
  }

  /** What the sync side makes of a file. */
  lemma AppliedFacts(lib: Library, t: Target, content: string)
    requires Valid(t) && Deployable(lib, t, content)
    ensures var live := Prepare(lib, t, content).value;
            && StampOf(live) == Some(HashOf(lib)(Material(lib, content))) && StampMatches(lib, live)
            && Normalized(live) == Material(lib, content)
  {
    var live := Prepare(lib, t, content).value;
    NormalizedEqualIff(live, live);
    Projection.ReplacedBy(lib, t, content, live);
    EchoRecognised(lib, t, content, live);
  }

  lemma FirstEvent(lib: Library, t: Target, obj: Fields, p: string, key: string, content: string) returns (s: System)
    requires StampOf(obj) == None && p == PathOf(t) && key == CacheKeyOf(t) && content == ExportYaml(lib, obj)
    ensures Event(lib, Alone(t, obj, p, content), t, s)
    ensures s == Alone(t, obj, p, content).(dirty := {},
                   memory := Memory(map[key := ObjectHash(lib, obj)], map[p := Write(content)]))
  {
    var s0 := Alone(t, obj, p, content);
    assert Lookup(s0.objects, t) == Some(obj);
    assert !StampMatches(lib, obj);
    s := s0.(dirty := {}, memory := Reconciled(lib, s0.memory, t, Some(obj)));
  }

  /** The file is written once more, to no effect. */
  lemma FlushSame(lib: Library, s: System, p: string, content: string) returns (begun: System, ended: System)
    requires s.memory.pending == map[p := Write(content)] && s.batch == None && s.remote == map[p := content]
    ensures BeginFlush(s, begun) && EndFlush(begun, [p], [], ended)
    ensures ended == s.(memory := s.memory.(pending := map[]))
  {
    begun := s.(batch := Some(s.memory.pending), memory := s.memory.(pending := map[]));
    ended := begun.(batch := None);
    SameFileAgain(p, content);
  }

  /** Up to the point where the object has been cached and all is quiet. */
  lemma ExportRun(lib: Library, t: Target, obj: Fields, p: string, key: string, content: string)
      returns (run: seq<System>)
    requires Admitted(t, obj) && StampOf(obj) == None
    requires p == PathOf(t) && key == CacheKeyOf(t) && content == ExportYaml(lib, obj)
    ensures ClusterRun(lib, run)
    ensures Last(run) == Resting(t, obj, map[key := ObjectHash(lib, obj)], p, content)
  {
    var s0 := Listed(lib, t, obj);
    ListedStarts(lib, t, obj);
    var s1 := FirstEvent(lib, t, obj, p, key, content);
    var s2, s3 := FlushSame(lib, s1, p, content);
    run := RunOfFour(lib, s0, s1, s2, s3);
  }

  lemma RunOfFour(lib: Library, s0: System, s1: System, s2: System, s3: System) returns (run: seq<System>)
    requires Start(lib, s0)
    requires InternalStep(lib, s0, s1) && InternalStep(lib, s1, s2) && InternalStep(lib, s2, s3)
    ensures ClusterRun(lib, run) && Last(run) == s3
  {
    run := [s0];
    ExtendCluster(lib, run, s1);
    ExtendCluster(lib, run + [s1], s2);
    ExtendCluster(lib, run + [s1] + [s2], s3);
    run := run + [s1] + [s2] + [s3];
  }

  // ---------- the trimmed export ----------

  /** An object whose export cannot be trimmed without harm, and whose file is in Git already: the controller
      caches it, writes the same file once more, to no effect, and rests; what the file reads as is not what
      the object is. */
  lemma TrimmedExportRun(lib: Library, t: Target, obj: Fields) returns (run: seq<System>)
    requires Dependable(lib) && Admitted(t, obj) && StampOf(obj) == None && !TrimSafe(lib, obj)
    ensures ClusterRun(lib, run) && Quiet(Last(run)) && !AgreesAt(lib, Last(run), t)
  {
    ExportDeployable(lib, t, obj);
    run := ExportRun(lib, t, obj, PathOf(t), CacheKeyOf(t), ExportYaml(lib, obj));
    RestsApart(lib, Last(run), t, PathOf(t), obj, ExportYaml(lib, obj));
  }

  // ---------- the way into the stale cache ----------

  lemma ForeignPush(lib: Library, s: System, p: string, before: string, after: string) returns (pushed: System)
    requires p != "" && before != after && FileFits(lib, p, after)
    requires s.remote == map[p := before] && s.pushes == []
    ensures AnyStep(lib, s, pushed)
    ensures pushed == s.(remote := map[p := after], pushes := [Note([Commit([], [p], [])], map[p := after])])
  {
    var commits := [Commit([], [p], [])];
    OneCommit(p, before, after);
    OneCommitPaths(p);
    pushed := s.(remote := map[p := after], pushes := [Note(commits, map[p := after])]);
    assert s.pushes + [Note(commits, map[p := after])] == [Note(commits, map[p := after])];
    assert Commits(lib, s, map[p := after], commits, pushed);
  }

  /** The webhook applies the change to the one file. */
  lemma ThenServed(lib: Library, run: seq<System>, t: Target, p: string, content: string, desired: Fields)
      returns (longer: seq<System>)
    requires AnyRun(lib, run) && Valid(t) && ParseInventoryExportPath(p) == Some(t) && p != ""
    requires var s := Last(run);
             && s.dirty == {} && s.pushes == [Note([Commit([], [p], [])], map[p := content])]
             && Lookup(s.objects, t) != Some(desired)
    requires Prepare(lib, t, content) == Ok(desired)
    ensures AnyRun(lib, longer)
    ensures Last(longer) == Last(run).(objects := Last(run).objects[t := desired], dirty := {t}, pushes := [])
  {
    OneCommitPaths(p);
    var served := ServeOne(lib, Last(run), t, p, [Commit([], [p], [])], content, desired);
    assert {} + {t} == {t};
    InternalIsAny(lib, Last(run), served);
    Extend(lib, run, served);
    longer := run + [served];
  }

  lemma InternalIsAny(lib: Library, s: System, s': System)
    requires InternalStep(lib, s, s')
    ensures AnyStep(lib, s, s')
  {
    assert ClusterStep(lib, s, s');
  }

  /** An event that the controller ignores. */
  lemma Ignored(lib: Library, s: System, t: Target)
    requires s.dirty == {t} && t in s.objects && Handled(lib, s.memory, t, s.objects[t]) == s.memory
    ensures AnyStep(lib, s, s.(dirty := {}))
  {
    assert Lookup(s.objects, t) == Some(s.objects[t]);
    assert s.dirty - {t} == {};
    assert Event(lib, s, t, s.(dirty := {}));
    InternalIsAny(lib, s, s.(dirty := {}));
  }

  lemma EditStep(lib: Library, s: System, t: Target, obj: Option<Fields>, s': System)
    requires Edit(s, t, obj, s')
    ensures AnyStep(lib, s, s')
  {
    assert ClusterStep(lib, s, s');
  }

  lemma Replaced(s: System, t: Target, back: Fields) returns (edited: System)
    requires s.dirty == {} && s.objects.Keys == {t} && Admitted(t, back)
    requires StampOf(back).Some? ==> StampOf(back) == StampOf(s.objects[t])
    ensures Edit(s, t, Some(back), edited)
    ensures edited == s.(objects := map[t := back], dirty := {t})
  {
    edited := s.(objects := map[t := back], dirty := {t});
    assert s.objects[t := back] == map[t := back];
    assert {} + {t} == {t};
  }

  /** The run into the stale cache. Somebody pushes another file for the object; the webhook applies that, and
      its echo is recognised by the stamp and not cached. Editing the object `back` then meets the digest that
      was cached at first, and is ignored for good. */
  lemma StaleCacheRun(lib: Library, t: Target, obj: Fields, content: string, back: Fields) returns (run: seq<System>)
    requires Admitted(t, obj) && Deployable(lib, t, content) && Admitted(t, back)
    requires StampOf(obj) == None && SameMaterial(back, obj)
    requires content != ExportYaml(lib, obj) && Material(lib, content) != Normalized(obj)
    requires StampOf(back) in {None, Some(HashOf(lib)(Material(lib, content)))}
    ensures AnyRun(lib, run) && Quiet(Last(run)) && !AgreesAt(lib, Last(run), t)
  {
    RoundTrip(t);
    PathVisible(t);
    NormalizedEqualIff(back, obj);
    run := StaleCacheRunAt(lib, t, PathOf(t), CacheKeyOf(t), obj, content, back);
  }

  lemma BothIgnored(lib: Library, c: Memory, t: Target, live: Fields, back: Fields, hash: string)
    requires StampMatches(lib, live)
    requires Lookup(c.cache, CacheKeyOf(t)) == Some(hash) && ObjectHash(lib, back) == hash
    ensures Handled(lib, c, t, live) == c && Handled(lib, c, t, back) == c
  {
  }

  lemma RestsApart(lib: Library, s: System, t: Target, p: string, back: Fields, content: string)
    requires s.dirty == {} && s.memory.pending == map[] && s.batch == None && s.pushes == []
    requires p == PathOf(t) && s.remote == map[p := content] && Lookup(s.objects, t) == Some(back)
    requires Material(lib, content) != Normalized(back)
    ensures Quiet(s) && !AgreesAt(lib, s, t)
  {
  }

  lemma ThenIgnored(lib: Library, run: seq<System>, t: Target) returns (longer: seq<System>)
    requires AnyRun(lib, run)
    requires var s := Last(run); s.dirty == {t} && t in s.objects && Handled(lib, s.memory, t, s.objects[t]) == s.memory
    ensures AnyRun(lib, longer) && Last(longer) == Last(run).(dirty := {})
  {
    Ignored(lib, Last(run), t);
    Extend(lib, run, Last(run).(dirty := {}));
    longer := run + [Last(run).(dirty := {})];
  }

  lemma ThenEdited(lib: Library, run: seq<System>, t: Target, back: Fields) returns (longer: seq<System>)
    requires AnyRun(lib, run) && Admitted(t, back)
    requires var s := Last(run);
             && s.dirty == {} && s.objects.Keys == {t}
             && (StampOf(back).Some? ==> StampOf(back) == StampOf(s.objects[t]))
    ensures AnyRun(lib, longer) && Last(longer) == Last(run).(objects := map[t := back], dirty := {t})
  {
    var edited := Replaced(Last(run), t, back);
    EditStep(lib, Last(run), t, Some(back), edited);
    Extend(lib, run, edited);
    longer := run + [edited];
  }

  /** From the applied change on: its echo, and the edit back. */
  lemma IgnoredForGood(lib: Library, run: seq<System>, t: Target, live: Fields, back: Fields)
      returns (longer: seq<System>)
    requires AnyRun(lib, run) && Admitted(t, back)
    requires var s := Last(run);
             && s.dirty == {t} && s.objects.Keys == {t} && s.objects[t] == live
             && Handled(lib, s.memory, t, live) == s.memory && Handled(lib, s.memory, t, back) == s.memory
    requires StampOf(back).Some? ==> StampOf(back) == StampOf(live)
    ensures AnyRun(lib, longer) && Last(longer) == Last(run).(objects := map[t := back], dirty := {})
  {
    var ignored := ThenIgnored(lib, run, t);
    var edited := ThenEdited(lib, ignored, t, back);
    longer := ThenIgnored(lib, edited, t);
  }

  lemma DifferentObjects(lib: Library, obj: Fields, live: Fields)
    requires Normalized(obj) != Normalized(live)
    ensures live != obj
  {
  }

  lemma StaleCacheRunAt(lib: Library, t: Target, p: string, key: string, obj: Fields, content: string, back: Fields)
      returns (run: seq<System>)
    requires p == PathOf(t) && key == CacheKeyOf(t) && p != "" && ParseInventoryExportPath(p) == Some(t)
    requires Admitted(t, obj) && Deployable(lib, t, content) && Admitted(t, back)
    requires StampOf(obj) == None && Normalized(back) == Normalized(obj)
    requires content != ExportYaml(lib, obj) && Material(lib, content) != Normalized(obj)
    requires StampOf(back) in {None, Some(HashOf(lib)(Material(lib, content)))}
    ensures AnyRun(lib, run) && Quiet(Last(run)) && !AgreesAt(lib, Last(run), t)
  {
    AppliedFacts(lib, t, content);
    var live := Prepare(lib, t, content).value;
    DifferentObjects(lib, obj, live);
    var front := ExportRun(lib, t, obj, p, key, ExportYaml(lib, obj));
    BothIgnored(lib, Last(front).memory, t, live, back, ObjectHash(lib, obj));
    ClusterRunIsAny(lib, front);
    run := PushedAndEnded(lib, front, t, p, ExportYaml(lib, obj), content, obj, live, back);
    RestsApart(lib, Last(run), t, p, back, content);
  }

  lemma PushedAndEnded(lib: Library, front: seq<System>, t: Target, p: string, before: string, content: string,
                       obj: Fields, live: Fields, back: Fields) returns (run: seq<System>)
    requires AnyRun(lib, front)
    requires var c := Last(front).memory;
             && Last(front) == Resting(t, obj, c.cache, p, before)
             && Handled(lib, c, t, live) == c && Handled(lib, c, t, back) == c
    requires ParseInventoryExportPath(p) == Some(t) && p != "" && FileFits(lib, p, content) && content != before
    requires Admitted(t, back) && Prepare(lib, t, content) == Ok(live) && obj != live
    requires StampOf(back).Some? ==> StampOf(back) == StampOf(live)
    ensures AnyRun(lib, run)
    ensures Last(run) == Last(front).(objects := map[t := back], remote := map[p := content])
  {
    var pushed := ForeignPush(lib, Last(front), p, before, content);
    Extend(lib, front, pushed);
    run := StaleEnd(lib, front + [pushed], t, p, content, live, back);
  }

  lemma StaleEnd(lib: Library, front: seq<System>, t: Target, p: string, content: string, live: Fields, back: Fields)
      returns (run: seq<System>)
    requires AnyRun(lib, front) && Admitted(t, back) && ParseInventoryExportPath(p) == Some(t) && p != ""
    requires var s := Last(front);
             && s.dirty == {} && s.objects.Keys == {t} && s.objects[t] != live
             && s.pushes == [Note([Commit([], [p], [])], map[p := content])]
             && Handled(lib, s.memory, t, live) == s.memory && Handled(lib, s.memory, t, back) == s.memory
    requires Prepare(lib, t, content) == Ok(live)
    requires StampOf(back).Some? ==> StampOf(back) == StampOf(live)
    ensures AnyRun(lib, run) && Last(run) == Last(front).(objects := map[t := back], pushes := [])
  {
    var served := ThenServed(lib, front, t, p, content, live);
    run := IgnoredForGood(lib, served, t, live, back);
  }
}
