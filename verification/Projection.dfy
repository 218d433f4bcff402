/** Every step of the joint system is, for each single object, a step of the one-object protocol or no
    step at all; and every step keeps the system orderly. */
module Projection {
  import opened Wrappers
  import opened Text
  import opened Paths
  import opened Tree
  import opened Normalize
  import opened Apply
  import Merge
  import Inventory
  import opened Push
  import opened Webhook
  import opened Protocol
  import O = OneObject

  // ---------- edits and foreign pushes ----------

  lemma EditProjects(lib: Library, s: System, t: Target, obj: Option<Fields>, s': System, u: Target)
    requires Edit(s, t, obj, s')
    ensures u == t ==> O.Edited(ViewOf(lib, s, u), ViewOf(lib, s', u))
    ensures u != t ==> ViewOf(lib, s', u) == ViewOf(lib, s, u)
  {
  }

  lemma EditKeepsOrder(lib: Library, s: System, t: Target, obj: Option<Fields>, s': System)
    requires Orderly(lib, s) && Edit(s, t, obj, s')
    ensures Orderly(lib, s')
  {
  }

  lemma DescribedAt(lib: Library, commits: seq<Commit>, before: Files, after: Files, p: string)
    requires Describes(commits, before, after)
    ensures NoteAt(lib, Note(commits, after), p) ==
            if Lookup(before, p) == Lookup(after, p) then [] else [O.ChangeTo(FileAt(lib, after, p))]
  {
  }

  lemma CommitsProject(lib: Library, s: System, files: Files, commits: seq<Commit>, s': System, u: Target)
    requires Commits(lib, s, files, commits, s')
    ensures O.Committed(ViewOf(lib, s, u), ViewOf(lib, s', u))
  {
    var p := PathOf(u);
    NotesAtAppend(lib, s.pushes, Note(commits, files), p);
    DescribedAt(lib, commits, s.remote, files, p);
  }

  lemma CommitsKeepOrder(lib: Library, s: System, files: Files, commits: seq<Commit>, s': System)
    requires Orderly(lib, s) && Commits(lib, s, files, commits, s')
    ensures Orderly(lib, s')
  {
  }

  // ---------- reconciling ----------

  lemma EventProjects(lib: Library, s: System, t: Target, s': System, u: Target)
    requires Valid(t) && Event(lib, s, t, s') && Valid(u)
    ensures u == t ==>
              ViewOf(lib, s, u).dirty && ViewOf(lib, s', u) == O.Reconcile(HashOf(lib), ReadOf(lib), ViewOf(lib, s, u))
    ensures u != t ==> ViewOf(lib, s', u) == ViewOf(lib, s, u)
  {
    if u == t {
      ReconciledProjects(lib, s, t, PathOf(t), CacheKeyOf(t), s');
    } else {
      Inventory.EventIsLocal(lib, s.memory, t, Lookup(s.objects, t), u);
    }
  }

  lemma ReconciledProjects(lib: Library, s: System, t: Target, p: string, key: string, s': System)
    requires p == PathOf(t) && key == CacheKeyOf(t)
    requires s' == s.(dirty := s.dirty - {t}, memory := Inventory.Reconciled(lib, s.memory, t, Lookup(s.objects, t)))
    ensures ViewAt(lib, s', t, p, key) == O.Reconcile(HashOf(lib), ReadOf(lib), ViewAt(lib, s, t, p, key))
  {
  }

  lemma OpFitsAt(lib: Library, t: Target, op: PendingExport)
    requires Valid(t) && (op.Write? ==> Deployable(lib, t, op.content))
    ensures OpFits(lib, PathOf(t), op)
  {
    RoundTrip(t);
  }

  lemma OrderlyOpsUpdate(lib: Library, ops: Ops, p: string, op: PendingExport)
    requires OrderlyOps(lib, ops) && OpFits(lib, p, op)
    ensures OrderlyOps(lib, ops[p := op])
  {
    var ops' := ops[p := op];
    forall q | q in ops' ensures OpFits(lib, q, ops'[q]) {
      if q != p { assert OpFits(lib, q, ops[q]); }
    }
  }

  lemma OrderlyOpsUnion(lib: Library, a: Ops, b: Ops)
    requires OrderlyOps(lib, a) && OrderlyOps(lib, b)
    ensures OrderlyOps(lib, a + b)
  {
    forall q | q in a + b ensures OpFits(lib, q, (a + b)[q]) {
      if q in b { assert OpFits(lib, q, b[q]); } else { assert OpFits(lib, q, a[q]); }
    }
  }

  lemma EventKeepsOps(lib: Library, s: System, t: Target)
    requires Dependable(lib) && Valid(t) && OrderlyOps(lib, s.memory.pending)
    requires t in s.objects ==> WellFormed(t, s.objects[t])
    ensures OrderlyOps(lib, Inventory.Reconciled(lib, s.memory, t, Lookup(s.objects, t)).pending)
  {
    if t in s.objects {
      HandledKeepsOps(lib, s.memory, t, s.objects[t], PathOf(t));
    } else {
      OpFitsAt(lib, t, Archive);
      OrderlyOpsUpdate(lib, s.memory.pending, PathOf(t), Archive);
    }
  }

  lemma HandledKeepsOps(lib: Library, c: Inventory.Memory, t: Target, obj: Fields, p: string)
    requires Dependable(lib) && Valid(t) && OrderlyOps(lib, c.pending) && WellFormed(t, obj) && p == PathOf(t)
    ensures OrderlyOps(lib, Inventory.Handled(lib, c, t, obj).pending)
  {
    ExportDeployable(lib, t, obj);
    var op := Write(ExportYaml(lib, obj));
    OpFitsAt(lib, t, op);
    OrderlyOpsUpdate(lib, c.pending, p, op);
  }

  lemma EventKeepsOrder(lib: Library, s: System, t: Target, s': System)
    requires Dependable(lib) && Orderly(lib, s) && Event(lib, s, t, s')
    ensures Orderly(lib, s')
  {
    EventKeepsOps(lib, s, t);
  }

  // ---------- flushing ----------

  lemma BeginProjects(lib: Library, s: System, s': System, u: Target)
    requires BeginFlush(s, s')
    ensures O.Begun(ViewOf(lib, s, u), ViewOf(lib, s', u))
  {
  }

  lemma OrderlyOpsAreLive(lib: Library, ops: Ops)
    requires OrderlyOps(lib, ops)
    ensures LiveBatch(ops)
  {
    forall p | p in ops ensures LivePath(p) {
      assert OpFits(lib, p, ops[p]);
      RenderedIsLive(ParseInventoryExportPath(p).value);
    }
  }

  /** What landing means for one live path. */
  lemma LandsAt(lib: Library, s: System, order: seq<string>, commits: seq<Commit>, remote: Files, pushes: seq<Note>, p: string)
    requires s.batch.Some? && LiveBatch(s.batch.value) && LivePath(p)
    requires Lands(s, order, commits, remote, pushes)
    ensures Lookup(remote, p) ==
            if p !in s.batch.value then Lookup(s.remote, p)
            else match s.batch.value[p] case Write(content) => Some(content) case Archive => None
    ensures NotesAt(lib, pushes, p) == NotesAt(lib, s.pushes, p) +
            if Lookup(s.remote, p) == Lookup(remote, p) then [] else [O.ChangeTo(FileAt(lib, remote, p))]
  {
    BatchConfluent(s.remote, order, s.batch.value);
    LivePathFacts(p);
    assert Lookup(remote, p) == After(s.remote, s.batch.value, p);
    if remote != s.remote {
      NotesAtAppend(lib, s.pushes, Note(commits, remote), p);
      DescribedAt(lib, commits, s.remote, remote, p);
    }
  }

  lemma LandsProjectsAt(lib: Library, s: System, order: seq<string>, commits: seq<Commit>, remote: Files,
                        pushes: seq<Note>, u: Target, p: string, key: string)
    requires s.batch.Some? && LiveBatch(s.batch.value) && LivePath(p)
    requires Lands(s, order, commits, remote, pushes)
    ensures O.Landed(ViewAt(lib, s, u, p, key), ViewAt(lib, s.(remote := remote, pushes := pushes), u, p, key))
  {
    LandsAt(lib, s, order, commits, remote, pushes, p);
  }

  lemma LandsProjects(lib: Library, s: System, order: seq<string>, commits: seq<Commit>, remote: Files,
                      pushes: seq<Note>, u: Target)
    requires Orderly(lib, s) && Valid(u) && Lands(s, order, commits, remote, pushes)
    ensures O.Landed(ViewOf(lib, s, u), ViewOf(lib, s.(remote := remote, pushes := pushes), u))
  {
    OrderlyOpsAreLive(lib, s.batch.value);
    RenderedIsLive(u);
    LandsProjectsAt(lib, s, order, commits, remote, pushes, u, PathOf(u), CacheKeyOf(u));
  }

  lemma EndProjects(lib: Library, s: System, order: seq<string>, commits: seq<Commit>, s': System, u: Target)
    requires Orderly(lib, s) && Valid(u) && EndFlush(s, order, commits, s')
    ensures O.Flushed(ViewOf(lib, s, u), ViewOf(lib, s', u))
  {
    LandsProjects(lib, s, order, commits, s'.remote, s'.pushes, u);
  }

  lemma FailProjects(lib: Library, s: System, order: seq<string>, commits: seq<Commit>, s': System, u: Target)
    requires Orderly(lib, s) && Valid(u) && FailFlush(s, order, commits, s')
    ensures O.FlushFailed(ViewOf(lib, s, u), ViewOf(lib, s', u))
    ensures Unraced(s) ==> O.Unraced(ViewOf(lib, s, u))
  {
    var p, key := PathOf(u), CacheKeyOf(u);
    if !(s'.remote == s.remote && s'.pushes == s.pushes) {
      LandsProjects(lib, s, order, commits, s'.remote, s'.pushes, u);
    }
    FailProjectsAt(lib, s, s', u, p, key);
  }

  lemma FailProjectsAt(lib: Library, s: System, s': System, u: Target, p: string, key: string)
    requires s.batch.Some?
    requires s' == s.(batch := None, memory := s.memory.(pending := s.memory.pending + s.batch.value),
                      remote := s'.remote, pushes := s'.pushes)
    requires var landed := s.(remote := s'.remote, pushes := s'.pushes);
             || landed == s
             || O.Landed(ViewAt(lib, s, u, p, key), ViewAt(lib, landed, u, p, key))
    ensures O.FlushFailed(ViewAt(lib, s, u, p, key), ViewAt(lib, s', u, p, key))
    ensures Unraced(s) ==> O.Unraced(ViewAt(lib, s, u, p, key))
  {
    var landed := s.(remote := s'.remote, pushes := s'.pushes);
    var v, v' := ViewAt(lib, s, u, p, key), ViewAt(lib, s', u, p, key);
    assert v'.(batch := v.batch, pend := v.pend) == ViewAt(lib, landed, u, p, key);
  }

  lemma ArchivedNeverParses(t: Target)
    requires Named(t)
    ensures ParseInventoryExportPath(ArchiveDest(PathOf(t))) == None
  {
    RenderedIsLive(t);
    LivePathFacts(PathOf(t));
    PathVisible(t);
    assert TrimRight(PathOf(t)) == PathOf(t);
    TargetElementsPlain(t);
    ArchiveNeverParses(PathOf(t));
  }

  /** An archived copy is no inventory file, whatever it holds. */
  lemma ArchivedFits(lib: Library, ops: Ops, live: string, content: string)
    requires OrderlyOps(lib, ops) && live in ops
    ensures FileFits(lib, ArchiveDest(live), content)
  {
    assert OpFits(lib, live, ops[live]);
    ArchivedNeverParses(ParseInventoryExportPath(live).value);
  }

  lemma WrittenFits(lib: Library, p: string, content: string)
    requires OpFits(lib, p, Write(content))
    ensures FileFits(lib, p, content)
  {
  }

  /** The push of a landed batch is about rendered paths with applicable files, and about archived copies. */
  lemma LandedNote(lib: Library, s: System, order: seq<string>, commits: seq<Commit>, remote: Files)
    requires Orderly(lib, s) && s.batch.Some? && Iterates(order, s.batch.value)
    requires RunOps(s.remote, order, s.batch.value) == Some(remote) && Describes(commits, s.remote, remote)
    ensures OrderlyNote(lib, Note(commits, remote))
  {
    var ops := s.batch.value;
    OrderlyOpsAreLive(lib, ops);
    BatchConfluent(s.remote, order, ops);
    forall p | p in AddedPaths(commits) ensures p in remote && FileFits(lib, p, remote[p]) {
      assert Lookup(remote, p) == After(s.remote, ops, p);
      if p in ops {
        assert OpFits(lib, p, ops[p]);
        WrittenFits(lib, p, remote[p]);
      } else {
        assert HasPrefix(p, ARCHIVE_PREFIX) && Moves(s.remote, ops, LiveSource(p));
        SourceInjective(p, LiveSource(p));
        ArchivedFits(lib, ops, LiveSource(p), remote[p]);
      }
    }
    forall p | p in GonePaths(commits) ensures CanonicalPath(p) {
      assert Lookup(remote, p) == After(s.remote, ops, p);
      assert p in ops;
      assert OpFits(lib, p, ops[p]);
    }
  }

  lemma LandsKeepsOrder(lib: Library, s: System, order: seq<string>, commits: seq<Commit>, s': System)
    requires Orderly(lib, s) && Lands(s, order, commits, s'.remote, s'.pushes)
    ensures OrderlyGit(lib, s')
  {
    if s'.remote != s.remote {
      LandedNote(lib, s, order, commits, s'.remote);
    }
  }

  // ---------- serving a push ----------

  lemma NotePathsCanonical(lib: Library, n: Note, added: seq<string>, removed: seq<string>)
    requires OrderlyNote(lib, n) && Lists(added, AddedPaths(n.commits)) && Lists(removed, GonePaths(n.commits))
    ensures forall p :: p in added || p in removed ==> CanonicalPath(p)
    ensures CanonicalPaths(added) && CanonicalPaths(removed) && NoDuplicates(added)
  {
    forall p | p in added || p in removed ensures CanonicalPath(p) {
      if p in added { assert FileFits(lib, p, n.head[p]); }
    }
    forall p | (p in added || p in removed) && ParseInventoryExportPath(p).Some?
      ensures p == PathOf(ParseInventoryExportPath(p).value)
    {
      assert CanonicalPath(p);
    }
    StrictlySortedDistinct(added);
  }

  lemma StrictlySortedDistinct(s: seq<string>)
    requires StrictlySorted(s)
    ensures NoDuplicates(s)
  {
    forall i, j | 0 <= i < j < |s| ensures s[i] != s[j] {
      assert Less(s[i], s[j]);
      LessTrichotomy(s[i], s[j]);
    }
  }

  /** A file of the pushed tree is applied: the object then carries the file's stamp, and the file's
      material replaces its own or is merged into it. */
  lemma AppliedFile(lib: Library, w: World, head: Files, t: Target, o: Option<Fields>, p: string)
    requires Named(t) && p in head && Deployable(lib, t, head[p]) && Obliging(w, head)
    requires o.Some? ==> WellFormed(t, o.value)
    ensures ApplyTo(lib, w, t, o, p).Some?
    ensures var live := ApplyTo(lib, w, t, o, p).value;
            && StampOf(live) == Some(HashOf(lib)(Material(lib, head[p])))
            && O.Stored(SeenAt(o), Material(lib, head[p]), Normalized(live))
            && WellFormed(t, live)
  {
    var desired := Prepare(lib, t, head[p]).value;
    var live := w.patch(t, o, desired).value;
    assert w.fetch(p) == Some(head[p]);
    assert AppliedOver(o, desired, live);
    if ServedAs(desired, live) {
      ReplacedBy(lib, t, head[p], live);
    } else {
      MergedBy(lib, t, head[p], o.value, live);
    }
  }

  lemma ReplacedBy(lib: Library, t: Target, content: string, live: Fields)
    requires Named(t) && Deployable(lib, t, content) && ServedAs(Prepare(lib, t, content).value, live)
    ensures StampOf(live) == Some(HashOf(lib)(Material(lib, content)))
    ensures Normalized(live) == Material(lib, content) && WellFormed(t, live)
  {
    PrepareFacts(lib, t, content);
    EchoRecognised(lib, t, content, live);
    var file := Decode(lib, content).value;
    NormalizedEqualIff(live, file);
    IdentityOfMaterial(t, live, file);
    StampKept(lib, t, content, live);
    TypedOfMaterial(live, file);
    StampedIsWellFormed(t, live);
  }

  lemma StampKept(lib: Library, t: Target, content: string, live: Fields)
    requires Named(t) && Deployable(lib, t, content) && ServedAs(Prepare(lib, t, content).value, live)
    ensures StampOf(live) == Some(HashOf(lib)(Material(lib, content)))
  {
    PrepareFacts(lib, t, content);
    var file := Decode(lib, content).value;
    StampedMetadata(file, ObjectHash(lib, file));
  }

  lemma MergedBy(lib: Library, t: Target, content: string, before: Fields, live: Fields)
    requires Named(t) && Deployable(lib, t, content) && WellFormed(t, before)
    requires ServedAs(Merge.MergeFields(before, Prepare(lib, t, content).value), live)
    ensures StampOf(live) == Some(HashOf(lib)(Material(lib, content)))
    ensures Normalized(live) == Merge.MergeFields(Normalized(before), Material(lib, content)) && WellFormed(t, live)
  {
    PrepareFacts(lib, t, content);
    var file := Decode(lib, content).value;
    var hash := ObjectHash(lib, file);
    var merged := Merge.MergeFields(before, Stamped(file, hash));
    Merge.StampableCarried(t, before, file);
    Merge.MergeCommutes(before, file, hash);
    Merge.MergeStamps(before, file, hash);
    Merge.MergedIdentity(t, before, file, hash);
    NormalizedEqualIff(live, merged);
    IdentityOfMaterial(t, live, merged);
    Merge.MergedTyped(before, Stamped(file, hash));
    TypedOfMaterial(live, merged);
    StampedIsWellFormed(t, live);
  }

  lemma ServedAt(lib: Library, s: System, w: World, added: seq<string>, removed: seq<string>, s': System, u: Target)
    requires Orderly(lib, s) && Serves(lib, s, w, added, removed, s') && Valid(u)
    ensures Lookup(s'.objects, u) ==
            if PathOf(u) in removed then None
            else if PathOf(u) in added then ApplyTo(lib, w, u, Lookup(s.objects, u), PathOf(u))
            else Lookup(s.objects, u)
    ensures PathOf(u) in added ==> PathOf(u) in s.pushes[0].head && Deployable(lib, u, s.pushes[0].head[PathOf(u)])
  {
    var n := s.pushes[0];
    assert OrderlyNote(lib, n);
    NotePathsCanonical(lib, n, added, removed);
    ServedByObject(lib, w, s.objects, added, removed, u);
    RoundTrip(u);
    if PathOf(u) in added {
      assert FileFits(lib, PathOf(u), n.head[PathOf(u)]);
    }
  }

  lemma ServesProjects(lib: Library, s: System, w: World, added: seq<string>, removed: seq<string>, s': System, u: Target)
    requires Orderly(lib, s) && Serves(lib, s, w, added, removed, s') && Valid(u)
    ensures || O.Served(HashOf(lib), ViewOf(lib, s, u), ViewOf(lib, s', u))
            || ViewOf(lib, s', u) == ViewOf(lib, s, u)
  {
    var n := s.pushes[0];
    ServedAt(lib, s, w, added, removed, s', u);
    var p := PathOf(u);
    if p in added {
      AppliedFile(lib, w, n.head, u, Lookup(s.objects, u), p);
    }
    ServesProjectsAt(lib, s, added, removed, s', u, p, CacheKeyOf(u));
  }

  lemma ServesProjectsAt(lib: Library, s: System, added: seq<string>, removed: seq<string>, s': System,
                         u: Target, p: string, key: string)
    requires s.pushes != []
    requires var n := s.pushes[0];
             && Lists(added, AddedPaths(n.commits)) && Lists(removed, GonePaths(n.commits))
             && (p in added ==> p in n.head)
             && (p in added ==>
                   var m := Material(lib, n.head[p]);
                   var o' := ObjectAt(s'.objects, u);
                   && o'.Some? && o'.value.stamp == Some(HashOf(lib)(m))
                   && O.Stored(ObjectAt(s.objects, u), m, o'.value.material))
    requires p in removed ==> u !in s'.objects
    requires p !in added && p !in removed ==> Lookup(s'.objects, u) == Lookup(s.objects, u)
    requires p == PathOf(u) && EventsOf(s, s'.objects, added, s'.dirty)
    requires s' == s.(objects := s'.objects, dirty := s'.dirty, pushes := s.pushes[1..])
    ensures || O.Served(HashOf(lib), ViewAt(lib, s, u, p, key), ViewAt(lib, s', u, p, key))
            || ViewAt(lib, s', u, p, key) == ViewAt(lib, s, u, p, key)
  {
    var n := s.pushes[0];
    var v, v' := ViewAt(lib, s, u, p, key), ViewAt(lib, s', u, p, key);
    assert v.queue == NoteAt(lib, n, p) + v'.queue;
    if p in added || p in removed {
      assert v.queue[0] == NoteAt(lib, n, p)[0];
      assert v.queue[1..] == v'.queue;
    } else {
      assert v.queue == v'.queue;
    }
  }

  lemma InvalidUntouched(lib: Library, w: World, objects: Objects, added: seq<string>, removed: seq<string>, t: Target)
    requires !Valid(t) && forall p :: p in added || p in removed ==> CanonicalPath(p)
    ensures Lookup(Served(lib, w, objects, added, removed), t) == Lookup(objects, t)
  {
    forall p | p in added || p in removed ensures ParseInventoryExportPath(p) != Some(t) {
      assert CanonicalPath(p);
    }
    UnnamedObjectsUntouched(lib, w, objects, added, removed, t);
  }

  lemma ServesKeepsOrder(lib: Library, s: System, w: World, added: seq<string>, removed: seq<string>, s': System)
    requires Orderly(lib, s) && Serves(lib, s, w, added, removed, s')
    ensures Orderly(lib, s')
  {
    var n := s.pushes[0];
    assert OrderlyNote(lib, n);
    NotePathsCanonical(lib, n, added, removed);
    forall t | t in s'.objects ensures Valid(t) && WellFormed(t, s'.objects[t]) {
      if !Valid(t) {
        InvalidUntouched(lib, w, s.objects, added, removed, t);
      } else {
        ServedAt(lib, s, w, added, removed, s', t);
        if PathOf(t) in added {
          AppliedFile(lib, w, n.head, t, Lookup(s.objects, t), PathOf(t));
        }
      }
    }
  }

  // ---------- restart ----------

  lemma RestartProjects(lib: Library, s: System, s': System, u: Target)
    requires Restart(s, s')
    ensures ViewOf(lib, s', u) == O.Restarted(ViewOf(lib, s, u))
  {
  }

  // ---------- all steps ----------

  lemma InternalKeepsOrder(lib: Library, s: System, s': System)
    requires Dependable(lib) && Orderly(lib, s) && InternalStep(lib, s, s')
    ensures Orderly(lib, s')
  {
    if t :| Event(lib, s, t, s') {
      EventKeepsOrder(lib, s, t, s');
    } else if BeginFlush(s, s') {
    } else if order, commits :| EndFlush(s, order, commits, s') {
      LandsKeepsOrder(lib, s, order, commits, s');
    } else {
      var w, added, removed :| Serves(lib, s, w, added, removed, s');
      ServesKeepsOrder(lib, s, w, added, removed, s');
    }
  }

  lemma InternalProjects(lib: Library, s: System, s': System, u: Target)
    requires Dependable(lib) && Orderly(lib, s) && InternalStep(lib, s, s') && Valid(u)
    ensures O.Internal(HashOf(lib), ReadOf(lib), ViewOf(lib, s, u), ViewOf(lib, s', u))
  {
    if t :| Event(lib, s, t, s') {
      EventProjects(lib, s, t, s', u);
    } else if BeginFlush(s, s') {
      BeginProjects(lib, s, s', u);
    } else if order, commits :| EndFlush(s, order, commits, s') {
      EndProjects(lib, s, order, commits, s', u);
    } else {
      var w, added, removed :| Serves(lib, s, w, added, removed, s');
      ServesProjects(lib, s, w, added, removed, s', u);
    }
  }

  lemma FailKeepsOrder(lib: Library, s: System, order: seq<string>, commits: seq<Commit>, s': System)
    requires Orderly(lib, s) && FailFlush(s, order, commits, s')
    ensures Orderly(lib, s')
  {
    OrderlyOpsUnion(lib, s.memory.pending, s.batch.value);
    if !(s'.remote == s.remote && s'.pushes == s.pushes) {
      LandsKeepsOrder(lib, s, order, commits, s');
    }
  }

  /** Every step, of whatever kind, keeps the system orderly. */
  lemma AnyStepKeepsOrder(lib: Library, s: System, s': System)
    requires Dependable(lib) && Orderly(lib, s) && AnyStep(lib, s, s')
    ensures Orderly(lib, s')
  {
    if InternalStep(lib, s, s') {
      InternalKeepsOrder(lib, s, s');
    } else if t, obj :| Edit(s, t, obj, s') {
      EditKeepsOrder(lib, s, t, obj, s');
    } else if order, commits :| FailFlush(s, order, commits, s') {
      FailKeepsOrder(lib, s, order, commits, s');
    } else if files, commits :| Commits(lib, s, files, commits, s') {
      CommitsKeepOrder(lib, s, files, commits, s');
    }
  }

  /** A step as far as one object is concerned: failing flushes do not race at its path, a restart does not
      lose its archive operation, and, unless `foreign`, pushes from others leave its file as it was. */
  ghost predicate StepAt(lib: Library, s: System, s': System, t: Target, foreign: bool) {
    || InternalStep(lib, s, s')
    || (exists u, obj :: Edit(s, u, obj, s'))
    || (exists order, commits :: FailFlush(s, order, commits, s') && O.Unraced(ViewOf(lib, s, t)))
    || (Restart(s, s') && O.RestartSafe(ViewOf(lib, s, t)))
    || (exists files, commits :: Commits(lib, s, files, commits, s')
                              && (foreign || Lookup(files, PathOf(t)) == Lookup(s.remote, PathOf(t))))
  }

  /** Every step of the system is a step as far as each single object is concerned. */
  lemma AnyStepIsLocal(lib: Library, s: System, s': System, t: Target)
    requires Orderly(lib, s) && AnyStep(lib, s, s') && Valid(t)
    ensures StepAt(lib, s, s', t, true)
    ensures ClusterStep(lib, s, s') ==> StepAt(lib, s, s', t, false)
  {
    if order, commits :| FailFlush(s, order, commits, s') && Unraced(s) {
      FailProjects(lib, s, order, commits, s', t);
    }
  }

  lemma StepAtKeepsOrder(lib: Library, s: System, s': System, t: Target, foreign: bool)
    requires Dependable(lib) && Orderly(lib, s) && StepAt(lib, s, s', t, foreign)
    ensures Orderly(lib, s')
  {
    if InternalStep(lib, s, s') {
      InternalKeepsOrder(lib, s, s');
    } else if u, obj :| Edit(s, u, obj, s') {
      EditKeepsOrder(lib, s, u, obj, s');
    } else if order, commits :| FailFlush(s, order, commits, s') {
      FailKeepsOrder(lib, s, order, commits, s');
    } else if files, commits :| Commits(lib, s, files, commits, s') {
      CommitsKeepOrder(lib, s, files, commits, s');
    }
  }

  lemma CommitsElsewhere(lib: Library, s: System, files: Files, commits: seq<Commit>, s': System, u: Target)
    requires Commits(lib, s, files, commits, s') && Lookup(files, PathOf(u)) == Lookup(s.remote, PathOf(u))
    ensures ViewOf(lib, s', u) == ViewOf(lib, s, u)
  {
    var p := PathOf(u);
    NotesAtAppend(lib, s.pushes, Note(commits, files), p);
    DescribedAt(lib, commits, s.remote, files, p);
  }

  /** Refinement: for every object, such a step is a step of the one-object protocol (or the restart). */
  lemma StepAtProjects(lib: Library, s: System, s': System, t: Target, foreign: bool)
    requires Dependable(lib) && Orderly(lib, s) && Valid(t) && StepAt(lib, s, s', t, foreign)
    ensures var v, v' := ViewOf(lib, s, t), ViewOf(lib, s', t);
            || O.BothSides(HashOf(lib), ReadOf(lib), v, v')
            || (v' == O.Restarted(v) && O.RestartSafe(v))
    ensures !foreign ==>
            var v, v' := ViewOf(lib, s, t), ViewOf(lib, s', t);
            || O.ClusterSide(HashOf(lib), ReadOf(lib), v, v')
            || (v' == O.Restarted(v) && O.RestartSafe(v))
  {
    if InternalStep(lib, s, s') {
      InternalProjects(lib, s, s', t);
    } else if u, obj :| Edit(s, u, obj, s') {
      EditProjects(lib, s, u, obj, s', t);
    } else if order, commits :| FailFlush(s, order, commits, s') && O.Unraced(ViewOf(lib, s, t)) {
      FailProjects(lib, s, order, commits, s', t);
    } else if Restart(s, s') && O.RestartSafe(ViewOf(lib, s, t)) {
      RestartProjects(lib, s, s', t);
    } else {
      var files, commits :| Commits(lib, s, files, commits, s')
                         && (foreign || Lookup(files, PathOf(t)) == Lookup(s.remote, PathOf(t)));
      if foreign {
        CommitsProject(lib, s, files, commits, s', t);
      } else {
        CommitsElsewhere(lib, s, files, commits, s', t);
      }
    }
  }
}
