/** The joint system: cluster objects, the controller's memory, the Git tree, and the pushes that wait
    for the webhook. Its steps are the operations of the other modules, in any interleaving. */
module Protocol {
  import opened Wrappers
  import Text
  import opened Paths
  import opened Tree
  import opened Normalize
  import opened Apply
  import Merge
  import Inventory
  import opened Push
  import opened Webhook
  import O = OneObject

  /** A push waiting to be served: its commits and the tree at its head. */
  datatype Note = Note(commits: seq<Commit>, head: Files)

  datatype System = System(
    objects: Objects,
    dirty: set<Target>,        // events not yet reconciled
    memory: Inventory.Memory,
    batch: Option<Ops>,        // taken by a running flush
    remote: Files,
    pushes: seq<Note>)         // oldest first

  // ---------- well-formedness ----------

  /** The file may be pushed: it is no inventory file, or it is at the rendered path of a valid
      identity and can be applied to it. */
  predicate FileFits(lib: Library, p: string, content: string) {
    match ParseInventoryExportPath(p)
    case None => true
    case Some(t) => Valid(t) && p == PathOf(t) && Deployable(lib, t, content)
  }

  predicate OpFits(lib: Library, p: string, op: PendingExport) {
    match ParseInventoryExportPath(p)
    case None => false
    case Some(t) => Valid(t) && p == PathOf(t) && (op.Write? ==> Deployable(lib, t, op.content))
  }

  predicate OrderlyOps(lib: Library, ops: Ops) {
    forall p :: p in ops ==> OpFits(lib, p, ops[p])
  }

  /** Only the rendered path speaks for an identity. */
  predicate CanonicalPath(p: string) {
    match ParseInventoryExportPath(p)
    case None => true
    case Some(t) => Valid(t) && p == PathOf(t)
  }

  /** Paths that the push reports as gone. */
  function GonePaths(commits: seq<Commit>): set<string> {
    RemovedPaths(commits) - AddedPaths(commits)
  }

  ghost predicate OrderlyNote(lib: Library, n: Note) {
    && (forall p :: p in AddedPaths(n.commits) ==> p in n.head && FileFits(lib, p, n.head[p]))
    && (forall p :: p in GonePaths(n.commits) ==> CanonicalPath(p))
  }

  ghost predicate OrderlyObjects(s: System) {
    && (forall t :: t in s.objects ==> Valid(t) && WellFormed(t, s.objects[t]))
    && (forall t :: t in s.dirty ==> Valid(t))
  }

  ghost predicate OrderlyQueue(lib: Library, s: System) {
    && OrderlyOps(lib, s.memory.pending)
    && (s.batch.Some? ==> s.batch.value != map[] && OrderlyOps(lib, s.batch.value))
  }

  ghost predicate OrderlyGit(lib: Library, s: System) {
    forall i :: 0 <= i < |s.pushes| ==> OrderlyNote(lib, s.pushes[i])
  }

  ghost predicate Orderly(lib: Library, s: System) {
    OrderlyObjects(s) && OrderlyQueue(lib, s) && OrderlyGit(lib, s)
  }

  // ---------- steps ----------

  /** The commits of a push say how the new tree differs from the old one. (By `Push.MisreportedIff` this
      fails only for a push whose last mention of some added path removes it.) */
  ghost predicate Describes(commits: seq<Commit>, before: Files, after: Files) {
    forall p ::
      && (p in AddedPaths(commits) <==> p in after && Lookup(before, p) != Lookup(after, p))
      && (p in GonePaths(commits) <==> p in before && p !in after)
  }

  /** A user or a status controller changes an object of the cluster. New objects are unstamped. */
  ghost predicate Edit(s: System, t: Target, obj: Option<Fields>, s': System) {
    && Valid(t)
    && (obj.Some? ==>
          && WellFormed(t, obj.value)
          && (StampOf(obj.value).Some? ==> t in s.objects && StampOf(obj.value) == StampOf(s.objects[t])))
    && s' == s.(objects := if obj.None? then s.objects - {t} else s.objects[t := obj.value],
                dirty := s.dirty + {t})
  }

  /** Others push to Git. */
  ghost predicate Commits(lib: Library, s: System, files: Files, commits: seq<Commit>, s': System) {
    && OrderlyNote(lib, Note(commits, files)) && Describes(commits, s.remote, files)
    && s' == s.(remote := files, pushes := s.pushes + [Note(commits, files)])
  }

  ghost predicate Event(lib: Library, s: System, t: Target, s': System) {
    && t in s.dirty
    && s' == s.(dirty := s.dirty - {t}, memory := Inventory.Reconciled(lib, s.memory, t, Lookup(s.objects, t)))
  }

  ghost predicate BeginFlush(s: System, s': System) {
    && s.batch.None? && s.memory.pending != map[]
    && s' == s.(batch := Some(s.memory.pending), memory := s.memory.(pending := map[]))
  }

  /** The running batch is cloned, edited and pushed; without a difference there is no push. */
  ghost predicate Lands(s: System, order: seq<string>, commits: seq<Commit>, remote: Files, pushes: seq<Note>) {
    && s.batch.Some?
    && Iterates(order, s.batch.value)
    && RunOps(s.remote, order, s.batch.value) == Some(remote)
    && (if remote == s.remote then pushes == s.pushes
        else Describes(commits, s.remote, remote) && pushes == s.pushes + [Note(commits, remote)])
  }

  ghost predicate EndFlush(s: System, order: seq<string>, commits: seq<Commit>, s': System) {
    && Lands(s, order, commits, s'.remote, s'.pushes)
    && s' == s.(batch := None, remote := s'.remote, pushes := s'.pushes)
  }

  /** The export fails, or lands without the worker learning of it; the batch goes back to the queue. */
  ghost predicate FailFlush(s: System, order: seq<string>, commits: seq<Commit>, s': System) {
    && s.batch.Some?
    && ((s'.remote == s.remote && s'.pushes == s.pushes) || Lands(s, order, commits, s'.remote, s'.pushes))
    && s' == s.(batch := None, memory := s.memory.(pending := s.memory.pending + s.batch.value),
                remote := s'.remote, pushes := s'.pushes)
  }

  /** No path of the failing batch was re-enqueued with another operation. */
  ghost predicate Unraced(s: System) {
    s.batch.Some? ==> forall p :: p in s.batch.value && p in s.memory.pending ==> s.batch.value[p] == s.memory.pending[p]
  }

  /** Server-side apply replaces the object or merges into it, and adds at most status and volatile
      metadata. */
  ghost predicate AppliedOver(before: Option<Fields>, desired: Fields, live: Fields) {
    ServedAs(desired, live) || (before.Some? && ServedAs(Merge.MergeFields(before.value, desired), live))
  }

  /** Every request succeeds: the raw files of the head are there, deletes and patches are accepted. */
  ghost predicate Obliging(w: World, head: Files) {
    && (forall p :: p in head ==> w.fetch(p) == Some(head[p]))
    && (forall t :: w.deletes(t))
    && (forall t, o, desired :: w.patch(t, o, desired).Some? && AppliedOver(o, desired, w.patch(t, o, desired).value))
  }

  /** An object that changes causes an event; a patch may cause one in any case. */
  ghost predicate EventsOf(s: System, objects: Objects, added: seq<string>, dirty: set<Target>) {
    && s.dirty <= dirty
    && (forall t :: Lookup(objects, t) != Lookup(s.objects, t) ==> t in dirty)
    && (forall t :: t in dirty && t !in s.dirty ==>
          Lookup(objects, t) != Lookup(s.objects, t) || (t in objects && PathOf(t) in added))
    && (forall t :: t in dirty && t !in s.dirty ==> Valid(t))
  }

  /** The webhook serves the oldest push. */
  ghost predicate Serves(lib: Library, s: System, w: World, added: seq<string>, removed: seq<string>, s': System) {
    && s.pushes != []
    && var n := s.pushes[0];
    && Text.Lists(added, AddedPaths(n.commits)) && Text.Lists(removed, GonePaths(n.commits))
    && Obliging(w, n.head)
    && s'.objects == Served(lib, w, s.objects, added, removed)
    && EventsOf(s, s'.objects, added, s'.dirty)
    && s' == s.(objects := s'.objects, dirty := s'.dirty, pushes := s.pushes[1..])
  }

  /** The controller restarts, losing its memory and the running flush, and lists all objects. */
  ghost predicate Restart(s: System, s': System) {
    s' == s.(memory := Inventory.Memory(map[], map[]), batch := None, dirty := s.objects.Keys)
  }

  /** No inventory file of an absent object, unless a push is left that speaks of it. */
  ghost predicate RestartSafe(lib: Library, s: System) {
    forall t :: Valid(t) && PathOf(t) in s.remote && NotesAt(lib, s.pushes, PathOf(t)) == [] ==> t in s.objects
  }

  ghost predicate InternalStep(lib: Library, s: System, s': System) {
    || (exists t :: Event(lib, s, t, s'))
    || BeginFlush(s, s')
    || (exists order, commits :: EndFlush(s, order, commits, s'))
    || (exists w, added, removed :: Serves(lib, s, w, added, removed, s'))
  }

  /** Cluster-side changes, failing flushes that do not race with enqueues, and safe restarts. */
  ghost predicate ClusterStep(lib: Library, s: System, s': System) {
    || InternalStep(lib, s, s')
    || (exists t, obj :: Edit(s, t, obj, s'))
    || (exists order, commits :: FailFlush(s, order, commits, s') && Unraced(s))
    || (Restart(s, s') && RestartSafe(lib, s))
  }

  /** The same, with pushes from others. */
  ghost predicate AnyStep(lib: Library, s: System, s': System) {
    || ClusterStep(lib, s, s')
    || (exists files, commits :: Commits(lib, s, files, commits, s'))
  }

  // ---------- the view of one object ----------

  /** The digest as a function of the material. */
  function HashOf(lib: Library): O.Hash {
    (m: Fields) => lib.sha(Obj(m))
  }

  /** What the export of a material reads as. */
  function ReadOf(lib: Library): O.Reading {
    (m: Fields) => Reading(lib, m)
  }

  lemma HashOfInjective(lib: Library)
    requires CollisionFree(lib)
    ensures O.Injective(HashOf(lib))
  {
    forall a: Fields, b: Fields | HashOf(lib)(a) == HashOf(lib)(b) ensures a == b {
      assert Obj(a) == Obj(b);
    }
  }

  function SeenOf(obj: Fields): O.Seen {
    O.Seen(Normalized(obj), StampOf(obj))
  }

  function SeenAt(o: Option<Fields>): Option<O.Seen> {
    if o.Some? then Some(SeenOf(o.value)) else None
  }

  function ObjectAt(objects: Objects, t: Target): Option<O.Seen> {
    SeenAt(Lookup(objects, t))
  }

  function ChangeOf(lib: Library, op: PendingExport): O.Change {
    match op
    case Write(content) => O.Put(Material(lib, content))
    case Archive => O.Gone
  }

  function ChangeAt(lib: Library, ops: Ops, p: string): Option<O.Change> {
    if p in ops then Some(ChangeOf(lib, ops[p])) else None
  }

  function FileAt(lib: Library, files: Files, p: string): Option<Fields> {
    if p in files then Some(Material(lib, files[p])) else None
  }

  /** What one push says about the path. */
  function NoteAt(lib: Library, n: Note, p: string): seq<O.Change> {
    if p in AddedPaths(n.commits) && p in n.head then [O.Put(Material(lib, n.head[p]))]
    else if p in GonePaths(n.commits) then [O.Gone]
    else []
  }

  function NotesAt(lib: Library, pushes: seq<Note>, p: string): seq<O.Change> {
    if pushes == [] then [] else NoteAt(lib, pushes[0], p) + NotesAt(lib, pushes[1..], p)
  }

  lemma {:induction false} NotesAtAppend(lib: Library, pushes: seq<Note>, n: Note, p: string)
    ensures NotesAt(lib, pushes + [n], p) == NotesAt(lib, pushes, p) + NoteAt(lib, n, p)
  {
    if pushes == [] {
      assert ([n])[1..] == [];
      assert [] + [n] == [n];
    } else {
      assert (pushes + [n])[1..] == pushes[1..] + [n];
      NotesAtAppend(lib, pushes[1..], n, p);
    }
  }

  function ViewAt(lib: Library, s: System, t: Target, p: string, key: string): O.View {
    O.View(
      ObjectAt(s.objects, t),
      t in s.dirty,
      Lookup(s.memory.cache, key),
      ChangeAt(lib, s.memory.pending, p),
      if s.batch.Some? then ChangeAt(lib, s.batch.value, p) else None,
      FileAt(lib, s.remote, p),
      NotesAt(lib, s.pushes, p))
  }

  function ViewOf(lib: Library, s: System, t: Target): O.View {
    ViewAt(lib, s, t, PathOf(t), CacheKeyOf(t))
  }
}
