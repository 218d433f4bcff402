/** Safety of whole runs: what every reachable state keeps, and when a run that comes to rest rests in
    agreement between cluster and Git. Most of it is stated for one object, in runs that may do anything to
    the others. */
module Convergence {
  import opened Wrappers
  import opened Paths
  import opened Tree
  import opened Normalize
  import opened Apply
  import Inventory
  import opened Webhook
  import opened Protocol
  import Projection
  import O = OneObject

  // ---------- runs ----------

  /** Start-up: the controller knows nothing and lists every object; objects are unstamped, and Git holds
      no inventory file of an absent object. */
  ghost predicate Start(lib: Library, s: System) {
    && Orderly(lib, s)
    && s.memory == Inventory.Memory(map[], map[]) && s.batch.None? && s.pushes == []
    && s.dirty == s.objects.Keys
    && (forall t :: t in s.objects ==> StampOf(s.objects[t]) == None)
    && (forall t :: Valid(t) && PathOf(t) in s.remote ==> t in s.objects)
  }

  ghost predicate ClusterLink(lib: Library, run: seq<System>, i: int)
    requires 0 <= i < |run| - 1
  {
    ClusterStep(lib, run[i], run[i + 1])
  }

  ghost predicate AnyLink(lib: Library, run: seq<System>, i: int)
    requires 0 <= i < |run| - 1
  {
    AnyStep(lib, run[i], run[i + 1])
  }

  ghost predicate LinkAt(lib: Library, run: seq<System>, i: int, t: Target, foreign: bool)
    requires 0 <= i < |run| - 1
  {
    Projection.StepAt(lib, run[i], run[i + 1], t, foreign)
  }

  ghost predicate ClusterLinks(lib: Library, run: seq<System>) {
    forall i :: 0 <= i < |run| - 1 ==> ClusterLink(lib, run, i)
  }

  ghost predicate AnyLinks(lib: Library, run: seq<System>) {
    forall i :: 0 <= i < |run| - 1 ==> AnyLink(lib, run, i)
  }

  ghost predicate LinksAt(lib: Library, run: seq<System>, t: Target, foreign: bool) {
    forall i :: 0 <= i < |run| - 1 ==> LinkAt(lib, run, i, t, foreign)
  }

  ghost predicate ClusterRun(lib: Library, run: seq<System>) {
    run != [] && Start(lib, run[0]) && ClusterLinks(lib, run)
  }

  ghost predicate AnyRun(lib: Library, run: seq<System>) {
    run != [] && Start(lib, run[0]) && AnyLinks(lib, run)
  }

  /** A run as far as one object is concerned. */
  ghost predicate RunAt(lib: Library, run: seq<System>, t: Target, foreign: bool) {
    run != [] && Orderly(lib, run[0]) && O.Fresh(ViewOf(lib, run[0], t)) && LinksAt(lib, run, t, foreign)
  }

  function Last(run: seq<System>): System
    requires run != []
  {
    run[|run| - 1]
  }

  lemma StartIsFresh(lib: Library, s: System, t: Target)
    requires Start(lib, s) && Valid(t)
    ensures O.Fresh(ViewOf(lib, s, t))
  {
  }

  /** The step keeps the order. */
  ghost predicate KeepsOrder(lib: Library, s: System, s': System) {
    Orderly(lib, s) ==> Orderly(lib, s')
  }

  lemma AnyLinksKeepOrder(lib: Library, run: seq<System>)
    requires Dependable(lib) && AnyLinks(lib, run)
    ensures forall i :: 0 < i < |run| ==> KeepsOrder(lib, run[i - 1], run[i])
  {
    forall i | 0 < i < |run| ensures KeepsOrder(lib, run[i - 1], run[i]) {
      assert AnyLink(lib, run, i - 1);
      if Orderly(lib, run[i - 1]) { Projection.AnyStepKeepsOrder(lib, run[i - 1], run[i]); }
    }
  }

  lemma {:induction false} OrderlyThrough(lib: Library, run: seq<System>, n: nat)
    requires n < |run| && Orderly(lib, run[0])
    requires forall i :: 0 < i < |run| ==> KeepsOrder(lib, run[i - 1], run[i])
    ensures forall i :: 0 <= i <= n ==> Orderly(lib, run[i])
  {
    if n > 0 {
      OrderlyThrough(lib, run, n - 1);
      assert KeepsOrder(lib, run[n - 1], run[n]);
    }
  }

  /** The order lasts through the run. */
  lemma AnyRunOrderly(lib: Library, run: seq<System>)
    requires Dependable(lib) && AnyRun(lib, run)
    ensures forall i :: 0 <= i < |run| ==> Orderly(lib, run[i])
  {
    AnyLinksKeepOrder(lib, run);
    OrderlyThrough(lib, run, |run| - 1);
  }

  /** A run of the system is a run as far as each object is concerned. */
  lemma AnyRunIsLocal(lib: Library, run: seq<System>, t: Target)
    requires Dependable(lib) && AnyRun(lib, run) && Valid(t)
    ensures RunAt(lib, run, t, true)
    ensures ClusterRun(lib, run) ==> RunAt(lib, run, t, false)
  {
    AnyRunOrderly(lib, run);
    StartIsFresh(lib, run[0], t);
    forall i | 0 <= i < |run| - 1
      ensures LinkAt(lib, run, i, t, true) && (ClusterRun(lib, run) ==> LinkAt(lib, run, i, t, false))
    {
      assert AnyLink(lib, run, i);
      assert Orderly(lib, run[i]);
      Projection.AnyStepIsLocal(lib, run[i], run[i + 1], t);
      if ClusterRun(lib, run) { assert ClusterLink(lib, run, i); }
    }
  }

  lemma ClusterRunIsAny(lib: Library, run: seq<System>)
    requires ClusterRun(lib, run)
    ensures AnyRun(lib, run)
  {
    forall i | 0 <= i < |run| - 1 ensures AnyLink(lib, run, i) {
      assert ClusterLink(lib, run, i);
    }
  }

  // ---------- invariants ----------

  ghost predicate SoundAt(lib: Library, s: System, t: Target, foreign: bool) {
    var v := ViewOf(lib, s, t);
    && Orderly(lib, s)
    && O.Sound(HashOf(lib), v)
    && O.QueueAgrees(HashOf(lib), ReadOf(lib), v)
    && (!foreign ==> O.CacheSound(HashOf(lib), ReadOf(lib), v))
  }

  lemma RestartSound(lib: Library, v: O.View)
    requires O.Sound(HashOf(lib), v) && O.RestartSafe(v)
    ensures O.Sound(HashOf(lib), O.Restarted(v))
    ensures O.QueueAgrees(HashOf(lib), ReadOf(lib), O.Restarted(v))
    ensures O.CacheSound(HashOf(lib), ReadOf(lib), O.Restarted(v))
  {
    O.RestartHealsIff(HashOf(lib), v);
  }

  lemma SoundAtStep(lib: Library, s: System, s': System, t: Target, foreign: bool)
    requires Dependable(lib) && Valid(t) && SoundAt(lib, s, t, foreign) && Projection.StepAt(lib, s, s', t, foreign)
    ensures SoundAt(lib, s', t, foreign)
  {
    Projection.StepAtKeepsOrder(lib, s, s', t, foreign);
    Projection.StepAtProjects(lib, s, s', t, foreign);
    var v, v' := ViewOf(lib, s, t), ViewOf(lib, s', t);
    if v' == O.Restarted(v) && O.RestartSafe(v) {
      RestartSound(lib, v);
    } else {
      O.SoundStep(HashOf(lib), ReadOf(lib), v, v');
      O.QueueAgreesStep(HashOf(lib), ReadOf(lib), v, v');
      if !foreign { O.CacheSoundStep(HashOf(lib), ReadOf(lib), v, v'); }
    }
  }

  lemma FreshIsSound(lib: Library, s: System, t: Target, foreign: bool)
    requires Orderly(lib, s) && O.Fresh(ViewOf(lib, s, t))
    ensures SoundAt(lib, s, t, foreign)
  {
  }

  /** The step keeps the invariant. */
  ghost predicate KeepsSound(lib: Library, s: System, s': System, t: Target, foreign: bool) {
    SoundAt(lib, s, t, foreign) ==> SoundAt(lib, s', t, foreign)
  }

  lemma LinksKeepSound(lib: Library, run: seq<System>, t: Target, foreign: bool)
    requires Dependable(lib) && Valid(t) && LinksAt(lib, run, t, foreign)
    ensures forall i :: 0 < i < |run| ==> KeepsSound(lib, run[i - 1], run[i], t, foreign)
  {
    forall i | 0 < i < |run| ensures KeepsSound(lib, run[i - 1], run[i], t, foreign) {
      assert LinkAt(lib, run, i - 1, t, foreign);
      if SoundAt(lib, run[i - 1], t, foreign) { SoundAtStep(lib, run[i - 1], run[i], t, foreign); }
    }
  }

  lemma {:induction false} SoundThrough(lib: Library, run: seq<System>, n: nat, t: Target, foreign: bool)
    requires n < |run| && SoundAt(lib, run[0], t, foreign)
    requires forall i :: 0 < i < |run| ==> KeepsSound(lib, run[i - 1], run[i], t, foreign)
    ensures forall i :: 0 <= i <= n ==> SoundAt(lib, run[i], t, foreign)
  {
    if n > 0 {
      SoundThrough(lib, run, n - 1, t, foreign);
      assert KeepsSound(lib, run[n - 1], run[n], t, foreign);
    }
  }

  /** The invariant over cache, stamp, queue, file and unserved pushes holds in every reachable state. */
  lemma RunAtSound(lib: Library, run: seq<System>, t: Target, foreign: bool)
    requires Dependable(lib) && Valid(t) && RunAt(lib, run, t, foreign)
    ensures forall i :: 0 <= i < |run| ==> SoundAt(lib, run[i], t, foreign)
  {
    FreshIsSound(lib, run[0], t, foreign);
    LinksKeepSound(lib, run, t, foreign);
    SoundThrough(lib, run, |run| - 1, t, foreign);
  }

  /** It holds at the end, in particular. */
  lemma EndsSound(lib: Library, run: seq<System>, t: Target, foreign: bool)
    requires Dependable(lib) && Valid(t) && RunAt(lib, run, t, foreign)
    ensures SoundAt(lib, Last(run), t, foreign)
  {
    RunAtSound(lib, run, t, foreign);
    assert SoundAt(lib, run[|run| - 1], t, foreign);
  }

  /** The operation most recently queued for the path, while it is under way. */
  function LatestOp(s: System, p: string): Option<PendingExport> {
    if p in s.memory.pending then Some(s.memory.pending[p])
    else if s.batch.Some? then Lookup(s.batch.value, p)
    else None
  }

  /** A file with the given content is what the export of some material with the cached digest reads as. */
  ghost predicate HoldsCached(lib: Library, content: string, cached: Option<string>) {
    exists m: Fields :: cached == Some(HashOf(lib)(m)) && Material(lib, content) == ReadOf(lib)(m)
  }

  /** In every run, whatever others push, an operation under way for an object is a write of the very
      material whose digest is cached, or an archive operation and nothing is cached. */
  lemma CacheMatchesQueue(lib: Library, run: seq<System>, t: Target)
    requires Dependable(lib) && Valid(t) && RunAt(lib, run, t, true)
    ensures var s := Last(run);
            var cached := Lookup(s.memory.cache, CacheKeyOf(t));
            match LatestOp(s, PathOf(t))
            case None => true
            case Some(Write(content)) => Deployable(lib, t, content) && HoldsCached(lib, content, cached)
            case Some(Archive) => cached == None
  {
    EndsSound(lib, run, t, true);
    LatestInView(lib, Last(run), t, PathOf(t), CacheKeyOf(t));
    if LatestOp(Last(run), PathOf(t)).Some? {
      LatestOpFits(lib, Last(run), t);
    }
  }

  lemma LatestInView(lib: Library, s: System, t: Target, p: string, key: string)
    requires O.QueueAgrees(HashOf(lib), ReadOf(lib), ViewAt(lib, s, t, p, key))
    ensures var cached := Lookup(s.memory.cache, key);
            match LatestOp(s, p)
            case None => true
            case Some(Write(content)) => HoldsCached(lib, content, cached)
            case Some(Archive) => cached == None
  {
    var v := ViewAt(lib, s, t, p, key);
    if LatestOp(s, p).Some? && LatestOp(s, p).value.Write? {
      var content := LatestOp(s, p).value.content;
      assert O.Latest(v) == Some(O.Put(Material(lib, content)));
      assert O.ExportOf(HashOf(lib), ReadOf(lib), v.cache, Material(lib, content));
    }
  }

  lemma LatestOpFits(lib: Library, s: System, t: Target)
    requires Orderly(lib, s) && Valid(t) && LatestOp(s, PathOf(t)).Some?
    ensures OpFits(lib, PathOf(t), LatestOp(s, PathOf(t)).value)
    ensures ParseInventoryExportPath(PathOf(t)) == Some(t)
  {
    RoundTrip(t);
  }

  /** The content of the file once everything queued has landed. */
  function Promised(s: System, p: string): Option<string> {
    match LatestOp(s, p)
    case Some(Write(content)) => Some(content)
    case Some(Archive) => None
    case None => Lookup(s.remote, p)
  }

  /** As long as nobody else changes an object's file, a cached digest is that of the material whose export
      the file holds or will hold. */
  lemma CacheMatchesGit(lib: Library, run: seq<System>, t: Target)
    requires Dependable(lib) && Valid(t) && RunAt(lib, run, t, false)
    ensures var s := Last(run);
            var cached := Lookup(s.memory.cache, CacheKeyOf(t));
            cached.Some? ==> Promised(s, PathOf(t)).Some? && HoldsCached(lib, Promised(s, PathOf(t)).value, cached)
  {
    EndsSound(lib, run, t, false);
    PromisedInView(lib, Last(run), t, PathOf(t), CacheKeyOf(t));
  }

  lemma PromisedInView(lib: Library, s: System, t: Target, p: string, key: string)
    requires O.CacheSound(HashOf(lib), ReadOf(lib), ViewAt(lib, s, t, p, key))
    ensures var cached := Lookup(s.memory.cache, key);
            cached.Some? ==> Promised(s, p).Some? && HoldsCached(lib, Promised(s, p).value, cached)
  {
    var v := ViewAt(lib, s, t, p, key);
    if v.cache.Some? {
      assert O.ExportOf(HashOf(lib), ReadOf(lib), v.cache, O.Goal(v).value);
      assert Promised(s, p).Some? && O.Goal(v) == Some(Material(lib, Promised(s, p).value));
    }
  }

  // ---------- agreement ----------

  /** No event, queued operation, running flush or unserved push is left. */
  predicate Quiet(s: System) {
    s.dirty == {} && s.memory.pending == map[] && s.batch.None? && s.pushes == []
  }

  /** Nothing of that is left for the object. */
  predicate QuietAt(lib: Library, s: System, t: Target) {
    && t !in s.dirty && LatestOp(s, PathOf(t)).None?
    && NotesAt(lib, s.pushes, PathOf(t)) == []
  }

  /** The file of the object carries the object's material; an absent object has no file. */
  predicate AgreesAt(lib: Library, s: System, t: Target) {
    match Lookup(s.objects, t)
    case None => PathOf(t) !in s.remote
    case Some(obj) => PathOf(t) in s.remote && Material(lib, s.remote[PathOf(t)]) == Normalized(obj)
  }

  /** The object came from Git as it is, or its export reads as itself. */
  predicate ExportsTruly(lib: Library, s: System, t: Target) {
    t in s.objects ==> StampMatches(lib, s.objects[t]) || TrimSafe(lib, s.objects[t])
  }

  lemma QuietViews(lib: Library, s: System, t: Target)
    requires QuietAt(lib, s, t)
    ensures O.Quiet(ViewOf(lib, s, t))
    ensures O.Agreed(ViewOf(lib, s, t)) <==> AgreesAt(lib, s, t)
  {
  }

  /** The cached digest, if any, is that of the file in Git. */
  predicate CacheFresh(lib: Library, s: System, t: Target) {
    CacheKeyOf(t) in s.memory.cache ==>
      PathOf(t) in s.remote && s.memory.cache[CacheKeyOf(t)] == HashOf(lib)(Material(lib, s.remote[PathOf(t)]))
  }

  /** Agreement at rest, with pushes from both sides, exactly: cluster and Git agree on an object if, and only
      if, it is absent, or carries its own digest as stamp, or its cached digest is not stale. */
  lemma ConvergesBothSides(lib: Library, run: seq<System>, t: Target)
    requires CollisionFree(lib) && Dependable(lib)
    requires Valid(t) && RunAt(lib, run, t, true) && QuietAt(lib, Last(run), t)
    ensures var s := Last(run);
            AgreesAt(lib, s, t) <==>
            t !in s.objects || StampMatches(lib, s.objects[t]) || CacheFresh(lib, s, t)
  {
    EndsSound(lib, run, t, true);
    HashOfInjective(lib);
    QuietViews(lib, Last(run), t);
    O.QuietAgreesIff(HashOf(lib), ViewOf(lib, Last(run), t));
  }

  /** Where an object rests whose file nobody else has changed. */
  lemma RestsTruly(lib: Library, s: System, t: Target)
    requires CollisionFree(lib) && Dependable(lib) && Valid(t) && QuietAt(lib, s, t) && SoundAt(lib, s, t, false)
    ensures AgreesAt(lib, s, t) <==> ExportsTruly(lib, s, t)
  {
    HashOfInjective(lib);
    QuietViews(lib, s, t);
    O.QuietExportedIff(HashOf(lib), ReadOf(lib), ViewOf(lib, s, t));
    if t in s.objects { ExportDeployable(lib, t, s.objects[t]); }
  }

  /** Convergence of one object, exactly, in every run that spares it: others' pushes leave its file as it
      was, no flush races at its path, no restart loses its archive operation. Whatever happens to other
      objects, once nothing is left to do for this one, cluster and Git agree on it if, and only if, it is
      absent, or came from Git as it is, or its export can be trimmed without harm. */
  lemma ConvergesAt(lib: Library, run: seq<System>, t: Target)
    requires CollisionFree(lib) && Dependable(lib)
    requires Valid(t) && RunAt(lib, run, t, false) && QuietAt(lib, Last(run), t)
    ensures AgreesAt(lib, Last(run), t) <==> ExportsTruly(lib, Last(run), t)
  {
    EndsSound(lib, run, t, false);
    RestsTruly(lib, Last(run), t);
  }

  lemma QuietEverywhere(lib: Library, s: System, t: Target)
    requires Quiet(s)
    ensures QuietAt(lib, s, t)
  {
  }

  ghost predicate InAgreement(lib: Library, s: System) {
    forall t :: Valid(t) ==> AgreesAt(lib, s, t)
  }

  /** Convergence: in every run with cluster-side edits, in which flushes may fail (but not race) and the
      controller may restart (while Git holds no file of an absent object that no unserved push speaks of),
      every state at rest has each object's material in Git at its path, and no file for an absent object,
      provided that what the objects export reads as themselves; and only then. */
  lemma Converges(lib: Library, run: seq<System>)
    requires CollisionFree(lib) && Dependable(lib)
    requires ClusterRun(lib, run) && Quiet(Last(run))
    ensures forall t :: Valid(t) ==> (AgreesAt(lib, Last(run), t) <==> ExportsTruly(lib, Last(run), t))
    ensures InAgreement(lib, Last(run)) <==> forall t :: Valid(t) ==> ExportsTruly(lib, Last(run), t)
  {
    ClusterRunIsAny(lib, run);
    forall t | Valid(t) ensures AgreesAt(lib, Last(run), t) <==> ExportsTruly(lib, Last(run), t) {
      AnyRunIsLocal(lib, run, t);
      QuietEverywhere(lib, Last(run), t);
      ConvergesAt(lib, run, t);
    }
  }

  // ---------- the stale cache ----------

  /** The file that the queue and Git promise for the object carries the material. */
  predicate Exported(lib: Library, s: System, t: Target, m: Fields) {
    Promised(s, PathOf(t)).Some? && Material(lib, Promised(s, PathOf(t)).value) == m
  }

  lemma ExportedIsGoal(lib: Library, s: System, t: Target, m: Fields)
    ensures Exported(lib, s, t, m) <==> O.Goal(ViewOf(lib, s, t)) == Some(m)
  {
  }

  /** The stale cache, exactly: at rest, after any run with pushes from both sides, an edit that leaves an
      object is exported by its event, or is in Git already, if, and only if, it is not the case that the
      cache holds the edit's digest while Git holds another material. (What its export reads as counts as
      the edit here.) */
  lemma EditReachesGitIff(lib: Library, run: seq<System>, t: Target, obj: Fields, edited: System, after: System)
    requires CollisionFree(lib) && Dependable(lib) && RunAt(lib, run, t, true) && QuietAt(lib, Last(run), t)
    requires Edit(Last(run), t, Some(obj), edited) && Event(lib, edited, t, after)
    ensures var s, m := Last(run), Normalized(obj);
            Exported(lib, after, t, m) || Exported(lib, after, t, ReadOf(lib)(m)) <==>
            !(&& Lookup(s.memory.cache, CacheKeyOf(t)) == Some(ObjectHash(lib, obj))
              && !Exported(lib, s, t, m) && !Exported(lib, s, t, ReadOf(lib)(m)))
  {
    var s, m := Last(run), Normalized(obj);
    EndsSound(lib, run, t, true);
    HashOfInjective(lib);
    QuietViews(lib, s, t);
    Projection.EditProjects(lib, s, t, Some(obj), edited, t);
    Projection.EventProjects(lib, edited, t, after, t);
    O.EditExportedIff(HashOf(lib), ReadOf(lib), ViewOf(lib, s, t), ViewOf(lib, edited, t));
    ExportedIsGoal(lib, after, t, m);
    ExportedIsGoal(lib, after, t, ReadOf(lib)(m));
    ExportedIsGoal(lib, s, t, m);
    ExportedIsGoal(lib, s, t, ReadOf(lib)(m));
  }

  // ---------- anything goes ----------

  /** The oldest push is served in a world where any request may fail or do as it likes, or is lost. */
  ghost predicate ServesBadly(lib: Library, s: System, w: World, added: seq<string>, removed: seq<string>, s': System) {
    && s.pushes != []
    && s'.objects == Served(lib, w, s.objects, added, removed)
    && EventsOf(s, s'.objects, added, s'.dirty)
    && s' == s.(objects := s'.objects, dirty := s'.dirty, pushes := s.pushes[1..])
  }

  /** Any step, with faults of every kind: lost and failing webhooks, flushes that fail while they race,
      restarts at any time. */
  ghost predicate RoughStep(lib: Library, s: System, s': System) {
    || AnyStep(lib, s, s')
    || (exists w, added, removed :: ServesBadly(lib, s, w, added, removed, s'))
    || (exists order, commits :: FailFlush(s, order, commits, s'))
    || Restart(s, s')
  }

  ghost predicate RoughLink(lib: Library, run: seq<System>, i: int)
    requires 0 <= i < |run| - 1
  {
    RoughStep(lib, run[i], run[i + 1])
  }

  ghost predicate RoughLinks(lib: Library, run: seq<System>) {
    forall i :: 0 <= i < |run| - 1 ==> RoughLink(lib, run, i)
  }

  ghost predicate RoughRun(lib: Library, run: seq<System>) {
    && run != [] && run[0].objects.Keys <= run[0].dirty && (forall t :: t in run[0].dirty ==> Named(t))
    && RoughLinks(lib, run)
  }

  /** The controller has seen the object: by its stamp or by the cache. */
  predicate Recognised(lib: Library, s: System, t: Target) {
    t in s.objects && t !in s.dirty ==>
      StampMatches(lib, s.objects[t]) || Lookup(s.memory.cache, CacheKeyOf(t)) == Some(ObjectHash(lib, s.objects[t]))
  }

  predicate AllNamed(s: System) {
    (forall t :: t in s.objects ==> Named(t)) && (forall t :: t in s.dirty ==> Named(t))
  }

  lemma EventRecognises(lib: Library, s: System, u: Target, s': System, t: Target)
    requires AllNamed(s) && Named(t) && Recognised(lib, s, t) && Event(lib, s, u, s')
    ensures AllNamed(s') && Recognised(lib, s', t)
  {
    if u != t { Inventory.EventIsLocal(lib, s.memory, u, Lookup(s.objects, u), t); }
  }

  /** Steps that leave the cache alone and put every changed object into the queue of events. */
  lemma OtherStepRecognises(lib: Library, s: System, s': System, t: Target)
    requires AllNamed(s) && Named(t) && Recognised(lib, s, t)
    requires Announced(s, s')
    ensures AllNamed(s') && Recognised(lib, s', t)
  {
    assert Lookup(s'.objects, t) != Lookup(s.objects, t) ==> t in s'.dirty;
    forall u | u in s'.objects ensures Named(u) {
      if Lookup(s'.objects, u) == Lookup(s.objects, u) { assert u in s.objects; }
    }
  }

  lemma RoughStepRecognises(lib: Library, s: System, s': System, t: Target)
    requires AllNamed(s) && Named(t) && Recognised(lib, s, t) && RoughStep(lib, s, s')
    ensures AllNamed(s') && Recognised(lib, s', t)
  {
    if u :| Event(lib, s, u, s') {
      EventRecognises(lib, s, u, s', t);
    } else if Restart(s, s') {
    } else {
      QuietStep(lib, s, s');
      OtherStepRecognises(lib, s, s', t);
    }
  }

  /** The step puts every changed object, and nothing without a name, into the queue of events. */
  predicate Announced(s: System, s': System) {
    && s'.memory.cache == s.memory.cache && s.dirty <= s'.dirty
    && (forall u :: u in s'.dirty && u !in s.dirty ==> Named(u))
    && (forall u :: u in s.objects.Keys + s'.objects.Keys && Lookup(s'.objects, u) != Lookup(s.objects, u) ==> u in s'.dirty)
  }

  lemma InternalAnnounced(lib: Library, s: System, s': System)
    requires InternalStep(lib, s, s') && forall u :: !Event(lib, s, u, s')
    ensures Announced(s, s')
  {
  }

  lemma QuietStep(lib: Library, s: System, s': System)
    requires RoughStep(lib, s, s') && !Restart(s, s') && forall u :: !Event(lib, s, u, s')
    ensures Announced(s, s')
  {
    if InternalStep(lib, s, s') {
      InternalAnnounced(lib, s, s');
    } else if w, added, removed :| ServesBadly(lib, s, w, added, removed, s') {
    } else if order, commits :| FailFlush(s, order, commits, s') {
    } else if u, obj :| Edit(s, u, obj, s') {
    } else {
      var files, commits :| Commits(lib, s, files, commits, s');
    }
  }

  ghost predicate RecognisedNamed(lib: Library, s: System, t: Target) {
    AllNamed(s) && Recognised(lib, s, t)
  }

  /** The step keeps the object recognised. */
  ghost predicate KeepsRecognised(lib: Library, s: System, s': System, t: Target) {
    RecognisedNamed(lib, s, t) ==> RecognisedNamed(lib, s', t)
  }

  lemma RoughLinksRecognise(lib: Library, run: seq<System>, t: Target)
    requires Named(t) && RoughLinks(lib, run)
    ensures forall i :: 0 < i < |run| ==> KeepsRecognised(lib, run[i - 1], run[i], t)
  {
    forall i | 0 < i < |run| ensures KeepsRecognised(lib, run[i - 1], run[i], t) {
      assert RoughLink(lib, run, i - 1);
      if RecognisedNamed(lib, run[i - 1], t) { RoughStepRecognises(lib, run[i - 1], run[i], t); }
    }
  }

  lemma {:induction false} RecognisedThrough(lib: Library, run: seq<System>, n: nat, t: Target)
    requires n < |run| && RecognisedNamed(lib, run[0], t)
    requires forall i :: 0 < i < |run| ==> KeepsRecognised(lib, run[i - 1], run[i], t)
    ensures forall i :: 0 <= i <= n ==> RecognisedNamed(lib, run[i], t)
  {
    if n > 0 {
      RecognisedThrough(lib, run, n - 1, t);
      assert KeepsRecognised(lib, run[n - 1], run[n], t);
    }
  }

  lemma RoughRunRecognises(lib: Library, run: seq<System>, t: Target)
    requires RoughRun(lib, run) && Named(t)
    ensures Recognised(lib, Last(run), t)
  {
    RoughLinksRecognise(lib, run, t);
    RecognisedThrough(lib, run, |run| - 1, t);
    assert RecognisedNamed(lib, run[|run| - 1], t);
  }

  /** Agreement in spite of everything: after any run whatsoever, an object without an open event agrees with
      Git if, and only if, its file has the digest by which the controller knows the object, be it the stamp
      or the cached one. */
  lemma AgreesRoughlyIff(lib: Library, run: seq<System>, t: Target)
    requires CollisionFree(lib) && RoughRun(lib, run) && Named(t)
    requires t in Last(run).objects && t !in Last(run).dirty
    ensures var s := Last(run);
            var known := if StampMatches(lib, s.objects[t]) then StampOf(s.objects[t])
                         else Lookup(s.memory.cache, CacheKeyOf(t));
            AgreesAt(lib, s, t)
            <==> PathOf(t) in s.remote && known == Some(HashOf(lib)(Material(lib, s.remote[PathOf(t)])))
  {
    RoughRunRecognises(lib, run, t);
    HashOfInjective(lib);
  }
}
