/** The loop breaks: left alone, the two controllers finish after finitely many steps in every
    interleaving, they never get stuck before, and they finish in agreement. */
module Termination {
  import opened Wrappers
  import Text
  import opened Paths
  import opened Tree
  import opened Normalize
  import opened Apply
  import Inventory
  import opened Push
  import opened Webhook
  import opened Protocol
  import opened Projection
  import opened Convergence
  import O = OneObject

  // ---------- sums over objects ----------

  ghost function Sum(U: set<Target>, f: Target -> nat): nat {
    if U == {} then 0
    else
      var x :| x in U;
      f(x) + Sum(U - {x}, f)
  }

  lemma {:induction false} SumSplit(U: set<Target>, f: Target -> nat, x: Target)
    requires x in U
    ensures Sum(U, f) == f(x) + Sum(U - {x}, f)
  {
    var y :| y in U && Sum(U, f) == f(y) + Sum(U - {y}, f);
    if y != x {
      SumSplit(U - {y}, f, x);
      SumSplit(U - {x}, f, y);
      assert U - {y} - {x} == U - {x} - {y};
    }
  }

  lemma {:induction false} SumMonotone(U: set<Target>, f: Target -> nat, g: Target -> nat)
    requires forall t :: t in U ==> g(t) <= f(t)
    ensures Sum(U, g) <= Sum(U, f)
    decreases |U|
  {
    if U != {} {
      var x :| x in U;
      SumSplit(U, f, x);
      SumSplit(U, g, x);
      SumMonotone(U - {x}, f, g);
    }
  }

  lemma SumDrops(U: set<Target>, f: Target -> nat, g: Target -> nat, x: Target, d: nat)
    requires forall t :: t in U ==> g(t) <= f(t)
    requires x in U && g(x) + d <= f(x)
    ensures Sum(U, g) + d <= Sum(U, f)
  {
    SumSplit(U, f, x);
    SumSplit(U, g, x);
    SumMonotone(U - {x}, f, g);
  }

  // ---------- the measure ----------

  /** The positions of fields that merging can give an object. */
  type Rooms = Target -> set<seq<string>>

  ghost function Weights(lib: Library, rooms: Rooms, s: System): Target -> nat {
    t => O.Weight(HashOf(lib), rooms(t), ViewOf(lib, s, t))
  }

  /** Every object has room for all fields that are on their way to it. */
  ghost predicate Roomy(lib: Library, rooms: Rooms, s: System) {
    forall t :: Valid(t) ==> O.Fits(rooms(t), ViewOf(lib, s, t))
  }

  /** Exports have all the fields of their objects. */
  lemma SteadyAt(lib: Library, s: System, t: Target)
    requires Dependable(lib) && Orderly(lib, s)
    ensures O.Steady(ReadOf(lib), ViewOf(lib, s, t))
  {
    if t in s.objects { ExportDeployable(lib, t, s.objects[t]); }
  }

  lemma RoomyStays(lib: Library, rooms: Rooms, s: System, s': System)
    requires Dependable(lib) && Orderly(lib, s) && InternalStep(lib, s, s') && Roomy(lib, rooms, s)
    ensures Roomy(lib, rooms, s')
  {
    forall t | Valid(t) ensures O.Fits(rooms(t), ViewOf(lib, s', t)) {
      InternalProjects(lib, s, s', t);
      SteadyAt(lib, s, t);
      O.FitsStays(HashOf(lib), ReadOf(lib), rooms(t), ViewOf(lib, s, t), ViewOf(lib, s', t));
    }
  }

  /** Work left: what each object can still cause, and the pushes to serve. */
  ghost function Total(lib: Library, rooms: Rooms, s: System, U: set<Target>): nat {
    |s.pushes| + Sum(U, Weights(lib, rooms, s))
  }

  /** Nothing in the system concerns the object. */
  predicate Idle(v: O.View) {
    v.obj.None? && !v.dirty && v.pend.None? && v.batch.None? && v.file.None? && v.queue == []
  }

  /** `U` holds every object that the system knows anything about. */
  ghost predicate Covers(lib: Library, s: System, U: set<Target>) {
    && (forall t :: t in U ==> Valid(t))
    && (forall t :: Valid(t) && t !in U ==> Idle(ViewOf(lib, s, t)))
  }

  lemma IdleStays(h: O.Hash, e: O.Reading, v: O.View, v': O.View)
    requires Idle(v) && O.Internal(h, e, v, v')
    ensures Idle(v')
  {
  }

  lemma CoversStep(lib: Library, s: System, s': System, U: set<Target>)
    requires Dependable(lib) && Orderly(lib, s) && InternalStep(lib, s, s') && Covers(lib, s, U)
    ensures Covers(lib, s', U)
  {
    forall t | Valid(t) && t !in U ensures Idle(ViewOf(lib, s', t)) {
      InternalProjects(lib, s, s', t);
      IdleStays(HashOf(lib), ReadOf(lib), ViewOf(lib, s, t), ViewOf(lib, s', t));
    }
  }

  lemma EventUses(lib: Library, rooms: Rooms, s: System, t: Target, s': System, U: set<Target>)
    requires Dependable(lib) && Orderly(lib, s) && Event(lib, s, t, s') && Covers(lib, s, U)
    ensures Total(lib, rooms, s', U) < Total(lib, rooms, s, U)
  {
    SteadyAt(lib, s, t);
    forall u | u in U ensures Weights(lib, rooms, s')(u) <= Weights(lib, rooms, s)(u) {
      EventProjects(lib, s, t, s', u);
      if u == t { O.ReconcileUsesWeight(HashOf(lib), ReadOf(lib), rooms(u), ViewOf(lib, s, u)); }
    }
    EventProjects(lib, s, t, s', t);
    O.ReconcileUsesWeight(HashOf(lib), ReadOf(lib), rooms(t), ViewOf(lib, s, t));
    SumDrops(U, Weights(lib, rooms, s), Weights(lib, rooms, s'), t, 1);
  }

  lemma OpTarget(lib: Library, ops: Ops, p: string) returns (t: Target)
    requires OrderlyOps(lib, ops) && p in ops
    ensures Valid(t) && PathOf(t) == p
  {
    assert OpFits(lib, p, ops[p]);
    t := ParseInventoryExportPath(p).value;
  }

  lemma BeginUses(lib: Library, rooms: Rooms, s: System, s': System, U: set<Target>)
    requires Orderly(lib, s) && BeginFlush(s, s') && Covers(lib, s, U)
    ensures Total(lib, rooms, s', U) < Total(lib, rooms, s, U)
  {
    forall u | u in U ensures Weights(lib, rooms, s')(u) <= Weights(lib, rooms, s)(u) {
      BeginProjects(lib, s, s', u);
      O.BeginUsesWeight(HashOf(lib), rooms(u), ViewOf(lib, s, u), ViewOf(lib, s', u));
    }
    var p :| p in s.memory.pending;
    var t := OpTarget(lib, s.memory.pending, p);
    BeginProjects(lib, s, s', t);
    O.BeginUsesWeight(HashOf(lib), rooms(t), ViewOf(lib, s, t), ViewOf(lib, s', t));
    SumDrops(U, Weights(lib, rooms, s), Weights(lib, rooms, s'), t, 1);
  }

  lemma EndUses(lib: Library, rooms: Rooms, s: System, order: seq<string>, commits: seq<Commit>, s': System, U: set<Target>)
    requires Orderly(lib, s) && EndFlush(s, order, commits, s') && Covers(lib, s, U)
    ensures Total(lib, rooms, s', U) < Total(lib, rooms, s, U)
  {
    forall u | u in U ensures Weights(lib, rooms, s')(u) <= Weights(lib, rooms, s)(u) {
      EndProjects(lib, s, order, commits, s', u);
      O.LandingUsesWeight(HashOf(lib), rooms(u), ViewOf(lib, s, u), ViewOf(lib, s', u));
    }
    var p :| p in s.batch.value;
    var t := OpTarget(lib, s.batch.value, p);
    EndProjects(lib, s, order, commits, s', t);
    O.LandingUsesWeight(HashOf(lib), rooms(t), ViewOf(lib, s, t), ViewOf(lib, s', t));
    SumDrops(U, Weights(lib, rooms, s), Weights(lib, rooms, s'), t, 2);
  }

  lemma ServeUses(lib: Library, rooms: Rooms, s: System, w: World, added: seq<string>, removed: seq<string>, s': System, U: set<Target>)
    requires Orderly(lib, s) && Serves(lib, s, w, added, removed, s') && Covers(lib, s, U)
    requires Roomy(lib, rooms, s)
    ensures Total(lib, rooms, s', U) < Total(lib, rooms, s, U)
  {
    forall u | u in U ensures Weights(lib, rooms, s')(u) <= Weights(lib, rooms, s)(u) {
      ServesProjects(lib, s, w, added, removed, s', u);
      if O.Served(HashOf(lib), ViewOf(lib, s, u), ViewOf(lib, s', u)) {
        O.ServingUsesWeight(HashOf(lib), rooms(u), ViewOf(lib, s, u), ViewOf(lib, s', u));
      }
    }
    SumMonotone(U, Weights(lib, rooms, s), Weights(lib, rooms, s'));
  }

  /** Every step that the controllers take by themselves uses up some of the work left. */
  lemma InternalStepUses(lib: Library, rooms: Rooms, s: System, s': System, U: set<Target>)
    requires Dependable(lib) && Orderly(lib, s) && InternalStep(lib, s, s') && Covers(lib, s, U)
    requires Roomy(lib, rooms, s)
    ensures Total(lib, rooms, s', U) < Total(lib, rooms, s, U)
  {
    if t :| Event(lib, s, t, s') {
      EventUses(lib, rooms, s, t, s', U);
    } else if BeginFlush(s, s') {
      BeginUses(lib, rooms, s, s', U);
    } else if order, commits :| EndFlush(s, order, commits, s') {
      EndUses(lib, rooms, s, order, commits, s', U);
    } else {
      var w, added, removed :| Serves(lib, s, w, added, removed, s');
      ServeUses(lib, rooms, s, w, added, removed, s', U);
    }
  }

  ghost predicate InternalLink(lib: Library, run: seq<System>, i: int)
    requires 0 <= i < |run| - 1
  {
    InternalStep(lib, run[i], run[i + 1])
  }

  ghost predicate InternalRun(lib: Library, run: seq<System>) {
    run != [] && forall i :: 0 <= i < |run| - 1 ==> InternalLink(lib, run, i)
  }

  /** What is kept along a run, and how the work left goes down with every step. */
  ghost predicate WorksOff(lib: Library, rooms: Rooms, U: set<Target>, total: nat, s: System, i: int) {
    && Orderly(lib, s) && Covers(lib, s, U) && Roomy(lib, rooms, s)
    && i + Total(lib, rooms, s, U) <= total
  }

  lemma InternalLinkUses(lib: Library, rooms: Rooms, run: seq<System>, i: nat, U: set<Target>, total: nat)
    requires i < |run| - 1 && Dependable(lib) && InternalRun(lib, run)
    requires WorksOff(lib, rooms, U, total, run[i], i)
    ensures WorksOff(lib, rooms, U, total, run[i + 1], i + 1)
  {
    assert InternalLink(lib, run, i);
    InternalUses(lib, rooms, run[i], run[i + 1], i, U, total);
  }

  lemma InternalUses(lib: Library, rooms: Rooms, s: System, s': System, i: nat, U: set<Target>, total: nat)
    requires Dependable(lib) && InternalStep(lib, s, s') && WorksOff(lib, rooms, U, total, s, i)
    ensures WorksOff(lib, rooms, U, total, s', i + 1)
  {
    InternalStepUses(lib, rooms, s, s', U);
    InternalKeepsOrder(lib, s, s');
    CoversStep(lib, s, s', U);
    RoomyStays(lib, rooms, s, s');
  }

  lemma {:induction false} InternalRunUses(lib: Library, rooms: Rooms, run: seq<System>, n: nat, U: set<Target>, total: nat)
    requires n < |run| && Dependable(lib) && InternalRun(lib, run) && WorksOff(lib, rooms, U, total, run[0], 0)
    ensures WorksOff(lib, rooms, U, total, run[n], n)
  {
    if n > 0 {
      InternalRunUses(lib, rooms, run, n - 1, U, total);
      InternalLinkUses(lib, rooms, run, n - 1, U, total);
    }
  }

  // ---------- a finite cover exists ----------

  function TargetsOf(paths: set<string>): set<Target> {
    set p | p in paths && ParseInventoryExportPath(p).Some? && Valid(ParseInventoryExportPath(p).value)
      :: ParseInventoryExportPath(p).value
  }

  lemma TargetOfPath(paths: set<string>, t: Target)
    requires Valid(t) && PathOf(t) in paths
    ensures t in TargetsOf(paths)
  {
    RoundTrip(t);
  }

  function Mentioned(pushes: seq<Note>): set<string> {
    if pushes == [] then {}
    else AddedPaths(pushes[0].commits) + GonePaths(pushes[0].commits) + Mentioned(pushes[1..])
  }

  lemma {:induction false} NotMentioned(lib: Library, pushes: seq<Note>, p: string)
    requires p !in Mentioned(pushes)
    ensures NotesAt(lib, pushes, p) == []
  {
    if pushes != [] { NotMentioned(lib, pushes[1..], p); }
  }

  /** The paths that occur anywhere in the system. */
  function AllPaths(s: System): set<string> {
    s.memory.pending.Keys + (if s.batch.Some? then s.batch.value.Keys else {}) + s.remote.Keys + Mentioned(s.pushes)
  }

  function Cover(s: System): set<Target> {
    s.objects.Keys + s.dirty + TargetsOf(AllPaths(s))
  }

  lemma CoverCovers(lib: Library, s: System)
    requires Orderly(lib, s)
    ensures Covers(lib, s, Cover(s))
  {
    forall t | Valid(t) && t !in Cover(s) ensures Idle(ViewOf(lib, s, t)) {
      if PathOf(t) in AllPaths(s) { TargetOfPath(AllPaths(s), t); }
      assert PathOf(t) !in AllPaths(s);
      NotMentioned(lib, s.pushes, PathOf(t));
    }
  }

  function ChangePositions(c: Option<O.Change>): set<seq<string>> {
    if c.Some? && c.value.Put? then Positions(Obj(c.value.material)) else {}
  }

  function QueuePositions(queue: seq<O.Change>): set<seq<string>> {
    if queue == [] then {} else ChangePositions(Some(queue[0])) + QueuePositions(queue[1..])
  }

  /** The positions of all fields in sight of the object. */
  function ViewPositions(v: O.View): set<seq<string>> {
    (if v.obj.Some? then Positions(Obj(v.obj.value.material)) else {})
    + ChangePositions(v.pend) + ChangePositions(v.batch) + QueuePositions(v.queue)
  }

  lemma {:induction false} QueueFits(queue: seq<O.Change>)
    ensures forall i :: 0 <= i < |queue| ==> O.ChangeFits(QueuePositions(queue), queue[i])
  {
    if queue != [] {
      var rest := queue[1..];
      QueueFits(rest);
      forall i | 0 <= i < |queue| ensures O.ChangeFits(QueuePositions(queue), queue[i]) {
        if i > 0 { assert O.ChangeFits(QueuePositions(rest), rest[i - 1]); }
      }
    }
  }

  ghost function RoomsOf(lib: Library, s: System): Rooms {
    t => ViewPositions(ViewOf(lib, s, t))
  }

  lemma RoomsAreRoomy(lib: Library, s: System)
    ensures Roomy(lib, RoomsOf(lib, s), s)
  {
    forall t | Valid(t) ensures O.Fits(RoomsOf(lib, s)(t), ViewOf(lib, s, t)) {
      FitsOwnPositions(ViewOf(lib, s, t));
    }
  }

  lemma FitsOwnPositions(v: O.View)
    ensures O.Fits(ViewPositions(v), v)
  {
    QueueFits(v.queue);
    forall i | 0 <= i < |v.queue| ensures O.ChangeFits(ViewPositions(v), v.queue[i]) {
      assert O.ChangeFits(QueuePositions(v.queue), v.queue[i]);
    }
  }

  /** How many steps the controllers can still take by themselves. */
  ghost function Bound(lib: Library, s: System): nat {
    Total(lib, RoomsOf(lib, s), s, Cover(s))
  }

  /** Termination: from any orderly state, every interleaving of events, flushes and webhooks without
      outside changes ends within a bound that the state determines, whether the API server replaces
      objects or merges into them. */
  lemma InternalRunsAreBounded(lib: Library, run: seq<System>)
    requires Dependable(lib) && InternalRun(lib, run) && Orderly(lib, run[0])
    ensures |run| <= Bound(lib, run[0]) + 1
  {
    CoverCovers(lib, run[0]);
    RoomsAreRoomy(lib, run[0]);
    InternalRunUses(lib, RoomsOf(lib, run[0]), run, |run| - 1, Cover(run[0]), Bound(lib, run[0]));
  }

  // ---------- progress ----------

  lemma SortedList(s: set<string>) returns (out: seq<string>)
    ensures Text.Lists(out, s)
  {
    var l := Text.Enumerate(s);
    Text.SortFacts(l);
    out := Text.SortStrings(l);
  }

  lemma Commitment(before: Files, after: Files) returns (commits: seq<Commit>)
    requires forall p :: Lookup(before, p) != Lookup(after, p) ==> p != ""
    ensures Describes(commits, before, after)
  {
    var changed := set p | p in after && Lookup(before, p) != Lookup(after, p);
    var gone := set p | p in before && p !in after;
    var a := Text.Enumerate(changed);
    var r := Text.Enumerate(gone);
    var c := Commit(a, [], r);
    commits := [c];
    assert commits[..0] == [];
    assert AddedPaths(commits) == AddedPaths([]) + Names(a) + Names([]);
    assert RemovedPaths(commits) == RemovedPaths([]) + Names(r);
    assert Names(a) == changed;
    assert forall p :: p in gone ==> Lookup(before, p) != Lookup(after, p);
    assert Names(r) == gone;
  }

  lemma FlushCanEnd(lib: Library, s: System) returns (order: seq<string>, commits: seq<Commit>, s': System)
    requires Orderly(lib, s) && s.batch.Some? && AllClear(s.remote, s.batch.value)
    ensures EndFlush(s, order, commits, s')
  {
    var ops := s.batch.value;
    OrderlyOpsAreLive(lib, ops);
    order := Text.Enumerate(ops.Keys);
    BatchConfluent(s.remote, order, ops);
    var remote := RunOps(s.remote, order, ops).value;
    forall p | Lookup(s.remote, p) != Lookup(remote, p) ensures p != "" {
      assert Lookup(remote, p) == After(s.remote, ops, p);
      assert p in ops ==> LivePath(p);
    }
    commits := Commitment(s.remote, remote);
    s' := s.(batch := None, remote := remote,
             pushes := if remote == s.remote then s.pushes else s.pushes + [Note(commits, remote)]);
  }

  /** A world that stores exactly what it is given. */
  function PlainWorld(head: Files): World {
    World(p => Lookup(head, p), (t, o, desired) => Some(desired), t => true)
  }

  lemma PlainWorldObliges(head: Files)
    ensures Obliging(PlainWorld(head), head)
  {
    var w := PlainWorld(head);
    forall t: Target, o: Option<Fields>, desired: Fields
      ensures w.patch(t, o, desired).Some? && AppliedOver(o, desired, w.patch(t, o, desired).value)
    {
      NormalizedEqualIff(desired, desired);
    }
  }

  lemma PushCanBeServed(lib: Library, s: System)
      returns (w: World, added: seq<string>, removed: seq<string>, s': System)
    requires Orderly(lib, s) && s.pushes != []
    ensures Serves(lib, s, w, added, removed, s')
  {
    var n := s.pushes[0];
    assert OrderlyNote(lib, n);
    added := SortedList(AddedPaths(n.commits));
    removed := SortedList(GonePaths(n.commits));
    w := PlainWorld(n.head);
    PlainWorldObliges(n.head);
    var objects := Served(lib, w, s.objects, added, removed);
    var changed := set t | t in objects.Keys + s.objects.Keys && Lookup(objects, t) != Lookup(s.objects, t);
    NotePathsCanonical(lib, n, added, removed);
    forall t | t in changed ensures Valid(t) {
      if !Valid(t) { InvalidUntouched(lib, w, s.objects, added, removed, t); }
    }
    s' := s.(objects := objects, dirty := s.dirty + changed, pushes := s.pushes[1..]);
  }

  /** The running batch finds its way blocked in the Git tree. */
  predicate FlushBlocked(s: System) {
    s.batch.Some? && !AllClear(s.remote, s.batch.value)
  }

  /** Progress: while anything is left to do and the running batch can land, one of the controllers can
      take a step. */
  lemma Progress(lib: Library, s: System)
    requires Orderly(lib, s) && !Quiet(s) && !FlushBlocked(s)
    ensures exists s' :: InternalStep(lib, s, s')
  {
    if s.dirty != {} {
      EventCanHappen(lib, s);
    } else if s.batch.Some? {
      var order, commits, s' := FlushCanEnd(lib, s);
      assert InternalStep(lib, s, s');
    } else if s.memory.pending != map[] {
      var s' := s.(batch := Some(s.memory.pending), memory := s.memory.(pending := map[]));
      assert BeginFlush(s, s');
      assert InternalStep(lib, s, s');
    } else {
      var w, added, removed, s' := PushCanBeServed(lib, s);
      assert InternalStep(lib, s, s');
    }
  }

  lemma EventCanHappen(lib: Library, s: System)
    requires s.dirty != {}
    ensures exists s' :: InternalStep(lib, s, s')
  {
    var t :| t in s.dirty;
    var s' := s.(dirty := s.dirty - {t}, memory := Inventory.Reconciled(lib, s.memory, t, Lookup(s.objects, t)));
    assert Event(lib, s, t, s');
    assert InternalStep(lib, s, s');
  }

  /** Being stuck, exactly: no step is left if, and only if, the system is at rest, or all events and pushes
      are dealt with and the running batch is blocked. */
  lemma StuckIff(lib: Library, s: System)
    requires Orderly(lib, s)
    ensures (forall s' :: !InternalStep(lib, s, s'))
            <==> Quiet(s) || (s.dirty == {} && s.pushes == [] && FlushBlocked(s))
  {
    if forall s' :: !InternalStep(lib, s, s') {
      if s.dirty != {} { EventCanHappen(lib, s); }
      if s.pushes != [] {
        var w, added, removed, s' := PushCanBeServed(lib, s);
        assert InternalStep(lib, s, s');
      }
      if !Quiet(s) && !FlushBlocked(s) { Progress(lib, s); }
    }
    if FlushBlocked(s) && s.dirty == {} && s.pushes == [] {
      OrderlyOpsAreLive(lib, s.batch.value);
      forall order, commits, s' ensures !EndFlush(s, order, commits, s') {
        if Iterates(order, s.batch.value) { BatchConfluent(s.remote, order, s.batch.value); }
      }
    }
  }

  lemma LandsUnobstructed(lib: Library, s: System, order: seq<string>, commits: seq<Commit>, remote: Files, pushes: seq<Note>)
    requires Orderly(lib, s) && Unobstructed(s.remote) && Lands(s, order, commits, remote, pushes)
    ensures Unobstructed(remote)
  {
    OrderlyOpsAreLive(lib, s.batch.value);
    BatchConfluent(s.remote, order, s.batch.value);
    EffectUnobstructed(s.remote, s.batch.value, remote);
  }

  lemma UnobstructedStep(lib: Library, s: System, s': System)
    requires Orderly(lib, s) && Unobstructed(s.remote) && ClusterStep(lib, s, s')
    ensures Unobstructed(s'.remote)
  {
    if order, commits :| EndFlush(s, order, commits, s') {
      LandsUnobstructed(lib, s, order, commits, s'.remote, s'.pushes);
    } else if order, commits :| FailFlush(s, order, commits, s') {
      if s'.remote != s.remote {
        LandsUnobstructed(lib, s, order, commits, s'.remote, s'.pushes);
      }
    } else {
      OtherStepKeepsRemote(lib, s, s');
    }
  }

  lemma OtherStepKeepsRemote(lib: Library, s: System, s': System)
    requires ClusterStep(lib, s, s')
    requires forall order, commits :: !EndFlush(s, order, commits, s') && !FailFlush(s, order, commits, s')
    ensures s'.remote == s.remote
  {
  }

  ghost predicate KeepsClear(s: System, s': System) {
    Unobstructed(s.remote) ==> Unobstructed(s'.remote)
  }

  lemma ClusterLinksKeepClear(lib: Library, run: seq<System>)
    requires ClusterLinks(lib, run) && forall i :: 0 <= i < |run| ==> Orderly(lib, run[i])
    ensures forall i :: 0 < i < |run| ==> KeepsClear(run[i - 1], run[i])
  {
    forall i | 0 < i < |run| ensures KeepsClear(run[i - 1], run[i]) {
      assert ClusterLink(lib, run, i - 1);
      assert Orderly(lib, run[i - 1]);
      if Unobstructed(run[i - 1].remote) { UnobstructedStep(lib, run[i - 1], run[i]); }
    }
  }

  lemma {:induction false} UnobstructedThrough(run: seq<System>, n: nat)
    requires n < |run| && Unobstructed(run[0].remote)
    requires forall i :: 0 < i < |run| ==> KeepsClear(run[i - 1], run[i])
    ensures forall i :: 0 <= i <= n ==> Unobstructed(run[i].remote)
  {
    if n > 0 {
      UnobstructedThrough(run, n - 1);
      assert KeepsClear(run[n - 1], run[n]);
    }
  }

  /** Without pushes from others, the way of all operations stays free. */
  lemma UnobstructedRun(lib: Library, run: seq<System>)
    requires Dependable(lib) && ClusterRun(lib, run) && Unobstructed(run[0].remote)
    ensures forall i :: 0 <= i < |run| ==> Unobstructed(run[i].remote)
  {
    ClusterRunIsAny(lib, run);
    AnyRunOrderly(lib, run);
    ClusterLinksKeepClear(lib, run);
    UnobstructedThrough(run, |run| - 1);
  }

  lemma UnobstructedFlush(lib: Library, s: System)
    requires Orderly(lib, s) && Unobstructed(s.remote)
    ensures !FlushBlocked(s)
  {
    if s.batch.Some? {
      forall p | p in s.batch.value ensures Clear(s.remote, p, s.batch.value[p]) {
        var t := OpTarget(lib, s.batch.value, p);
        UnobstructedClear(s.remote, t, s.batch.value[p]);
      }
    }
  }

  /** Eventual agreement: after any run with cluster-side edits, whatever the controllers do from then on
      by themselves is bounded in length, and when they can do no more, cluster and Git agree on exactly the
      objects that export truly. The one other way to end is a batch that is blocked by stray files; it
      needs such files from the start. */
  lemma EventualAgreement(lib: Library, run: seq<System>, n: nat)
    requires CollisionFree(lib) && Dependable(lib) && ClusterRun(lib, run)
    requires n < |run| && InternalRun(lib, run[n..])
    ensures |run| - n <= Bound(lib, run[n]) + 1
    ensures (forall s' :: !InternalStep(lib, Last(run), s')) ==>
              || FlushBlocked(Last(run))
              || forall t :: Valid(t) ==> (AgreesAt(lib, Last(run), t) <==> ExportsTruly(lib, Last(run), t))
    ensures Unobstructed(run[0].remote) ==> !FlushBlocked(Last(run))
  {
    ClusterRunIsAny(lib, run);
    AnyRunOrderly(lib, run);
    assert run[n..][0] == run[n] && Orderly(lib, run[n]) && Orderly(lib, run[|run| - 1]);
    InternalRunsAreBounded(lib, run[n..]);
    if forall s' :: !InternalStep(lib, Last(run), s') {
      StuckIff(lib, Last(run));
      if Quiet(Last(run)) { Converges(lib, run); }
    }
    if Unobstructed(run[0].remote) {
      UnobstructedRun(lib, run);
      assert Unobstructed(run[|run| - 1].remote);
      UnobstructedFlush(lib, Last(run));
    }
  }

  // ---------- restart ----------

  lemma RestartKeepsOrder(lib: Library, s: System, s': System)
    requires Orderly(lib, s) && Restart(s, s')
    ensures Orderly(lib, s')
  {
  }

  /** Nothing is left of the object but its file. */
  predicate Orphaned(v: O.View) {
    v.obj.None? && !v.dirty && v.pend.None? && v.batch.None? && v.file.Some? && v.queue == []
  }

  ghost predicate OrphanAt(lib: Library, s: System, t: Target) {
    Orderly(lib, s) && Orphaned(ViewOf(lib, s, t))
  }

  ghost predicate KeepsOrphan(lib: Library, s: System, s': System, t: Target) {
    OrphanAt(lib, s, t) ==> OrphanAt(lib, s', t)
  }

  lemma InternalLinksKeep(lib: Library, run: seq<System>, t: Target)
    requires Dependable(lib) && Valid(t) && InternalRun(lib, run)
    ensures forall i :: 0 < i < |run| ==> KeepsOrphan(lib, run[i - 1], run[i], t)
    ensures LinksAt(lib, run, t, false)
  {
    forall i | 0 < i < |run| ensures KeepsOrphan(lib, run[i - 1], run[i], t) {
      assert InternalLink(lib, run, i - 1);
      OrphanStep(lib, run[i - 1], run[i], t);
    }
    forall i | 0 <= i < |run| - 1 ensures LinkAt(lib, run, i, t, false) {
      assert InternalLink(lib, run, i);
    }
  }

  lemma OrphanStep(lib: Library, s: System, s': System, t: Target)
    requires Dependable(lib) && Valid(t) && InternalStep(lib, s, s')
    ensures KeepsOrphan(lib, s, s', t)
  {
    if OrphanAt(lib, s, t) {
      InternalProjects(lib, s, s', t);
      InternalKeepsOrder(lib, s, s');
    }
  }

  lemma {:induction false} OrphanThrough(lib: Library, run: seq<System>, n: nat, t: Target)
    requires n < |run| && OrphanAt(lib, run[0], t)
    requires forall i :: 0 < i < |run| ==> KeepsOrphan(lib, run[i - 1], run[i], t)
    ensures forall i :: 0 <= i <= n ==> OrphanAt(lib, run[i], t)
  {
    if n > 0 {
      OrphanThrough(lib, run, n - 1, t);
      assert KeepsOrphan(lib, run[n - 1], run[n], t);
    }
  }

  lemma OrphanStays(lib: Library, run: seq<System>, t: Target)
    requires Dependable(lib) && Valid(t) && InternalRun(lib, run) && OrphanAt(lib, run[0], t)
    ensures Orphaned(ViewOf(lib, Last(run), t))
  {
    InternalLinksKeep(lib, run, t);
    OrphanThrough(lib, run, |run| - 1, t);
    assert OrphanAt(lib, run[|run| - 1], t);
  }

  lemma SoundStays(lib: Library, run: seq<System>, t: Target)
    requires Dependable(lib) && Valid(t) && InternalRun(lib, run) && SoundAt(lib, run[0], t, false)
    ensures SoundAt(lib, Last(run), t, false)
  {
    InternalLinksKeep(lib, run, t);
    LinksKeepSound(lib, run, t, false);
    SoundThrough(lib, run, |run| - 1, t, false);
    assert SoundAt(lib, run[|run| - 1], t, false);
  }

  /** The first state after a restart, as far as the object is concerned. */
  lemma RestartedAt(lib: Library, s: System, restarted: System, t: Target)
    requires Dependable(lib) && Valid(t) && SoundAt(lib, s, t, true) && Restart(s, restarted)
    ensures if t !in s.objects && PathOf(t) in s.remote && NotesAt(lib, s.pushes, PathOf(t)) == []
            then OrphanAt(lib, restarted, t) else SoundAt(lib, restarted, t, false)
  {
    RestartKeepsOrder(lib, s, restarted);
    RestartProjects(lib, s, restarted, t);
    O.RestartHealsIff(HashOf(lib), ViewOf(lib, s, t));
    if O.RestartSafe(ViewOf(lib, s, t)) { RestartSound(lib, ViewOf(lib, s, t)); }
  }

  /** Self-healing, exactly: when the controller restarts after any run and the system then does whatever it
      does by itself until nothing is left to do for the object, cluster and Git agree on it if, and only if,
      it exports truly and it is not the case that it was absent, its file was still there, and no push was
      left that speaks of it. The archive operation lost in that case is never made up for. */
  lemma RestartHealsIff(lib: Library, run: seq<System>, restarted: System, later: seq<System>, t: Target)
    requires CollisionFree(lib) && Dependable(lib) && Valid(t) && RunAt(lib, run, t, true)
    requires Restart(Last(run), restarted)
    requires InternalRun(lib, later) && later[0] == restarted && QuietAt(lib, Last(later), t)
    ensures var s := Last(run);
            AgreesAt(lib, Last(later), t) <==>
            && !(t !in s.objects && PathOf(t) in s.remote && NotesAt(lib, s.pushes, PathOf(t)) == [])
            && ExportsTruly(lib, Last(later), t)
  {
    EndsSound(lib, run, t, true);
    RestartedAt(lib, Last(run), restarted, t);
    if OrphanAt(lib, restarted, t) {
      OrphanStays(lib, later, t);
      QuietViews(lib, Last(later), t);
    } else {
      SoundStays(lib, later, t);
      RestsTruly(lib, Last(later), t);
    }
  }
}
