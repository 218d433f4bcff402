/** The protocol as a single object sees it: its live state, what the controller remembers and has
    queued for it, its file in Git, and the pushes about it that no webhook has served yet. */
module OneObject {
  import opened Wrappers
  import opened Normalize
  import Merge

  /** The object in the cluster: its material and the stamp annotation. */
  datatype Seen = Seen(material: Fields, stamp: Option<string>)

  /** An export operation on the object's file, and also what a push says about the file. */
  datatype Change = Put(material: Fields) | Gone

  datatype View = View(
    obj: Option<Seen>,
    dirty: bool,               // an event waits to be reconciled
    cache: Option<string>,
    pend: Option<Change>,      // queued in the worker
    batch: Option<Change>,     // taken by a running flush
    file: Option<Fields>,      // material of the file in Git
    queue: seq<Change>)        // pushes not yet served, oldest first

  /** The digest of a material; `Injective` says that it has no collision. */
  type Hash = Fields -> string

  /** What the export of a material reads as; the very material, unless trimming harms it. */
  type Reading = Fields -> Fields

  ghost predicate Injective(h: Hash) {
    forall a, b :: h(a) == h(b) ==> a == b
  }

  function ChangeTo(file: Option<Fields>): Change {
    match file
    case None => Gone
    case Some(m) => Put(m)
  }

  function Outcome(c: Change): Option<Fields> {
    match c
    case Put(m) => Some(m)
    case Gone => None
  }

  // ---------- steps ----------

  /** A user creates, edits or deletes the object, or a controller touches its status. Nobody but the
      sync side writes a new stamp: it is kept from before or dropped. */
  predicate Edited(v: View, v': View) {
    && v' == v.(obj := v'.obj, dirty := true)
    && (v'.obj.Some? && v'.obj.value.stamp.Some? ==> v.obj.Some? && v'.obj.value.stamp == v.obj.value.stamp)
  }

  /** The stamp says that the material came from Git. */
  predicate SelfStamped(h: Hash, o: Seen) {
    o.stamp == Some(h(o.material))
  }

  function Reconcile(h: Hash, e: Reading, v: View): View {
    match v.obj
    case None => v.(dirty := false, cache := None, pend := Some(Gone))
    case Some(o) =>
      if SelfStamped(h, o) || v.cache == Some(h(o.material)) then v.(dirty := false)
      else v.(dirty := false, cache := Some(h(o.material)), pend := Some(Put(e(o.material))))
  }

  /** A flush takes everything that is queued. */
  predicate Begun(v: View, v': View) {
    v.batch == None && v' == v.(batch := v.pend, pend := None)
  }

  /** The operation lands in Git. A push reports the file when the file changed; rewriting a file with
      the same material may also count as a change, archiving a missing one does not. */
  predicate Landed(v: View, v': View) {
    match v.batch
    case None => v' == v
    case Some(c) =>
      && v' == v.(file := Outcome(c), queue := v'.queue)
      && (|| (v'.queue == v.queue + [c] && (c.Put? || v.file.Some?))
          || (v'.queue == v.queue && v.file == Outcome(c)))
  }

  predicate Flushed(v: View, v': View) {
    Landed(v, v'.(batch := v.batch)) && v'.batch == None
  }

  /** The flush reports a failure, landed or not; the operation is queued again, over a newer one. */
  predicate FlushFailed(v: View, v': View) {
    && v'.batch == None
    && v'.pend == (if v.batch.Some? then v.batch else v.pend)
    && (v'.(batch := v.batch, pend := v.pend) == v || Landed(v, v'.(batch := v.batch, pend := v.pend)))
  }

  /** No newer operation was queued while the failing flush ran. */
  predicate Unraced(v: View) {
    v.batch.Some? && v.pend.Some? ==> v.pend == v.batch
  }

  /** What the API server makes of a file with material `m`: it replaces the object, or merges into it. */
  predicate Stored(before: Option<Seen>, m: Fields, result: Fields) {
    result == m || (before.Some? && result == Merge.MergeFields(before.value.material, m))
  }

  /** The webhook serves the oldest push about the object. */
  predicate Served(h: Hash, v: View, v': View) {
    && v.queue != []
    && v' == v.(queue := v.queue[1..], dirty := v'.dirty, obj := v'.obj)
    && (match v.queue[0]
        case Put(m) => v'.obj.Some? && v'.obj.value.stamp == Some(h(m)) && Stored(v.obj, m, v'.obj.value.material)
        case Gone => v'.obj == None)
    && (v'.obj != v.obj ==> v'.dirty)
    && (v'.obj == None == v.obj ==> v'.dirty == v.dirty)
    && (v.dirty ==> v'.dirty)
  }

  /** Somebody else pushes to Git. */
  predicate Committed(v: View, v': View) {
    && v' == v.(file := v'.file, queue := v'.queue)
    && (v'.queue == v.queue + [ChangeTo(v'.file)] || (v'.queue == v.queue && v'.file == v.file))
  }

  /** Steps that the two controllers take by themselves. */
  predicate Internal(h: Hash, e: Reading, v: View, v': View) {
    || (v.dirty && v' == Reconcile(h, e, v))
    || Begun(v, v')
    || Flushed(v, v')
    || Served(h, v, v')
    || v' == v
  }

  /** Steps with changes from the cluster side and failing, but not racing, flushes. */
  predicate ClusterSide(h: Hash, e: Reading, v: View, v': View) {
    Internal(h, e, v, v') || Edited(v, v') || (FlushFailed(v, v') && Unraced(v))
  }

  /** The same with pushes from others. */
  predicate BothSides(h: Hash, e: Reading, v: View, v': View) {
    ClusterSide(h, e, v, v') || Committed(v, v')
  }

  // ---------- invariants ----------

  /** The file once everything queued has landed. */
  function Goal(v: View): Option<Fields> {
    if v.pend.Some? then Outcome(v.pend.value)
    else if v.batch.Some? then Outcome(v.batch.value)
    else v.file
  }

  /** What every run keeps. */
  ghost predicate Sound(h: Hash, v: View) {
    // The last unserved push says what the file is.
    && (v.queue != [] ==> v.queue[|v.queue| - 1] == ChangeTo(v.file))
    // With all pushes served, a stamp is the digest of the file.
    && (v.queue == [] && v.obj.Some? && v.obj.value.stamp.Some? ==>
          v.file.Some? && v.obj.value.stamp == Some(h(v.file.value)))
    // A reconciled object is recognised by its stamp or by the cache.
    && (!v.dirty && v.obj.Some? ==>
          SelfStamped(h, v.obj.value) || v.cache == Some(h(v.obj.value.material)))
    // A reconciled absence is on its way to Git, or there already.
    && (!v.dirty && v.obj.None? ==>
          && (v.pend.Some? ==> v.pend.value.Gone?)
          && (v.pend.None? && v.batch.Some? ==> v.batch.value.Gone?)
          && (v.queue == [] && v.pend.None? && v.batch.None? ==> v.file.None?))
  }

  /** The operation most recently queued, while it is under way. */
  function Latest(v: View): Option<Change> {
    if v.pend.Some? then v.pend else v.batch
  }

  /** The material is what the export of a material with the cached digest reads as. */
  ghost predicate ExportOf(h: Hash, e: Reading, cached: Option<string>, x: Fields) {
    exists m :: cached == Some(h(m)) && x == e(m)
  }

  /** Cache and queue agree: an operation under way is a write of the material whose digest is cached, or an
      archive operation when nothing is cached. */
  ghost predicate QueueAgrees(h: Hash, e: Reading, v: View) {
    match Latest(v)
    case None => true
    case Some(Put(x)) => ExportOf(h, e, v.cache, x)
    case Some(Gone) => v.cache == None
  }

  /** A cached digest is that of the material whose export the file will be. */
  ghost predicate CacheSound(h: Hash, e: Reading, v: View) {
    v.cache.Some? ==> Goal(v).Some? && ExportOf(h, e, v.cache, Goal(v).value)
  }

  lemma SoundReconcile(h: Hash, e: Reading, v: View)
    requires Sound(h, v)
    ensures Sound(h, Reconcile(h, e, v))
  {
  }

  lemma SoundFlush(h: Hash, v: View, v': View)
    requires Sound(h, v) && (Begun(v, v') || Flushed(v, v'))
    ensures Sound(h, v')
  {
  }

  lemma SoundFailure(h: Hash, v: View, v': View)
    requires Sound(h, v) && FlushFailed(v, v') && Unraced(v)
    ensures Sound(h, v')
  {
  }

  lemma SoundServing(h: Hash, v: View, v': View)
    requires Sound(h, v) && Served(h, v, v')
    ensures Sound(h, v')
  {
    if v'.queue != [] {
      assert v'.queue[|v'.queue| - 1] == v.queue[|v.queue| - 1];
    }
  }

  lemma SoundOutside(h: Hash, v: View, v': View)
    requires Sound(h, v) && (Edited(v, v') || Committed(v, v'))
    ensures Sound(h, v')
  {
  }

  /** Every run keeps soundness. */
  lemma SoundStep(h: Hash, e: Reading, v: View, v': View)
    requires Sound(h, v) && BothSides(h, e, v, v')
    ensures Sound(h, v')
  {
    if Edited(v, v') || Committed(v, v') {
      SoundOutside(h, v, v');
    } else if FlushFailed(v, v') && Unraced(v) {
      SoundFailure(h, v, v');
    } else if Served(h, v, v') {
      SoundServing(h, v, v');
    } else if Begun(v, v') || Flushed(v, v') {
      SoundFlush(h, v, v');
    } else {
      SoundReconcile(h, e, v);
    }
  }

  lemma QueueAgreesFlush(h: Hash, e: Reading, v: View, v': View)
    requires QueueAgrees(h, e, v) && (Begun(v, v') || Flushed(v, v') || (FlushFailed(v, v') && Unraced(v)))
    ensures QueueAgrees(h, e, v')
  {
  }

  lemma QueueAgreesElse(h: Hash, e: Reading, v: View, v': View)
    requires QueueAgrees(h, e, v) && v'.cache == v.cache && v'.pend == v.pend && v'.batch == v.batch
    ensures QueueAgrees(h, e, v')
  {
  }

  /** Cache and queue agree in every run, with pushes from both sides. */
  lemma QueueAgreesStep(h: Hash, e: Reading, v: View, v': View)
    requires QueueAgrees(h, e, v) && BothSides(h, e, v, v')
    ensures QueueAgrees(h, e, v')
  {
    if Begun(v, v') || Flushed(v, v') || (FlushFailed(v, v') && Unraced(v)) {
      QueueAgreesFlush(h, e, v, v');
    } else if v.dirty && v' == Reconcile(h, e, v) {
    } else {
      QueueAgreesElse(h, e, v, v');
    }
  }

  lemma CacheSoundFlush(h: Hash, e: Reading, v: View, v': View)
    requires CacheSound(h, e, v) && (Begun(v, v') || Flushed(v, v') || (FlushFailed(v, v') && Unraced(v)))
    ensures CacheSound(h, e, v')
  {
    assert Goal(v') == Goal(v);
  }

  /** In every run without foreign pushes to the object's file, the cached digest is that of the content
      most recently enqueued. */
  lemma CacheSoundStep(h: Hash, e: Reading, v: View, v': View)
    requires CacheSound(h, e, v) && ClusterSide(h, e, v, v')
    ensures CacheSound(h, e, v')
  {
    if Begun(v, v') || Flushed(v, v') || (FlushFailed(v, v') && Unraced(v)) {
      CacheSoundFlush(h, e, v, v');
    } else if v.dirty && v' == Reconcile(h, e, v) {
    } else {
      assert Goal(v') == Goal(v);
    }
  }

  /** Start-up: the controller knows nothing and lists every object; the object is unstamped, and there is no
      file of an absent object. */
  predicate Fresh(v: View) {
    && v.cache.None? && v.pend.None? && v.batch.None? && v.queue == []
    && (v.obj.Some? ==> v.dirty && v.obj.value.stamp.None?)
    && (v.file.Some? ==> v.obj.Some?)
  }

  // ---------- convergence ----------

  /** Nothing is left to do for the object. */
  predicate Quiet(v: View) {
    !v.dirty && v.pend.None? && v.batch.None? && v.queue == []
  }

  /** Cluster and Git agree on the object. */
  predicate Agreed(v: View) {
    match v.obj
    case None => v.file.None?
    case Some(o) => v.file == Some(o.material)
  }

  /** The cached digest, if any, is that of the file in Git. */
  predicate FreshCache(h: Hash, v: View) {
    v.cache.Some? ==> v.file.Some? && v.cache == Some(h(v.file.value))
  }

  /** A quiet object agrees with Git if, and only if, it is absent, or recognised by its stamp, or not
      taken for exported on the strength of a stale digest. */
  lemma QuietAgreesIff(h: Hash, v: View)
    requires Injective(h) && Sound(h, v) && Quiet(v)
    ensures Agreed(v) <==> v.obj.None? || SelfStamped(h, v.obj.value) || FreshCache(h, v)
  {
  }

  /** Without foreign pushes to its file, a quiet object agrees with Git if, and only if, it is absent, or
      recognised by its stamp, or its export reads as itself. */
  lemma QuietExportedIff(h: Hash, e: Reading, v: View)
    requires Injective(h) && Sound(h, v) && CacheSound(h, e, v) && Quiet(v)
    ensures Agreed(v) <==> v.obj.None? || SelfStamped(h, v.obj.value) || e(v.obj.value.material) == v.obj.value.material
  {
  }

  /** The stale cache: in a quiet state, reconciling an edit exports the new material (or Git has it
      already) if, and only if, it is not the case that the cache holds the digest of the new material
      while Git holds something else. */
  lemma EditExportedIff(h: Hash, e: Reading, v: View, edited: View)
    requires Injective(h) && Sound(h, v) && Quiet(v) && Edited(v, edited) && edited.obj.Some?
    ensures var m := edited.obj.value.material;
            Goal(Reconcile(h, e, edited)) in {Some(m), Some(e(m))}
            <==> !(v.cache == Some(h(m)) && v.file !in {Some(m), Some(e(m))})
  {
  }

  // ---------- restart ----------

  /** The controller restarts: memory is lost, and the informer lists every object that exists. */
  function Restarted(v: View): View {
    v.(cache := None, pend := None, batch := None, dirty := v.obj.Some?)
  }

  /** The object is there, or has no file, or a push is left that would bring it back. */
  predicate RestartSafe(v: View) {
    v.obj.Some? || v.file.None? || v.queue != []
  }

  /** Losing the memory is harmless unless Git holds the file of an absent object and no push is left that
      would bring the object back. In that case the lost archive operation is never made up for: the
      object is quiet and the file stays. */
  lemma RestartHealsIff(h: Hash, v: View)
    requires Sound(h, v)
    ensures Sound(h, Restarted(v)) <==> RestartSafe(v)
    ensures !RestartSafe(v) ==> Quiet(Restarted(v)) && !Agreed(Restarted(v))
    ensures forall e :: CacheSound(h, e, Restarted(v)) && QueueAgrees(h, e, Restarted(v))
  {
  }

  // ---------- termination ----------

  /** How many fields a merge may still add to a material, out of the positions in `room`. */
  function Left(room: set<seq<string>>, m: Fields): nat {
    |room - Positions(Obj(m))|
  }

  predicate ChangeFits(room: set<seq<string>>, c: Change) {
    c.Put? ==> Positions(Obj(c.material)) <= room
  }

  /** All materials that the object has, or may get, have their fields at positions in `room`. */
  predicate Fits(room: set<seq<string>>, v: View) {
    && (v.obj.Some? ==> Positions(Obj(v.obj.value.material)) <= room)
    && (v.pend.Some? ==> ChangeFits(room, v.pend.value))
    && (v.batch.Some? ==> ChangeFits(room, v.batch.value))
    && (forall i :: 0 <= i < |v.queue| ==> ChangeFits(room, v.queue[i]))
  }

  /** The object's export has all its fields. */
  predicate Steady(e: Reading, v: View) {
    v.obj.Some? ==> Positions(Obj(e(v.obj.value.material))) == Positions(Obj(v.obj.value.material))
  }

  /** A merge that is not just the applied material has fewer positions left. */
  lemma MergeUsesRoom(room: set<seq<string>>, before: Fields, m: Fields)
    requires Positions(Obj(before)) <= room && Merge.MergeFields(before, m) != m
    ensures Left(room, Merge.MergeFields(before, m)) < Left(room, m)
  {
    var merged := Merge.MergeFields(before, m);
    Merge.MergedPositions(Obj(before), Obj(m));
    assert Merge.MergeValue(Obj(before), Obj(m)) == Obj(merged);
    var q :| q in Positions(Obj(merged)) && q !in Positions(Obj(m));
    SmallerSet(room - Positions(Obj(merged)), room - Positions(Obj(m)), q);
  }

  lemma SmallerSet<T>(a: set<T>, b: set<T>, x: T)
    requires a <= b && x in b && x !in a
    ensures |a| < |b|
  {
    assert a <= b - {x};
    SubsetSize(a, b - {x});
  }

  lemma {:induction false} SubsetSize<T>(a: set<T>, b: set<T>)
    requires a <= b
    ensures |a| <= |b|
  {
    if a != {} {
      var x :| x in a;
      SubsetSize(a - {x}, b - {x});
    }
  }

  lemma FitsStays(h: Hash, e: Reading, room: set<seq<string>>, v: View, v': View)
    requires Fits(room, v) && Steady(e, v) && Internal(h, e, v, v')
    ensures Fits(room, v')
  {
    if Served(h, v, v') {
      assert ChangeFits(room, v.queue[0]);
      if v.queue[0].Put? && v.obj.Some? {
        Merge.MergedPositions(Obj(v.obj.value.material), Obj(v.queue[0].material));
      }
    }
  }

  function Bit(b: bool, weight: nat): nat { if b then weight else 0 }

  function ChangeWeight(room: set<seq<string>>, c: Option<Change>, put: nat, gone: nat): nat {
    match c
    case None => 0
    case Some(Put(m)) => put + 6 * Left(room, m)
    case Some(Gone) => gone
  }

  function EventWeight(h: Hash, room: set<seq<string>>, v: View): nat {
    if !v.dirty then 0
    else match v.obj
      case None => 4
      case Some(o) => if SelfStamped(h, o) then 1 else 11 + 6 * Left(room, o.material)
  }

  function QueueWeight(room: set<seq<string>>, queue: seq<Change>): nat {
    if queue == [] then 0
    else ChangeWeight(room, Some(queue[0]), 6, 1) + QueueWeight(room, queue[1..])
  }

  /** How much work the object can still cause. A merge that is not recognised costs another export, but
      brings the object closer to having every field in sight. */
  function Weight(h: Hash, room: set<seq<string>>, v: View): nat {
    EventWeight(h, room, v) + Bit(v.obj.Some?, 4) + ChangeWeight(room, v.pend, 10, 3)
    + ChangeWeight(room, v.batch, 9, 2) + Bit(v.file.Some?, 1) + QueueWeight(room, v.queue)
  }

  lemma {:induction false} QueueWeightAppend(room: set<seq<string>>, queue: seq<Change>, c: Change)
    ensures QueueWeight(room, queue + [c]) == QueueWeight(room, queue) + ChangeWeight(room, Some(c), 6, 1)
  {
    if queue == [] {
      assert [] + [c] == [c];
    } else {
      QueueWeightAppend(room, queue[1..], c);
      assert (queue + [c])[1..] == queue[1..] + [c];
    }
  }

  lemma ReconcileUsesWeight(h: Hash, e: Reading, room: set<seq<string>>, v: View)
    requires v.dirty && Steady(e, v)
    ensures Weight(h, room, Reconcile(h, e, v)) < Weight(h, room, v)
  {
    var v' := Reconcile(h, e, v);
    assert EventWeight(h, room, v') == 0;
    match v.obj
    case None =>
      assert ChangeWeight(room, v'.pend, 10, 3) == 3;
    case Some(o) =>
      if v' != v.(dirty := false) {
        assert v'.pend == Some(Put(e(o.material)));
        assert Left(room, e(o.material)) == Left(room, o.material);
        assert ChangeWeight(room, v'.pend, 10, 3) == 10 + 6 * Left(room, o.material);
      }
  }

  lemma BeginUsesWeight(h: Hash, room: set<seq<string>>, v: View, v': View)
    requires Begun(v, v')
    ensures Weight(h, room, v') <= Weight(h, room, v)
    ensures v.pend.Some? ==> Weight(h, room, v') < Weight(h, room, v)
  {
  }

  /** Landing uses up two, since a push may come of it. */
  lemma LandingUsesWeight(h: Hash, room: set<seq<string>>, v: View, v': View)
    requires Flushed(v, v')
    ensures Weight(h, room, v') <= Weight(h, room, v)
    ensures v.batch.Some? ==> Weight(h, room, v') + 2 <= Weight(h, room, v)
  {
    if v.batch.Some? { QueueWeightAppend(room, v.queue, v.batch.value); }
  }

  lemma ServingGoneUsesWeight(h: Hash, room: set<seq<string>>, v: View, v': View)
    requires Served(h, v, v') && v.queue[0].Gone?
    ensures Weight(h, room, v') < Weight(h, room, v)
  {
    assert QueueWeight(room, v.queue) == 1 + QueueWeight(room, v'.queue);
  }

  lemma ServingPutUsesWeight(h: Hash, room: set<seq<string>>, v: View, v': View, m: Fields)
    requires Served(h, v, v') && Fits(room, v) && v.queue[0] == Put(m)
    ensures Weight(h, room, v') < Weight(h, room, v)
  {
    assert QueueWeight(room, v.queue) == 6 + 6 * Left(room, m) + QueueWeight(room, v'.queue);
    var o := v'.obj.value;
    if o.material == m {
      assert EventWeight(h, room, v') <= 1;
    } else {
      MergeUsesRoom(room, v.obj.value.material, m);
      assert EventWeight(h, room, v') <= 11 + 6 * Left(room, o.material);
    }
  }

  lemma ServingUsesWeight(h: Hash, room: set<seq<string>>, v: View, v': View)
    requires Served(h, v, v') && Fits(room, v)
    ensures Weight(h, room, v') < Weight(h, room, v)
  {
    match v.queue[0]
    case Gone => ServingGoneUsesWeight(h, room, v, v');
    case Put(m) => ServingPutUsesWeight(h, room, v, v', m);
  }
}
