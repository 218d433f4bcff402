/** The batch worker (internal/git/worker.go): a debounced queue of exports, flushed into a remote
    that accepts a push only on top of the head that was cloned. */
module Worker {
  import opened Wrappers
  import Text
  import Paths
  import opened Tree

  // ---------- the queue ----------

  datatype Enqueued = Enqueued(path: string, op: PendingExport)

  /** The queue after a series of enqueues: the last one for a path wins. */
  function QueueAll(pending: Ops, es: seq<Enqueued>): Ops {
    if es == [] then pending
    else
      var e := es[|es| - 1];
      QueueAll(pending, es[..|es| - 1])[e.path := e.op]
  }

  lemma {:induction false} QueueAllOverlays(pending: Ops, es: seq<Enqueued>)
    ensures QueueAll(pending, es) == pending + QueueAll(map[], es)
  {
    if es != [] {
      QueueAllOverlays(pending, es[..|es| - 1]);
    }
  }

  // ---------- the remote ----------

  /** What the network lets through during one export. */
  datatype Network = Network(clones: bool, pushes: bool, acks: bool)

  /** The remote branch: its tree and a version that grows with every push. */
  class GitRemote {
    var tree: Files
    var head: nat

    constructor (tree: Files)
      ensures this.tree == tree && head == 0
    {
      this.tree := tree;
      head := 0;
    }

    /** A push lands only on the head it was based on. A landed push whose answer is lost still
        looks like a failure to the worker. */
    method Push(base: nat, edited: Files, net: Network) returns (ok: bool)
      modifies this
      ensures ok <==> net.pushes && old(head) == base && net.acks
      ensures net.pushes && old(head) == base ==> tree == edited && head == old(head) + 1
      ensures !(net.pushes && old(head) == base) ==> tree == old(tree) && head == old(head)
    {
      var lands := net.pushes && head == base;
      if lands {
        tree, head := edited, head + 1;
      }
      ok := lands && net.acks;
    }

    /** Pushes by others. */
    method Receive(others: seq<Files>)
      modifies this
      ensures head == old(head) + |others|
      ensures tree == if others == [] then old(tree) else others[|others| - 1]
    {
      for i := 0 to |others|
        invariant head == old(head) + i
        invariant tree == if i == 0 then old(tree) else others[i - 1]
      {
        tree, head := others[i], head + 1;
      }
    }
  }

  // ---------- the worker ----------

  class BatchWorker {
    const gitRepoURL: string
    var pending: Ops

    constructor (gitRepoURL: string)
      ensures this.gitRepoURL == gitRepoURL && pending == map[]
    {
      this.gitRepoURL := gitRepoURL;
      pending := map[];
    }

    method Enqueue(path: string, content: string)
      modifies this
      ensures pending == old(pending)[path := Write(content)]
    {
      pending := pending[path := Write(content)];
    }

    method EnqueueArchive(relPath: string)
      modifies this
      ensures pending == old(pending)[relPath := Archive]
    {
      pending := pending[relPath := Archive];
    }

    /** The first critical section of flush. */
    method TakeBatch() returns (batch: Ops)
      modifies this
      ensures batch == old(pending) && pending == map[]
    {
      batch := pending;
      pending := map[];
    }

    /** The second critical section of flush, after a failed export: the batch goes back, in the
        order in which Go happens to iterate over it. */
    method Restore(batch: Ops)
      modifies this
      ensures pending == old(pending) + batch
    {
      var todo := batch.Keys;
      while todo != {}
        invariant todo <= batch.Keys
        invariant pending == old(pending) + (batch - todo)
        decreases |todo|
      {
        var p :| p in todo;
        pending := pending[p := batch[p]];
        todo := todo - {p};
      }
      assert batch - {} == batch;
    }

    /** Other goroutines enqueue while the mutex is free. */
    method EnqueueMeanwhile(es: seq<Enqueued>)
      modifies this
      ensures pending == QueueAll(old(pending), es)
    {
      for i := 0 to |es|
        invariant pending == QueueAll(old(pending), es[..i])
      {
        match es[i].op {
          case Write(content) => Enqueue(es[i].path, content);
          case Archive => EnqueueArchive(es[i].path);
        }
        assert es[..i + 1][..i] == es[..i];
      }
      assert es[..|es|] == es;
    }

    /** The loop of exportBatch over the batch, editing the clone. The ghost result is the order
        that Go's map iteration took. */
    method EditClone(clone: Files, batch: Ops) returns (edited: Option<Files>, ghost order: seq<string>)
      ensures Text.NoDuplicates(order) && forall p :: p in order ==> p in batch
      ensures edited == RunOps(clone, order, batch)
      ensures edited.Some? ==> Iterates(order, batch)
      ensures Editable(clone, batch) ==> edited.Some?
    {
      var files := clone;
      var todo := batch.Keys;
      order := [];
      while todo != {}
        invariant Text.NoDuplicates(order)
        invariant forall p :: p in order <==> p in batch.Keys - todo
        invariant todo <= batch.Keys
        invariant RunOps(clone, order, batch) == Some(files)
        decreases |todo|
      {
        var rel :| rel in todo;
        todo := todo - {rel};
        ghost var front := order;
        assert rel !in front;
        order := order + [rel];
        assert order[..|order| - 1] == front;
        edited := RunOp(files, rel, batch[rel]);
        if edited.None? {
          FailureSpreads(clone, order, batch, todo);
          return;
        }
        files := edited.value;
      }
      edited := Some(files);
    }

    /** exportBatch: the remote either moves from the cloned head to that head with the whole batch
        applied, or is left to what others pushed; nothing in between. Without faults it succeeds,
        and the only failure that may hide a landed batch is a lost answer. */
    method ExportBatch(remote: GitRemote, batch: Ops, net: Network, others: seq<Files>) returns (ok: bool)
      modifies remote
      ensures || Untouched(old(remote.tree), old(remote.head), others, remote.tree, remote.head)
              || Published(old(remote.tree), old(remote.head), batch, remote.tree, remote.head)
      ensures ok ==> || (net.pushes && others == []
                         && Published(old(remote.tree), old(remote.head), batch, remote.tree, remote.head))
                     || NoDiff(old(remote.tree), batch)
      ensures net == Network(true, true, true) && others == [] && Editable(old(remote.tree), batch) ==> ok
      ensures NoDiff(old(remote.tree), batch) && Editable(old(remote.tree), batch) && LiveBatch(batch) ==>
                Untouched(old(remote.tree), old(remote.head), others, remote.tree, remote.head) && ok == net.clones
      ensures (!ok && net.acks) || !net.pushes || !net.clones || others != [] ==>
                Untouched(old(remote.tree), old(remote.head), others, remote.tree, remote.head)
    {
      var base, clone := remote.head, remote.tree;
      remote.Receive(others);
      if !net.clones {
        return false;
      }
      var edited, order := EditClone(clone, batch);
      if edited.None? {
        return false;
      }
      if LiveBatch(batch) { SameEdit(clone, order, batch, edited.value); }
      if edited.value == clone {
        // A clean status: no commit, no push.
        return true;
      }
      ok := remote.Push(base, edited.value, net);
    }

    /** flush, with the enqueues that others make while the export runs without the mutex. */
    method Flush(remote: GitRemote, net: Network, others: seq<Files>, meanwhile: seq<Enqueued>)
      modifies this, remote
      ensures old(pending) == map[] || Text.TrimSpace(gitRepoURL) == "" ==>
                && pending == QueueAll(map[], meanwhile)
                && remote.tree == old(remote.tree) && remote.head == old(remote.head)
      ensures old(pending) != map[] && Text.TrimSpace(gitRepoURL) != "" ==>
                FlushResult(State(old(pending), old(remote.tree)), old(remote.head), others, meanwhile,
                            State(pending, remote.tree), remote.head)
      ensures net == Network(true, true, true) && others == [] && Editable(old(remote.tree), old(pending)) ==>
                pending == QueueAll(map[], meanwhile)
      ensures old(pending) != map[] && Text.TrimSpace(gitRepoURL) != "" && (!net.clones || !net.pushes || others != []) ==>
                && Untouched(old(remote.tree), old(remote.head), others, remote.tree, remote.head)
                && (|| pending == QueueAll(map[], meanwhile) + old(pending)
                    || (pending == QueueAll(map[], meanwhile) && NoDiff(old(remote.tree), old(pending))))
    {
      if |pending| == 0 {
        EnqueueMeanwhile(meanwhile);
        return;
      }
      var batch := TakeBatch();
      EnqueueMeanwhile(meanwhile);
      if Text.TrimSpace(gitRepoURL) == "" {
        return;
      }
      var ok := ExportBatch(remote, batch, net, others);
      if !ok {
        Restore(batch);
      }
    }
  }

  /** The queue and the tree. */
  datatype State = State(pending: Ops, tree: Files)

  /** What a flush of a queue that is not empty comes to: the batch is published whole or not at all, and
      it leaves the queue only when it is published or makes no difference. */
  ghost predicate FlushResult(s: State, head: nat, others: seq<Files>, meanwhile: seq<Enqueued>, s': State, head': nat) {
    && (|| Untouched(s.tree, head, others, s'.tree, head')
        || Published(s.tree, head, s.pending, s'.tree, head'))
    && (|| s'.pending == QueueAll(map[], meanwhile) + s.pending
        || (&& s'.pending == QueueAll(map[], meanwhile)
            && (Published(s.tree, head, s.pending, s'.tree, head') || NoDiff(s.tree, s.pending))))
    && (others != [] ==>
          && Untouched(s.tree, head, others, s'.tree, head')
          && (s'.pending == QueueAll(map[], meanwhile) + s.pending || NoDiff(s.tree, s.pending)))
  }

  /** The remote holds only what others pushed. */
  predicate Untouched(tree: Files, head: nat, others: seq<Files>, tree': Files, head': nat) {
    && tree' == (if others == [] then tree else others[|others| - 1])
    && head' == head + |others|
  }

  /** Exactly one commit on the cloned head, holding the whole batch in some order, and not an empty one. */
  ghost predicate Published(tree: Files, head: nat, batch: Ops, tree': Files, head': nat) {
    && head' == head + 1
    && tree' != tree
    && exists order :: Iterates(order, batch) && RunOps(tree, order, batch) == Some(tree')
  }

  /** The batch makes no difference to the tree, so there is nothing to commit. */
  ghost predicate NoDiff(tree: Files, batch: Ops) {
    exists order :: Iterates(order, batch) && RunOps(tree, order, batch) == Some(tree)
  }

  /** In whatever order Go iterates over the batch, no operation fails. */
  ghost predicate Editable(files: Files, batch: Ops) {
    forall order :: Iterates(order, batch) ==> RunOps(files, order, batch).Some?
  }

  /** A failed iteration stays failed however it is continued. */
  lemma {:induction false} FailureSpreads(files: Files, order: seq<string>, batch: Ops, todo: set<string>)
    requires Text.NoDuplicates(order) && todo <= batch.Keys
    requires forall p :: p in order <==> p in batch.Keys - todo
    requires RunOps(files, order, batch) == None
    ensures !Editable(files, batch)
    decreases |todo|
  {
    if todo == {} {
      assert Iterates(order, batch);
    } else {
      var p :| p in todo;
      var longer := order + [p];
      assert longer[..|longer| - 1] == order;
      assert forall i :: 0 <= i < |order| ==> order[i] in order && longer[i] == order[i];
      FailureSpreads(files, longer, batch, todo - {p});
    }
  }

  /** A batch on live paths is editable if, and only if, each operation finds its way free. */
  lemma EditableIff(tree: Files, batch: Ops)
    requires LiveBatch(batch)
    ensures Editable(tree, batch) <==> AllClear(tree, batch)
  {
    var some := AnIteration(batch);
    BatchConfluent(tree, some, batch);
    forall order | Iterates(order, batch) ensures RunOps(tree, order, batch) == RunOps(tree, some, batch) {
      BatchConfluent(tree, order, batch);
    }
  }

  lemma AnIteration(batch: Ops) returns (order: seq<string>)
    ensures Iterates(order, batch)
  {
    order := Text.Enumerate(batch.Keys);
  }

  /** At-least-once delivery has exactly-once effect: when a batch that did land is retried, it makes
      no difference in any order, so the retry makes no commit. */
  lemma RetryMakesNoCommit(tree: Files, head: nat, batch: Ops, tree': Files, head': nat, order: seq<string>)
    requires LiveBatch(batch) && Proper(tree)
    requires Published(tree, head, batch, tree', head') && Iterates(order, batch)
    ensures RunOps(tree', order, batch) == Some(tree')
  {
    var first :| Iterates(first, batch) && RunOps(tree, first, batch) == Some(tree');
    BatchConfluent(tree, first, batch);
    ClearAgain(tree, batch, tree');
    BatchConfluent(tree', order, batch);
    BatchIdempotent(tree, batch, tree', RunOps(tree', order, batch).value);
  }

  /** When the batch makes no difference in one order, it makes none in the order that was taken. */
  lemma SameEdit(tree: Files, order: seq<string>, batch: Ops, edited: Files)
    requires LiveBatch(batch) && Iterates(order, batch) && RunOps(tree, order, batch) == Some(edited)
    ensures NoDiff(tree, batch) <==> edited == tree
  {
    BatchConfluent(tree, order, batch);
    if NoDiff(tree, batch) {
      var other :| Iterates(other, batch) && RunOps(tree, other, batch) == Some(tree);
      assert RunOps(tree, other, batch) == RunOps(tree, order, batch);
    }
  }

  /** The same of a whole flush: flushing a batch that landed before leaves tree and head to others. */
  lemma RetryLeavesHead(tree: Files, head: nat, batch: Ops, tree': Files, head': nat,
                        others: seq<Files>, meanwhile: seq<Enqueued>, s: State, head'': nat)
    requires LiveBatch(batch) && Proper(tree) && Published(tree, head, batch, tree', head')
    requires FlushResult(State(batch, tree'), head', others, meanwhile, s, head'')
    ensures Untouched(tree', head', others, s.tree, head'')
  {
    if !Untouched(tree', head', others, s.tree, head'') {
      var order :| Iterates(order, batch) && RunOps(tree', order, batch) == Some(s.tree);
      RetryMakesNoCommit(tree, head, batch, tree', head', order);
    }
  }

  // ---------- a failed flush ----------

  /** A failed flush, characterised: no path is lost, the restored batch overlays what was enqueued
      meanwhile, and at a path the result is what it would be had the flush never run if, and only
      if, the path was not re-enqueued with a different operation during the export. */
  lemma FailedFlush(batch: Ops, meanwhile: seq<Enqueued>, p: string)
    ensures var newer := QueueAll(map[], meanwhile);
            var restored := newer + batch;
            && restored.Keys == newer.Keys + batch.Keys
            && (Lookup(restored, p) == Lookup(QueueAll(batch, meanwhile), p)
                <==> !(p in newer && p in batch && newer[p] != batch[p]))
  {
    QueueAllOverlays(batch, meanwhile);
  }

  /** "Last write wins" fails across a failed flush: the older batch overwrites the newer write. */
  lemma FailedFlushRevivesOldWrite(path: string, older: string, newer: string)
    requires older != newer
    ensures var batch := map[path := Write(older)];
            var restored := QueueAll(map[], [Enqueued(path, Write(newer))]) + batch;
            restored[path] == Write(older) && QueueAll(batch, [Enqueued(path, Write(newer))])[path] == Write(newer)
  {
    var es := [Enqueued(path, Write(newer))];
    assert es[..0] == [];
    assert QueueAll(map[], es) == QueueAll(map[], es[..0])[path := Write(newer)];
    var batch := map[path := Write(older)];
    assert QueueAll(batch, es) == QueueAll(batch, es[..0])[path := Write(newer)];
  }

  // ---------- debouncing refines immediate application ----------

  /** The tree after a batch, as a value. */
  function EffectOf(files: Files, batch: Ops): Files {
    var places := files.Keys + batch.Keys + set p | p in files :: ArchiveDest(p);
    map p | p in places && After(files, batch, p).Some? :: After(files, batch, p).value
  }

  lemma EffectOfIsEffect(files: Files, batch: Ops)
    requires LiveBatch(batch)
    ensures IsEffect(files, batch, EffectOf(files, batch))
  {
    forall p ensures Lookup(EffectOf(files, batch), p) == After(files, batch, p) {
      if p !in batch && Text.HasPrefix(p, Paths.ARCHIVE_PREFIX) && Moves(files, batch, LiveSource(p)) {
        SourceInjective(p, LiveSource(p));
        assert p == ArchiveDest(LiveSource(p));
      }
    }
  }

  /** Every way to run the batch gives that tree. */
  lemma RunOpsIsEffect(tree: Files, order: seq<string>, batch: Ops, tree': Files)
    requires LiveBatch(batch) && Iterates(order, batch) && RunOps(tree, order, batch) == Some(tree')
    ensures tree' == EffectOf(tree, batch)
  {
    BatchConfluent(tree, order, batch);
    EffectOfIsEffect(tree, batch);
    EffectUnique(tree, batch, tree', EffectOf(tree, batch));
  }

  /** What a flush publishes, or finds already there, is the effect of the batch. */
  lemma PublishedIsEffect(tree: Files, head: nat, batch: Ops, tree': Files, head': nat)
    requires LiveBatch(batch)
    ensures Published(tree, head, batch, tree', head') ==> tree' == EffectOf(tree, batch)
    ensures NoDiff(tree, batch) ==> tree == EffectOf(tree, batch)
  {
    if Published(tree, head, batch, tree', head') {
      var order :| Iterates(order, batch) && RunOps(tree, order, batch) == Some(tree');
      RunOpsIsEffect(tree, order, batch, tree');
    }
    if NoDiff(tree, batch) {
      var order :| Iterates(order, batch) && RunOps(tree, order, batch) == Some(tree);
      RunOpsIsEffect(tree, order, batch, tree);
    }
  }

  lemma EmptyEffect(tree: Files)
    ensures EffectOf(tree, map[]) == tree
  {
    EffectOfIsEffect(tree, map[]);
    assert IsEffect(tree, map[], tree);
    EffectUnique(tree, map[], tree, EffectOf(tree, map[]));
  }

  /** A single operation, run at once. */
  lemma RunOpIsEffect(tree: Files, rel: string, op: PendingExport)
    requires LivePath(rel) && Clear(tree, rel, op)
    ensures RunOp(tree, rel, op) == Some(EffectOf(tree, map[rel := op]))
  {
    RunsIffClear(tree, rel, op);
    var batch: Ops := map[rel := op];
    assert [rel][..0] == [];
    assert RunOps(tree, [rel], batch) == RunOp(tree, rel, op);
    RunOpsIsEffect(tree, [rel], batch, RunOp(tree, rel, op).value);
  }

  /** What happens to the worker: a single enqueue, or a flush during which others enqueue. A flush
      that fails may have landed on the remote all the same. */
  datatype Action =
    | Request(e: Enqueued)
    | Flushed(meanwhile: seq<Enqueued>)
    | Failed(meanwhile: seq<Enqueued>, landed: bool)

  function Act(s: State, a: Action): State {
    match a
    case Request(e) => s.(pending := s.pending[e.path := e.op])
    case Flushed(meanwhile) => State(QueueAll(map[], meanwhile), EffectOf(s.tree, s.pending))
    case Failed(meanwhile, landed) =>
      State(QueueAll(map[], meanwhile) + s.pending, if landed then EffectOf(s.tree, s.pending) else s.tree)
  }

  /** Without pushes from others, what a flush comes to is one of the actions. */
  lemma FlushIsAct(s: State, head: nat, meanwhile: seq<Enqueued>, s': State, head': nat)
    requires LiveBatch(s.pending)
    requires FlushResult(s, head, [], meanwhile, s', head')
          || (s.pending == map[] && s' == State(QueueAll(map[], meanwhile), s.tree))
    ensures s' in {Act(s, Flushed(meanwhile)), Act(s, Failed(meanwhile, true)), Act(s, Failed(meanwhile, false))}
  {
    if FlushResult(s, head, [], meanwhile, s', head') {
      PublishedIsEffect(s.tree, head, s.pending, s'.tree, head');
    } else {
      EmptyEffect(s.tree);
    }
  }

  function Run(s: State, actions: seq<Action>): State {
    if actions == [] then s else Act(Run(s, actions[..|actions| - 1]), actions[|actions| - 1])
  }

  function Requests(a: Action): seq<Enqueued> {
    if a.Request? then [a.e] else a.meanwhile
  }

  /** The reference: a worker without queue that applies every operation at once, in order. */
  function Apply(files: Files, es: seq<Enqueued>): Files {
    if es == [] then files
    else
      var e := es[|es| - 1];
      EffectOf(Apply(files, es[..|es| - 1]), map[e.path := e.op])
  }

  function Immediate(files: Files, actions: seq<Action>): Files {
    if actions == [] then files
    else Apply(Immediate(files, actions[..|actions| - 1]), Requests(actions[|actions| - 1]))
  }

  /** All operations are on live paths. */
  predicate OnLivePaths(es: seq<Enqueued>) {
    forall i :: 0 <= i < |es| ==> LivePath(es[i].path)
  }

  /** No flush fails while one of its paths is re-enqueued with a different operation. */
  predicate NoStaleRestore(s: State, actions: seq<Action>) {
    forall i :: 0 <= i < |actions| && actions[i].Failed? ==>
      var batch, newer := Run(s, actions[..i]).pending, QueueAll(map[], actions[i].meanwhile);
      forall p :: p in batch && p in newer ==> batch[p] == newer[p]
  }

  /** What a live path holds once everything queued has been written. */
  function Pledged(s: State, p: string): Option<string> {
    if p in s.pending then
      match s.pending[p]
      case Write(content) => Some(content)
      case Archive => None
    else Lookup(s.tree, p)
  }

  lemma {:induction false} QueuedTarget(s: State, es: seq<Enqueued>, files: Files, p: string)
    requires OnLivePaths(es) && LivePath(p) && Pledged(s, p) == Lookup(files, p)
    ensures Pledged(s.(pending := QueueAll(s.pending, es)), p) == Lookup(Apply(files, es), p)
  {
    if es != [] {
      var n := |es| - 1;
      QueuedTarget(s, es[..n], files, p);
      var before := Apply(files, es[..n]);
      var e := es[n];
      assert LivePath(e.path);
      LivePathFacts(p);
      EffectOfIsEffect(before, map[e.path := e.op]);
      assert Lookup(EffectOf(before, map[e.path := e.op]), p) == After(before, map[e.path := e.op], p);
    }
  }

  lemma {:induction false} QueueAllLive(pending: Ops, es: seq<Enqueued>)
    requires LiveBatch(pending) && OnLivePaths(es)
    ensures LiveBatch(QueueAll(pending, es))
  {
    if es != [] { QueueAllLive(pending, es[..|es| - 1]); }
  }

  lemma RequestPledged(s: State, e: Enqueued, files: Files, p: string)
    requires LiveBatch(s.pending) && LivePath(e.path) && LivePath(p) && Pledged(s, p) == Lookup(files, p)
    ensures Pledged(Act(s, Request(e)), p) == Lookup(Apply(files, [e]), p)
  {
    QueuedTarget(s, [e], files, p);
    assert [e][..0] == [];
    assert QueueAll(s.pending, [e]) == QueueAll(s.pending, [e][..0])[e.path := e.op];
  }

  lemma FlushedPledged(s: State, meanwhile: seq<Enqueued>, files: Files, p: string)
    requires LiveBatch(s.pending) && OnLivePaths(meanwhile) && LivePath(p) && Pledged(s, p) == Lookup(files, p)
    ensures Pledged(Act(s, Flushed(meanwhile)), p) == Lookup(Apply(files, meanwhile), p)
  {
    LivePathFacts(p);
    EffectOfIsEffect(s.tree, s.pending);
    var s' := State(map[], EffectOf(s.tree, s.pending));
    assert Lookup(s'.tree, p) == After(s.tree, s.pending, p);
    QueuedTarget(s', meanwhile, files, p);
  }

  lemma FailedPledged(s: State, meanwhile: seq<Enqueued>, landed: bool, files: Files, p: string)
    requires LiveBatch(s.pending) && OnLivePaths(meanwhile) && LivePath(p) && Pledged(s, p) == Lookup(files, p)
    requires forall q :: q in s.pending && q in QueueAll(map[], meanwhile) ==>
                           s.pending[q] == QueueAll(map[], meanwhile)[q]
    ensures Pledged(Act(s, Failed(meanwhile, landed)), p) == Lookup(Apply(files, meanwhile), p)
  {
    QueueAllOverlays(s.pending, meanwhile);
    var newer := QueueAll(map[], meanwhile);
    assert newer + s.pending == s.pending + newer;
    LivePathFacts(p);
    EffectOfIsEffect(s.tree, s.pending);
    var s' := if landed then s.(tree := EffectOf(s.tree, s.pending)) else s;
    assert landed ==> Lookup(s'.tree, p) == After(s.tree, s.pending, p);
    QueuedTarget(s', meanwhile, files, p);
  }

  lemma ActPledged(s: State, a: Action, files: Files, p: string)
    requires LiveBatch(s.pending) && OnLivePaths(Requests(a)) && LivePath(p)
    requires a.Failed? ==> forall q :: q in s.pending && q in QueueAll(map[], a.meanwhile) ==>
                                         s.pending[q] == QueueAll(map[], a.meanwhile)[q]
    requires Pledged(s, p) == Lookup(files, p)
    ensures LiveBatch(Act(s, a).pending)
    ensures Pledged(Act(s, a), p) == Lookup(Apply(files, Requests(a)), p)
  {
    match a
    case Request(e) =>
      assert Requests(a)[0] == e;
      RequestPledged(s, e, files, p);
    case Flushed(meanwhile) =>
      QueueAllLive(map[], meanwhile);
      FlushedPledged(s, meanwhile, files, p);
    case Failed(meanwhile, landed) =>
      QueueAllLive(map[], meanwhile);
      FailedPledged(s, meanwhile, landed, files, p);
  }

  lemma {:induction false} RunPledged(files: Files, actions: seq<Action>, p: string)
    requires forall i :: 0 <= i < |actions| ==> OnLivePaths(Requests(actions[i]))
    requires NoStaleRestore(State(map[], files), actions) && LivePath(p)
    ensures LiveBatch(Run(State(map[], files), actions).pending)
    ensures Pledged(Run(State(map[], files), actions), p) == Lookup(Immediate(files, actions), p)
    decreases |actions|
  {
    if actions != [] {
      var n := |actions| - 1;
      var s0 := State(map[], files);
      var front := actions[..n];
      forall i | 0 <= i < n && front[i].Failed?
        ensures var batch, newer := Run(s0, front[..i]).pending, QueueAll(map[], front[i].meanwhile);
                forall q :: q in batch && q in newer ==> batch[q] == newer[q]
      {
        assert front[..i] == actions[..i] && actions[i].Failed?;
      }
      RunPledged(files, front, p);
      assert OnLivePaths(Requests(actions[n]));
      ActPledged(Run(s0, front), actions[n], Immediate(files, front), p);
    }
  }

  /** Debounce refinement: whatever the interleaving of enqueues and flushes, once the queue has been
      flushed the live files are those of a worker that applies every operation at once. */
  lemma DebounceRefinesImmediate(files: Files, actions: seq<Action>, p: string)
    requires forall i :: 0 <= i < |actions| ==> OnLivePaths(Requests(actions[i]))
    requires NoStaleRestore(State(map[], files), actions) && LivePath(p)
    requires actions != [] && actions[|actions| - 1] == Flushed([])
    ensures Lookup(Run(State(map[], files), actions).tree, p) == Lookup(Immediate(files, actions), p)
  {
    RunPledged(files, actions, p);
    assert QueueAll(map[], []) == map[];
  }
}
