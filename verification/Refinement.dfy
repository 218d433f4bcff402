/** The worker's flush, as its method guarantees it, is made of steps of the joint system. */
module Refinement {
  import opened Wrappers
  import opened Tree
  import opened Inventory
  import opened Protocol
  import Push
  import Termination
  import Worker

  /** The queue and the tree of a system. */
  function StateOf(s: System): Worker.State {
    Worker.State(s.memory.pending, s.remote)
  }

  lemma CommitmentFor(s: System, remote: Files, order: seq<string>) returns (commits: seq<Push.Commit>)
    requires s.batch.Some? && LiveBatch(s.batch.value) && Iterates(order, s.batch.value)
    requires RunOps(s.remote, order, s.batch.value) == Some(remote)
    ensures Describes(commits, s.remote, remote)
  {
    BatchConfluent(s.remote, order, s.batch.value);
    forall p | Lookup(s.remote, p) != Lookup(remote, p) ensures p != "" {
      assert Lookup(remote, p) == After(s.remote, s.batch.value, p);
      assert p in s.batch.value ==> LivePath(p);
    }
    commits := Termination.Commitment(s.remote, remote);
  }

  function NotesAfter(s: System, remote: Files, commits: seq<Push.Commit>): seq<Note> {
    if remote == s.remote then s.pushes else s.pushes + [Note(commits, remote)]
  }

  lemma LandsAs(s: System, remote: Files, order: seq<string>) returns (commits: seq<Push.Commit>)
    requires s.batch.Some? && LiveBatch(s.batch.value) && Iterates(order, s.batch.value)
    requires RunOps(s.remote, order, s.batch.value) == Some(remote)
    ensures Lands(s, order, commits, remote, NotesAfter(s, remote, commits))
  {
    commits := CommitmentFor(s, remote, order);
  }

  /** The flush ends in one of the two ways that the joint system knows. */
  ghost predicate Ends(s: System, s': System) {
    || (exists order, commits :: EndFlush(s, order, commits, s'))
    || (exists order, commits :: FailFlush(s, order, commits, s'))
  }

  lemma EndsWell(s: System, remote: Files, order: seq<string>) returns (s': System)
    requires s.batch.Some? && LiveBatch(s.batch.value) && Iterates(order, s.batch.value)
    requires RunOps(s.remote, order, s.batch.value) == Some(remote)
    ensures Ends(s, s') && StateOf(s') == Worker.State(s.memory.pending, remote)
  {
    var commits := LandsAs(s, remote, order);
    s' := s.(batch := None, remote := remote, pushes := NotesAfter(s, remote, commits));
    assert EndFlush(s, order, commits, s');
  }

  lemma EndsBadly(s: System) returns (s': System)
    requires s.batch.Some?
    ensures Ends(s, s') && StateOf(s') == Worker.State(s.memory.pending + s.batch.value, s.remote)
  {
    s' := s.(batch := None, memory := s.memory.(pending := s.memory.pending + s.batch.value));
    assert FailFlush(s, [], [], s');
  }

  lemma EndsUnheard(s: System, remote: Files, order: seq<string>) returns (s': System)
    requires s.batch.Some? && LiveBatch(s.batch.value) && Iterates(order, s.batch.value)
    requires RunOps(s.remote, order, s.batch.value) == Some(remote)
    ensures Ends(s, s') && StateOf(s') == Worker.State(s.memory.pending + s.batch.value, remote)
  {
    var commits := LandsAs(s, remote, order);
    s' := s.(batch := None, memory := s.memory.(pending := s.memory.pending + s.batch.value),
             remote := remote, pushes := NotesAfter(s, remote, commits));
    assert FailFlush(s, order, commits, s');
  }

  /** Whatever a flush of the worker comes to, with others enqueuing meanwhile, it is a `BeginFlush` of the joint
      system, then those enqueues, then an `EndFlush` or a `FailFlush`, with the same queue and tree. When others
      push meanwhile, the flush leaves the tree to them: its last step then changes nothing there. */
  lemma FlushIsSteps(s: System, head: nat, others: seq<Files>, meanwhile: seq<Worker.Enqueued>,
                     after: Worker.State, head': nat) returns (begun: System, queued: System, ended: System)
    requires s.batch.None? && s.memory.pending != map[] && LiveBatch(s.memory.pending)
    requires Worker.FlushResult(StateOf(s), head, others, meanwhile, after, head')
    ensures BeginFlush(s, begun)
    ensures queued == begun.(memory := begun.memory.(pending := Worker.QueueAll(map[], meanwhile)))
    ensures Ends(queued, ended) && ended.memory.pending == after.pending
    ensures ended.remote == if others == [] then after.tree else s.remote
    ensures others != [] ==> after.tree == others[|others| - 1]
  {
    var batch, newer := s.memory.pending, Worker.QueueAll(map[], meanwhile);
    begun := s.(batch := Some(batch), memory := s.memory.(pending := map[]));
    queued := begun.(memory := begun.memory.(pending := newer));
    if Worker.Published(s.remote, head, batch, after.tree, head') && others == [] {
      var order :| Iterates(order, batch) && RunOps(s.remote, order, batch) == Some(after.tree);
      if after.pending == newer + batch {
        ended := EndsUnheard(queued, after.tree, order);
      } else {
        ended := EndsWell(queued, after.tree, order);
      }
    } else if after.pending == newer + batch {
      ended := EndsBadly(queued);
    } else {
      assert Worker.NoDiff(s.remote, batch);
      var order :| Iterates(order, batch) && RunOps(s.remote, order, batch) == Some(s.remote);
      ended := EndsWell(queued, s.remote, order);
    }
  }
}
