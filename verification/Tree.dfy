/** The Git tree and the file operations a batch performs in its clone
    (internal/git/worker.go, exportBatch and archiveInventoryFileInClone). */
module Tree {
  import opened Wrappers
  import opened Text
  import opened Paths

  /** File path to content. Directories exist only through the files below them. */
  type Files = map<string, string>

  datatype PendingExport = Write(content: string) | Archive

  type Ops = map<string, PendingExport>

  /** `dir` is a proper ancestor directory of `p`. */
  predicate Ancestor(dir: string, p: string) {
    HasPrefix(p, dir + "/")
  }

  /** A file cannot be at `p`: a file sits where one of its directories should be, or `p` itself
      is a directory. */
  predicate Blocked(files: Files, p: string) {
    exists q :: q in files && (Ancestor(q, p) || Ancestor(p, q))
  }

  /** One batch operation in the clone; None is an error. */
  function RunOp(files: Files, rel: string, op: PendingExport): Option<Files> {
    match op
    case Write(content) => if Blocked(files, rel) then None else Some(files[rel := content])
    case Archive =>
      match ArchiveRelativePath(rel)
      case None => None
      case Some(dest) =>
        if rel !in files then
          if Blocked(files, rel) then None else Some(files)
        else if Blocked(files, dest) then None
        else Some((files - {rel})[dest := files[rel]])
  }

  /** The operations of `batch` on the paths of `order`, one after the other. */
  function RunOps(files: Files, order: seq<string>, batch: Ops): Option<Files>
    requires forall p :: p in order ==> p in batch
  {
    if order == [] then Some(files)
    else
      var last := order[|order| - 1];
      match RunOps(files, order[..|order| - 1], batch)
      case None => None
      case Some(files') => RunOp(files', last, batch[last])
  }

  /** `order` lists every path of the batch once: one possible iteration of the Go map. */
  ghost predicate Iterates(order: seq<string>, batch: Ops) {
    && NoDuplicates(order)
    && forall p :: p in order <==> p in batch
  }

  /** Writing a file fails if, and only if, another file is where one of its directories should be, or below it. */
  lemma WriteFailsIff(files: Files, rel: string, content: string)
    ensures RunOp(files, rel, Write(content)) == None
            <==> exists q :: q in files && (HasPrefix(rel, q + "/") || HasPrefix(q, rel + "/"))
    ensures RunOp(files, rel, Write(content)).Some? ==> RunOp(files, rel, Write(content)) == Some(files[rel := content])
  {
    if Blocked(files, rel) {
      var q :| q in files && (Ancestor(q, rel) || Ancestor(rel, q));
      assert HasPrefix(rel, q + "/") || HasPrefix(q, rel + "/");
    }
    if q :| q in files && (HasPrefix(rel, q + "/") || HasPrefix(q, rel + "/")) {
      assert Ancestor(q, rel) || Ancestor(rel, q);
    }
  }

  /** Archiving moves the file, whatever was at its destination; without a file it does nothing; and outside the
      inventory, or with its way blocked, it fails. */
  lemma ArchiveMoves(files: Files, rest: string)
    ensures var rel, dest := "inventory/" + rest, "inventory/archive/" + rest;
            && (rel in files && !Blocked(files, dest) ==>
                  RunOp(files, rel, Archive) == Some((files - {rel})[dest := files[rel]]))
            && (rel !in files && !Blocked(files, rel) ==> RunOp(files, rel, Archive) == Some(files))
            && (rel in files && Blocked(files, dest) ==> RunOp(files, rel, Archive) == None)
            && (rel !in files && Blocked(files, rel) ==> RunOp(files, rel, Archive) == None)
    ensures forall rel :: !HasPrefix(rel, "inventory/") ==> RunOp(files, rel, Archive) == None
  {
    ArchivedName(rest);
  }

  // ---------- live and archived paths ----------

  predicate LivePath(p: string) {
    var parts := Split(p);
    |parts| == 4 && parts[0] == "inventory" && ArgoPlural(parts[1])
  }

  predicate ArchivedPath(p: string) {
    var parts := Split(p);
    |parts| == 5 && parts[0] == "inventory" && parts[1] == "archive" && ArgoPlural(parts[2])
  }

  function ArchiveDest(live: string): string {
    ARCHIVE_PREFIX + TrimPrefix(live, INVENTORY_PREFIX)
  }

  /** The live path whose archived copy would be at `p`. */
  function LiveSource(p: string): string {
    INVENTORY_PREFIX + TrimPrefix(p, ARCHIVE_PREFIX)
  }

  lemma StartsWithFirstPart(p: string, first: string)
    requires |Split(p)| > 1 && Split(p)[0] == first && '/' !in first
    ensures HasPrefix(p, first + "/")
    ensures Split(TrimPrefix(p, first + "/")) == Split(p)[1..]
  {
    var parts := Split(p);
    var x := Join(parts[1..]);
    JoinSplit(p);
    assert p == (first + "/") + x;
    TrimPrefixAppend(first + "/", x);
    SplitConcat(first, x);
    SplitPlain(first);
    assert ([first] + Split(x))[1..] == Split(x);
  }

  lemma LivePathFacts(p: string)
    requires LivePath(p)
    ensures HasPrefix(p, INVENTORY_PREFIX) && ArchiveRelativePath(p) == Some(ArchiveDest(p))
    ensures !HasPrefix(p, ARCHIVE_PREFIX)
    ensures ArchivedPath(ArchiveDest(p)) && !LivePath(ArchiveDest(p)) && !ArchivedPath(p)
    ensures HasPrefix(ArchiveDest(p), ARCHIVE_PREFIX) && LiveSource(ArchiveDest(p)) == p
  {
    assert '/' !in "inventory";
    StartsWithFirstPart(p, "inventory");
    assert INVENTORY_PREFIX == "inventory" + "/";
    var rest := TrimPrefix(p, INVENTORY_PREFIX);
    assert p == INVENTORY_PREFIX + rest;
    ArchivePrefixParts(rest);
    TrimPrefixAppend(ARCHIVE_PREFIX, rest);
    if HasPrefix(p, ARCHIVE_PREFIX) {
      var tail := p[|ARCHIVE_PREFIX|..];
      assert p == ARCHIVE_PREFIX + tail;
      ArchivePrefixParts(tail);
    }
  }

  lemma ArchivePrefixParts(rest: string)
    ensures Split(ARCHIVE_PREFIX + rest) == ["inventory", "archive"] + Split(rest)
  {
    assert ARCHIVE_PREFIX == "inventory" + "/" + "archive" + "/";
    assert '/' !in "inventory" && '/' !in "archive";
    ArchivedSplit("inventory", "archive", rest);
  }

  lemma ArchivedSplit(a: string, b: string, rest: string)
    requires '/' !in a && '/' !in b
    ensures Split((a + "/" + b + "/") + rest) == [a, b] + Split(rest)
  {
    RegroupPair(a, b, rest);
    SplitPair(a, b, rest);
  }

  lemma AncestorParts(dir: string, p: string)
    requires Ancestor(dir, p)
    ensures Split(dir) <= Split(p) && |Split(dir)| < |Split(p)|
  {
    var x := p[|dir| + 1..];
    assert p == dir + "/" + x;
    SplitConcat(dir, x);
  }

  /** No live or archived path is a directory of another one. */
  lemma PlacesApart(p: string, q: string)
    requires LivePath(p) || ArchivedPath(p)
    requires LivePath(q) || ArchivedPath(q)
    ensures !Ancestor(p, q)
  {
    if Ancestor(p, q) {
      AncestorParts(p, q);
    }
  }

  /** Rendered paths are live paths, and their archived copies go to the archive. */
  lemma RenderedIsLive(t: Target)
    requires Named(t)
    ensures LivePath(PathOf(t)) && ArchiveDest(PathOf(t)) == ArchiveOf(t)
  {
    PathElements(t);
  }

  // ---------- the effect of a batch, independent of order ----------

  predicate LiveBatch(batch: Ops) {
    forall p :: p in batch ==> LivePath(p)
  }

  /** A live path or a place in the archive. */
  predicate Place(p: string) {
    LivePath(p) || ArchivedPath(p)
  }

  /** The operation finds its way free: a write at its path, an archive operation at its destination, or,
      when there is no file to archive, at its path. */
  predicate Clear(files: Files, rel: string, op: PendingExport) {
    !Blocked(files, if op.Archive? && rel in files then ArchiveDest(rel) else rel)
  }

  predicate AllClear(files: Files, batch: Ops) {
    forall p :: p in batch ==> Clear(files, p, batch[p])
  }

  /** Nothing in the tree stands in the way of an exported file or its archived copy. */
  ghost predicate Unobstructed(files: Files) {
    forall t :: Named(t) ==> !Blocked(files, PathOf(t)) && !Blocked(files, ArchiveOf(t))
  }

  /** No file is a directory, as in every tree that Git can hold. */
  ghost predicate Proper(files: Files) {
    forall p :: p in files ==> !Blocked(files, p)
  }

  /** What is at `p` once the whole batch has run, stated without an order. */
  function After(files: Files, batch: Ops, p: string): Option<string> {
    if p in batch then
      match batch[p]
      case Write(content) => Some(content)
      case Archive => None
    else if HasPrefix(p, ARCHIVE_PREFIX) && Moves(files, batch, LiveSource(p)) then Some(files[LiveSource(p)])
    else Lookup(files, p)
  }

  /** The live file exists and the batch archives it. */
  predicate Moves(files: Files, batch: Ops, p: string) {
    p in batch && batch[p].Archive? && p in files
  }

  ghost predicate IsEffect(files: Files, batch: Ops, files': Files) {
    forall p :: Lookup(files', p) == After(files, batch, p)
  }

  lemma EffectUnique(files: Files, batch: Ops, a: Files, b: Files)
    requires IsEffect(files, batch, a) && IsEffect(files, batch, b)
    ensures a == b
  {
    forall p ensures p in a <==> p in b {
      assert Lookup(a, p) == Lookup(b, p);
    }
    forall p | p in a ensures a[p] == b[p] {
      assert Lookup(a, p) == Lookup(b, p);
    }
  }

  /** A batch adds and removes nothing but places. */
  lemma OnlyPlacesChange(files: Files, batch: Ops, files': Files, q: string)
    requires LiveBatch(batch) && IsEffect(files, batch, files') && !Place(q)
    ensures q in files' <==> q in files
  {
    assert Lookup(files', q) == After(files, batch, q);
    if HasPrefix(q, ARCHIVE_PREFIX) && Moves(files, batch, LiveSource(q)) {
      SourceInjective(q, LiveSource(q));
      LivePathFacts(LiveSource(q));
    }
  }

  lemma BlockedByOther(files: Files, p: string) returns (q: string)
    requires Place(p) && Blocked(files, p)
    ensures q in files && (Ancestor(q, p) || Ancestor(p, q)) && !Place(q)
  {
    q :| q in files && (Ancestor(q, p) || Ancestor(p, q));
    if Place(q) {
      PlacesApart(p, q);
      PlacesApart(q, p);
    }
  }

  /** A batch neither blocks a place nor clears it. */
  lemma BlockedStays(files: Files, batch: Ops, files': Files, p: string)
    requires LiveBatch(batch) && IsEffect(files, batch, files') && Place(p)
    ensures Blocked(files', p) <==> Blocked(files, p)
  {
    if Blocked(files, p) {
      var q := BlockedByOther(files, p);
      OnlyPlacesChange(files, batch, files', q);
    }
    if Blocked(files', p) {
      var q := BlockedByOther(files', p);
      OnlyPlacesChange(files, batch, files', q);
    }
  }

  /** A batch on live paths leaves the way free for every later one. */
  lemma EffectUnobstructed(files: Files, batch: Ops, files': Files)
    requires LiveBatch(batch) && Unobstructed(files) && IsEffect(files, batch, files')
    ensures Unobstructed(files')
  {
    forall t | Named(t) ensures !Blocked(files', PathOf(t)) && !Blocked(files', ArchiveOf(t)) {
      RenderedIsLive(t);
      LivePathFacts(PathOf(t));
      BlockedStays(files, batch, files', PathOf(t));
      BlockedStays(files, batch, files', ArchiveOf(t));
    }
  }

  lemma UnobstructedClear(files: Files, t: Target, op: PendingExport)
    requires Unobstructed(files) && Named(t)
    ensures Clear(files, PathOf(t), op)
  {
    RenderedIsLive(t);
  }

  /** An operation runs if, and only if, its way is free. */
  lemma RunsIffClear(files: Files, rel: string, op: PendingExport)
    requires LivePath(rel)
    ensures RunOp(files, rel, op).Some? <==> Clear(files, rel, op)
  {
    LivePathFacts(rel);
  }

  /** Running one more operation extends the effect by that operation; it can run exactly when it could
      have run first. */
  lemma EffectStep(files: Files, batch: Ops, mid: Files, rel: string, op: PendingExport)
    requires LiveBatch(batch) && LivePath(rel) && rel !in batch && IsEffect(files, batch, mid)
    ensures RunOp(mid, rel, op).Some? <==> Clear(files, rel, op)
    ensures RunOp(mid, rel, op).Some? ==> IsEffect(files, batch[rel := op], RunOp(mid, rel, op).value)
  {
    LivePathFacts(rel);
    RunsIffClear(mid, rel, op);
    assert Lookup(mid, rel) == After(files, batch, rel) == Lookup(files, rel);
    BlockedStays(files, batch, mid, rel);
    BlockedStays(files, batch, mid, ArchiveDest(rel));
    if RunOp(mid, rel, op).Some? {
      forall p ensures Lookup(RunOp(mid, rel, op).value, p) == After(files, batch[rel := op], p) {
        EffectStepAt(files, batch, mid, rel, op, p);
      }
    }
  }

  lemma EffectStepAt(files: Files, batch: Ops, mid: Files, rel: string, op: PendingExport, p: string)
    requires LiveBatch(batch) && LivePath(rel) && rel !in batch
    requires RunOp(mid, rel, op).Some? && IsEffect(files, batch, mid)
    ensures Lookup(RunOp(mid, rel, op).value, p) == After(files, batch[rel := op], p)
  {
    LivePathFacts(rel);
    assert Lookup(mid, rel) == After(files, batch, rel) == Lookup(files, rel);
    assert Lookup(mid, p) == After(files, batch, p);
    var dest := ArchiveDest(rel);
    assert dest !in batch;
    if HasPrefix(p, ARCHIVE_PREFIX) {
      SourceInjective(p, rel);
      if p in batch { LivePathFacts(p); }
    }
  }

  lemma SourceInjective(p: string, rel: string)
    requires HasPrefix(p, ARCHIVE_PREFIX) && LivePath(rel)
    ensures LiveSource(p) == rel <==> p == ArchiveDest(rel)
  {
    LivePathFacts(rel);
    var tail := p[|ARCHIVE_PREFIX|..];
    assert p == ARCHIVE_PREFIX + tail;
    TrimPrefixAppend(INVENTORY_PREFIX, tail);
  }

  function Restrict(batch: Ops, order: seq<string>): Ops
    requires forall p :: p in order ==> p in batch
  {
    map p | p in order :: batch[p]
  }

  lemma {:induction false} RunOpsEffect(files: Files, order: seq<string>, batch: Ops)
    requires LiveBatch(batch)
    requires NoDuplicates(order) && forall p :: p in order ==> p in batch
    ensures RunOps(files, order, batch).Some? <==> AllClear(files, Restrict(batch, order))
    ensures RunOps(files, order, batch).Some? ==>
              IsEffect(files, Restrict(batch, order), RunOps(files, order, batch).value)
  {
    if order == [] {
      forall p ensures Lookup(files, p) == After(files, Restrict(batch, order), p) {
      }
    } else {
      var n := |order| - 1;
      var front, last := order[..n], order[n];
      assert order == front + [last];
      RunOpsEffect(files, front, batch);
      assert Restrict(batch, front)[last := batch[last]] == Restrict(batch, order);
      ClearSnoc(files, Restrict(batch, front), last, batch[last]);
      if RunOps(files, front, batch).Some? {
        EffectStep(files, Restrict(batch, front), RunOps(files, front, batch).value, last, batch[last]);
      }
    }
  }

  lemma ClearSnoc(files: Files, batch: Ops, rel: string, op: PendingExport)
    requires rel !in batch
    ensures AllClear(files, batch[rel := op]) <==> AllClear(files, batch) && Clear(files, rel, op)
  {
    var longer := batch[rel := op];
    if AllClear(files, longer) {
      forall p | p in batch ensures Clear(files, p, batch[p]) { assert Clear(files, p, longer[p]); }
      assert Clear(files, rel, longer[rel]);
    }
  }

  /** Confluence: on live paths, in any tree, every iteration order of the Go map ends the same way. The
      batch fails if, and only if, one of its operations finds its way blocked beforehand; otherwise the
      resulting tree is the one described by `After`. */
  lemma BatchConfluent(files: Files, order: seq<string>, batch: Ops)
    requires LiveBatch(batch) && Iterates(order, batch)
    ensures RunOps(files, order, batch).Some? <==> AllClear(files, batch)
    ensures AllClear(files, batch) ==> IsEffect(files, batch, RunOps(files, order, batch).value)
    ensures forall other :: Iterates(other, batch) ==> RunOps(files, other, batch) == RunOps(files, order, batch)
  {
    RunOpsEffect(files, order, batch);
    assert Restrict(batch, order) == batch;
    forall other | Iterates(other, batch)
      ensures RunOps(files, other, batch) == RunOps(files, order, batch)
    {
      RunOpsEffect(files, other, batch);
      assert Restrict(batch, other) == batch;
      if AllClear(files, batch) {
        EffectUnique(files, batch, RunOps(files, other, batch).value, RunOps(files, order, batch).value);
      }
    }
  }

  /** What blocks a file in the new tree blocked the same place before. */
  lemma EffectProper(files: Files, batch: Ops, files': Files)
    requires LiveBatch(batch) && Proper(files) && AllClear(files, batch) && IsEffect(files, batch, files')
    ensures Proper(files')
  {
    forall p | p in files' ensures !Blocked(files', p) {
      if Place(p) {
        PlaceStaysFree(files, batch, files', p);
      } else if Blocked(files', p) {
        var q :| q in files' && (Ancestor(q, p) || Ancestor(p, q));
        OnlyPlacesChange(files, batch, files', p);
        if Place(q) {
          PlaceStaysFree(files, batch, files', q);
        } else {
          OnlyPlacesChange(files, batch, files', q);
        }
      }
    }
  }

  lemma PlaceStaysFree(files: Files, batch: Ops, files': Files, p: string)
    requires LiveBatch(batch) && Proper(files) && AllClear(files, batch) && IsEffect(files, batch, files')
    requires Place(p) && p in files'
    ensures !Blocked(files', p)
  {
    BlockedStays(files, batch, files', p);
    assert Lookup(files', p) == After(files, batch, p);
    if p in batch {
      assert Clear(files, p, batch[p]);
    } else if HasPrefix(p, ARCHIVE_PREFIX) && Moves(files, batch, LiveSource(p)) {
      SourceInjective(p, LiveSource(p));
      assert Clear(files, LiveSource(p), batch[LiveSource(p)]);
    }
  }

  /** A batch that ran finds its way free again. */
  lemma ClearAgain(files: Files, batch: Ops, files': Files)
    requires LiveBatch(batch) && Proper(files) && AllClear(files, batch) && IsEffect(files, batch, files')
    ensures AllClear(files', batch)
  {
    forall p | p in batch ensures Clear(files', p, batch[p]) {
      assert Clear(files, p, batch[p]);
      assert Lookup(files', p) == After(files, batch, p);
      BlockedStays(files, batch, files', p);
    }
  }

  // ---------- consequences ----------

  /** Retry safety: a batch applied a second time changes nothing, so a retried batch whose first
      push did reach the remote makes no commit. */
  lemma BatchIdempotent(files: Files, batch: Ops, once: Files, twice: Files)
    requires LiveBatch(batch)
    requires IsEffect(files, batch, once) && IsEffect(once, batch, twice)
    ensures twice == once
  {
    forall p ensures Lookup(once, p) == After(once, batch, p) {
      assert Lookup(once, p) == After(files, batch, p);
      if p !in batch && HasPrefix(p, ARCHIVE_PREFIX) {
        var s := LiveSource(p);
        assert Lookup(once, s) == After(files, batch, s);
      }
    }
    EffectUnique(once, batch, once, twice);
  }

  /** Soft delete loses nothing in one batch: every live file stays or its exact content is moved
      to the archive, and an archive operation touches no other file. */
  lemma BatchKeepsFiles(files: Files, batch: Ops, files': Files, p: string)
    requires LiveBatch(batch) && IsEffect(files, batch, files')
    requires LivePath(p) && p in files
    ensures p in files' || Lookup(files', ArchiveDest(p)) == Some(files[p])
    ensures p !in batch ==> Lookup(files', p) == Some(files[p])
    ensures p in batch && batch[p].Archive? ==> p !in files' && Lookup(files', ArchiveDest(p)) == Some(files[p])
    ensures ArchiveDest(p) in files ==> ArchiveDest(p) in files'
  {
    LivePathFacts(p);
    var d := ArchiveDest(p);
    assert Lookup(files', p) == After(files, batch, p);
    assert Lookup(files', d) == After(files, batch, d);
    assert d !in batch;
  }

  /** A run of batches from one tree to another. */
  ghost predicate Batches(trees: seq<Files>, batches: seq<Ops>) {
    && |trees| == |batches| + 1
    && forall i :: 0 <= i < |batches| ==> LiveBatch(batches[i]) && IsEffect(trees[i], batches[i], trees[i + 1])
  }

  /** Soft delete loses no path over any run of batches: a path that was live or archived in the
      first tree is live or archived in the last. */
  lemma {:induction false} NoPathIsLost(trees: seq<Files>, batches: seq<Ops>, p: string)
    requires Batches(trees, batches) && LivePath(p)
    requires p in trees[0] || ArchiveDest(p) in trees[0]
    ensures p in trees[|batches|] || ArchiveDest(p) in trees[|batches|]
    decreases |batches|
  {
    if batches != [] {
      var n := |batches| - 1;
      assert Batches(trees[..n + 1], batches[..n]);
      NoPathIsLost(trees[..n + 1], batches[..n], p);
      if p in trees[n] {
        BatchKeepsFiles(trees[n], batches[n], trees[n + 1], p);
      } else {
        ArchiveStays(trees[n], batches[n], trees[n + 1], p);
      }
    }
  }

  lemma ArchiveStays(files: Files, batch: Ops, files': Files, p: string)
    requires LiveBatch(batch) && IsEffect(files, batch, files')
    requires LivePath(p) && ArchiveDest(p) in files
    ensures ArchiveDest(p) in files'
  {
    LivePathFacts(p);
    assert Lookup(files', ArchiveDest(p)) == After(files, batch, ArchiveDest(p));
  }
}
