/** The inventory controller (internal/inventory/hashcache.go and reconciler.go): a hash cache and a
    debounced queue, updated for each reconciled object. */
module Inventory {
  import opened Wrappers
  import opened Paths
  import opened Tree
  import Worker
  import opened Normalize
  import opened Apply

  class HashCache {
    var m: map<string, string>

    constructor ()
      ensures m == map[]
    {
      m := map[];
    }

    method Get(key: string) returns (hash: Option<string>)
      ensures hash == Lookup(m, key)
    {
      hash := if key in m then Some(m[key]) else None;
    }

    method Set(key: string, hash: string)
      modifies this
      ensures m == old(m)[key := hash]
    {
      m := m[key := hash];
    }

    method Delete(key: string)
      modifies this
      ensures m == old(m) - {key}
    {
      m := m - {key};
    }
  }

  /** What the controller remembers. */
  datatype Memory = Memory(cache: map<string, string>, pending: Ops)

  /** The memory after an event for an object that exists. */
  function Handled(lib: Library, c: Memory, t: Target, obj: Fields): Memory {
    if StampMatches(lib, obj) || Lookup(c.cache, CacheKeyOf(t)) == Some(ObjectHash(lib, obj)) then c
    else Memory(c.cache[CacheKeyOf(t) := ObjectHash(lib, obj)], c.pending[PathOf(t) := Write(ExportYaml(lib, obj))])
  }

  /** The memory after an event, whether or not the object still exists. */
  function Reconciled(lib: Library, c: Memory, t: Target, got: Option<Fields>): Memory {
    match got
    case None => Memory(c.cache - {CacheKeyOf(t)}, c.pending[PathOf(t) := Archive])
    case Some(obj) => Handled(lib, c, t, obj)
  }

  /** What the API server answers to a Get. */
  datatype GetResult = Found(obj: Fields) | NotFound | GetFailed

  class ReconcileDeps {
    const lib: Library
    const cache: HashCache
    const queue: Worker.BatchWorker

    constructor (lib: Library, cache: HashCache, queue: Worker.BatchWorker)
      ensures this.lib == lib && this.cache == cache && this.queue == queue
    {
      this.lib, this.cache, this.queue := lib, cache, queue;
    }

    function Remembered(): Memory
      reads this, cache, queue
    {
      Memory(cache.m, queue.pending)
    }

    method Handle(kind: string, namespace: string, name: string, obj: Fields)
      requires kind == "Application" || kind == "ApplicationSet"
      modifies cache, queue
      ensures Remembered() == Handled(lib, old(Remembered()), Target(ArgoPluralKind(kind), namespace, name), obj)
    {
      var manifest := new Manifest(obj);
      manifest.Normalize();
      var yaml, currentHash := lib.toYaml(Obj(manifest.obj)), lib.sha(Obj(manifest.obj));
      var cacheKey := ExportObjectCacheKey(kind, namespace, name);
      var ann := Annotations(obj);
      if STAMP in ann && ann[STAMP] == currentHash {
        return;
      }
      var prev := cache.Get(cacheKey);
      if prev == Some(currentHash) {
        return;
      }
      cache.Set(cacheKey, currentHash);
      queue.Enqueue(RenderExportPath(kind, namespace, name), yaml);
    }

    method Forget(kind: string, namespace: string, name: string)
      requires kind == "Application" || kind == "ApplicationSet"
      modifies cache, queue
      ensures Remembered() == Reconciled(lib, old(Remembered()), Target(ArgoPluralKind(kind), namespace, name), None)
    {
      cache.Delete(ExportObjectCacheKey(kind, namespace, name));
      queue.EnqueueArchive(RenderExportPath(kind, namespace, name));
    }

    /** ApplicationReconciler.Reconcile; an error leaves the memory alone and is retried. */
    method ReconcileApplication(namespace: string, name: string, got: GetResult) returns (failed: bool)
      modifies cache, queue
      ensures failed <==> got.GetFailed?
      ensures got.GetFailed? ==> Remembered() == old(Remembered())
      ensures !got.GetFailed? ==>
                Remembered() == Reconciled(lib, old(Remembered()), Target("applications", namespace, name),
                                           if got.Found? then Some(got.obj) else None)
    {
      match got {
        case NotFound => Forget("Application", namespace, name); failed := false;
        case GetFailed => failed := true;
        case Found(obj) => Handle("Application", namespace, name, obj); failed := false;
      }
    }

    /** ApplicationSetReconciler.Reconcile. */
    method ReconcileApplicationSet(namespace: string, name: string, got: GetResult) returns (failed: bool)
      modifies cache, queue
      ensures failed <==> got.GetFailed?
      ensures got.GetFailed? ==> Remembered() == old(Remembered())
      ensures !got.GetFailed? ==>
                Remembered() == Reconciled(lib, old(Remembered()), Target("applicationsets", namespace, name),
                                           if got.Found? then Some(got.obj) else None)
    {
      match got {
        case NotFound => Forget("ApplicationSet", namespace, name); failed := false;
        case GetFailed => failed := true;
        case Found(obj) => Handle("ApplicationSet", namespace, name, obj); failed := false;
      }
    }
  }

  // ---------- properties of one event ----------

  /** The echo of an applied file changes neither the cache nor the queue, whatever they hold. */
  lemma EchoIgnored(lib: Library, c: Memory, t: Target, gitYAML: string, live: Fields)
    requires Named(t) && Deployable(lib, t, gitYAML)
    requires ServedAs(Prepare(lib, t, gitYAML).value, live)
    ensures Handled(lib, c, t, live) == c
  {
    EchoRecognised(lib, t, gitYAML, live);
  }

  /** A write that is enqueued is a file that the sync side would apply, with all the object's fields; it
      re-hashes to the cached digest, and carries the object's own material, if, and only if, it can be
      trimmed without harm. */
  lemma EnqueuedFileAgrees(lib: Library, c: Memory, t: Target, obj: Fields)
    requires CollisionFree(lib) && Dependable(lib) && Named(t) && WellFormed(t, obj)
    requires Handled(lib, c, t, obj) != c
    ensures var c' := Handled(lib, c, t, obj);
            && PathOf(t) in c'.pending && c'.pending[PathOf(t)].Write?
            && var content := c'.pending[PathOf(t)].content;
               && Deployable(lib, t, content)
               && Positions(Obj(Material(lib, content))) == Positions(Obj(Normalized(obj)))
               && (MaterialHash(lib, content) == Lookup(c'.cache, CacheKeyOf(t)) <==> TrimSafe(lib, obj))
               && (Material(lib, content) == Normalized(obj) <==> TrimSafe(lib, obj))
  {
    ExportDeployable(lib, t, obj);
    ExportRehash(lib, obj);
  }

  /** An event touches the cache and the queue only at its own object. */
  lemma EventIsLocal(lib: Library, c: Memory, t: Target, got: Option<Fields>, other: Target)
    requires Named(t) && Named(other) && t != other
    ensures var c' := Reconciled(lib, c, t, got);
            && Lookup(c'.cache, CacheKeyOf(other)) == Lookup(c.cache, CacheKeyOf(other))
            && Lookup(c'.pending, PathOf(other)) == Lookup(c.pending, PathOf(other))
  {
    RenderingInjective(t, other);
  }
}
