/** Push events: which paths a webhook payload reports (internal/sync/github.go), and how that
    report relates to what the commits did. */
module Push {
  import opened Wrappers
  import Text

  datatype Commit = Commit(added: seq<string>, modified: seq<string>, removed: seq<string>)

  /** The decoded event. */
  datatype PushEvent = PushEvent(fullName: string, headCommit: Option<string>, after: string, commits: seq<Commit>)

  datatype PushError = MissingRepository | MissingSha

  datatype PushPaths = PushPaths(fullName: string, sha: string, added: seq<string>, removed: seq<string>)

  const ZERO_SHA := "0000000000000000000000000000000000000000"

  /** The non-empty names of a list. */
  function Names(s: seq<string>): set<string> {
    set p | p in s && p != ""
  }

  /** Paths that some commit adds or modifies. */
  function AddedPaths(commits: seq<Commit>): set<string> {
    if commits == [] then {}
    else
      var c := commits[|commits| - 1];
      AddedPaths(commits[..|commits| - 1]) + Names(c.added) + Names(c.modified)
  }

  /** Paths that some commit removes. */
  function RemovedPaths(commits: seq<Commit>): set<string> {
    if commits == [] then {}
    else RemovedPaths(commits[..|commits| - 1]) + Names(commits[|commits| - 1].removed)
  }

  method AddNames(seen: set<string>, names: seq<string>) returns (r: set<string>)
    ensures r == seen + Names(names)
  {
    r := seen;
    for j := 0 to |names|
      invariant r == seen + Names(names[..j])
    {
      if names[j] != "" {
        r := r + {names[j]};
      }
      assert names[..j + 1] == names[..j] + [names[j]];
    }
    assert names[..|names|] == names;
  }

  /** The two nested loops over commits and their lists. */
  method CollectPaths(commits: seq<Commit>) returns (seenAdded: set<string>, seenRemoved: set<string>)
    ensures seenAdded == AddedPaths(commits) && seenRemoved == RemovedPaths(commits)
  {
    seenAdded, seenRemoved := {}, {};
    for i := 0 to |commits|
      invariant seenAdded == AddedPaths(commits[..i])
      invariant seenRemoved == RemovedPaths(commits[..i])
    {
      var c := commits[i];
      seenAdded := AddNames(seenAdded, c.added);
      seenAdded := AddNames(seenAdded, c.modified);
      seenRemoved := AddNames(seenRemoved, c.removed);
      assert commits[..i + 1][..i] == commits[..i];
    }
    assert commits[..|commits|] == commits;
  }

  /** A path that is both added and removed counts as added. */
  method DropAdded(seenAdded: set<string>, removed: set<string>) returns (seenRemoved: set<string>)
    ensures seenRemoved == removed - seenAdded
  {
    seenRemoved := removed;
    var todo := seenAdded;
    while todo != {}
      invariant todo <= seenAdded
      invariant seenRemoved == removed - (seenAdded - todo)
      decreases |todo|
    {
      var p :| p in todo;
      seenRemoved := seenRemoved - {p};
      todo := todo - {p};
    }
  }

  /** A branch deletion or a missing id. */
  predicate NoSha(sha: string) {
    sha == "" || sha == ZERO_SHA
  }

  /** ParseGitHubPushPaths, from the decoded event on. */
  method ParseGitHubPushPaths(ev: PushEvent) returns (r: Result<PushPaths, PushError>)
    ensures ev.fullName == "" ==> r == Err(MissingRepository)
    ensures var sha := if ev.headCommit.Some? && ev.headCommit.value != "" then ev.headCommit.value else ev.after;
            ev.fullName != "" ==>
              if sha in {"", "0000000000000000000000000000000000000000"} then r == Err(MissingSha)
              else r.Ok? && r.value.fullName == ev.fullName && r.value.sha == sha
    ensures r.Ok? ==>
              && Text.Lists(r.value.added, AddedPaths(ev.commits))
              && Text.Lists(r.value.removed, RemovedPaths(ev.commits) - AddedPaths(ev.commits))
  {
    if ev.fullName == "" {
      return Err(MissingRepository);
    }
    var sha := "";
    if ev.headCommit.Some? {
      sha := ev.headCommit.value;
    }
    if sha == "" {
      sha := ev.after;
    }
    if NoSha(sha) {
      return Err(MissingSha);
    }
    var seenAdded, seenRemoved := CollectPaths(ev.commits);
    seenRemoved := DropAdded(seenAdded, seenRemoved);
    var added := Text.SortedKeys(seenAdded);
    var removed := Text.SortedKeys(seenRemoved);
    return Ok(PushPaths(ev.fullName, sha, added, removed));
  }

  // ---------- the report does not depend on commit order ----------

  /** A path is added or modified when some commit says so, and removed when some commit says so; the empty
      path never is. */
  lemma {:induction false} PathsByCommit(commits: seq<Commit>, p: string)
    ensures p in AddedPaths(commits) <==> p != "" && exists c :: c in commits && (p in c.added || p in c.modified)
    ensures p in RemovedPaths(commits) <==> p != "" && exists c :: c in commits && p in c.removed
  {
    if commits != [] {
      var front, last := commits[..|commits| - 1], commits[|commits| - 1];
      assert commits == front + [last];
      PathsByCommit(front, p);
    }
  }

  /** Both lists are functions of the set of commits alone. */
  lemma ReportIgnoresOrder(a: seq<Commit>, b: seq<Commit>)
    requires multiset(a) == multiset(b)
    ensures AddedPaths(a) == AddedPaths(b) && RemovedPaths(a) == RemovedPaths(b)
  {
    forall c ensures c in a <==> c in b {
      assert c in a <==> c in multiset(a);
      assert c in b <==> c in multiset(b);
    }
    forall p ensures p in AddedPaths(a) <==> p in AddedPaths(b) {
      PathsByCommit(a, p);
      PathsByCommit(b, p);
    }
    forall p ensures p in RemovedPaths(a) <==> p in RemovedPaths(b) {
      PathsByCommit(a, p);
      PathsByCommit(b, p);
    }
  }

  /** A path is never in both lists, and no list holds an empty path. */
  lemma ListsApart(added: seq<string>, removed: seq<string>, commits: seq<Commit>)
    requires Text.Lists(added, AddedPaths(commits)) && Text.Lists(removed, RemovedPaths(commits) - AddedPaths(commits))
    ensures forall p :: !(p in added && p in removed)
    ensures "" !in added && "" !in removed
  {
    PathsByCommit(commits, "");
  }

  // ---------- the report against history ----------

  /** The paths present after the commits. */
  function Replay(base: set<string>, commits: seq<Commit>): set<string> {
    if commits == [] then base
    else
      var c := commits[|commits| - 1];
      Replay(base, commits[..|commits| - 1]) + Names(c.added) - Names(c.removed)
  }

  /** The commit says what it does to a tree with the given paths. */
  ghost predicate Fits(before: set<string>, c: Commit) {
    && Names(c.added) !! before
    && Names(c.modified) <= before
    && Names(c.removed) <= before
    && Names(c.modified) !! Names(c.removed)
  }

  ghost predicate Consistent(base: set<string>, commits: seq<Commit>) {
    forall i :: 0 <= i < |commits| ==> Fits(Replay(base, commits[..i]), commits[i])
  }

  lemma ConsistentFront(base: set<string>, commits: seq<Commit>)
    requires Consistent(base, commits) && commits != []
    ensures Consistent(base, commits[..|commits| - 1])
    ensures Fits(Replay(base, commits[..|commits| - 1]), commits[|commits| - 1])
  {
    var front := commits[..|commits| - 1];
    forall i | 0 <= i < |front| ensures Fits(Replay(base, front[..i]), front[i]) {
      assert front[..i] == commits[..i];
    }
  }

  /** What the last commit that mentions the path does to it. */
  datatype Mention = Never | Kept | Dropped

  function LastMention(commits: seq<Commit>, p: string): Mention {
    if commits == [] then Never
    else
      var c := commits[|commits| - 1];
      if p in Names(c.removed) then Dropped
      else if p in Names(c.added) || p in Names(c.modified) then Kept
      else LastMention(commits[..|commits| - 1], p)
  }

  /** The last mention decides whether the path is present at the head. */
  lemma {:induction false} MentionDecides(base: set<string>, commits: seq<Commit>, p: string)
    requires Consistent(base, commits)
    ensures LastMention(commits, p) == Never <==> p !in AddedPaths(commits) + RemovedPaths(commits)
    ensures p in Replay(base, commits) <==>
              LastMention(commits, p) == Kept || (LastMention(commits, p) == Never && p in base)
  {
    if commits != [] {
      ConsistentFront(base, commits);
      MentionDecides(base, commits[..|commits| - 1], p);
    }
  }

  /** The report is sound for removals and complete for what remains: a path reported removed was
      there before and is gone at the head, and every mentioned path present at the head is reported
      added or modified. */
  lemma {:induction false} PushReportSound(base: set<string>, commits: seq<Commit>, p: string)
    requires Consistent(base, commits)
    ensures p in RemovedPaths(commits) - AddedPaths(commits) ==> p in base && p !in Replay(base, commits)
    ensures p in AddedPaths(commits) + RemovedPaths(commits) && p in Replay(base, commits) ==> p in AddedPaths(commits)
    ensures p !in AddedPaths(commits) + RemovedPaths(commits) ==> (p in base <==> p in Replay(base, commits))
  {
    if commits != [] {
      ConsistentFront(base, commits);
      PushReportSound(base, commits[..|commits| - 1], p);
    }
  }

  /** Where the report is wrong: because commit order is ignored, a path reported added or modified is
      missing at the head if, and only if, the last commit that mentions it removes it. */
  lemma MisreportedIff(base: set<string>, commits: seq<Commit>, p: string)
    requires Consistent(base, commits) && p in AddedPaths(commits)
    ensures p !in Replay(base, commits) <==> LastMention(commits, p) == Dropped
  {
    MentionDecides(base, commits, p);
  }

  /** Such a push exists: modify, then remove. */
  lemma ModifyThenRemove(p: string)
    requires p != ""
    ensures var commits := [Commit([], [p], []), Commit([], [], [p])];
            && Consistent({p}, commits)
            && p in AddedPaths(commits) && p !in RemovedPaths(commits) - AddedPaths(commits)
            && p !in Replay({p}, commits)
  {
    var a, b := Commit([], [p], []), Commit([], [], [p]);
    var commits := [a, b];
    assert commits[..1] == [a] && commits[..0] == [] && [a][..0] == [];
    assert Names([p]) == {p} && Names([]) == {};
    assert Replay({p}, [a]) == {p};
    assert AddedPaths([a]) == {p};
    assert AddedPaths(commits) == AddedPaths([a]) + Names(b.added) + Names(b.modified);
    forall i | 0 <= i < |commits| ensures Fits(Replay({p}, commits[..i]), commits[i]) {
      if i == 0 { assert commits[..i] == []; } else { assert commits[..i] == [a]; }
    }
  }

  /** A push of one commit, such as the batch worker's, is reported exactly. */
  lemma SingleCommitExact(base: set<string>, c: Commit, p: string)
    requires Consistent(base, [c])
    ensures p in AddedPaths([c]) ==> p in Replay(base, [c])
  {
    assert [c][..0] == [];
    assert Fits(Replay(base, [c][..0]), [c][0]);
    assert AddedPaths([c]) == AddedPaths([]) + Names(c.added) + Names(c.modified);
    assert Replay(base, [c]) == Replay(base, []) + Names(c.added) - Names(c.removed);
  }
}
