/** The message of an inventory commit (commitBody, sortedKeysBatch and commitMessageForBatch in
    internal/git/worker.go). */
module CommitMessage {
  import opened Wrappers
  import opened Text
  import opened Paths
  import opened Tree

  const MAX_LISTED := 10
  const MORE_BEFORE := "... and "
  const MORE_AFTER := " more"
  const SKIP_CI := "[skip ci]"

  // ---------- numbers ----------

  /** fmt's "%d". */
  function Decimal(n: nat): string {
    if n < 10 then [Digit(n)] else Decimal(n / 10) + [Digit(n % 10)]
  }

  function Digit(d: nat): char
    requires d < 10
  {
    '0' + d as char
  }

  /** What a reader makes of a number. */
  function ReadDecimal(s: string): int {
    if s == "" then 0 else ReadDecimal(s[..|s| - 1]) * 10 + (s[|s| - 1] as int - '0' as int)
  }

  lemma {:induction false} DecimalReadsBack(n: nat)
    ensures ReadDecimal(Decimal(n)) == n && '\n' !in Decimal(n)
  {
    if n < 10 {
      assert Decimal(n)[..0] == "";
    } else {
      DecimalReadsBack(n / 10);
      var s := Decimal(n);
      assert s[..|s| - 1] == Decimal(n / 10);
    }
  }

  /** Numbers are written in base ten. */
  lemma DecimalDigits(n: nat)
    ensures n < 10 ==> Decimal(n) == ["0123456789"[n]]
    ensures n >= 10 ==> Decimal(n) == Decimal(n / 10) + Decimal(n % 10)
  {
  }

  // ---------- lines ----------

  /** Every line with its newline, as the builder collects them. */
  function Terminated(lines: seq<string>): string {
    if lines == [] then "" else Terminated(lines[..|lines| - 1]) + lines[|lines| - 1] + "\n"
  }

  /** The lines with newlines between them. */
  function Block(lines: seq<string>): string {
    TrimSuffix(Terminated(lines), "\n")
  }

  /** The reader: cuts a text at its newlines. */
  function SplitLines(s: string): (lines: seq<string>)
    ensures lines != []
  {
    if s == "" then [""]
    else
      var front := SplitLines(s[..|s| - 1]);
      if s[|s| - 1] == '\n' then front + [""]
      else ExtendLast(front, [s[|s| - 1]])
  }

  function ExtendLast(lines: seq<string>, more: string): (r: seq<string>)
    requires lines != []
    ensures r != []
  {
    lines[..|lines| - 1] + [lines[|lines| - 1] + more]
  }

  predicate OneLine(s: string) {
    '\n' !in s
  }

  predicate OneLiners(lines: seq<string>) {
    forall i :: 0 <= i < |lines| ==> OneLine(lines[i])
  }

  lemma TerminatedSnoc(lines: seq<string>, l: string)
    ensures Terminated(lines + [l]) == Terminated(lines) + l + "\n"
  {
    assert (lines + [l])[..|lines|] == lines;
  }

  lemma ExtendTwice(lines: seq<string>, a: string, b: string)
    requires lines != []
    ensures ExtendLast(ExtendLast(lines, a), b) == ExtendLast(lines, a + b)
  {
    assert lines[|lines| - 1] + a + b == lines[|lines| - 1] + (a + b);
  }

  lemma SplitSnoc(s: string, c: char)
    requires c != '\n'
    ensures SplitLines(s + [c]) == ExtendLast(SplitLines(s), [c])
  {
    assert (s + [c])[..|s|] == s;
  }

  lemma SplitAppendSnoc(s: string, front: string, c: char)
    requires c != '\n' && SplitLines(s + front) == ExtendLast(SplitLines(s), front)
    ensures SplitLines(s + (front + [c])) == ExtendLast(SplitLines(s), front + [c])
  {
    SplitSnoc(s + front, c);
    assert s + (front + [c]) == (s + front) + [c];
    ExtendTwice(SplitLines(s), front, [c]);
  }

  lemma SplitAppendNone(s: string)
    ensures SplitLines(s + "") == ExtendLast(SplitLines(s), "")
  {
    assert s + "" == s;
    var f := SplitLines(s);
    assert f[|f| - 1] + "" == f[|f| - 1];
  }

  /** What follows without a newline extends the last line. */
  lemma {:induction false} SplitLinesAppend(s: string, l: string)
    requires OneLine(l)
    ensures SplitLines(s + l) == ExtendLast(SplitLines(s), l)
  {
    if l == "" {
      SplitAppendNone(s);
    } else {
      var front, c := l[..|l| - 1], l[|l| - 1];
      assert l == front + [c];
      SplitLinesAppend(s, front);
      SplitAppendSnoc(s, front, c);
    }
  }

  lemma SplitNewline(s: string)
    ensures SplitLines(s + "\n") == SplitLines(s) + [""]
  {
    var t := s + "\n";
    assert t[..|t| - 1] == s;
  }

  lemma ExtendFresh(lines: seq<string>, l: string)
    ensures ExtendLast(lines + [""], l) == lines + [l]
  {
    assert "" + l == l;
    assert (lines + [""])[..|lines|] == lines;
  }

  lemma SplitTerminatedSnoc(lines: seq<string>, l: string)
    requires SplitLines(Terminated(lines)) == lines + [""] && OneLine(l)
    ensures SplitLines(Terminated(lines + [l])) == (lines + [l]) + [""]
  {
    TerminatedSnoc(lines, l);
    SplitLinesAppend(Terminated(lines), l);
    ExtendFresh(lines, l);
    SplitNewline(Terminated(lines) + l);
  }

  lemma {:induction false} SplitTerminated(lines: seq<string>)
    requires OneLiners(lines)
    ensures SplitLines(Terminated(lines)) == lines + [""]
  {
    if lines != [] {
      var n := |lines| - 1;
      SplitTerminated(lines[..n]);
      assert lines == lines[..n] + [lines[n]];
      SplitTerminatedSnoc(lines[..n], lines[n]);
    }
  }

  lemma BlockLast(lines: seq<string>, l: string)
    ensures Block(lines + [l]) == Terminated(lines) + l
  {
    TerminatedSnoc(lines, l);
    TrimSuffixAppend(Terminated(lines) + l, "\n");
  }

  lemma SplitBlock(lines: seq<string>, l: string)
    requires OneLiners(lines) && OneLine(l)
    ensures SplitLines(Block(lines + [l])) == lines + [l]
  {
    BlockLast(lines, l);
    SplitTerminated(lines);
    SplitLinesAppend(Terminated(lines), l);
    ExtendFresh(lines, l);
  }

  /** A text of single lines is read back line by line. */
  lemma BlockReadsBack(lines: seq<string>)
    requires lines != [] && OneLiners(lines)
    ensures SplitLines(Block(lines)) == lines
  {
    var n := |lines| - 1;
    assert lines == lines[..n] + [lines[n]];
    SplitBlock(lines[..n], lines[n]);
  }

  // ---------- commitBody ----------

  function Remainder(k: nat): string {
    MORE_BEFORE + Decimal(k) + MORE_AFTER
  }

  /** The lines of a body: at most ten paths, then how many are left. */
  function Entries(paths: seq<string>): seq<string> {
    if |paths| <= MAX_LISTED then paths
    else paths[..MAX_LISTED] + [Remainder(|paths| - MAX_LISTED)]
  }

  method CommitBody(paths: seq<string>) returns (body: string)
    ensures body == Block(Entries(paths))
  {
    var b := "";
    var i := 0;
    while i < |paths|
      invariant 0 <= i <= |paths| && i <= MAX_LISTED
      invariant b == Terminated(paths[..i])
    {
      if i >= MAX_LISTED {
        TerminatedSnoc(paths[..i], Remainder(|paths| - MAX_LISTED));
        b := b + (MORE_BEFORE + Decimal(|paths| - MAX_LISTED) + MORE_AFTER) + "\n";
        break;
      }
      TerminatedSnoc(paths[..i], paths[i]);
      assert paths[..i + 1] == paths[..i] + [paths[i]];
      b := b + paths[i] + "\n";
      i := i + 1;
    }
    assert i == |paths| ==> paths[..i] == paths;
    body := TrimSuffix(b, "\n");
  }

  /** What a reader makes of the last line of a section. */
  function ReadRemainder(line: string): Option<int> {
    ReadBetween(MORE_BEFORE, MORE_AFTER, line)
  }

  function ReadBetween(before: string, after: string, line: string): Option<int> {
    if HasPrefix(line, before) && HasSuffix(line, after) && |before| + |after| <= |line|
    then Some(ReadDecimal(line[|before|..|line| - |after|]))
    else None
  }

  /** How many paths a section speaks of, as its reader counts them. */
  function Counted(lines: seq<string>): int {
    if lines == [] then 0
    else
      match ReadRemainder(lines[|lines| - 1])
      case Some(k) => |lines| - 1 + k
      case None => |lines|
  }

  /** Paths that cannot be mistaken for a remainder line. */
  predicate Legible(paths: seq<string>) {
    forall i :: 0 <= i < |paths| ==> OneLine(paths[i]) && paths[i] != "" && paths[i][0] != '.'
  }

  lemma ReadBetweenReadsBack(before: string, after: string, k: nat)
    ensures ReadBetween(before, after, before + Decimal(k) + after) == Some(k)
  {
    DecimalReadsBack(k);
    var line := before + Decimal(k) + after;
    TrimSuffixAppend(before + Decimal(k), after);
    assert line == before + (Decimal(k) + after);
    assert line[|before|..|line| - |after|] == Decimal(k);
  }

  lemma RemainderOneLine(k: nat)
    ensures OneLine(Remainder(k))
  {
    DecimalReadsBack(k);
    assert OneLine(MORE_BEFORE) && OneLine(MORE_AFTER);
  }

  lemma ReadBetweenOther(before: string, after: string, line: string)
    requires before != "" && line != "" && before[0] != line[0]
    ensures ReadBetween(before, after, line) == None
  {
  }

  lemma RemainderCounted(paths: seq<string>, k: nat)
    ensures Counted(paths + [Remainder(k)]) == |paths| + k
  {
    ReadBetweenReadsBack(MORE_BEFORE, MORE_AFTER, k);
  }

  lemma PathsCounted(paths: seq<string>)
    requires Legible(paths)
    ensures Counted(paths) == |paths|
  {
    if paths != [] {
      assert MORE_BEFORE[0] == '.';
      ReadBetweenOther(MORE_BEFORE, MORE_AFTER, paths[|paths| - 1]);
    }
  }

  lemma EntriesCounted(paths: seq<string>)
    requires Legible(paths)
    ensures Counted(Entries(paths)) == |paths|
  {
    if |paths| > MAX_LISTED {
      RemainderCounted(paths[..MAX_LISTED], |paths| - MAX_LISTED);
    } else {
      PathsCounted(paths);
    }
  }

  lemma EntriesOneLiners(paths: seq<string>)
    requires Legible(paths)
    ensures OneLiners(Entries(paths))
  {
    if |paths| > MAX_LISTED {
      RemainderOneLine(|paths| - MAX_LISTED);
    }
  }

  /** Every path is accounted for: the body reads back as the first ten paths and, when there are
      more, a remainder that makes up for the others. */
  lemma BodyAccounts(paths: seq<string>)
    requires paths != [] && Legible(paths)
    ensures var lines := SplitLines(Block(Entries(paths)));
            && Counted(lines) == |paths|
            && |lines| == (if |paths| <= MAX_LISTED then |paths| else MAX_LISTED + 1)
            && (forall i :: 0 <= i < |lines| && i < 10 ==> lines[i] == paths[i])
            && (|paths| > 10 ==> |lines| == 11 && lines[10] == "... and " + Decimal(|paths| - 10) + " more")
  {
    EntriesOneLiners(paths);
    BlockReadsBack(Entries(paths));
    EntriesCounted(paths);
  }

  // ---------- commitMessageForBatch ----------

  /** The paths of the given kind, in order. */
  function OfKind(paths: seq<string>, batch: Ops, writes: bool): seq<string>
    requires forall p :: p in paths ==> p in batch
  {
    if paths == [] then []
    else
      var n := |paths| - 1;
      var front := OfKind(paths[..n], batch, writes);
      if batch[paths[n]].Write? == writes then front + [paths[n]] else front
  }

  function SyncSubject(n: nat): string {
    "chore(inventory): sync " + Decimal(n) + " resources " + SKIP_CI
  }

  function ArchiveSubject(what: string): string {
    "feat(archive): move deleted resource " + what + " to archive " + SKIP_CI
  }

  function MixedSubject(n: nat, m: nat): string {
    "chore(inventory): sync " + Decimal(n) + " and archive " + Decimal(m) + " resources " + SKIP_CI
  }

  function SubjectOf(writes: seq<string>, archives: seq<string>): string {
    if writes != [] && archives == [] then SyncSubject(|writes|)
    else if writes == [] && |archives| == 1 then ArchiveSubject(ResourceNameFromInventoryPath(archives[0]))
    else if writes == [] && archives != [] then ArchiveSubject(Decimal(|archives|) + " resources")
    else MixedSubject(|writes|, |archives|)
  }

  /** One kind is listed bare; two kinds are listed under a heading each. */
  function LinesOf(writes: seq<string>, archives: seq<string>): seq<string> {
    if archives == [] then Entries(writes)
    else if writes == [] then Entries(archives)
    else Sections("write:", Entries(writes), "archive:", Entries(archives))
  }

  function Sections(w: string, ws: seq<string>, a: string, xs: seq<string>): seq<string> {
    [w] + ws + [a] + xs
  }

  function Headed(heading: string, section: string): string {
    heading + "\n" + section
  }

  /** Writes and archives partition the batch: nothing is lost or counted twice, and each list keeps
      the order of the paths. */
  lemma {:induction false} PartitionAccounts(paths: seq<string>, batch: Ops)
    requires forall p :: p in paths ==> p in batch
    ensures var writes, archives := OfKind(paths, batch, true), OfKind(paths, batch, false);
            && |writes| + |archives| == |paths|
            && (forall p :: p in writes <==> p in paths && batch[p].Write?)
            && (forall p :: p in archives <==> p in paths && batch[p].Archive?)
            && (StrictlySorted(paths) ==> StrictlySorted(writes) && StrictlySorted(archives))
  {
    if paths != [] {
      var n := |paths| - 1;
      PartitionAccounts(paths[..n], batch);
      assert paths == paths[..n] + [paths[n]];
      if StrictlySorted(paths) {
        SortedSnoc(paths, OfKind(paths[..n], batch, true));
        SortedSnoc(paths, OfKind(paths[..n], batch, false));
      }
    }
  }

  lemma SortedSnoc(paths: seq<string>, chosen: seq<string>)
    requires paths != [] && StrictlySorted(paths) && StrictlySorted(chosen)
    requires forall p :: p in chosen ==> p in paths[..|paths| - 1]
    ensures StrictlySorted(chosen + [paths[|paths| - 1]])
  {
    var longer := chosen + [paths[|paths| - 1]];
    forall i, j | 0 <= i < j < |longer| ensures Less(longer[i], longer[j]) {
      if j == |chosen| {
        assert chosen[i] in chosen;
        assert chosen[i] in paths[..|paths| - 1];
      }
    }
  }

  /** The message of a batch counts every one of its paths exactly once. */
  lemma SubjectCountsBatch(batch: Ops, sortedPaths: seq<string>)
    requires Lists(sortedPaths, batch.Keys)
    ensures |OfKind(sortedPaths, batch, true)| + |OfKind(sortedPaths, batch, false)| == |batch|
  {
    PartitionAccounts(sortedPaths, batch);
    SortedSize(sortedPaths, batch.Keys);
    assert |batch.Keys| == |batch|;
  }

  lemma {:induction false} SortedSize(s: seq<string>, elements: set<string>)
    requires Lists(s, elements)
    ensures |s| == |elements|
  {
    if s == [] {
      assert forall p :: p in elements ==> p in s;
      assert elements == {};
    } else {
      var x := s[0];
      LessTrichotomy(x, x);
      assert s == [x] + s[1..];
      assert x in s;
      forall k | 0 <= k < |s[1..]| ensures s[1..][k] != x { assert Less(s[0], s[k + 1]); }
      SortedSize(s[1..], elements - {x});
    }
  }

  lemma LegiblePart(paths: seq<string>, part: seq<string>)
    requires Legible(paths) && forall p :: p in part ==> p in paths
    ensures Legible(part)
  {
    forall i | 0 <= i < |part| ensures OneLine(part[i]) && part[i] != "" && part[i][0] != '.' {
      assert part[i] in paths;
    }
  }

  lemma {:induction false} TerminatedAppend(a: seq<string>, b: seq<string>)
    ensures Terminated(a + b) == Terminated(a) + Terminated(b)
  {
    if b == [] {
      assert a + b == a;
    } else {
      var n := |b| - 1;
      TerminatedAppend(a, b[..n]);
      assert a + b == (a + b[..n]) + [b[n]];
      TerminatedSnoc(a + b[..n], b[n]);
    }
  }

  lemma BlockTerminated(lines: seq<string>)
    requires lines != []
    ensures Terminated(lines) == Block(lines) + "\n"
  {
    var n := |lines| - 1;
    TrimSuffixAppend(Terminated(lines[..n]) + lines[n], "\n");
  }

  /** Two headed sections, joined. */
  lemma SectionsJoin(w: string, ws: seq<string>, a: string, xs: seq<string>)
    requires ws != [] && xs != []
    ensures Block(Sections(w, ws, a, xs)) == Headed(w, Block(ws)) + "\n" + Headed(a, Block(xs))
  {
    var all := Sections(w, ws, a, xs);
    SectionsTerminated(w, ws, a, xs);
    BlockTerminated(ws);
    BlockTerminated(xs);
    var text := Headed(w, Block(ws)) + "\n" + Headed(a, Block(xs));
    Regroup("\n", w, Block(ws), a, Block(xs));
    TrimSuffixAppend(text, "\n");
  }

  lemma Regroup(nl: string, w: string, b1: string, a: string, b2: string)
    ensures ((((w + nl) + (b1 + nl)) + a) + nl) + (b2 + nl)
            == (((w + nl + b1) + nl) + (a + nl + b2)) + nl
  {
  }

  lemma SectionsTerminated(w: string, ws: seq<string>, a: string, xs: seq<string>)
    ensures Terminated(Sections(w, ws, a, xs)) == (((w + "\n") + Terminated(ws)) + a + "\n") + Terminated(xs)
  {
    TerminatedAppend([w] + ws + [a], xs);
    TerminatedSnoc([w] + ws, a);
    TerminatedAppend([w], ws);
    TerminatedSnoc([], w);
    assert [] + [w] == [w];
    assert "" + w == w;
  }

  lemma BlockVisible(lines: seq<string>)
    requires lines != [] && lines[0] != ""
    ensures Block(lines) != ""
  {
    TerminatedAppend([lines[0]], lines[1..]);
    assert [lines[0]] + lines[1..] == lines;
    TerminatedSnoc([], lines[0]);
    assert [] + [lines[0]] == [lines[0]];
    BlockTerminated(lines);
    assert |Terminated(lines)| >= 2;
  }

  method Partition(batch: Ops, sortedPaths: seq<string>) returns (writes: seq<string>, archives: seq<string>)
    requires forall p :: p in sortedPaths ==> p in batch
    ensures writes == OfKind(sortedPaths, batch, true)
    ensures archives == OfKind(sortedPaths, batch, false)
  {
    writes, archives := [], [];
    for i := 0 to |sortedPaths|
      invariant writes == OfKind(sortedPaths[..i], batch, true)
      invariant archives == OfKind(sortedPaths[..i], batch, false)
    {
      var p := sortedPaths[i];
      assert sortedPaths[..i + 1][..i] == sortedPaths[..i];
      match batch[p] {
        case Write(_) => writes := writes + [p];
        case Archive => archives := archives + [p];
      }
    }
    assert sortedPaths[..|sortedPaths|] == sortedPaths;
  }

  /** The body over two sections. A section can be empty only when its single path is. */
  method MixedBody(writes: seq<string>, archives: seq<string>) returns (body: string)
    ensures writes != [] && archives != [] && Legible(writes) && Legible(archives) ==>
              body == Block(LinesOf(writes, archives))
  {
    var b1 := CommitBody(writes);
    var b2 := CommitBody(archives);
    if writes != [] && archives != [] && Legible(writes) && Legible(archives) {
      SectionsOfLegible(writes, archives);
    }
    if b1 == "" {
      body := Headed("archive:", b2);
    } else if b2 == "" {
      body := Headed("write:", b1);
    } else {
      body := Headed("write:", b1) + "\n" + Headed("archive:", b2);
    }
  }

  /** commitMessageForBatch. */
  method CommitMessageForBatch(batch: Ops, sortedPaths: seq<string>) returns (subject: string, body: string)
    requires forall p :: p in sortedPaths ==> p in batch
    ensures subject == SubjectOf(OfKind(sortedPaths, batch, true), OfKind(sortedPaths, batch, false))
    ensures sortedPaths != [] && Legible(sortedPaths) ==>
              body == Block(LinesOf(OfKind(sortedPaths, batch, true), OfKind(sortedPaths, batch, false)))
  {
    var writes, archives := Partition(batch, sortedPaths);
    PartitionAccounts(sortedPaths, batch);
    if Legible(sortedPaths) {
      LegiblePart(sortedPaths, writes);
      LegiblePart(sortedPaths, archives);
    }
    if |writes| > 0 && |archives| == 0 {
      subject := SyncSubject(|writes|);
      body := CommitBody(writes);
    } else if |writes| == 0 && |archives| > 0 {
      if |archives| == 1 {
        var name := ResourceNameFromInventoryPath(archives[0]);
        subject := ArchiveSubject(name);
      } else {
        subject := ArchiveSubject(Decimal(|archives|) + " resources");
      }
      body := CommitBody(archives);
    } else {
      subject := MixedSubject(|writes|, |archives|);
      body := MixedBody(writes, archives);
    }
  }

  lemma SectionsOfLegible(writes: seq<string>, archives: seq<string>)
    requires writes != [] && archives != [] && Legible(writes) && Legible(archives)
    ensures Block(Entries(writes)) != "" && Block(Entries(archives)) != ""
    ensures Block(LinesOf(writes, archives))
            == Headed("write:", Block(Entries(writes))) + "\n" + Headed("archive:", Block(Entries(archives)))
  {
    BlockVisible(Entries(writes));
    BlockVisible(Entries(archives));
    SectionsJoin("write:", Entries(writes), "archive:", Entries(archives));
  }

  /** No inventory commit starts another CI run. */
  lemma SubjectSkipsCi(writes: seq<string>, archives: seq<string>)
    ensures HasSuffix(SubjectOf(writes, archives), "[skip ci]")
  {
    var n, m := |writes|, |archives|;
    var what := if m == 1 then ResourceNameFromInventoryPath(archives[0]) else Decimal(m) + " resources";
    TrimSuffixAppend("chore(inventory): sync " + Decimal(n) + " resources ", SKIP_CI);
    TrimSuffixAppend("feat(archive): move deleted resource " + what + " to archive ", SKIP_CI);
    TrimSuffixAppend("chore(inventory): sync " + Decimal(n) + " and archive " + Decimal(m) + " resources ", SKIP_CI);
  }

  /** The whole message of a batch on legible paths accounts for the batch: its sections read back
      line by line, and the counts that a reader takes from them add up to the batch. */
  lemma MessageAccounts(batch: Ops, sortedPaths: seq<string>)
    requires batch != map[] && Lists(sortedPaths, batch.Keys) && Legible(sortedPaths)
    ensures var writes, archives := OfKind(sortedPaths, batch, true), OfKind(sortedPaths, batch, false);
            && SplitLines(Block(LinesOf(writes, archives))) == LinesOf(writes, archives)
            && Counted(Entries(writes)) == |writes| && Counted(Entries(archives)) == |archives|
            && Counted(Entries(writes)) + Counted(Entries(archives)) == |batch|
  {
    var writes, archives := OfKind(sortedPaths, batch, true), OfKind(sortedPaths, batch, false);
    PartitionAccounts(sortedPaths, batch);
    SubjectCountsBatch(batch, sortedPaths);
    LegiblePart(sortedPaths, writes);
    LegiblePart(sortedPaths, archives);
    assert writes + archives != [] by {
      var p :| p in batch;
      assert p in batch.Keys;
      assert p in writes || p in archives;
    }
    EntriesCounted(writes);
    EntriesCounted(archives);
    LinesReadBack(writes, archives);
  }

  lemma LinesReadBack(writes: seq<string>, archives: seq<string>)
    requires Legible(writes) && Legible(archives) && writes + archives != []
    ensures SplitLines(Block(LinesOf(writes, archives))) == LinesOf(writes, archives)
  {
    EntriesOneLiners(writes);
    EntriesOneLiners(archives);
    assert OneLine("write:") && OneLine("archive:");
    SectionsOneLiners("write:", Entries(writes), "archive:", Entries(archives));
    BlockReadsBack(LinesOf(writes, archives));
  }

  lemma SectionsOneLiners(w: string, ws: seq<string>, a: string, xs: seq<string>)
    requires OneLine(w) && OneLine(a) && OneLiners(ws) && OneLiners(xs)
    ensures OneLiners(Sections(w, ws, a, xs))
  {
  }

  /** The two lists have as many paths as the batch has operations of the kind. */
  lemma KindCounts(batch: Ops, sortedPaths: seq<string>)
    requires Lists(sortedPaths, batch.Keys)
    ensures |OfKind(sortedPaths, batch, true)| == |set p | p in batch && batch[p].Write?|
    ensures |OfKind(sortedPaths, batch, false)| == |set p | p in batch && batch[p].Archive?|
  {
    PartitionAccounts(sortedPaths, batch);
    SortedSize(OfKind(sortedPaths, batch, true), set p | p in batch && batch[p].Write?);
    SortedSize(OfKind(sortedPaths, batch, false), set p | p in batch && batch[p].Archive?);
  }

  lemma Joined(a: string, b: string, c: string, d: string)
    ensures a + b + c + d == a + b + (c + d)
  {
  }

  lemma SubjectTexts(n: nat, m: nat, what: string)
    ensures SyncSubject(n) == "chore(inventory): sync " + Decimal(n) + " resources [skip ci]"
    ensures ArchiveSubject(what) == "feat(archive): move deleted resource " + what + " to archive [skip ci]"
    ensures MixedSubject(n, m)
         == "chore(inventory): sync " + Decimal(n) + " and archive " + Decimal(m) + " resources [skip ci]"
  {
    Joined("chore(inventory): sync ", Decimal(n), " resources ", SKIP_CI);
    Joined("feat(archive): move deleted resource ", what, " to archive ", SKIP_CI);
    Joined("chore(inventory): sync " + Decimal(n) + " and archive ", Decimal(m), " resources ", SKIP_CI);
    assert " resources " + SKIP_CI == " resources [skip ci]";
    assert " to archive " + SKIP_CI == " to archive [skip ci]";
  }

  /** What the subject of a batch says: how many files it writes and how many it archives, and the name of the
      object when it archives a single one. */
  lemma SubjectSays(batch: Ops, sortedPaths: seq<string>)
    requires Lists(sortedPaths, batch.Keys)
    ensures var n := |set p | p in batch && batch[p].Write?|;
            var m := |set p | p in batch && batch[p].Archive?|;
            var subject := SubjectOf(OfKind(sortedPaths, batch, true), OfKind(sortedPaths, batch, false));
            && (n > 0 && m == 0 ==> subject == "chore(inventory): sync " + Decimal(n) + " resources [skip ci]")
            && (n == 0 && m > 1 ==>
                  subject == "feat(archive): move deleted resource " + (Decimal(m) + " resources") + " to archive [skip ci]")
            && (n > 0 && m > 0 ==>
                  subject == "chore(inventory): sync " + Decimal(n) + " and archive " + Decimal(m) + " resources [skip ci]")
  {
    KindCounts(batch, sortedPaths);
    var writes, archives := OfKind(sortedPaths, batch, true), OfKind(sortedPaths, batch, false);
    SubjectTexts(|writes|, |archives|, Decimal(|archives|) + " resources");
  }

  lemma SingleArchiveNamed(batch: Ops, t: Target)
    requires Named(t) && batch == map[PathOf(t) := Archive]
    ensures SubjectOf(OfKind([PathOf(t)], batch, true), OfKind([PathOf(t)], batch, false))
         == "feat(archive): move deleted resource " + t.name + " to archive [skip ci]"
  {
    var p := PathOf(t);
    ResourceNameOfRendered(t);
    SingleArchive(batch, p);
    SubjectTexts(0, 0, t.name);
  }

  lemma SingleArchive(batch: Ops, p: string)
    requires batch == map[p := Archive]
    ensures OfKind([p], batch, true) == [] && OfKind([p], batch, false) == [p]
  {
    assert [p][..0] == [];
  }

  /** A section on `count` paths of one kind: the first ten of them, and perhaps a remainder line. */
  ghost predicate IsSection(lines: seq<string>, batch: Ops, writes: bool, count: nat) {
    && |lines| == (if count <= 10 then count else 11)
    && forall i :: 0 <= i < |lines| && i < 10 ==> lines[i] in batch && batch[lines[i]].Write? == writes
  }

  /** What the body of a batch says: written files stand under "write:", archived ones under "archive:", and no
      heading is needed when there is only one kind. */
  lemma SectionsSay(batch: Ops, sortedPaths: seq<string>)
    requires batch != map[] && Lists(sortedPaths, batch.Keys) && Legible(sortedPaths)
    ensures var n := |set p | p in batch && batch[p].Write?|;
            var m := |set p | p in batch && batch[p].Archive?|;
            var lines := BodyLines(sortedPaths, batch);
            && (m == 0 ==> IsSection(lines, batch, true, n))
            && (n == 0 ==> IsSection(lines, batch, false, m))
            && (n > 0 && m > 0 ==> exists written, archived ::
                  && IsSection(written, batch, true, n) && IsSection(archived, batch, false, m)
                  && lines == ["write:"] + written + ["archive:"] + archived)
  {
    var writes, archives := OfKind(sortedPaths, batch, true), OfKind(sortedPaths, batch, false);
    KindCounts(batch, sortedPaths);
    PartitionAccounts(sortedPaths, batch);
    OneSection(writes, batch, true);
    OneSection(archives, batch, false);
    MessageAccounts(batch, sortedPaths);
    assert BodyLines(sortedPaths, batch) == LinesOf(writes, archives);
  }

  lemma OneSection(paths: seq<string>, batch: Ops, writes: bool)
    requires forall p :: p in paths ==> p in batch && batch[p].Write? == writes
    ensures IsSection(Entries(paths), batch, writes, |paths|)
  {
    EntriesLength(paths);
    forall i | 0 <= i < |Entries(paths)| && i < 10
      ensures Entries(paths)[i] in batch && batch[Entries(paths)[i]].Write? == writes
    {
      assert paths[i] in paths && Entries(paths)[i] == paths[i];
    }
  }

  /** The message of a commit, as exportBatch puts it together. */
  method FullMessage(batch: Ops) returns (message: string, ghost sortedPaths: seq<string>)
    ensures Lists(sortedPaths, batch.Keys)
    ensures batch != map[] && Legible(sortedPaths) ==>
              message == SubjectOf(OfKind(sortedPaths, batch, true), OfKind(sortedPaths, batch, false)) + "\n\n"
                       + Block(LinesOf(OfKind(sortedPaths, batch, true), OfKind(sortedPaths, batch, false)))
  {
    var paths := SortedKeys(batch.Keys);
    sortedPaths := paths;
    var subject, body := CommitMessageForBatch(batch, paths);
    message := subject;
    if batch != map[] && Legible(paths) { BodyVisible(batch, paths); }
    if body != "" {
      message := subject + "\n\n" + body;
    }
  }

  lemma BodyVisible(batch: Ops, sortedPaths: seq<string>)
    requires batch != map[] && Lists(sortedPaths, batch.Keys) && Legible(sortedPaths)
    ensures sortedPaths != []
    ensures Block(LinesOf(OfKind(sortedPaths, batch, true), OfKind(sortedPaths, batch, false))) != ""
  {
    var writes, archives := OfKind(sortedPaths, batch, true), OfKind(sortedPaths, batch, false);
    PartitionAccounts(sortedPaths, batch);
    LegiblePart(sortedPaths, writes);
    LegiblePart(sortedPaths, archives);
    var p :| p in batch;
    assert p in batch.Keys && p in sortedPaths && (p in writes || p in archives);
    LinesVisible(writes, archives);
    BlockVisible(LinesOf(writes, archives));
  }

  lemma LinesVisible(writes: seq<string>, archives: seq<string>)
    requires Legible(writes) && Legible(archives) && writes + archives != []
    ensures LinesOf(writes, archives) != [] && LinesOf(writes, archives)[0] != ""
  {
  }

  lemma EntriesLength(paths: seq<string>)
    ensures |Entries(paths)| <= 8 <==> |paths| <= 8
    ensures |Entries(paths)| <= MAX_LISTED <==> |paths| <= MAX_LISTED
    ensures |Entries(paths)| == if |paths| <= MAX_LISTED then |paths| else MAX_LISTED + 1
  {
  }

  /** The lines of the body for a batch. */
  function BodyLines(paths: seq<string>, batch: Ops): seq<string>
    requires forall p :: p in paths ==> p in batch
  {
    SplitLines(Block(LinesOf(OfKind(paths, batch, true), OfKind(paths, batch, false))))
  }

  /** The commit policy's ten lines, exactly: a body keeps to them if, and only if, the batch has at most ten
      paths of one kind, or at most eight of both kinds together. */
  lemma BodyWithinTenIff(batch: Ops, sortedPaths: seq<string>)
    requires batch != map[] && Lists(sortedPaths, batch.Keys) && Legible(sortedPaths)
    ensures var writes, archives := OfKind(sortedPaths, batch, true), OfKind(sortedPaths, batch, false);
            |BodyLines(sortedPaths, batch)| <= 10
            <==> |batch| <= if writes != [] && archives != [] then 8 else 10
  {
    var writes, archives := OfKind(sortedPaths, batch, true), OfKind(sortedPaths, batch, false);
    MessageAccounts(batch, sortedPaths);
    SubjectCountsBatch(batch, sortedPaths);
    EntriesLength(writes);
    EntriesLength(archives);
  }

  /** Application `a`, `b`, `c` and so on of the default namespace. */
  function Lettered(i: nat): Target
    requires i < 26
  {
    Target("applications", "default", ['a' + i as char])
  }

  function LetteredPaths(n: nat): seq<string>
    requires n <= 26
  {
    seq(n, i requires 0 <= i < n => PathOf(Lettered(i)))
  }

  lemma {:induction false} LessAfterPrefix(prefix: string, a: string, b: string)
    requires Less(a, b)
    ensures Less(prefix + a, prefix + b)
  {
    if prefix == "" {
      assert prefix + a == a && prefix + b == b;
    } else {
      LessAfterPrefix(prefix[1..], a, b);
      assert (prefix + a)[1..] == prefix[1..] + a && (prefix + b)[1..] == prefix[1..] + b;
    }
  }

  lemma LessByFirst(prefix: string, x: char, y: char, ext: string)
    requires x < y
    ensures Less(prefix + ([x] + ext), prefix + ([y] + ext))
  {
    LessAfterPrefix(prefix, [x] + ext, [y] + ext);
  }

  lemma LetteredNamed(i: nat)
    requires i < 26
    ensures Named(Lettered(i))
  {
  }

  lemma LetteredPath(i: nat)
    requires i < 26
    ensures PathOf(Lettered(i)) == (INVENTORY_PREFIX + "applications" + "/" + "default" + "/") + (['a' + i as char] + ".yaml")
  {
    NameLast(INVENTORY_PREFIX + "applications" + "/" + "default" + "/", ['a' + i as char], ".yaml");
  }

  lemma NameLast(prefix: string, name: string, ext: string)
    ensures prefix + name + ext == prefix + (name + ext)
  {
  }

  lemma LetteredSorted(n: nat)
    requires n <= 26
    ensures StrictlySorted(LetteredPaths(n)) && Legible(LetteredPaths(n))
  {
    var paths := LetteredPaths(n);
    forall i, j | 0 <= i < j < |paths| ensures Less(paths[i], paths[j]) {
      LetteredPath(i);
      LetteredPath(j);
      LessByFirst(INVENTORY_PREFIX + "applications" + "/" + "default" + "/", 'a' + i as char, 'a' + j as char, ".yaml");
    }
    forall i | 0 <= i < |paths| ensures Rendered(paths[i]) {
      LetteredNamed(i);
    }
    RenderedLegible(paths);
  }

  /** A batch of eleven writes, and one of eight writes and an archive operation. */
  function ElevenWrites(): Ops {
    map p | p in LetteredPaths(11) :: Write("")
  }

  function NineMixed(): Ops {
    map p | p in LetteredPaths(9) :: if p == LetteredPaths(9)[0] then Archive else Write("")
  }

  lemma BodyBeyond(paths: seq<string>, batch: Ops)
    requires |paths| > 8 && Lists(paths, batch.Keys) && Legible(paths)
    requires |paths| > 10 || (batch[paths[0]].Archive? && batch[paths[1]].Write?)
    ensures |BodyLines(paths, batch)| > 10
  {
    SortedSize(paths, batch.Keys);
    assert |batch.Keys| == |batch|;
    PartitionAccounts(paths, batch);
    assert paths[0] in paths && paths[1] in paths;
    BodyWithinTenIff(batch, paths);
  }

  /** Both already give a longer body. */
  lemma BodyBeyondTen()
    ensures |BodyLines(LetteredPaths(11), ElevenWrites())| > 10
    ensures |BodyLines(LetteredPaths(9), NineMixed())| > 10
  {
    LetteredSorted(11);
    LetteredSorted(9);
    BodyBeyond(LetteredPaths(11), ElevenWrites());
    var nine := LetteredPaths(9);
    LessTrichotomy(nine[0], nine[1]);
    assert Less(nine[0], nine[1]);
    BodyBeyond(nine, NineMixed());
  }

  ghost predicate Rendered(p: string) {
    exists t :: Named(t) && p == PathOf(t)
  }

  /** The paths of Kubernetes objects are legible. */
  lemma RenderedLegible(paths: seq<string>)
    requires forall i :: 0 <= i < |paths| ==> Rendered(paths[i])
    ensures Legible(paths)
  {
    forall i | 0 <= i < |paths| ensures OneLine(paths[i]) && paths[i] != "" && paths[i][0] != '.' {
      assert Rendered(paths[i]);
      var t :| Named(t) && paths[i] == PathOf(t);
      PathVisible(t);
      RenderedOneLine(t);
    }
  }

  lemma RenderedOneLine(t: Target)
    requires Named(t)
    ensures OneLine(PathOf(t))
  {
    PathIsRelative(t);
    DnsOneLine(t.namespace);
    DnsOneLine(t.name);
    FixedOneLine(t.plural);
    JoinedOneLine(INVENTORY_PREFIX, t.plural, t.namespace, t.name, ".yaml");
  }

  lemma FixedOneLine(plural: string)
    requires ArgoPlural(plural)
    ensures OneLine(INVENTORY_PREFIX) && OneLine(".yaml") && OneLine(plural)
  {
  }

  lemma DnsOneLine(s: string)
    requires DnsName(s)
    ensures OneLine(s)
  {
    assert forall i :: 0 <= i < |s| ==> DnsChar(s[i]);
  }

  lemma JoinedOneLine(root: string, a: string, b: string, name: string, ext: string)
    requires OneLine(root) && OneLine(a) && OneLine(b) && OneLine(name) && OneLine(ext)
    ensures OneLine(root + (a + "/" + b + "/" + (name + ext)))
  {
  }
}
