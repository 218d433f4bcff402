/** The part of Go's `strings`, `path` and `sort` packages that the inventory code relies on.
    A Go string is modelled as a `seq<char>`. */
module Text {

  // ---------- strings ----------

  predicate HasPrefix(s: string, prefix: string) {
    prefix <= s
  }

  predicate HasSuffix(s: string, suffix: string) {
    |suffix| <= |s| && s[|s| - |suffix|..] == suffix
  }

  function TrimPrefix(s: string, prefix: string): string {
    if HasPrefix(s, prefix) then s[|prefix|..] else s
  }

  function TrimSuffix(s: string, suffix: string): string {
    if HasSuffix(s, suffix) then s[..|s| - |suffix|] else s
  }

  /** unicode.IsSpace. */
  predicate IsSpace(c: char) {
    var n := c as int;
    || 0x09 <= n <= 0x0D || n == 0x20 || n == 0x85 || n == 0xA0 || n == 0x1680
    || 0x2000 <= n <= 0x200A || n == 0x2028 || n == 0x2029 || n == 0x202F
    || n == 0x205F || n == 0x3000
  }

  function TrimLeft(s: string): string {
    if s != "" && IsSpace(s[0]) then TrimLeft(s[1..]) else s
  }

  function TrimRight(s: string): string {
    if s != "" && IsSpace(s[|s| - 1]) then TrimRight(s[..|s| - 1]) else s
  }

  function TrimSpace(s: string): string {
    TrimRight(TrimLeft(s))
  }

  /** A string that starts and ends with a visible character is not changed by trimming. */
  lemma TrimSpaceVisible(s: string)
    requires s != "" && !IsSpace(s[0]) && !IsSpace(s[|s| - 1])
    ensures TrimSpace(s) == s
  {
  }

  /** What TrimRight drops is blank, and what it leaves ends visibly. */
  lemma {:induction false} TrimRightFacts(s: string)
    ensures TrimRight(s) <= s
    ensures TrimRight(s) != "" ==> !IsSpace(TrimRight(s)[|TrimRight(s)| - 1])
    ensures forall i :: |TrimRight(s)| <= i < |s| ==> IsSpace(s[i])
  {
    if s != "" && IsSpace(s[|s| - 1]) {
      var t := s[..|s| - 1];
      TrimRightFacts(t);
      assert forall i :: |TrimRight(t)| <= i < |t| ==> IsSpace(t[i]) && t[i] == s[i];
    }
  }

  lemma {:induction false} TrimLeftFacts(s: string) returns (k: nat)
    ensures k <= |s| && TrimLeft(s) == s[k..]
    ensures TrimLeft(s) != "" ==> !IsSpace(TrimLeft(s)[0])
  {
    if s != "" && IsSpace(s[0]) {
      var j := TrimLeftFacts(s[1..]);
      k := j + 1;
      assert s[1..][j..] == s[k..];
    } else {
      k := 0;
    }
  }

  /** Trimming the right end of `a + b` touches only `b` when `a` ends visibly. */
  lemma {:induction false} TrimRightAppend(a: string, b: string)
    requires a != "" && !IsSpace(a[|a| - 1])
    ensures TrimRight(a + b) == a + TrimRight(b)
  {
    if b == "" {
      assert a + b == a;
    } else {
      assert (a + b)[|a + b| - 1] == b[|b| - 1];
      if IsSpace(b[|b| - 1]) {
        TrimRightAppend(a, b[..|b| - 1]);
        assert (a + b)[..|a + b| - 1] == a + b[..|b| - 1];
      }
    }
  }

  /** Among ASCII characters, the blanks are tab, newline, vertical tab, form feed, carriage return and space. */
  lemma AsciiBlanks(c: char)
    requires c as int < 0x80
    ensures IsSpace(c) <==> c as int in {9, 10, 11, 12, 13, 32}
  {
  }

  predicate Blank(s: string) {
    forall i :: 0 <= i < |s| ==> IsSpace(s[i])
  }

  lemma {:induction false} TrimLeftBlank(blank: string, s: string)
    requires Blank(blank) && (s == "" || !IsSpace(s[0]))
    ensures TrimLeft(blank + s) == s
  {
    if blank == "" {
      assert blank + s == s;
    } else {
      assert IsSpace(blank[0]) && (blank + s)[1..] == blank[1..] + s;
      TrimLeftBlank(blank[1..], s);
    }
  }

  lemma {:induction false} TrimRightBlank(s: string, blank: string)
    requires Blank(blank) && (s == "" || !IsSpace(s[|s| - 1]))
    ensures TrimRight(s + blank) == s
  {
    if blank == "" {
      assert s + blank == s;
    } else {
      var n := |blank| - 1;
      assert IsSpace(blank[n]) && (s + blank)[..|s + blank| - 1] == s + blank[..n];
      TrimRightBlank(s, blank[..n]);
    }
  }

  /** Trimming cuts off exactly the blanks at both ends. */
  lemma TrimExact(before: string, s: string, after: string)
    requires Blank(before) && Blank(after) && s != "" && !IsSpace(s[0]) && !IsSpace(s[|s| - 1])
    ensures TrimSpace(before + s + after) == s
  {
    assert before + s + after == before + (s + after);
    assert (s + after)[0] == s[0];
    TrimLeftBlank(before, s + after);
    TrimRightBlank(s, after);
  }

  /** Trimming is idempotent. */
  lemma TrimSpaceIdempotent(s: string)
    ensures TrimSpace(TrimSpace(s)) == TrimSpace(s)
  {
    var l := TrimLeft(s);
    var _ := TrimLeftFacts(s);
    TrimRightFacts(l);
    var t := TrimSpace(s);
    if t != "" {
      assert t[0] == l[0];
      TrimSpaceVisible(t);
    }
  }

  // ---------- strings.Split(s, "/") and strings.Join(parts, "/") ----------

  function Split(s: string): (parts: seq<string>)
    ensures |parts| >= 1
  {
    if s == "" then [""] else PutChar(s[0], Split(s[1..]))
  }

  /** One more character in front: a separator opens a new part, another one extends the first. */
  function PutChar(c: char, parts: seq<string>): (r: seq<string>)
    requires parts != []
    ensures |r| >= 1
  {
    if c == '/' then [""] + parts else [[c] + parts[0]] + parts[1..]
  }

  function Join(parts: seq<string>): string {
    if parts == [] then ""
    else if |parts| == 1 then parts[0]
    else parts[0] + "/" + Join(parts[1..])
  }

  lemma JoinCons(x: string, parts: seq<string>)
    requires parts != []
    ensures Join([x] + parts) == x + "/" + Join(parts)
  {
    assert ([x] + parts)[1..] == parts;
  }

  lemma JoinExtendFirst(c: char, parts: seq<string>)
    requires parts != []
    ensures Join([[c] + parts[0]] + parts[1..]) == [c] + Join(parts)
  {
    if |parts| > 1 {
      JoinCons([c] + parts[0], parts[1..]);
      JoinCons(parts[0], parts[1..]);
      assert parts == [parts[0]] + parts[1..];
      assert [c] + parts[0] + "/" + Join(parts[1..]) == [c] + (parts[0] + "/" + Join(parts[1..]));
    }
  }

  lemma {:induction false} JoinSplit(s: string)
    ensures Join(Split(s)) == s
  {
    if s != "" {
      var rest := Split(s[1..]);
      JoinSplit(s[1..]);
      JoinCons("", rest);
      JoinExtendFirst(s[0], rest);
      assert s == [s[0]] + s[1..];
    }
  }

  /** The parts have no separator in them. */
  lemma {:induction false} SplitParts(s: string)
    ensures forall i :: 0 <= i < |Split(s)| ==> '/' !in Split(s)[i]
  {
    if s != "" { SplitParts(s[1..]); }
  }

  lemma PutCharAppend(c: char, parts: seq<string>, more: seq<string>)
    requires parts != []
    ensures PutChar(c, parts + more) == PutChar(c, parts) + more
  {
    assert (parts + more)[1..] == parts[1..] + more;
    assert (parts + more)[0] == parts[0];
  }

  /** Splitting distributes over a separator. */
  lemma {:induction false} SplitConcat(a: string, b: string)
    ensures Split(a + "/" + b) == Split(a) + Split(b)
  {
    var s := a + "/" + b;
    if a == "" {
      assert s[0] == '/' && s[1..] == b;
      assert Split(a) == [""];
    } else {
      var a' := a[1..];
      assert s[0] == a[0] && s[1..] == a' + "/" + b;
      SplitConcat(a', b);
      PutCharAppend(a[0], Split(a'), Split(b));
    }
  }

  lemma {:induction false} SplitPlain(s: string)
    requires '/' !in s
    ensures Split(s) == [s]
  {
    if s != "" {
      assert '/' !in s[1..];
      SplitPlain(s[1..]);
      assert [s[0]] + s[1..] == s;
    }
  }

  lemma SplitThree(a: string, b: string, c: string)
    requires '/' !in a && '/' !in b && '/' !in c
    ensures Split(a + "/" + b + "/" + c) == [a, b, c]
  {
    SplitConcat(a + "/" + b, c);
    SplitConcat(a, b);
    SplitPlain(a);
    SplitPlain(b);
    SplitPlain(c);
  }

  lemma SplitFour(root: string, a: string, b: string, c: string)
    requires '/' !in root && '/' !in a && '/' !in b && '/' !in c
    ensures Split(root + "/" + (a + "/" + b + "/" + c)) == [root, a, b, c]
  {
    SplitConcat(root, a + "/" + b + "/" + c);
    SplitPlain(root);
    SplitThree(a, b, c);
  }

  lemma TrimPrefixAppend(prefix: string, s: string)
    ensures HasPrefix(prefix + s, prefix) && TrimPrefix(prefix + s, prefix) == s
  {
  }

  lemma TrimSuffixAppend(s: string, suffix: string)
    ensures HasSuffix(s + suffix, suffix) && TrimSuffix(s + suffix, suffix) == s
  {
  }

  // ---------- path.Clean ----------

  /** Drops empty and "." elements and lets ".." remove the element before it;
      at the root a leading ".." disappears, elsewhere it stays. */
  function Resolve(parts: seq<string>, rooted: bool, kept: seq<string>): seq<string> {
    if parts == [] then kept
    else
      var h := parts[0];
      var kept' :=
        if h == "" || h == "." then kept
        else if h == ".." then
          if kept != [] && kept[|kept| - 1] != ".." then kept[..|kept| - 1]
          else if rooted then kept
          else kept + [".."]
        else kept + [h];
      Resolve(parts[1..], rooted, kept')
  }

  function Clean(p: string): string {
    if p == "" then "."
    else
      var rooted := p[0] == '/';
      var body := Join(Resolve(Split(p), rooted, []));
      if rooted then "/" + body
      else if body == "" then "."
      else body
  }

  predicate PlainElement(e: string) {
    e != "" && e != "." && e != ".."
  }

  lemma {:induction false} ResolvePlain(parts: seq<string>, rooted: bool, kept: seq<string>)
    requires forall i :: 0 <= i < |parts| ==> PlainElement(parts[i])
    ensures Resolve(parts, rooted, kept) == kept + parts
  {
    if parts == [] {
      assert kept + parts == kept;
    } else {
      ResolvePlain(parts[1..], rooted, kept + [parts[0]]);
      assert parts == [parts[0]] + parts[1..];
      assert (kept + [parts[0]]) + parts[1..] == kept + parts;
    }
  }

  /** A path made of plain elements is already clean. */
  lemma CleanPlain(p: string)
    requires forall e :: e in Split(p) ==> PlainElement(e)
    ensures Clean(p) == p
  {
    var parts := Split(p);
    assert forall i :: 0 <= i < |parts| ==> parts[i] in parts;
    assert PlainElement(parts[0]);
    assert p != "" && p[0] != '/';
    ResolvePlain(parts, false, []);
    assert [] + parts == parts;
    JoinSplit(p);
  }

  /** Without ".." elements nothing already kept is ever dropped. */
  lemma {:induction false} ResolveKeeps(parts: seq<string>, rooted: bool, kept: seq<string>)
    requires ".." !in parts
    ensures kept <= Resolve(parts, rooted, kept)
    ensures forall e :: e in Resolve(parts, rooted, kept) && e !in kept ==> e in parts && PlainElement(e)
  {
    if parts != [] {
      var h := parts[0];
      assert h in parts;
      var kept' := if h == "" || h == "." then kept else kept + [h];
      ResolveKeeps(parts[1..], rooted, kept');
    }
  }

  /** A leading slash stays, in front of plain elements. */
  lemma CleanRooted(p: string)
    requires forall e :: e in Split(p) ==> PlainElement(e)
    ensures Clean("/" + p) == "/" + p
  {
    var parts := Split(p);
    assert ("/" + p)[0] == '/' && ("/" + p)[1..] == p;
    assert Split("/" + p) == [""] + parts;
    assert ([""] + parts)[1..] == parts;
    assert forall i :: 0 <= i < |parts| ==> parts[i] in parts;
    ResolvePlain(parts, true, []);
    assert [] + parts == parts;
    JoinSplit(p);
  }

  /** Elements that lead nowhere: nothing, ".", and an element with ".." behind it. */
  lemma DetourDropped(h: string, rooted: bool, kept: seq<string>)
    requires PlainElement(h)
    ensures Resolve([""], rooted, kept) == kept
    ensures Resolve(["."], rooted, kept) == kept
    ensures Resolve([h, ".."], rooted, kept) == kept
    ensures Resolve([".."], true, []) == [] && Resolve([".."], false, []) == [".."]
  {
    assert [h, ".."][1..] == [".."] && [".."][1..] == [] && [""][1..] == [] && ["."][1..] == [];
    assert (kept + [h])[..|kept|] == kept;
    assert Resolve([h, ".."], rooted, kept) == Resolve([".."], rooted, kept + [h]);
    assert Resolve([".."], rooted, kept + [h]) == Resolve([], rooted, kept);
    var up: seq<string> := [".."];
    assert [] + up == up && up[1..] == [];
    assert Resolve(up, false, []) == Resolve([], false, up);
    assert Resolve(up, true, []) == Resolve([], true, []);
  }

  // ---------- Go's order on strings, sort.Strings ----------

  /** a < b in Go: the first differing character decides, a proper prefix is smaller. */
  predicate Less(a: string, b: string) {
    b != "" && (a == "" || a[0] < b[0] || (a[0] == b[0] && Less(a[1..], b[1..])))
  }

  /** The strings agree on n characters, and then the first one ends or has the smaller character. */
  predicate DiffersAt(a: string, b: string, n: nat) {
    n <= |a| && n < |b| && a[..n] == b[..n] && (n == |a| || a[n] < b[n])
  }

  /** What comes first in Go's order. */
  lemma {:induction false} LessIff(a: string, b: string)
    ensures Less(a, b) <==> exists n: nat :: DiffersAt(a, b, n)
  {
    if a == "" || b == "" || a[0] != b[0] {
      if Less(a, b) { assert DiffersAt(a, b, 0); }
      if n: nat :| DiffersAt(a, b, n) {
        if n > 0 { assert a[..n][0] == b[..n][0]; }
      }
    } else {
      LessIff(a[1..], b[1..]);
      if n: nat :| DiffersAt(a[1..], b[1..], n) {
        assert a[..n + 1] == [a[0]] + a[1..][..n] && b[..n + 1] == [b[0]] + b[1..][..n];
        assert DiffersAt(a, b, n + 1);
      }
      if n: nat :| DiffersAt(a, b, n) {
        assert n > 0;
        assert a[1..][..n - 1] == a[..n][1..] && b[1..][..n - 1] == b[..n][1..];
        assert DiffersAt(a[1..], b[1..], n - 1);
      }
    }
  }

  lemma {:induction false} LessTrichotomy(a: string, b: string)
    ensures Less(a, b) || Less(b, a) || a == b
    ensures !(Less(a, b) && Less(b, a))
    ensures !Less(a, a)
  {
    if a != "" && b != "" {
      LessTrichotomy(a[1..], b[1..]);
      assert a == [a[0]] + a[1..] && b == [b[0]] + b[1..];
    }
    if a != "" { LessTrichotomy(a[1..], a[1..]); }
  }

  lemma {:induction false} LessTransitive(a: string, b: string, c: string)
    requires Less(a, b) && Less(b, c)
    ensures Less(a, c)
  {
    if a != "" && a[0] == b[0] == c[0] {
      LessTransitive(a[1..], b[1..], c[1..]);
    }
  }

  /** Strictly increasing, hence sorted and free of duplicates. */
  predicate StrictlySorted(s: seq<string>) {
    forall i, j :: 0 <= i < j < |s| ==> Less(s[i], s[j])
  }

  function Insert(x: string, s: seq<string>): seq<string> {
    if s == [] then [x]
    else if Less(x, s[0]) then [x] + s
    else [s[0]] + Insert(x, s[1..])
  }

  /** sort.Strings. */
  function SortStrings(s: seq<string>): seq<string> {
    if s == [] then [] else Insert(s[0], SortStrings(s[1..]))
  }

  predicate NoDuplicates(s: seq<string>) {
    forall i, j :: 0 <= i < j < |s| ==> s[i] != s[j]
  }

  lemma {:induction false} InsertFacts(x: string, s: seq<string>)
    requires StrictlySorted(s) && x !in s
    ensures StrictlySorted(Insert(x, s))
    ensures forall e :: e in Insert(x, s) <==> e == x || e in s
    ensures |Insert(x, s)| == |s| + 1
  {
    if s != [] {
      LessTrichotomy(x, s[0]);
      if Less(x, s[0]) {
        forall j | 0 < j < |s| ensures Less(x, s[j]) { LessTransitive(x, s[0], s[j]); }
      } else {
        assert s[0] in s && s == [s[0]] + s[1..];
        InsertFacts(x, s[1..]);
        var r := Insert(x, s[1..]);
        forall k | 0 <= k < |r| ensures Less(s[0], r[k]) {
          assert r[k] in r;
          if r[k] != x {
            var i :| 0 <= i < |s[1..]| && s[1..][i] == r[k];
            assert Less(s[0], s[i + 1]);
          }
        }
      }
    }
  }

  /** Sorting a duplicate-free list keeps its elements and puts them in strict order. */
  lemma {:induction false} SortFacts(s: seq<string>)
    requires NoDuplicates(s)
    ensures StrictlySorted(SortStrings(s))
    ensures forall e :: e in SortStrings(s) <==> e in s
    ensures |SortStrings(s)| == |s|
  {
    if s != [] {
      SortFacts(s[1..]);
      assert s == [s[0]] + s[1..];
      assert s[0] !in s[1..];
      InsertFacts(s[0], SortStrings(s[1..]));
    }
  }

  /** A strictly sorted list is determined by its elements: whatever order Go's map
      iteration produced before sorting, the result is the same. */
  lemma {:induction false} SortedUnique(a: seq<string>, b: seq<string>)
    requires StrictlySorted(a) && StrictlySorted(b)
    requires forall e :: e in a <==> e in b
    ensures a == b
  {
    if a == [] {
      assert forall i :: 0 <= i < |b| ==> b[i] !in a;
    } else {
      assert a[0] in b;
      assert b[0] in a;
      var i :| 0 <= i < |b| && b[i] == a[0];
      var j :| 0 <= j < |a| && a[j] == b[0];
      LessTrichotomy(a[0], b[0]);
      assert a[0] == b[0];
      var a', b' := a[1..], b[1..];
      forall e ensures e in a' <==> e in b' {
        assert e in a <==> e == a[0] || e in a' by { assert a == [a[0]] + a'; }
        assert e in b <==> e == b[0] || e in b' by { assert b == [b[0]] + b'; }
        if e == a[0] { LessTrichotomy(e, e); }
      }
      SortedUnique(a', b');
      assert a == [a[0]] + a' && b == [b[0]] + b';
    }
  }

  lemma {:induction false} Enumerate(s: set<string>) returns (out: seq<string>)
    ensures NoDuplicates(out) && forall p :: p in out <==> p in s
    decreases |s|
  {
    if s == {} {
      out := [];
    } else {
      var p :| p in s;
      var rest := Enumerate(s - {p});
      assert p !in rest;
      out := rest + [p];
    }
  }

  /** The elements of `s`, once each. */
  ghost predicate Lists(out: seq<string>, s: set<string>) {
    StrictlySorted(out) && forall p :: p in out <==> p in s
  }

  /** Collects a Go map's keys in iteration order and sorts them. */
  method SortedKeys(s: set<string>) returns (out: seq<string>)
    ensures Lists(out, s)
  {
    var todo := s;
    out := [];
    while todo != {}
      invariant todo <= s && NoDuplicates(out)
      invariant forall p :: p in out <==> p in s - todo
      decreases |todo|
    {
      var p :| p in todo;
      assert p !in out;
      out := out + [p];
      todo := todo - {p};
    }
    SortFacts(out);
    out := SortStrings(out);
  }
}
