/** The first document of a YAML stream (firstYAMLDocument in internal/inventory/normalize.go). */
module Documents {
  import opened Text

  const SEPARATOR := "\n---"

  /** The separator starts at position i. */
  predicate SeparatorAt(s: string, i: int) {
    0 <= i && i + 4 <= |s| && s[i] == '\n' && s[i + 1] == '-' && s[i + 2] == '-' && s[i + 3] == '-'
  }

  lemma SeparatorIs(s: string, i: int)
    ensures SeparatorAt(s, i) <==> 0 <= i && i + 4 <= |s| && s[i..i + 4] == "\n---"
  {
    if 0 <= i && i + 4 <= |s| {
      var four := s[i..i + 4];
      assert four[0] == s[i] && four[1] == s[i + 1] && four[2] == s[i + 2] && four[3] == s[i + 3];
    }
  }

  /** strings.Split(s, "\n---")[0]. */
  function BeforeSeparator(s: string): string {
    if s == "" || SeparatorAt(s, 0) then "" else [s[0]] + BeforeSeparator(s[1..])
  }

  function FirstDocument(src: string): string {
    var s := TrimSpace(src);
    if s == "" then "" else TrimSpace(BeforeSeparator(s))
  }

  /** The cut is at the first separator, or at the end when there is none. */
  ghost predicate FirstCut(s: string, n: nat) {
    && n <= |s|
    && (n == |s| || SeparatorAt(s, n))
    && forall i :: 0 <= i < n ==> !SeparatorAt(s, i)
  }

  lemma {:induction false} BeforeSeparatorPrefix(s: string)
    ensures BeforeSeparator(s) <= s
  {
    if s != "" && !SeparatorAt(s, 0) {
      BeforeSeparatorPrefix(s[1..]);
      assert s == [s[0]] + s[1..];
    }
  }

  lemma SeparatorShift(s: string, i: nat)
    requires s != ""
    ensures SeparatorAt(s[1..], i) <==> SeparatorAt(s, i + 1)
  {
  }

  lemma {:induction false} BeforeSeparatorFacts(s: string)
    ensures BeforeSeparator(s) <= s
    ensures FirstCut(s, |BeforeSeparator(s)|)
  {
    BeforeSeparatorPrefix(s);
    if s != "" && !SeparatorAt(s, 0) {
      var t := s[1..];
      BeforeSeparatorFacts(t);
      var n := |BeforeSeparator(t)|;
      assert |BeforeSeparator(s)| == n + 1;
      forall i | 0 <= i < n + 1 ensures !SeparatorAt(s, i) {
        if i > 0 { SeparatorShift(s, i - 1); }
      }
      SeparatorShift(s, n);
    }
  }

  lemma CutUnique(s: string, n: nat)
    requires FirstCut(s, n)
    ensures BeforeSeparator(s) == s[..n]
  {
    BeforeSeparatorFacts(s);
    var m := |BeforeSeparator(s)|;
    assert (m == |s| || SeparatorAt(s, m)) && (n == |s| || SeparatorAt(s, n));
    assert m == n;
  }

  /** A slice of a separator-free text has no separator. */
  lemma SliceHasNone(s: string, a: nat, b: nat)
    requires a <= b <= |s|
    requires forall i :: 0 <= i < b ==> !(SeparatorAt(s, i) && i + 4 <= b)
    ensures FirstCut(s[a..b], b - a)
  {
    var t := s[a..b];
    forall i | 0 <= i < |t| ensures !SeparatorAt(t, i) {
      if SeparatorAt(t, i) { assert SeparatorAt(s, a + i); }
    }
  }

  /** Trimming is cutting out a slice. */
  lemma TrimSlice(s: string) returns (a: nat, b: nat)
    ensures a <= b <= |s| && TrimSpace(s) == s[a..b]
  {
    a := TrimLeftFacts(s);
    var l := s[a..];
    TrimRightFacts(l);
    b := a + |TrimRight(l)|;
    assert l[..b - a] == s[a..b];
  }

  /** Taking the first document twice is taking it once. */
  lemma FirstDocumentIdempotent(src: string)
    ensures FirstDocument(FirstDocument(src)) == FirstDocument(src)
  {
    var s := TrimSpace(src);
    if s != "" {
      BeforeSeparatorFacts(s);
      var d := BeforeSeparator(s);
      var r := TrimSpace(d);
      TrimSpaceIdempotent(d);
      var a, b := TrimSlice(d);
      forall i | 0 <= i < b ensures !(SeparatorAt(d, i) && i + 4 <= b) {
        if SeparatorAt(d, i) { assert SeparatorAt(s, i); }
      }
      SliceHasNone(d, a, b);
      CutUnique(r, |r|);
      assert r[..|r|] == r;
    }
  }

  /** Trimming the right end cannot destroy a separator, because a separator ends visibly. */
  lemma SeparatorSurvivesTrim(s: string, i: int)
    ensures SeparatorAt(s, i) <==> SeparatorAt(TrimRight(s), i)
  {
    TrimRightFacts(s);
    if SeparatorAt(s, i) {
      assert !IsSpace(s[i + 3]);
    }
  }

  lemma {:induction false} TrimLeftAppend(d: string, more: string)
    requires TrimLeft(d) != ""
    ensures TrimLeft(d + more) == TrimLeft(d) + more
  {
    assert d != "" && (d + more)[0] == d[0];
    if IsSpace(d[0]) {
      TrimLeftAppend(d[1..], more);
      assert (d + more)[1..] == d[1..] + more;
    }
  }

  /** Blank text behind the cut does not matter. */
  lemma CutBeforeTrim(l: string)
    requires TrimLeft(l) == l
    ensures TrimSpace(BeforeSeparator(l)) == TrimSpace(BeforeSeparator(TrimRight(l)))
  {
    var r := TrimRight(l);
    TrimRightFacts(l);
    var c := |BeforeSeparator(l)|;
    BeforeSeparatorFacts(l);
    assert BeforeSeparator(l) == l[..c];
    if c == |l| {
      assert BeforeSeparator(l) == l && TrimSpace(l) == r;
      forall i | 0 <= i < |r| ensures !SeparatorAt(r, i) { SeparatorSurvivesTrim(l, i); }
      CutUnique(r, |r|);
      assert r[..|r|] == r;
      TrimSpaceIdempotent(l);
    } else {
      SeparatorSurvivesTrim(l, c);
      forall i | 0 <= i < c ensures !SeparatorAt(r, i) { SeparatorSurvivesTrim(l, i); }
      CutUnique(r, c);
      assert r[..c] == l[..c];
    }
  }

  /** Everything from a separator on is ignored: the document that is hashed and the one that is
      applied do not depend on what follows. */
  lemma LaterDocumentsIgnored(d: string, more: string)
    requires TrimSpace(d) != ""
    ensures FirstDocument(d + ("\n---" + more)) == FirstDocument(d)
  {
    var l := TrimLeft(d);
    var _ := TrimLeftFacts(d);
    TrimRightFacts(l);
    TrimLeftAppend(d, SEPARATOR + more);
    var whole := l + SEPARATOR;
    assert l + (SEPARATOR + more) == whole + more;
    assert whole[|whole| - 1] == '-';
    TrimRightAppend(whole, more);
    assert TrimSpace(d + (SEPARATOR + more)) == whole + TrimRight(more);
    CutAtSeparator(l, TrimRight(more));
    TrimLeftVisible(l);
    CutBeforeTrim(l);
  }

  lemma TrimLeftVisible(l: string)
    requires l == "" || !IsSpace(l[0])
    ensures TrimLeft(l) == l
  {
  }

  /** The separator behind `l` is the first one unless `l` has an earlier one. */
  lemma CutAtSeparator(l: string, m: string)
    ensures BeforeSeparator(l + SEPARATOR + m) == BeforeSeparator(l)
  {
    var s := l + SEPARATOR + m;
    BeforeSeparatorFacts(l);
    var c := |BeforeSeparator(l)|;
    assert s[|l|] == '\n' && s[|l| + 1] == '-' && s[|l| + 2] == '-' && s[|l| + 3] == '-';
    forall i | 0 <= i < c ensures !SeparatorAt(s, i) {
      var k := |l| - i;
      assert i + k == |l|;
      assert !SeparatorAt(l, i);
      if k == 1 { assert s[i + 1] == '\n'; }
      else if k == 2 { assert s[i + 2] == '\n'; }
      else if k == 3 { assert s[i + 3] == '\n'; }
    }
    if c < |l| { assert SeparatorAt(l, c); }
    assert SeparatorAt(s, c);
    CutUnique(s, c);
    assert s[..c] == l[..c];
  }

  /** Trimmed, the text holds no separator. */
  predicate SingleDocument(src: string) {
    forall i :: 0 <= i < |TrimSpace(src)| ==> !SeparatorAt(TrimSpace(src), i)
  }

  /** Of a single document only the blanks at its ends are cut off. */
  lemma FirstOfSingle(src: string)
    requires SingleDocument(src)
    ensures FirstDocument(src) == TrimSpace(src)
  {
    var s := TrimSpace(src);
    CutUnique(s, |s|);
    assert s[..|s|] == s;
    TrimSpaceIdempotent(src);
  }
}
