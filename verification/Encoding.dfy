/** A library that meets all assumptions made of the real ones: a prefix code for JSON values serves as
    document format and as digest. */
module Encoding {
  import opened Wrappers
  import opened Text
  import Documents
  import opened Normalize
  import Apply

  /** A string, marked character by character and closed. */
  function Quote(s: string): (r: string)
    ensures r != "" && (r[0] == 'x' || r[0] == '.')
  {
    if s == "" then ['.'] else ['x', s[0]] + Quote(s[1..])
  }

  ghost function Encode(j: Json): (r: string)
    ensures r != ""
    decreases j, 1, 0
  {
    match j
    case Null => ['n']
    case Bool(b) => if b then ['t'] else ['f']
    case Number(text) => ['#'] + Quote(text)
    case Str(s) => ['s'] + Quote(s)
    case Arr(_) => ['['] + EncodeItems(j, 0)
    case Obj(fields) => ['{'] + EncodeFields(j, KeysOf(fields))
  }

  ghost function EncodeItems(j: Json, i: nat): string
    requires j.Arr? && i <= |j.items|
    decreases j, 0, |j.items| - i
  {
    if i == |j.items| then [']'] else [','] + (Encode(j.items[i]) + EncodeItems(j, i + 1))
  }

  ghost function EncodeFields(j: Json, keys: seq<string>): (r: string)
    requires j.Obj? && forall k :: k in keys ==> k in j.fields
    ensures r != "" && r[|r| - 1] == '}'
    decreases j, 0, |keys|
  {
    if keys == [] then ['}']
    else [','] + (Quote(keys[0]) + (Encode(j.fields[keys[0]]) + EncodeFields(j, keys[1..])))
  }

  /** The keys in order. */
  ghost function KeysOf(f: Fields): (keys: seq<string>)
    ensures Lists(keys, f.Keys)
  {
    SortedListExists(f.Keys);
    var keys: seq<string> :| Lists(keys, f.Keys);
    keys
  }

  lemma SortedListExists(s: set<string>)
    ensures exists keys: seq<string> :: Lists(keys, s)
  {
    var l := Enumerate(s);
    SortFacts(l);
    assert Lists(SortStrings(l), s);
  }

  // ---------- the code can be read back ----------

  lemma {:induction false} QuoteUnique(a: string, b: string, x: string, y: string)
    requires Quote(a) + x == Quote(b) + y
    ensures a == b && x == y
  {
    var s := Quote(a) + x;
    assert s[0] == Quote(a)[0] == Quote(b)[0];
    if a == "" {
      assert s[1..] == x && s[1..] == y;
    } else {
      assert s[1] == a[0] == b[0];
      assert s[2..] == Quote(a[1..]) + x && s[2..] == Quote(b[1..]) + y;
      QuoteUnique(a[1..], b[1..], x, y);
      assert a == [a[0]] + a[1..] && b == [b[0]] + b[1..];
    }
  }

  lemma TailEqual(c: char, a: string, x: string, b: string, y: string)
    requires ([c] + a) + x == ([c] + b) + y
    ensures a + x == b + y
  {
    assert (([c] + a) + x)[1..] == a + x;
    assert (([c] + b) + y)[1..] == b + y;
  }

  lemma Regrouped(a: string, b: string, x: string)
    ensures (a + b) + x == a + (b + x)
  {
  }

  lemma {:induction false} EncodeUnique(a: Json, b: Json, x: string, y: string)
    requires Encode(a) + x == Encode(b) + y
    ensures a == b && x == y
    decreases a, 1, 0
  {
    var s := Encode(a) + x;
    assert s[0] == Encode(a)[0] == Encode(b)[0];
    match a
    case Null => assert s[1..] == x && s[1..] == y;
    case Bool(_) => assert s[1..] == x && s[1..] == y;
    case Number(text) =>
      TailEqual('#', Quote(text), x, Quote(b.text), y);
      QuoteUnique(text, b.text, x, y);
    case Str(t) =>
      TailEqual('s', Quote(t), x, Quote(b.s), y);
      QuoteUnique(t, b.s, x, y);
    case Arr(items) =>
      TailEqual('[', EncodeItems(a, 0), x, EncodeItems(b, 0), y);
      ItemsUnique(a, 0, b, 0, x, y);
    case Obj(fields) =>
      TailEqual('{', EncodeFields(a, KeysOf(fields)), x, EncodeFields(b, KeysOf(b.fields)), y);
      FieldsUnique(a, KeysOf(fields), b, KeysOf(b.fields), x, y);
      SameKeys(fields, b.fields);
  }

  lemma SameKeys(f: Fields, g: Fields)
    requires KeysOf(f) == KeysOf(g) && forall k :: k in KeysOf(f) ==> k in f && k in g && f[k] == g[k]
    ensures f == g
  {
    assert forall k :: k in f.Keys <==> k in KeysOf(f);
    assert forall k :: k in g.Keys <==> k in KeysOf(g);
    assert f.Keys == g.Keys;
  }

  lemma {:induction false} ItemsUnique(a: Json, i: nat, b: Json, k: nat, x: string, y: string)
    requires a.Arr? && b.Arr? && i <= |a.items| && k <= |b.items|
    requires EncodeItems(a, i) + x == EncodeItems(b, k) + y
    ensures a.items[i..] == b.items[k..] && x == y
    decreases a, 0, |a.items| - i
  {
    var s := EncodeItems(a, i) + x;
    assert s[0] == EncodeItems(a, i)[0] == EncodeItems(b, k)[0];
    if i == |a.items| {
      assert s[1..] == x && s[1..] == y;
    } else {
      var ei, ri, ek, rk := Encode(a.items[i]), EncodeItems(a, i + 1), Encode(b.items[k]), EncodeItems(b, k + 1);
      TailEqual(',', ei + ri, x, ek + rk, y);
      Regrouped(ei, ri, x);
      Regrouped(ek, rk, y);
      EncodeUnique(a.items[i], b.items[k], ri + x, rk + y);
      ItemsUnique(a, i + 1, b, k + 1, x, y);
      assert a.items[i..] == [a.items[i]] + a.items[i + 1..];
      assert b.items[k..] == [b.items[k]] + b.items[k + 1..];
    }
  }

  lemma {:induction false} FieldsUnique(a: Json, ks: seq<string>, b: Json, ls: seq<string>, x: string, y: string)
    requires a.Obj? && b.Obj? && (forall k :: k in ks ==> k in a.fields) && (forall k :: k in ls ==> k in b.fields)
    requires EncodeFields(a, ks) + x == EncodeFields(b, ls) + y
    ensures ks == ls && x == y && forall k :: k in ks ==> a.fields[k] == b.fields[k]
    decreases a, 0, |ks|
  {
    var s := EncodeFields(a, ks) + x;
    assert s[0] == EncodeFields(a, ks)[0] == EncodeFields(b, ls)[0];
    if ks == [] {
      assert s[1..] == x && s[1..] == y;
    } else {
      var k, l := ks[0], ls[0];
      var ek, rk := Encode(a.fields[k]), EncodeFields(a, ks[1..]);
      var el, rl := Encode(b.fields[l]), EncodeFields(b, ls[1..]);
      TailEqual(',', Quote(k) + (ek + rk), x, Quote(l) + (el + rl), y);
      Regrouped(Quote(k), ek + rk, x);
      Regrouped(Quote(l), el + rl, y);
      QuoteUnique(k, l, (ek + rk) + x, (el + rl) + y);
      Regrouped(ek, rk, x);
      Regrouped(el, rl, y);
      EncodeUnique(a.fields[k], b.fields[l], rk + x, rl + y);
      FieldsUnique(a, ks[1..], b, ls[1..], x, y);
      assert ks == [k] + ks[1..] && ls == [l] + ls[1..];
    }
  }

  lemma EncodeInjective(a: Json, b: Json)
    requires Encode(a) == Encode(b)
    ensures a == b
  {
    assert Encode(a) + "" == Encode(b) + "";
    EncodeUnique(a, b, "", "");
  }

  // ---------- no separator, no blank ends ----------

  /** After a newline there is always something, and no dash. */
  predicate Unbroken(s: string) {
    forall i :: 0 <= i < |s| && s[i] == '\n' ==> i + 1 < |s| && s[i + 1] != '-'
  }

  lemma UnbrokenJoin(a: string, b: string)
    requires Unbroken(a) && Unbroken(b)
    ensures Unbroken(a + b)
  {
    forall i | 0 <= i < |a + b| && (a + b)[i] == '\n' ensures i + 1 < |a + b| && (a + b)[i + 1] != '-' {
      if i < |a| {
        assert a[i] == '\n';
      } else {
        assert b[i - |a|] == '\n';
      }
    }
  }

  lemma {:induction false} QuoteUnbroken(s: string)
    ensures Unbroken(Quote(s))
  {
    if s != "" {
      var rest := Quote(s[1..]);
      QuoteUnbroken(s[1..]);
      forall i | 0 <= i < |Quote(s)| && Quote(s)[i] == '\n' ensures i + 1 < |Quote(s)| && Quote(s)[i + 1] != '-' {
        if i >= 2 { assert rest[i - 2] == '\n'; }
      }
    }
  }

  lemma {:induction false} EncodeUnbroken(j: Json)
    ensures Unbroken(Encode(j))
    decreases j, 1, 0
  {
    match j
    case Null =>
    case Bool(_) =>
    case Number(text) =>
      QuoteUnbroken(text);
      UnbrokenJoin(['#'], Quote(text));
    case Str(s) =>
      QuoteUnbroken(s);
      UnbrokenJoin(['s'], Quote(s));
    case Arr(_) =>
      ItemsUnbroken(j, 0);
      UnbrokenJoin(['['], EncodeItems(j, 0));
    case Obj(fields) =>
      FieldsUnbroken(j, KeysOf(fields));
      UnbrokenJoin(['{'], EncodeFields(j, KeysOf(fields)));
  }

  lemma {:induction false} ItemsUnbroken(j: Json, i: nat)
    requires j.Arr? && i <= |j.items|
    ensures Unbroken(EncodeItems(j, i))
    decreases j, 0, |j.items| - i
  {
    if i < |j.items| {
      EncodeUnbroken(j.items[i]);
      ItemsUnbroken(j, i + 1);
      UnbrokenJoin(Encode(j.items[i]), EncodeItems(j, i + 1));
      UnbrokenJoin([','], Encode(j.items[i]) + EncodeItems(j, i + 1));
    }
  }

  lemma {:induction false} FieldsUnbroken(j: Json, keys: seq<string>)
    requires j.Obj? && forall k :: k in keys ==> k in j.fields
    ensures Unbroken(EncodeFields(j, keys))
    decreases j, 0, |keys|
  {
    if keys != [] {
      var q, e, r := Quote(keys[0]), Encode(j.fields[keys[0]]), EncodeFields(j, keys[1..]);
      QuoteUnbroken(keys[0]);
      EncodeUnbroken(j.fields[keys[0]]);
      FieldsUnbroken(j, keys[1..]);
      UnbrokenJoin(e, r);
      UnbrokenJoin(q, e + r);
      UnbrokenJoin([','], q + (e + r));
    }
  }

  lemma EncodedMap(f: Fields)
    ensures TrimSpace(Encode(Obj(f))) == Encode(Obj(f)) && Documents.SingleDocument(Encode(Obj(f)))
  {
    var s := Encode(Obj(f));
    var r := EncodeFields(Obj(f), KeysOf(f));
    assert s == ['{'] + r && s[0] == '{' && s[|s| - 1] == r[|r| - 1] == '}';
    TrimSpaceVisible(s);
    EncodeUnbroken(Obj(f));
  }

  // ---------- the library ----------

  ghost function Decoded(s: string): Option<Json> {
    if exists j :: Encode(j) == s then
      var j :| Encode(j) == s;
      Some(j)
    else None
  }

  ghost function Coded(): Library {
    Library(s => Decoded(s), j => Encode(j), j => Encode(j))
  }

  lemma DecodedEncode(j: Json)
    ensures Decoded(Encode(j)) == Some(j)
  {
    EncodeInjective(Decoded(Encode(j)).value, j);
  }

  /** The assumptions can all be met at once. */
  lemma AssumptionsHold()
    ensures CollisionFree(Coded()) && Apply.Dependable(Coded())
  {
    var lib := Coded();
    forall a, b | lib.sha(a) == lib.sha(b) ensures a == b {
      EncodeInjective(a, b);
    }
    forall f: Fields ensures lib.toJson(lib.toYaml(Obj(f))) == Some(Obj(f)) && Documents.SingleDocument(lib.toYaml(Obj(f))) {
      DecodedEncode(Obj(f));
      EncodedMap(f);
    }
    forall f: Fields | "spec" in f && f.Keys <= Apply.TOP_LEVEL
      ensures exists g: Fields :: lib.toJson(TrimSpace(lib.toYaml(Obj(f)))) == Some(Obj(g)) && Apply.Clipped(f, g)
    {
      DecodedEncode(Obj(f));
      EncodedMap(f);
      assert lib.toJson(TrimSpace(lib.toYaml(Obj(f)))) == Some(Obj(f)) && Apply.Clipped(f, f);
    }
  }

  // ---------- a library with an export that trimming changes ----------

  /** As before, but the one map `f` is written with a newline at its end, and without it reads as `g`: so does
      YAML with a spec that ends in a newline. */
  ghost function Trimmed(f: Fields, g: Fields): Library {
    Library(
      s => if s == Encode(Obj(f)) + "\n" then Some(Obj(f)) else if s == Encode(Obj(f)) then Some(Obj(g)) else Decoded(s),
      j => if j == Obj(f) then Encode(j) + "\n" else Encode(j),
      j => Encode(j))
  }

  lemma TrimmedText(f: Fields)
    ensures TrimSpace(Encode(Obj(f)) + "\n") == Encode(Obj(f)) && Documents.SingleDocument(Encode(Obj(f)) + "\n")
  {
    var s := Encode(Obj(f));
    EncodedMap(f);
    var r := EncodeFields(Obj(f), KeysOf(f));
    assert s == ['{'] + r && s[|s| - 1] == r[|r| - 1] == '}';
    var text := s + "\n";
    assert text[0] == '{' && TrimLeft(text) == text;
    TrimRightAppend(s, "\n");
    assert "\n"[..0] == "";
    assert TrimRight("\n") == "";
    assert s + "" == s;
  }

  lemma NoEncodeEndsBlank(f: Fields, g: Fields)
    ensures Encode(Obj(f)) != Encode(Obj(g)) + "\n"
  {
    var s, r := Encode(Obj(f)), EncodeFields(Obj(f), KeysOf(f));
    assert s[|s| - 1] == r[|r| - 1] == '}';
  }

  lemma TrimmedLossless(f: Fields, g: Fields, h: Fields)
    ensures var lib := Trimmed(f, g);
            && lib.toJson(lib.toYaml(Obj(h))) == Some(Obj(h)) && Documents.SingleDocument(lib.toYaml(Obj(h)))
            && lib.toJson(TrimSpace(lib.toYaml(Obj(h)))) == Some(Obj(if h == f then g else h))
  {
    EncodedMap(h);
    TrimmedText(h);
    NoEncodeEndsBlank(h, f);
    NoEncodeEndsBlank(f, f);
    if h != f {
      if Encode(Obj(h)) == Encode(Obj(f)) { EncodeInjective(Obj(h), Obj(f)); }
      DecodedEncode(Obj(h));
    }
  }

  /** The assumptions leave room for an export that trimming changes: any map with a string as its spec may
      lose the newline at the end. */
  lemma AssumptionsAllowTrimming(f: Fields)
    requires "spec" in f && f["spec"] == Str("a\n")
    ensures var lib := Trimmed(f, f["spec" := Str("a")]);
            && CollisionFree(lib) && Apply.Dependable(lib)
            && lib.toJson(TrimSpace(lib.toYaml(Obj(f)))) != lib.toJson(lib.toYaml(Obj(f)))
  {
    var g := f["spec" := Str("a")];
    var lib := Trimmed(f, g);
    forall a, b | lib.sha(a) == lib.sha(b) ensures a == b {
      EncodeInjective(a, b);
    }
    forall h: Fields ensures lib.toJson(lib.toYaml(Obj(h))) == Some(Obj(h)) && Documents.SingleDocument(lib.toYaml(Obj(h))) {
      TrimmedLossless(f, g, h);
    }
    SameLeaf(f, "spec", Str("a"));
    forall h: Fields | "spec" in h && h.Keys <= Apply.TOP_LEVEL
      ensures exists k: Fields :: lib.toJson(TrimSpace(lib.toYaml(Obj(h)))) == Some(Obj(k)) && Apply.Clipped(h, k)
    {
      TrimmedLossless(f, g, h);
      var k := if h == f then g else h;
      assert lib.toJson(TrimSpace(lib.toYaml(Obj(h)))) == Some(Obj(k)) && Apply.Clipped(h, k);
    }
    TrimmedLossless(f, g, f);
    assert f["spec"] != g["spec"];
  }

  lemma SameLeaf(f: Fields, key: string, leaf: Json)
    requires key in f && !f[key].Obj? && !leaf.Obj?
    ensures Positions(Obj(f)) == Positions(Obj(f[key := leaf]))
  {
    var g := f[key := leaf];
    forall q ensures q in Positions(Obj(f)) <==> q in Positions(Obj(g)) {
      if q in Positions(Obj(f)) && q != [] {
        var k, p :| k in f && p in Positions(f[k]) && [k] + p == q;
        assert p in Positions(g[k]);
      }
      if q in Positions(Obj(g)) && q != [] {
        var k, p :| k in g && p in Positions(g[k]) && [k] + p == q;
        assert p in Positions(f[k]);
      }
    }
  }
}
