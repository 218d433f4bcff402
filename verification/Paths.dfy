/** Inventory paths: how an object's identity becomes a file path and a cache key
    (internal/inventory), how a path in a push becomes an identity again (internal/sync),
    and where soft-deleted files go (internal/git). */
module Paths {
  import opened Wrappers
  import opened Text

  /** The identity that an inventory path declares. The plural decides the kind. */
  datatype Target = Target(plural: string, namespace: string, name: string)

  const INVENTORY_PREFIX := "inventory/"
  const ARCHIVE_PREFIX := "inventory/archive/"

  // ---------- internal/inventory ----------

  function LowerChar(c: char): char {
    if 'A' <= c <= 'Z' then ((c as int) + 32) as char else c
  }

  function ToLower(s: string): string {
    if s == "" then "" else [LowerChar(s[0])] + ToLower(s[1..])
  }

  function ArgoPluralKind(kind: string): string {
    if kind == "Application" then "applications"
    else if kind == "ApplicationSet" then "applicationsets"
    else ToLower(kind) + "s"
  }

  /** RenderExportPath for the default template. */
  function RenderExportPath(kind: string, namespace: string, name: string): string {
    INVENTORY_PREFIX + ArgoPluralKind(kind) + "/" + namespace + "/" + name + ".yaml"
  }

  function ExportObjectCacheKey(kind: string, namespace: string, name: string): string {
    ArgoPluralKind(kind) + "/" + namespace + "/" + name
  }

  // ---------- internal/sync ----------

  function ArgoKindFromPlural(plural: string): Option<string> {
    if plural == "applications" then Some("Application")
    else if plural == "applicationsets" then Some("ApplicationSet")
    else None
  }

  function ParseInventoryExportPath(gitPath: string): Option<Target> {
    ParseSeen(Seen(gitPath))
  }

  /** The path with surrounding blanks, detours and the leading slash removed. */
  function Seen(gitPath: string): string {
    TrimPrefix(Clean(TrimSpace(gitPath)), "/")
  }

  function ParseSeen(p: string): Option<Target> {
    if HasPrefix(p, INVENTORY_PREFIX) then ParseParts(Split(TrimPrefix(p, INVENTORY_PREFIX))) else None
  }

  function ParseParts(parts: seq<string>): Option<Target> {
    if |parts| != 3 then None
    else
      var plural, ns, file := parts[0], parts[1], parts[2];
      if plural != "applications" && plural != "applicationsets" then None
      else if !HasSuffix(file, ".yaml") && !HasSuffix(file, ".yml") then None
      else
        var name := TrimSuffix(TrimSuffix(file, ".yaml"), ".yml");
        if ns == "" || name == "" || name == "." || ns == "." then None
        else Some(Target(plural, ns, name))
  }

  // ---------- internal/git ----------

  function ArchiveRelativePath(inventoryRel: string): Option<string> {
    if !HasPrefix(inventoryRel, INVENTORY_PREFIX) then None
    else Some(ARCHIVE_PREFIX + TrimPrefix(inventoryRel, INVENTORY_PREFIX))
  }

  /** path.Base: the last element, ignoring trailing slashes. */
  function TrimTrailingSlashes(p: string): string {
    if p != "" && p[|p| - 1] == '/' then TrimTrailingSlashes(p[..|p| - 1]) else p
  }

  function Base(p: string): string {
    if p == "" then "."
    else
      var q := TrimTrailingSlashes(p);
      if q == "" then "/" else var parts := Split(q); parts[|parts| - 1]
  }

  function ResourceNameFromInventoryPath(inventoryRel: string): string {
    TrimSuffix(Base(inventoryRel), ".yaml")
  }

  /** Archived files go below inventory/archive; other paths are refused. */
  lemma ArchivedName(rest: string)
    ensures ArchiveRelativePath("inventory/" + rest) == Some("inventory/archive/" + rest)
    ensures forall p :: ArchiveRelativePath(p) == None <==> !HasPrefix(p, "inventory/")
  {
    TrimPrefixAppend(INVENTORY_PREFIX, rest);
    assert "inventory/" == INVENTORY_PREFIX && "inventory/archive/" == ARCHIVE_PREFIX;
  }

  /** Kinds and plurals name each other. */
  lemma PluralsInverse(kind: string, plural: string)
    ensures ArgoKindFromPlural(plural) == Some(kind) <==>
            (plural == "applications" && kind == "Application") || (plural == "applicationsets" && kind == "ApplicationSet")
    ensures ArgoKindFromPlural(plural) == Some(kind) ==> ArgoPluralKind(kind) == plural
  {
  }

  // ---------- identities ----------

  /** Lower-case letters and digits, with '-' and '.' inside: every name that section 2.1 of
      RFC 1123 and Kubernetes allow for an object or a namespace has this form. */
  predicate DnsName(s: string) {
    && s != ""
    && (forall i :: 0 <= i < |s| ==> DnsChar(s[i]))
    && AlphaNum(s[0]) && AlphaNum(s[|s| - 1])
  }

  predicate AlphaNum(c: char) { 'a' <= c <= 'z' || '0' <= c <= '9' }

  predicate DnsChar(c: char) { AlphaNum(c) || c == '-' || c == '.' }

  predicate ArgoPlural(plural: string) {
    plural == "applications" || plural == "applicationsets"
  }

  /** An Application or ApplicationSet as Kubernetes can hold it. */
  predicate Named(t: Target) {
    ArgoPlural(t.plural) && DnsName(t.namespace) && DnsName(t.name)
  }

  /** Kubernetes identities that survive the path round trip; see `RoundTrip`. */
  predicate Valid(t: Target) {
    Named(t) && !HasSuffix(t.name, ".yml")
  }

  function KindOf(t: Target): string {
    if t.plural == "applications" then "Application" else "ApplicationSet"
  }

  function PathOf(t: Target): string {
    RenderExportPath(KindOf(t), t.namespace, t.name)
  }

  function CacheKeyOf(t: Target): string {
    ExportObjectCacheKey(KindOf(t), t.namespace, t.name)
  }

  /** Where the archived copy of the target's file goes. */
  function ArchiveOf(t: Target): string {
    ARCHIVE_PREFIX + TrimPrefix(PathOf(t), INVENTORY_PREFIX)
  }

  // ---------- the shape of rendered paths ----------

  lemma DnsNameFacts(s: string)
    requires DnsName(s)
    ensures '/' !in s && PlainElement(s)
  {
    assert forall i :: 0 <= i < |s| ==> DnsChar(s[i]);
    assert AlphaNum(s[0]) && AlphaNum(s[|s| - 1]);
  }

  /** The part of the path after "inventory/". */
  function Relative(t: Target): string {
    t.plural + "/" + t.namespace + "/" + (t.name + ".yaml")
  }

  lemma PathIsRelative(t: Target)
    requires Named(t)
    ensures PathOf(t) == INVENTORY_PREFIX + Relative(t)
    ensures PathOf(t) == INVENTORY_PREFIX + CacheKeyOf(t) + ".yaml"
    ensures ArchiveOf(t) == ARCHIVE_PREFIX + Relative(t)
  {
    Regroup(INVENTORY_PREFIX, t.plural, t.namespace, t.name, ".yaml");
    TrimPrefixAppend(INVENTORY_PREFIX, Relative(t));
  }

  lemma Regroup(root: string, a: string, b: string, name: string, ext: string)
    ensures root + a + "/" + b + "/" + name + ext == root + (a + "/" + b + "/" + (name + ext))
    ensures root + a + "/" + b + "/" + name + ext == root + (a + "/" + b + "/" + name) + ext
  {
  }

  lemma PathElements(t: Target)
    requires Named(t)
    ensures Split(Relative(t)) == [t.plural, t.namespace, t.name + ".yaml"]
    ensures Split(PathOf(t)) == ["inventory", t.plural, t.namespace, t.name + ".yaml"]
  {
    DnsNameFacts(t.namespace);
    DnsNameFacts(t.name);
    PathIsRelative(t);
    SplitThree(t.plural, t.namespace, t.name + ".yaml");
    SplitFour("inventory", t.plural, t.namespace, t.name + ".yaml");
    assert INVENTORY_PREFIX == "inventory" + "/";
  }

  /** A four-element path of plain elements parses by its last three elements. */
  lemma ParseFour(a: string, b: string, c: string)
    requires '/' !in a && '/' !in b && '/' !in c
    requires PlainElement(a) && PlainElement(b) && PlainElement(c)
    requires !IsSpace(c[|c| - 1])
    ensures ParseInventoryExportPath(INVENTORY_PREFIX + (a + "/" + b + "/" + c)) == ParseParts([a, b, c])
  {
    var rest := a + "/" + b + "/" + c;
    var p := INVENTORY_PREFIX + rest;
    assert p == "inventory" + "/" + rest by { assert INVENTORY_PREFIX == "inventory" + "/"; }
    assert '/' !in "inventory";
    SplitFour("inventory", a, b, c);
    assert p[0] == 'i';
    assert rest[|rest| - 1] == c[|c| - 1];
    assert p[|p| - 1] == c[|c| - 1];
    TrimSpaceVisible(p);
    CleanPlain(p);
    assert !HasPrefix(p, "/");
    TrimPrefixAppend(INVENTORY_PREFIX, rest);
    SplitThree(a, b, c);
  }

  lemma ParsePartsYaml(plural: string, ns: string, name: string)
    requires ArgoPlural(plural) && DnsName(ns) && DnsName(name)
    ensures ParseParts([plural, ns, name + ".yaml"]) == Some(Target(plural, ns, TrimSuffix(name, ".yml")))
  {
    DnsNameFacts(ns);
    DnsNameFacts(name);
    TrimSuffixAppend(name, ".yaml");
    var stem := TrimSuffix(name, ".yml");
    if HasSuffix(name, ".yml") {
      assert name[|name| - 4] == '.';
      assert stem[..] == name[..|name| - 4];
    }
    assert stem != "" && stem[0] == name[0];
  }

  lemma ParsePartsYml(plural: string, ns: string, name: string)
    requires ArgoPlural(plural) && DnsName(ns) && DnsName(name)
    ensures ParseParts([plural, ns, name + ".yml"]) == Some(Target(plural, ns, name))
  {
    DnsNameFacts(ns);
    DnsNameFacts(name);
    var file := name + ".yml";
    TrimSuffixAppend(name, ".yml");
    assert file[|file| - 4] == '.';
    if |file| >= 5 {
      var tail := file[|file| - 5..];
      assert tail[1] == '.' && ".yaml"[1] == 'y';
    }
  }

  /** What parsing gives on the path of any Kubernetes identity. */
  lemma ParseRendered(t: Target)
    requires Named(t)
    ensures ParseInventoryExportPath(PathOf(t)) == Some(t.(name := TrimSuffix(t.name, ".yml")))
  {
    PathIsRelative(t);
    DnsNameFacts(t.namespace);
    DnsNameFacts(t.name);
    var file := t.name + ".yaml";
    assert file[|file| - 1] == 'l' && |file| > 4;
    assert '/' !in t.plural && PlainElement(t.plural);
    ParseFour(t.plural, t.namespace, file);
    ParsePartsYaml(t.plural, t.namespace, t.name);
  }

  /** Path round trip: the sync side reads back exactly the identity that the inventory side
      rendered if, and only if, the name does not end in ".yml". */
  lemma RoundTrip(t: Target)
    requires Named(t)
    ensures ParseInventoryExportPath(PathOf(t)) == Some(t) <==> !HasSuffix(t.name, ".yml")
  {
    ParseRendered(t);
    if HasSuffix(t.name, ".yml") {
      assert |TrimSuffix(t.name, ".yml")| < |t.name|;
    }
  }

  /** The target's file under another extension. */
  function Sibling(t: Target, ext: string): string {
    INVENTORY_PREFIX + (t.plural + "/" + t.namespace + "/" + (t.name + ext))
  }

  lemma ParseYml(t: Target)
    requires Named(t)
    ensures ParseInventoryExportPath(Sibling(t, ".yml")) == Some(t)
  {
    DnsNameFacts(t.namespace);
    DnsNameFacts(t.name);
    var file := t.name + ".yml";
    assert file[|file| - 1] == 'l' && |file| > 3;
    assert '/' !in t.plural && PlainElement(t.plural);
    ParseFour(t.plural, t.namespace, file);
    ParsePartsYml(t.plural, t.namespace, t.name);
  }

  /** The ".yml" extension aliases: a second file speaks for the same object. */
  lemma YmlAlias(t: Target)
    requires Valid(t)
    ensures Sibling(t, ".yml") != PathOf(t)
    ensures ParseInventoryExportPath(Sibling(t, ".yml")) == ParseInventoryExportPath(PathOf(t)) == Some(t)
  {
    RoundTrip(t);
    ParseYml(t);
    PathIsRelative(t);
    LengthsDiffer(INVENTORY_PREFIX, t.plural + "/" + t.namespace + "/", t.name + ".yml", t.name + ".yaml");
  }

  lemma SuffixBack(s: string, ext: string)
    requires HasSuffix(s, ext)
    ensures s == TrimSuffix(s, ext) + ext
  {
  }

  /** The file names that trimming both extensions reduces to the name. */
  lemma FileOfName(file: string, name: string, long: string, short: string)
    requires HasSuffix(file, long) || HasSuffix(file, short)
    requires name == TrimSuffix(TrimSuffix(file, long), short)
    ensures file == name + long || file == name + short || file == name + (short + long)
  {
    var stem := TrimSuffix(file, long);
    if HasSuffix(file, long) {
      SuffixBack(file, long);
      if HasSuffix(stem, short) {
        SuffixBack(stem, short);
        assert name + short + long == name + (short + long);
      }
    } else {
      SuffixBack(file, short);
    }
  }

  lemma SiblingParses(t: Target, ext: string)
    requires ArgoPlural(t.plural) && '/' !in t.namespace && '/' !in t.name && '/' !in ext
    ensures HasPrefix(Sibling(t, ext), INVENTORY_PREFIX)
    ensures Split(TrimPrefix(Sibling(t, ext), INVENTORY_PREFIX)) == [t.plural, t.namespace, t.name + ext]
  {
    TrimPrefixAppend(INVENTORY_PREFIX, t.plural + "/" + t.namespace + "/" + (t.name + ext));
    SplitThree(t.plural, t.namespace, t.name + ext);
  }

  lemma JoinThree(a: string, b: string, c: string)
    ensures Join([a, b, c]) == a + "/" + b + "/" + c
  {
    JoinCons(b, [c]);
    JoinCons(a, [b, c]);
    assert [b] + [c] == [b, c] && [a] + [b, c] == [a, b, c];
    assert Join([c]) == c;
    assert a + "/" + (b + "/" + c) == a + "/" + b + "/" + c;
  }

  /** The parts of a path that parses. */
  lemma ParsedParts(gitPath: string, t: Target) returns (file: string)
    requires ParseInventoryExportPath(gitPath) == Some(t)
    ensures Seen(gitPath) == INVENTORY_PREFIX + (t.plural + "/" + t.namespace + "/" + file)
    ensures Split(TrimPrefix(Seen(gitPath), INVENTORY_PREFIX)) == [t.plural, t.namespace, file]
    ensures HasSuffix(file, ".yaml") || HasSuffix(file, ".yml")
    ensures t.name == TrimSuffix(TrimSuffix(file, ".yaml"), ".yml")
  {
    var p := Seen(gitPath);
    var rest := TrimPrefix(p, INVENTORY_PREFIX);
    assert p == INVENTORY_PREFIX + rest;
    var parts := Split(rest);
    JoinSplit(rest);
    assert parts == [parts[0], parts[1], parts[2]];
    JoinThree(parts[0], parts[1], parts[2]);
    file := parts[2];
  }

  /** An identity that some path can declare. */
  predicate Declarable(t: Target) {
    && ArgoPlural(t.plural) && '/' !in t.namespace && '/' !in t.name
    && t.namespace !in {"", "."} && t.name !in {"", "."}
  }

  /** The files whose name, trimmed, is the target's. */
  predicate SpeaksFor(p: string, t: Target) {
    || (p == Sibling(t, ".yaml") && !HasSuffix(t.name, ".yml"))
    || p == Sibling(t, ".yml")
    || p == Sibling(t, ".yml" + ".yaml")
  }

  lemma ParsedIsDeclarable(gitPath: string, t: Target)
    requires ParseInventoryExportPath(gitPath) == Some(t)
    ensures Declarable(t)
  {
    var file := ParsedParts(gitPath, t);
    SplitParts(TrimPrefix(Seen(gitPath), INVENTORY_PREFIX));
    var parts := [t.plural, t.namespace, file];
    assert '/' !in parts[1] && '/' !in parts[2];
    assert forall c :: c in t.name ==> c in file;
  }

  lemma ParsedSpeaks(gitPath: string, t: Target)
    requires ParseInventoryExportPath(gitPath) == Some(t)
    ensures SpeaksFor(Seen(gitPath), t)
  {
    var file := ParsedParts(gitPath, t);
    FileOfName(file, t.name, ".yaml", ".yml");
    if HasSuffix(t.name, ".yml") { TrimmedOnce(file, t.name, ".yaml", ".yml"); }
  }

  lemma TrimmedOnce(file: string, name: string, long: string, short: string)
    requires name == TrimSuffix(TrimSuffix(file, long), short) && HasSuffix(name, short) && short != ""
    ensures file != name + long
  {
    TrimSuffixAppend(name, long);
    SuffixBack(name, short);
  }

  lemma SpeakerParses(p: string, t: Target)
    requires Declarable(t) && SpeaksFor(p, t)
    ensures ParseSeen(p) == Some(t)
  {
    NoSlash();
    if p == Sibling(t, ".yaml") && !HasSuffix(t.name, ".yml") {
      SiblingParses(t, ".yaml");
      TrimSuffixAppend(t.name, ".yaml");
    } else if p == Sibling(t, ".yml") {
      SiblingParses(t, ".yml");
      ShortParses(t);
    } else {
      SiblingParses(t, ".yml" + ".yaml");
      assert t.name + (".yml" + ".yaml") == (t.name + ".yml") + ".yaml";
      TrimSuffixAppend(t.name + ".yml", ".yaml");
      TrimSuffixAppend(t.name, ".yml");
    }
  }

  lemma ShortParses(t: Target)
    ensures HasSuffix(t.name + ".yml", ".yml") && !HasSuffix(t.name + ".yml", ".yaml")
    ensures TrimSuffix(TrimSuffix(t.name + ".yml", ".yaml"), ".yml") == t.name
  {
    TrimSuffixAppend(t.name, ".yml");
    var file := t.name + ".yml";
    assert file[|file| - 4] == '.';
    if |file| >= 5 {
      var tail := file[|file| - 5..];
      assert tail[1] == '.' && ".yaml"[1] == 'y';
    }
  }

  /** What a path declares, for all paths: it speaks for an identity if, and only if, once cleaned, it is a file in
      the directory of the plural and the namespace, with the name and ".yaml", ".yml" or both; ".yaml" alone does
      not do for a name that ends in ".yml", and no part of the identity may be empty or ".". */
  lemma ParsedIff(gitPath: string, t: Target)
    ensures ParseInventoryExportPath(gitPath) == Some(t) <==> Declarable(t) && SpeaksFor(Seen(gitPath), t)
  {
    if ParseInventoryExportPath(gitPath) == Some(t) {
      ParsedIsDeclarable(gitPath, t);
      ParsedSpeaks(gitPath, t);
    } else if Declarable(t) && SpeaksFor(Seen(gitPath), t) {
      SpeakerParses(Seen(gitPath), t);
    }
  }

  /** Blanks around a path and a slash in front of it do not matter. */
  lemma SlashAndBlanks(t: Target, before: string, after: string)
    requires Valid(t) && Blank(before) && Blank(after)
    ensures ParseInventoryExportPath(before + PathOf(t) + after) == Some(t)
    ensures ParseInventoryExportPath(before + ("/" + PathOf(t)) + after) == Some(t)
  {
    PathVisible(t);
    RoundTrip(t);
    TargetElementsPlain(t);
    PathStart(t);
    SeenThrough(PathOf(t), before, after);
    TrimSpaceVisible(PathOf(t));
    CleanPlain(PathOf(t));
  }

  lemma PathStart(t: Target)
    requires Named(t)
    ensures !HasPrefix(PathOf(t), "/")
  {
    PathVisible(t);
  }

  lemma SeenThrough(p: string, before: string, after: string)
    requires Blank(before) && Blank(after) && p != "" && !IsSpace(p[0]) && !IsSpace(p[|p| - 1]) && !HasPrefix(p, "/")
    requires forall e :: e in Split(p) ==> PlainElement(e)
    ensures Seen(before + p + after) == p && Seen(before + ("/" + p) + after) == p
  {
    TrimExact(before, p, after);
    CleanPlain(p);
    SlashVisible(p);
    TrimExact(before, "/" + p, after);
    SeenRooted(p);
  }

  lemma SlashVisible(p: string)
    requires p != "" && !IsSpace(p[|p| - 1])
    ensures var q := "/" + p; !IsSpace(q[0]) && !IsSpace(q[|q| - 1])
  {
    var q := "/" + p;
    assert q[|q| - 1] == p[|p| - 1];
  }

  lemma SeenRooted(p: string)
    requires forall e :: e in Split(p) ==> PlainElement(e)
    ensures TrimPrefix(Clean("/" + p), "/") == p
  {
    CleanRooted(p);
    TrimPrefixAppend("/", p);
  }

  /** All paths that speak for a Kubernetes identity: once cleaned, the rendered path, the one with the short
      extension, and the one with both. */
  lemma PreimageIff(gitPath: string, t: Target)
    requires Valid(t)
    ensures ParseInventoryExportPath(gitPath) == Some(t)
            <==> Seen(gitPath) in {PathOf(t), Sibling(t, ".yml"), Sibling(t, ".yml.yaml")}
  {
    assert ".yml.yaml" == ".yml" + ".yaml";
    PathIsRelative(t);
    assert PathOf(t) == Sibling(t, ".yaml");
    DnsNameFacts(t.namespace);
    DnsNameFacts(t.name);
    ParsedIff(gitPath, t);
  }

  lemma NoSlash()
    ensures '/' !in ".yaml" && '/' !in ".yml" && '/' !in ".yml" + ".yaml"
  {
  }

  lemma LengthsDiffer(root: string, head: string, a: string, b: string)
    requires |a| != |b|
    ensures root + (head + a) != root + (head + b)
  {
    assert |root + (head + a)| != |root + (head + b)|;
  }

  /** Identities, cache keys and paths determine one another. */
  lemma RenderingInjective(a: Target, b: Target)
    requires Named(a) && Named(b)
    ensures PathOf(a) == PathOf(b) <==> a == b
    ensures CacheKeyOf(a) == CacheKeyOf(b) <==> PathOf(a) == PathOf(b)
  {
    PathIsRelative(a);
    PathIsRelative(b);
    if PathOf(a) == PathOf(b) {
      PathElements(a);
      PathElements(b);
      var p, q := Split(PathOf(a)), Split(PathOf(b));
      assert p[1] == q[1] && p[2] == q[2] && p[3] == q[3];
      TrimSuffixAppend(a.name, ".yaml");
      TrimSuffixAppend(b.name, ".yaml");
    }
    if CacheKeyOf(a) == CacheKeyOf(b) {
      assert PathOf(a) == PathOf(b);
    }
  }

  /** The archive commit names the object: the file stem of a rendered path is the object's name. */
  lemma ResourceNameOfRendered(t: Target)
    requires Named(t)
    ensures ResourceNameFromInventoryPath(PathOf(t)) == t.name
  {
    PathElements(t);
    PathVisible(t);
    assert TrimTrailingSlashes(PathOf(t)) == PathOf(t);
    TrimSuffixAppend(t.name, ".yaml");
  }

  // ---------- archive paths stay outside the sync domain ----------

  /** No archived file is ever read back as an inventory object, whatever the shape of the live
      path, as long as the path has no ".." element. */
  lemma ArchiveNeverParses(inventoryRel: string)
    requires HasPrefix(inventoryRel, INVENTORY_PREFIX)
    requires ".." !in Split(TrimRight(inventoryRel))
    ensures ParseInventoryExportPath(ArchiveRelativePath(inventoryRel).value) == None
  {
    var rest := TrimPrefix(inventoryRel, INVENTORY_PREFIX);
    var rest' := TrimRight(rest);
    assert inventoryRel == INVENTORY_PREFIX + rest;
    TrimRightAppend(INVENTORY_PREFIX, rest);
    SplitConcat("inventory", rest');
    assert INVENTORY_PREFIX + rest' == "inventory" + "/" + rest' by { assert INVENTORY_PREFIX == "inventory" + "/"; }
    assert ".." !in Split(rest');
    ArchivedTrim(rest);
    var p := ARCHIVE_PREFIX + rest';
    ArchivedClean(rest');
    ArchivedParse(Clean(p));
  }

  lemma ArchivedTrim(rest: string)
    ensures TrimSpace(ARCHIVE_PREFIX + rest) == ARCHIVE_PREFIX + TrimRight(rest)
  {
    var dest := ARCHIVE_PREFIX + rest;
    assert dest[0] == 'i';
    assert TrimLeft(dest) == dest;
    TrimRightAppend(ARCHIVE_PREFIX, rest);
  }

  lemma ArchivedClean(rest: string)
    requires ".." !in Split(rest)
    ensures exists tail :: Clean(ARCHIVE_PREFIX + rest) == Join(["inventory", "archive"] + tail)
  {
    RegroupPair("inventory", "archive", rest);
    assert ARCHIVE_PREFIX == "inventory" + "/" + "archive" + "/";
    CleanPair("inventory", "archive", rest);
  }

  lemma RegroupPair(a: string, b: string, rest: string)
    ensures (a + "/" + b + "/") + rest == a + "/" + (b + "/" + rest)
  {
  }

  lemma SplitPair(a: string, b: string, rest: string)
    requires '/' !in a && '/' !in b
    ensures Split(a + "/" + (b + "/" + rest)) == [a, b] + Split(rest)
  {
    SplitConcat(a, b + "/" + rest);
    SplitConcat(b, rest);
    SplitPlain(a);
    SplitPlain(b);
    assert [a] + ([b] + Split(rest)) == [a, b] + Split(rest);
  }

  lemma CleanPair(a: string, b: string, rest: string)
    requires '/' !in a && '/' !in b && PlainElement(a) && PlainElement(b)
    requires ".." !in Split(rest)
    ensures exists tail :: Clean(a + "/" + (b + "/" + rest)) == Join([a, b] + tail)
  {
    var p := a + "/" + (b + "/" + rest);
    assert p[0] == a[0];
    SplitPair(a, b, rest);
    ResolvePair(a, b, Split(rest));
    var kept := Resolve(Split(p), false, []);
    var tail := kept[2..];
    assert kept == [a, b] + tail;
    JoinPair(a, b, tail);
    var joined := Join(kept);
    assert |joined| >= |a|;
    assert Clean(p) == joined;
  }

  lemma ResolveStep(h: string, rest: seq<string>, kept: seq<string>)
    requires PlainElement(h)
    ensures Resolve([h] + rest, false, kept) == Resolve(rest, false, kept + [h])
  {
    assert ([h] + rest)[1..] == rest;
  }

  lemma ResolveUp(h: string, rest: seq<string>, kept: seq<string>)
    requires PlainElement(h)
    ensures Resolve([".."] + rest, false, kept + [h]) == Resolve(rest, false, kept)
  {
    assert ([".."] + rest)[1..] == rest;
    assert (kept + [h])[..|kept|] == kept;
  }

  lemma ResolvePair(a: string, b: string, rest: seq<string>)
    requires PlainElement(a) && PlainElement(b) && ".." !in rest
    ensures [a, b] <= Resolve([a, b] + rest, false, [])
  {
    assert [a, b] + rest == [a] + ([b] + rest);
    ResolveStep(a, [b] + rest, []);
    assert [] + [a] == [a];
    ResolveStep(b, rest, [a]);
    assert [a] + [b] == [a, b];
    ResolveKeeps(rest, false, [a, b]);
  }

  lemma JoinPair(a: string, b: string, tail: seq<string>)
    ensures Join([a, b] + tail) == a + "/" + Join([b] + tail)
  {
    JoinCons(a, [b] + tail);
    assert [a] + ([b] + tail) == [a, b] + tail;
  }

  lemma FirstOfJoin(a: string, tail: seq<string>)
    requires '/' !in a
    ensures Split(Join([a] + tail))[0] == a
  {
    SplitPlain(a);
    if tail == [] {
      assert [a] + tail == [a];
    } else {
      JoinCons(a, tail);
      SplitConcat(a, Join(tail));
    }
  }

  lemma ArchivedParse(p: string)
    requires exists tail :: p == Join(["inventory", "archive"] + tail)
    ensures !HasPrefix(p, "/")
    ensures HasPrefix(p, INVENTORY_PREFIX)
    ensures ParseParts(Split(TrimPrefix(p, INVENTORY_PREFIX))) == None
  {
    var tail :| p == Join(["inventory", "archive"] + tail);
    JoinPair("inventory", "archive", tail);
    var body := Join(["archive"] + tail);
    assert p[0] == 'i';
    assert p == INVENTORY_PREFIX + body by { assert INVENTORY_PREFIX == "inventory" + "/"; }
    TrimPrefixAppend(INVENTORY_PREFIX, body);
    assert '/' !in "archive";
    FirstOfJoin("archive", tail);
  }

  /** The ".." exclusion is needed: this archive path would come back as a live object. */
  lemma ArchiveDotDotParses(t: Target)
    requires Valid(t)
    ensures ParseInventoryExportPath(ArchiveRelativePath(INVENTORY_PREFIX + ("../" + Relative(t))).value) == Some(t)
  {
    var rest := "../" + Relative(t);
    TrimPrefixAppend(INVENTORY_PREFIX, rest);
    var dest := ARCHIVE_PREFIX + rest;
    PathVisible(t);
    ArchivedTrim(rest);
    TrimVisibleEnd("../", Relative(t));
    TargetElementsPlain(t);
    DotDotClean(Relative(t));
    PathIsRelative(t);
    RoundTrip(t);
    TrimSpaceVisible(PathOf(t));
    CleanPlain(PathOf(t));
  }

  lemma TrimVisibleEnd(a: string, b: string)
    requires b != "" && !IsSpace(b[|b| - 1])
    ensures TrimRight(a + b) == a + b
  {
    assert (a + b)[|a + b| - 1] == b[|b| - 1];
  }

  lemma TargetElementsPlain(t: Target)
    requires Named(t)
    ensures forall e :: e in Split(Relative(t)) ==> PlainElement(e)
    ensures forall e :: e in Split(PathOf(t)) ==> PlainElement(e)
  {
    PathElements(t);
    DnsNameFacts(t.namespace);
    var file := t.name + ".yaml";
    assert |file| > 4;
  }

  lemma PrefixParts()
    ensures INVENTORY_PREFIX == "inventory" + "/"
    ensures ARCHIVE_PREFIX == "inventory" + "/" + "archive" + "/"
    ensures "../" == ".." + "/"
  {
  }

  lemma CleanBackFrom(a: string, b: string, archive: string, up: string, rest: string)
    requires '/' !in a && '/' !in b && PlainElement(a) && PlainElement(b)
    requires archive == a + "/" + b + "/" && up == ".." + "/"
    requires forall e :: e in Split(rest) ==> PlainElement(e)
    ensures Clean(archive + (up + rest)) == a + "/" + rest
  {
    RegroupUp(a, b, "..", rest);
    CleanBack(a, b, rest);
  }

  lemma CleanBackWith(a: string, b: string, root: string, archive: string, up: string, rest: string)
    requires '/' !in a && '/' !in b && PlainElement(a) && PlainElement(b)
    requires root == a + "/" && archive == a + "/" + b + "/" && up == ".." + "/"
    requires forall e :: e in Split(rest) ==> PlainElement(e)
    ensures Clean(archive + (up + rest)) == root + rest
  {
    CleanBackFrom(a, b, archive, up, rest);
  }

  lemma RootElements()
    ensures '/' !in "inventory" && PlainElement("inventory")
    ensures '/' !in "archive" && PlainElement("archive")
  {
  }

  lemma DotDotClean(rest: string)
    requires forall e :: e in Split(rest) ==> PlainElement(e)
    ensures Clean(ARCHIVE_PREFIX + ("../" + rest)) == INVENTORY_PREFIX + rest
  {
    PrefixParts();
    RootElements();
    CleanBackWith("inventory", "archive", INVENTORY_PREFIX, ARCHIVE_PREFIX, "../", rest);
  }

  lemma RegroupUp(a: string, b: string, up: string, rest: string)
    ensures (a + "/" + b + "/") + ((up + "/") + rest) == a + "/" + (b + "/" + (up + "/" + rest))
  {
  }

  lemma PathVisible(t: Target)
    requires Named(t)
    ensures Relative(t) != "" && Relative(t)[|Relative(t)| - 1] == 'l'
    ensures PathOf(t)[0] == 'i' && PathOf(t)[|PathOf(t)| - 1] == 'l'
  {
    PathIsRelative(t);
    var file := t.name + ".yaml";
    assert Relative(t)[|Relative(t)| - 1] == file[|file| - 1];
  }

  lemma CleanBack(a: string, b: string, rest: string)
    requires '/' !in a && '/' !in b && PlainElement(a) && PlainElement(b)
    requires forall e :: e in Split(rest) ==> PlainElement(e)
    ensures Clean(a + "/" + (b + "/" + (".." + "/" + rest))) == a + "/" + rest
  {
    var p := a + "/" + (b + "/" + (".." + "/" + rest));
    assert p[0] == a[0];
    var parts := Split(rest);
    SplitConcat(a, b + "/" + (".." + "/" + rest));
    SplitConcat(b, ".." + "/" + rest);
    SplitConcat("..", rest);
    SplitPlain(a);
    SplitPlain(b);
    SplitPlain("..");
    assert Split(p) == [a] + ([b] + ([".."] + parts));
    ResolveStep(a, [b] + ([".."] + parts), []);
    assert [] + [a] == [a];
    ResolveStep(b, [".."] + parts, [a]);
    ResolveUp(b, parts, [a]);
    assert forall i :: 0 <= i < |parts| ==> parts[i] in parts;
    ResolvePlain(parts, false, [a]);
    JoinCons(a, parts);
    JoinSplit(rest);
  }
}
