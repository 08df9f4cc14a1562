/** The canonical tree encoding of `snapshot_directory`: two trees have the same encoding exactly
    when they have the same files and directories at the same relative paths, with the same
    digests and sizes. */
module TreeSnapshot {
  import opened Wrappers
  import opened Ranges
  import opened Sorting
  import opened Strings

  const NUL: char := '\0'

  /** What a directory listing shows; `Special` is a link, socket, device or the like. */
  datatype Tree = File(sha: string, size: nat) | Directory(children: seq<Child>) | Special
  datatype Child = Child(name: string, tree: Tree)

  /** A directory entry of the snapshot; the path is kept as its components. */
  datatype Entry = DirectoryEntry(path: seq<string>) | FileEntry(path: seq<string>, sha: string, size: nat)

  /** What any file system guarantees about names, and any digest about its text. */
  predicate TreeOk(tree: Tree)
    decreases tree, 0
  {
    match tree
    case File(sha, _) => Free(sha, NUL)
    case Special => true
    case Directory(children) =>
      && (forall i, j :: 0 <= i < j < |children| ==> children[i].name != children[j].name)
      && (forall i :: 0 <= i < |children| ==>
            && NameOk(children[i].name)
            && TreeOk(children[i].tree))
  }

  predicate NameOk(name: string) {
    name != "" && name != "." && name != ".." && Free(name, '/') && Free(name, NUL)
  }

  // ----- The scan -----

  predicate NameLeq(a: Child, b: Child) {
    StringLeq(a.name, b.name)
  }

  /** `safe_path` accepts the relative path. */
  predicate SafePath(path: seq<string>) {
    && path != []
    && (forall k :: 0 <= k < |path| ==> NameOk(path[k]) && Free(path[k], '\\'))
    && !(|path[0]| >= 2 && path[0][1] == ':')
  }

  function EntryOf(child: Child, path: seq<string>): Entry {
    if child.tree.File? then FileEntry(path, child.tree.sha, child.tree.size) else DirectoryEntry(path)
  }

  /** Entries of some children of `parent`, each followed by what is below it. */
  function ScanChildren(parent: Tree, children: seq<Child>, prefix: seq<string>): seq<Entry>
    requires forall c :: c in children ==> c.tree < parent
    decreases parent, |children|
  {
    if children == [] then []
    else
      var path := prefix + [children[0].name];
      [EntryOf(children[0], path)]
      + (if children[0].tree.Directory? then Scan(children[0].tree, path) else [])
      + ScanChildren(parent, children[1..], prefix)
  }

  lemma {:induction false} ChildrenSmaller(tree: Tree, children: seq<Child>)
    requires tree.Directory? && forall c :: c in children ==> c in tree.children
    ensures forall c :: c in children ==> c.tree < tree
  {
    forall c | c in children
      ensures c.tree < tree
    {
      var i :| 0 <= i < |tree.children| && tree.children[i] == c;
    }
  }

  /** Preorder, siblings sorted by name. */
  function Scan(tree: Tree, prefix: seq<string>): seq<Entry>
    requires tree.Directory?
    decreases tree, |tree.children| + 1
  {
    var sorted := SortBy(tree.children, NameLeq);
    SortByMembers(tree.children, NameLeq);
    ChildrenSmaller(tree, sorted);
    ScanChildren(tree, sorted, prefix)
  }

  // ----- The encoding -----

  function EncodeEntry(entry: Entry): string {
    match entry
    case DirectoryEntry(path) => "directory" + [NUL] + Join(path, '/') + [NUL] + "\n"
    case FileEntry(path, sha, size) => "file" + [NUL] + Join(path, '/') + [NUL] + sha + [NUL] + Decimal(size) + "\n"
  }

  function Encode(entries: seq<Entry>): string {
    if entries == [] then "" else EncodeEntry(entries[0]) + Encode(entries[1..])
  }

  /** The bytes whose digest identifies the tree. */
  function Encoding(tree: Tree): string
    requires tree.Directory?
  {
    Encode(Scan(tree, []))
  }

  // ----- Decoding -----

  /** What makes an entry's text unambiguous. */
  predicate Codable(entry: Entry) {
    && entry.path != []
    && (forall k :: 0 <= k < |entry.path| ==> Free(entry.path[k], '/') && Free(entry.path[k], NUL))
    && (entry.FileEntry? ==> Free(entry.sha, NUL))
  }

  function KindText(entry: Entry): string {
    if entry.FileEntry? then "file" else "directory"
  }

  function Tail(entry: Entry): string {
    if entry.FileEntry? then entry.sha + [NUL] + (Decimal(entry.size) + "\n") else "\n"
  }

  lemma {:induction false} EntryText(entry: Entry, rest: string)
    ensures EncodeEntry(entry) + rest
      == KindText(entry) + [NUL] + (Join(entry.path, '/') + [NUL] + (Tail(entry) + rest))
  {
    hide Join, Decimal;
    assert EncodeEntry(entry) == KindText(entry) + [NUL] + (Join(entry.path, '/') + [NUL] + Tail(entry));
  }

  /** One entry's text ends where the next begins: neither names with newlines nor anything after
      it can blur it. */
  lemma {:induction false} EntryCut(e: Entry, f: Entry, restE: string, restF: string)
    requires Codable(e) && Codable(f)
    requires EncodeEntry(e) + restE == EncodeEntry(f) + restF
    ensures e == f && restE == restF
  {
    hide Join, EncodeEntry, Decimal;
    EntryText(e, restE);
    EntryText(f, restF);
    CutAtFirst(KindText(e), KindText(f), NUL, Join(e.path, '/') + [NUL] + (Tail(e) + restE),
               Join(f.path, '/') + [NUL] + (Tail(f) + restF));
    KindsDiffer(e, f);
    JoinFree(e.path, '/', NUL);
    JoinFree(f.path, '/', NUL);
    CutAtFirst(Join(e.path, '/'), Join(f.path, '/'), NUL, Tail(e) + restE, Tail(f) + restF);
    JoinInjective(e.path, f.path, '/');
    TailCut(e, f, restE, restF);
  }

  lemma {:induction false} KindsDiffer(e: Entry, f: Entry)
    ensures KindText(e) == KindText(f) <==> (e.FileEntry? <==> f.FileEntry?)
  {
    assert |"file"| != |"directory"|;
  }

  lemma {:induction false} TailCut(e: Entry, f: Entry, restE: string, restF: string)
    requires e.FileEntry? <==> f.FileEntry?
    requires Codable(e) && Codable(f) && e.path == f.path && Tail(e) + restE == Tail(f) + restF
    ensures e == f && restE == restF
  {
    hide Decimal;
    if e.FileEntry? {
      var sizeE, sizeF := Decimal(e.size), Decimal(f.size);
      FileTail(e, restE);
      FileTail(f, restF);
      CutAtFirst(e.sha, f.sha, NUL, sizeE + ['\n'] + restE, sizeF + ['\n'] + restF);
      CutAtFirst(sizeE, sizeF, '\n', restE, restF);
      DecimalRoundTrip(e.size);
      DecimalRoundTrip(f.size);
    } else {
      assert (Tail(e) + restE)[1..] == restE && (Tail(f) + restF)[1..] == restF;
    }
  }

  lemma {:induction false} FileTail(e: Entry, rest: string)
    requires e.FileEntry?
    ensures Tail(e) + rest == e.sha + [NUL] + (Decimal(e.size) + ['\n'] + rest)
  {
    hide Decimal;
  }

  /** The encoding of an entry list determines the list. */
  lemma {:induction false} EncodeInjective(a: seq<Entry>, b: seq<Entry>)
    requires (forall e :: e in a ==> Codable(e)) && (forall e :: e in b ==> Codable(e))
    requires Encode(a) == Encode(b)
    ensures a == b
  {
    hide EncodeEntry, Codable;
    EmptyEncoding(a);
    EmptyEncoding(b);
    if a != [] {
      EntryCut(a[0], b[0], Encode(a[1..]), Encode(b[1..]));
      EncodeInjective(a[1..], b[1..]);
      assert a == [a[0]] + a[1..] && b == [b[0]] + b[1..];
    }
  }

  lemma {:induction false} EmptyEncoding(a: seq<Entry>)
    ensures Encode(a) == "" <==> a == []
  {
    if a != [] {
      assert |EncodeEntry(a[0])| > 0;
    }
  }

  // ----- What the scan lists -----

  datatype Info = DirectoryInfo | FileInfo(sha: string, size: nat)

  function InfoOf(entry: Entry): Info {
    if entry.FileEntry? then FileInfo(entry.sha, entry.size) else DirectoryInfo
  }

  function ChildNamed(children: seq<Child>, name: string): Option<Tree> {
    if children == [] then None
    else if children[0].name == name then Some(children[0].tree)
    else ChildNamed(children[1..], name)
  }

  /** What is at a relative path: the tree seen as a function, independent of any listing order. */
  function Lookup(tree: Tree, path: seq<string>): Option<Info>
    decreases |path|
  {
    if path == [] then
      match tree
      case File(sha, size) => Some(FileInfo(sha, size))
      case Directory(_) => Some(DirectoryInfo)
      case Special => None
    else if !tree.Directory? then None
    else
      var child := ChildNamed(tree.children, path[0]);
      if child.None? then None else Lookup(child.value, path[1..])
  }

  ghost predicate SameTree(a: Tree, b: Tree) {
    forall path :: Lookup(a, path) == Lookup(b, path)
  }

  /** No link or special file anywhere. */
  predicate Plain(tree: Tree) {
    match tree
    case File(_, _) => true
    case Special => false
    case Directory(children) => forall i :: 0 <= i < |children| ==> Plain(children[i].tree)
  }

  /** Some listed child leads to the entry. */
  predicate Leads(children: seq<Child>, prefix: seq<string>, e: Entry) {
    && |e.path| > |prefix| && prefix == e.path[..|prefix|]
    && exists i :: 0 <= i < |children| && children[i].name == e.path[|prefix|]
                   && Lookup(children[i].tree, e.path[|prefix| + 1..]) == Some(InfoOf(e))
  }

  lemma {:induction false} LeadsFirst(children: seq<Child>, prefix: seq<string>, e: Entry)
    requires children != []
    ensures Leads(children, prefix, e)
       <==> Leads([children[0]], prefix, e) || Leads(children[1..], prefix, e)
  {
    hide Lookup;
    if Leads(children, prefix, e) {
      var i :| 0 <= i < |children| && children[i].name == e.path[|prefix|]
               && Lookup(children[i].tree, e.path[|prefix| + 1..]) == Some(InfoOf(e));
      if i == 0 {
        assert [children[0]][0] == children[0];
      } else {
        assert children[1..][i - 1] == children[i];
      }
    }
    if Leads(children[1..], prefix, e) {
      var i :| 0 <= i < |children[1..]| && children[1..][i].name == e.path[|prefix|]
               && Lookup(children[1..][i].tree, e.path[|prefix| + 1..]) == Some(InfoOf(e));
      assert children[i + 1] == children[1..][i];
    }
  }

  lemma {:induction false} ChildrenListed(parent: Tree, children: seq<Child>, prefix: seq<string>, e: Entry)
    requires parent.Directory? && TreeOk(parent) && Plain(parent)
    requires forall c :: c in children ==> c in parent.children && c.tree < parent
    ensures e in ScanChildren(parent, children, prefix) <==> Leads(children, prefix, e)
    decreases parent, |children|
  {
    if children != [] {
      var c := children[0];
      var path := prefix + [c.name];
      assert c in parent.children;
      if c.tree.Directory? {
        TreeListed(c.tree, path, e);
      }
      hide Scan;
      ChildrenListed(parent, children[1..], prefix, e);
      LeadsFirst(children, prefix, e);
      OneChildLeads(c, prefix, e);
    }
  }

  lemma {:induction false} OneChildLeads(c: Child, prefix: seq<string>, e: Entry)
    requires Plain(c.tree)
    ensures Leads([c], prefix, e)
       <==> e == EntryOf(c, prefix + [c.name])
            || (c.tree.Directory? && |e.path| > |prefix| + 1 && prefix + [c.name] == e.path[..|prefix| + 1]
                && Lookup(c.tree, e.path[|prefix| + 1..]) == Some(InfoOf(e)))
  {
    if Leads([c], prefix, e) {
      assert e.path[..|prefix| + 1] == prefix + [c.name];
      if |e.path| == |prefix| + 1 {
        assert e.path == prefix + [c.name];
      }
    }
    if e == EntryOf(c, prefix + [c.name]) {
      assert [c][0] == c;
      assert Leads([c], prefix, e);
    }
    if c.tree.Directory? && |e.path| > |prefix| + 1 && prefix + [c.name] == e.path[..|prefix| + 1]
       && Lookup(c.tree, e.path[|prefix| + 1..]) == Some(InfoOf(e))
    {
      assert e.path[..|prefix|] == (prefix + [c.name])[..|prefix|];
      assert e.path[|prefix|] == (prefix + [c.name])[|prefix|];
      assert [c][0] == c;
    }
  }

  /** The scan lists exactly what is in the tree. */
  lemma {:induction false} TreeListed(tree: Tree, prefix: seq<string>, e: Entry)
    requires tree.Directory? && TreeOk(tree) && Plain(tree)
    ensures e in Scan(tree, prefix)
       <==> |e.path| > |prefix| && prefix == e.path[..|prefix|] && Lookup(tree, e.path[|prefix|..]) == Some(InfoOf(e))
    decreases tree, |tree.children| + 1
  {
    var sorted := SortBy(tree.children, NameLeq);
    SortByMembers(tree.children, NameLeq);
    ChildrenSmaller(tree, sorted);
    ChildrenListed(tree, sorted, prefix, e);
    LeadsIsLookup(tree, sorted, prefix, e);
  }

  lemma {:induction false} ChildNamedIs(children: seq<Child>, i: nat)
    requires i < |children| && forall m, n :: 0 <= m < n < |children| ==> children[m].name != children[n].name
    ensures ChildNamed(children, children[i].name) == Some(children[i].tree)
  {
    if i > 0 {
      ChildNamedIs(children[1..], i - 1);
    }
  }

  lemma {:induction false} ChildNamedFrom(children: seq<Child>, name: string)
    requires ChildNamed(children, name).Some?
    ensures exists i ::
      0 <= i < |children| && children[i].name == name && children[i].tree == ChildNamed(children, name).value
  {
    if children[0].name != name {
      ChildNamedFrom(children[1..], name);
      var i :| 0 <= i < |children[1..]| && children[1..][i].name == name
        && children[1..][i].tree == ChildNamed(children[1..], name).value;
      assert children[i + 1] == children[1..][i];
    }
  }

  lemma {:induction false} LeadsIsLookup(tree: Tree, sorted: seq<Child>, prefix: seq<string>, e: Entry)
    requires tree.Directory? && TreeOk(tree)
    requires forall c :: c in sorted <==> c in tree.children
    ensures Leads(sorted, prefix, e)
       <==> |e.path| > |prefix| && prefix == e.path[..|prefix|] && Lookup(tree, e.path[|prefix|..]) == Some(InfoOf(e))
  {
    if |e.path| > |prefix| && prefix == e.path[..|prefix|] {
      var path := e.path[|prefix|..];
      assert path[0] == e.path[|prefix|] && path[1..] == e.path[|prefix| + 1..];
      if Leads(sorted, prefix, e) {
        var i :| 0 <= i < |sorted| && sorted[i].name == e.path[|prefix|]
          && Lookup(sorted[i].tree, path[1..]) == Some(InfoOf(e));
        assert sorted[i] in tree.children;
        var k :| 0 <= k < |tree.children| && tree.children[k] == sorted[i];
        ChildNamedIs(tree.children, k);
      }
      if Lookup(tree, path) == Some(InfoOf(e)) {
        ChildNamedFrom(tree.children, path[0]);
        var k :| 0 <= k < |tree.children| && tree.children[k].name == path[0]
          && tree.children[k].tree == ChildNamed(tree.children, path[0]).value;
        assert tree.children[k] in sorted;
        var i :| 0 <= i < |sorted| && sorted[i] == tree.children[k];
        assert Lookup(sorted[i].tree, path[1..]) == Some(InfoOf(e));
      }
    }
  }

  // ----- The order of the scan -----

  predicate EntryLeq(a: Entry, b: Entry) {
    PartsLeq(a.path, b.path)
  }

  /** Paths that first differ after a common prefix are ordered by where they differ. */
  lemma {:induction false} PathDiffers(prefix: seq<string>, a: seq<string>, b: seq<string>)
    requires |a| >= |prefix| && |b| > |prefix| && a[..|prefix|] == prefix == b[..|prefix|]
    requires |a| > |prefix| ==> a[|prefix|] != b[|prefix|] && StringLeq(a[|prefix|], b[|prefix|])
    ensures PartsLeq(a, b) && a != b
    decreases |prefix|
  {
    if prefix != [] {
      assert a[0] == prefix[0] == b[0];
      assert a[1..][..|prefix| - 1] == prefix[1..] && b[1..][..|prefix| - 1] == prefix[1..];
      PathDiffers(prefix[1..], a[1..], b[1..]);
    }
  }

  predicate Ordered(s: seq<Entry>) {
    forall i, j :: 0 <= i < j < |s| ==> PartsLeq(s[i].path, s[j].path) && s[i].path != s[j].path
  }

  /** Every entry lies below `path`, or is at it. */
  predicate Under(s: seq<Entry>, path: seq<string>) {
    forall e :: e in s ==> |e.path| >= |path| && e.path[..|path|] == path
  }

  predicate Increasing(children: seq<Child>) {
    forall i, j ::
      0 <= i < j < |children| ==> StringLeq(children[i].name, children[j].name) && children[i].name != children[j].name
  }

  lemma {:induction false} OrderedConcat(a: seq<Entry>, b: seq<Entry>)
    requires Ordered(a) && Ordered(b)
    requires forall e, f :: e in a && f in b ==> PartsLeq(e.path, f.path) && e.path != f.path
    ensures Ordered(a + b)
  {
    hide PartsLeq;
  }

  lemma {:induction false} ChildrenOrdered(parent: Tree, children: seq<Child>, prefix: seq<string>)
    requires parent.Directory? && TreeOk(parent) && Plain(parent) && Increasing(children)
    requires forall c :: c in children ==> c in parent.children && c.tree < parent
    ensures Ordered(ScanChildren(parent, children, prefix))
    decreases parent, |children|
  {
    if children != [] {
      var c := children[0];
      var path := prefix + [c.name];
      assert c in parent.children;
      if c.tree.Directory? {
        ScanOrdered(c.tree, path);
      }
      ChildrenOrdered(parent, children[1..], prefix);
      FirstChildBefore(parent, children, prefix);
    }
  }

  /** The entries of the first child. */
  function Head(c: Child, prefix: seq<string>): seq<Entry> {
    var path := prefix + [c.name];
    [EntryOf(c, path)] + if c.tree.Directory? then Scan(c.tree, path) else []
  }

  lemma {:induction false} HeadOrdered(c: Child, prefix: seq<string>)
    requires TreeOk(c.tree) && Plain(c.tree)
    requires c.tree.Directory? ==> Ordered(Scan(c.tree, prefix + [c.name]))
    ensures Ordered(Head(c, prefix)) && Under(Head(c, prefix), prefix + [c.name])
  {
    hide Scan, TreeOk, Plain, PartsLeq;
    var path := prefix + [c.name];
    if c.tree.Directory? {
      forall f | f in Scan(c.tree, path)
        ensures |f.path| > |path| && f.path[..|path|] == path
        ensures PartsLeq(path, f.path) && path != f.path
      {
        TreeListed(c.tree, path, f);
        PathDiffers(path, path, f.path);
      }
      OrderedConcat([EntryOf(c, path)], Scan(c.tree, path));
    }
  }

  lemma {:induction false} FirstChildBefore(parent: Tree, children: seq<Child>, prefix: seq<string>)
    requires parent.Directory? && TreeOk(parent) && Plain(parent) && Increasing(children) && children != []
    requires forall c :: c in children ==> c in parent.children && c.tree < parent
    requires children[0].tree.Directory? ==> Ordered(Scan(children[0].tree, prefix + [children[0].name]))
    requires Ordered(ScanChildren(parent, children[1..], prefix))
    ensures Ordered(ScanChildren(parent, children, prefix))
  {
    var c, rest := children[0], ScanChildren(parent, children[1..], prefix);
    assert c in parent.children;
    HeadOrdered(c, prefix);
    FirstChildUnrolled(parent, children, prefix);
    hide Scan, ScanChildren, Plain, Head, PartsLeq;
    forall e, f | e in Head(c, prefix) && f in rest
      ensures PartsLeq(e.path, f.path) && e.path != f.path
    {
      ChildrenListed(parent, children[1..], prefix, f);
      SiblingsApart(children, prefix, e, f);
    }
    OrderedConcat(Head(c, prefix), rest);
  }

  lemma {:induction false} FirstChildUnrolled(parent: Tree, children: seq<Child>, prefix: seq<string>)
    requires children != [] && forall c :: c in children ==> c.tree < parent
    ensures ScanChildren(parent, children, prefix)
      == Head(children[0], prefix) + ScanChildren(parent, children[1..], prefix)
  {
    hide Scan;
  }

  lemma {:induction false} SiblingsApart(children: seq<Child>, prefix: seq<string>, e: Entry, f: Entry)
    requires children != [] && Increasing(children)
    requires |e.path| >= |prefix| + 1 && e.path[..|prefix| + 1] == prefix + [children[0].name]
    requires Leads(children[1..], prefix, f)
    ensures PartsLeq(e.path, f.path) && e.path != f.path
  {
    hide PartsLeq, StringLeq, Lookup;
    assert e.path[..|prefix|] == prefix && e.path[|prefix|] == children[0].name;
    var i :| 0 <= i < |children[1..]| && children[1..][i].name == f.path[|prefix|];
    assert children[1..][i] == children[i + 1];
    PathDiffers(prefix, e.path, f.path);
  }

  lemma {:induction false} SortedIncreasing(tree: Tree)
    requires tree.Directory? && TreeOk(tree)
    ensures Increasing(SortBy(tree.children, NameLeq))
  {
    var sorted := SortBy(tree.children, NameLeq);
    StringOrder();
    SortBySorted(tree.children, NameLeq);
    SortByNoRepeats(tree.children, NameLeq);
    SortByMembers(tree.children, NameLeq);
    forall i, j | 0 <= i < j < |sorted|
      ensures StringLeq(sorted[i].name, sorted[j].name) && sorted[i].name != sorted[j].name
    {
      assert NameLeq(sorted[i], sorted[j]) && sorted[i] != sorted[j];
      assert sorted[i] in tree.children && sorted[j] in tree.children;
    }
  }

  lemma {:induction false} ScanOrdered(tree: Tree, prefix: seq<string>)
    requires tree.Directory? && TreeOk(tree) && Plain(tree)
    ensures Ordered(Scan(tree, prefix))
    decreases tree, |tree.children| + 1
  {
    var sorted := SortBy(tree.children, NameLeq);
    SortByMembers(tree.children, NameLeq);
    ChildrenSmaller(tree, sorted);
    SortedIncreasing(tree);
    ChildrenOrdered(tree, sorted, prefix);
  }

  // ----- Main results -----

  lemma {:induction false} ScanCodable(tree: Tree)
    requires tree.Directory? && TreeOk(tree) && Plain(tree)
    ensures forall e :: e in Scan(tree, []) ==> Codable(e)
  {
    forall e | e in Scan(tree, [])
      ensures Codable(e)
    {
      TreeListed(tree, [], e);
      assert e.path[0..] == e.path;
      LookupCodable(tree, e.path);
    }
  }

  lemma {:induction false} LookupCodable(tree: Tree, path: seq<string>)
    requires TreeOk(tree) && Lookup(tree, path).Some?
    ensures forall k :: 0 <= k < |path| ==> Free(path[k], '/') && Free(path[k], NUL)
    ensures Lookup(tree, path).value.FileInfo? ==> Free(Lookup(tree, path).value.sha, NUL)
    decreases |path|
  {
    if path != [] {
      ChildNamedFrom(tree.children, path[0]);
      var i :| 0 <= i < |tree.children| && tree.children[i].name == path[0]
        && tree.children[i].tree == ChildNamed(tree.children, path[0]).value;
      assert NameOk(tree.children[i].name);
      LookupCodable(tree.children[i].tree, path[1..]);
    }
  }

  /** Without repeats and in one order, the members of a scan determine it. */
  lemma {:induction false} SameMembersSameScan(a: Tree, b: Tree)
    requires a.Directory? && TreeOk(a) && Plain(a) && b.Directory? && TreeOk(b) && Plain(b)
    requires forall e :: e in Scan(a, []) <==> e in Scan(b, [])
    ensures Scan(a, []) == Scan(b, [])
  {
    ScanOrdered(a, []);
    ScanOrdered(b, []);
    var s, t := Scan(a, []), Scan(b, []);
    hide Scan, TreeOk, Plain, PartsLeq;
    SameMembersSameCount(s, t);
    forall x, y | x in s && y in s && EntryLeq(x, y) && EntryLeq(y, x)
      ensures x == y
    {
      PartsAntisymmetric(x.path, y.path);
      var i :| 0 <= i < |s| && s[i] == x;
      var j :| 0 <= j < |s| && s[j] == y;
    }
    SortedUnique(s, t, EntryLeq);
  }

  /** Canonical and uniquely decodable: equal encodings exactly for equal trees - same relative
      paths, kinds, digests and sizes - whatever order the directories were listed in and whatever
      characters, newlines included, the names contain. */
  lemma {:induction false} EncodingIdentifiesTree(a: Tree, b: Tree)
    requires a.Directory? && TreeOk(a) && Plain(a) && b.Directory? && TreeOk(b) && Plain(b)
    ensures Encoding(a) == Encoding(b) <==> SameTree(a, b)
  {
    hide TreeOk, Plain, Scan;
    if SameTree(a, b) {
      forall e
        ensures e in Scan(a, []) <==> e in Scan(b, [])
      {
        TreeListed(a, [], e);
        TreeListed(b, [], e);
        assert Lookup(a, e.path[0..]) == Lookup(b, e.path[0..]);
      }
      SameMembersSameScan(a, b);
    }
    if Encoding(a) == Encoding(b) {
      ScanCodable(a);
      ScanCodable(b);
      EncodeInjective(Scan(a, []), Scan(b, []));
      forall path
        ensures Lookup(a, path) == Lookup(b, path)
      {
        SameLookup(a, b, path);
      }
    }
  }

  lemma {:induction false} SameLookup(a: Tree, b: Tree, path: seq<string>)
    requires a.Directory? && TreeOk(a) && Plain(a) && b.Directory? && TreeOk(b) && Plain(b)
    requires Scan(a, []) == Scan(b, [])
    ensures Lookup(a, path) == Lookup(b, path)
  {
    hide TreeOk, Plain, Scan;
    if path != [] {
      assert path[0..] == path;
      var d := DirectoryEntry(path);
      TreeListed(a, [], d);
      TreeListed(b, [], d);
      if Lookup(a, path).Some? && Lookup(a, path).value.FileInfo? {
        TreeListed(a, [], FileEntry(path, Lookup(a, path).value.sha, Lookup(a, path).value.size));
        TreeListed(b, [], FileEntry(path, Lookup(a, path).value.sha, Lookup(a, path).value.size));
      }
      if Lookup(b, path).Some? && Lookup(b, path).value.FileInfo? {
        TreeListed(a, [], FileEntry(path, Lookup(b, path).value.sha, Lookup(b, path).value.size));
        TreeListed(b, [], FileEntry(path, Lookup(b, path).value.sha, Lookup(b, path).value.size));
      }
    }
  }

  // ----- The scan and encoding as the source runs them -----

  datatype ScanError = NotRegular | UnsafePath

  datatype Snapshot = Snapshot(encoded: string, files: nat, bytes: nat, entries: seq<Entry>)

  /** Plain files and directories only, under paths `safe_path` accepts. */
  predicate Scannable(tree: Tree, prefix: seq<string>) {
    match tree
    case File(_, _) => SafePath(prefix)
    case Special => false
    case Directory(children) =>
      && (prefix != [] ==> SafePath(prefix))
      && forall i :: 0 <= i < |children| ==> Scannable(children[i].tree, prefix + [children[i].name])
  }

  /** `_scan_directory`: entries are appended to the list given. */
  method ScanDirectory(tree: Tree, prefix: seq<string>, entries: seq<Entry>) returns (r: Result<seq<Entry>, ScanError>)
    requires tree.Directory? && (prefix != [] ==> SafePath(prefix))
    ensures r.Success? <==> Scannable(tree, prefix)
    ensures r.Success? ==> r.value == entries + Scan(tree, prefix)
    decreases tree
  {
    var children := SortBy(tree.children, NameLeq);
    SortByMembers(tree.children, NameLeq);
    ChildrenSmaller(tree, children);
    var listed := entries;
    for i := 0 to |children|
      invariant listed + ScanChildren(tree, children[i..], prefix) == entries + ScanChildren(tree, children, prefix)
      invariant forall k :: 0 <= k < i ==> Scannable(children[k].tree, prefix + [children[k].name])
    {
      hide Scan, SafePath, ScanChildren;
      var child := children[i];
      assert child in tree.children;
      var path := prefix + [child.name];
      ScanStep(tree, children, i, prefix, listed);
      if !SafePath(path) {
        UnsafeChild(tree, prefix, child);
        return Failure(UnsafePath);
      }
      if child.tree.Directory? {
        var below := ScanDirectory(child.tree, path, listed + [DirectoryEntry(path)]);
        if below.Failure? {
          return below;
        }
        listed := below.value;
        continue;
      }
      if child.tree.Special? {
        return Failure(NotRegular);
      }
      listed := listed + [FileEntry(path, child.tree.sha, child.tree.size)];
    }
    forall i | 0 <= i < |tree.children|
      ensures Scannable(tree.children[i].tree, prefix + [tree.children[i].name])
    {
      assert tree.children[i] in children;
    }
    return Success(listed);
  }

  /** Listing child `i` next brings the list one child further. */
  lemma {:induction false} ScanStep(parent: Tree, children: seq<Child>, i: nat, prefix: seq<string>, listed: seq<Entry>)
    requires i < |children| && forall c :: c in children ==> c.tree < parent
    ensures var child, path := children[i], prefix + [children[i].name];
      listed + ScanChildren(parent, children[i..], prefix)
      == (if child.tree.Directory? then listed + [DirectoryEntry(path)] + Scan(child.tree, path)
          else listed + [EntryOf(child, path)])
         + ScanChildren(parent, children[i + 1..], prefix)
  {
    hide Scan;
    assert children[i..][0] == children[i] && children[i..][1..] == children[i + 1..];
  }

  lemma {:induction false} UnsafeChild(tree: Tree, prefix: seq<string>, child: Child)
    requires tree.Directory? && child in tree.children && !SafePath(prefix + [child.name])
    ensures !Scannable(tree, prefix)
  {
    var i :| 0 <= i < |tree.children| && tree.children[i] == child;
    if Scannable(tree, prefix) {
      assert Scannable(tree.children[i].tree, prefix + [tree.children[i].name]);
    }
  }

  function Files(entries: seq<Entry>): nat {
    if entries == [] then 0 else Files(entries[..|entries| - 1]) + if entries[|entries| - 1].FileEntry? then 1 else 0
  }

  function Bytes(entries: seq<Entry>): nat {
    if entries == [] then 0
    else Bytes(entries[..|entries| - 1]) + if entries[|entries| - 1].FileEntry? then entries[|entries| - 1].size else 0
  }

  lemma {:induction false} EncodeConcat(a: seq<Entry>, b: seq<Entry>)
    ensures Encode(a + b) == Encode(a) + Encode(b)
  {
    hide EncodeEntry;
    if a == [] {
      assert a + b == b;
    } else {
      EncodeConcat(a[1..], b);
      assert (a + b)[1..] == a[1..] + b;
      Associative(EncodeEntry(a[0]), Encode(a[1..]), Encode(b));
    }
  }

  lemma {:induction false} Associative(a: string, b: string, c: string)
    ensures a + (b + c) == (a + b) + c
  {
  }

  lemma {:induction false} EncodeSnoc(entries: seq<Entry>, entry: Entry)
    ensures Encode(entries + [entry]) == Encode(entries) + EncodeEntry(entry)
  {
    hide EncodeEntry;
    EncodeConcat(entries, [entry]);
  }

  lemma {:induction false} NothingEncoded()
    ensures Encode([]) == ""
  {
  }

  /** `snapshot_directory`. */
  method SnapshotDirectory(tree: Tree) returns (r: Result<Snapshot, ScanError>)
    requires tree.Directory?
    ensures r.Success? <==> Scannable(tree, [])
    ensures r.Success? ==>
      && r.value.encoded == Encoding(tree) && r.value.entries == Scan(tree, [])
      && r.value.files == Files(r.value.entries) && r.value.bytes == Bytes(r.value.entries)
  {
    hide Scan, Scannable, EncodeEntry, Encode;
    var scanned := ScanDirectory(tree, [], []);
    if scanned.Failure? {
      return Failure(scanned.error);
    }
    var entries := scanned.value;
    assert entries == Scan(tree, []);
    var encoded, files, bytes := "", 0, 0;
    NothingEncoded();
    for i := 0 to |entries|
      invariant encoded == Encode(entries[..i]) && files == Files(entries[..i]) && bytes == Bytes(entries[..i])
    {
      var entry := entries[i];
      assert entries[..i + 1][..i] == entries[..i] && entries[..i + 1] == entries[..i] + [entry];
      EncodeSnoc(entries[..i], entry);
      encoded := encoded + EncodeEntry(entry);
      if entry.FileEntry? {
        files, bytes := files + 1, bytes + entry.size;
      }
    }
    assert entries[..|entries|] == entries;
    return Success(Snapshot(encoded, files, bytes, entries));
  }

  lemma {:induction false} ScannableIsPlain(tree: Tree, prefix: seq<string>)
    requires Scannable(tree, prefix)
    ensures Plain(tree)
  {
    if tree.Directory? {
      forall i | 0 <= i < |tree.children|
        ensures Plain(tree.children[i].tree)
      {
        ScannableIsPlain(tree.children[i].tree, prefix + [tree.children[i].name]);
      }
    }
  }

  /** What two successful snapshots say: their encodings are equal exactly when the trees are. */
  lemma {:induction false} SnapshotsIdentifyTrees(a: Tree, b: Tree)
    requires a.Directory? && TreeOk(a) && Scannable(a, []) && b.Directory? && TreeOk(b) && Scannable(b, [])
    ensures Encoding(a) == Encoding(b) <==> SameTree(a, b)
  {
    ScannableIsPlain(a, []);
    ScannableIsPlain(b, []);
    EncodingIdentifiesTree(a, b);
  }

  // ----- Paths and totals -----

  /** The relative paths a snapshot accepts: names without separators, backslashes or NUL, none of them
      empty or a dot, and no drive letter in front. */
  lemma {:induction false} SafePathIs(path: seq<string>)
    ensures SafePath(path) <==>
      && path != []
      && (forall k, i :: 0 <= k < |path| && 0 <= i < |path[k]| ==> path[k][i] !in {'/', '\\', NUL})
      && (forall k :: 0 <= k < |path| ==> path[k] !in {"", ".", ".."})
      && !(|path[0]| >= 2 && path[0][1] == ':')
  {
  }

  /** Files and their bytes are counted, directories are not. */
  lemma {:induction false} TotalsAre(entries: seq<Entry>, entry: Entry)
    ensures Files([]) == 0 && Bytes([]) == 0
    ensures entry.FileEntry? ==>
      Files(entries + [entry]) == Files(entries) + 1 && Bytes(entries + [entry]) == Bytes(entries) + entry.size
    ensures entry.DirectoryEntry? ==>
      Files(entries + [entry]) == Files(entries) && Bytes(entries + [entry]) == Bytes(entries)
  {
    assert (entries + [entry])[..|entries|] == entries;
  }

  /** How an entry is written. */
  lemma {:induction false} EntryIs(path: seq<string>, sha: string, size: nat)
    ensures EncodeEntry(DirectoryEntry(path)) == "directory" + [NUL] + Join(path, '/') + [NUL] + "\n"
    ensures EncodeEntry(FileEntry(path, sha, size))
      == "file" + [NUL] + Join(path, '/') + [NUL] + sha + [NUL] + Decimal(size) + "\n"
  {
  }
}
