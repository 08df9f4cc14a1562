/** Choosing one authoritative draft per chunk (`tools/inbr_draft_index.py`). */
module DraftIndex {
  import opened Wrappers
  import opened Ranges
  import opened Sorting
  import opened Strings

  const CHUNK_COUNT := 668

  // ----- Candidate files -----

  const SUFFIX := "-extraction.json"
  const PREFIX := "chunk-"

  predicate IsDigit(c: char) {
    '0' <= c <= '9'
  }

  /** Where the digits at the end of `s` begin. */
  function DigitsFrom(s: string): (i: nat)
    ensures i <= |s|
    ensures forall k :: i <= k < |s| ==> IsDigit(s[k])
    ensures i > 0 ==> !IsDigit(s[i - 1])
  {
    if s == "" || !IsDigit(s[|s| - 1]) then |s| else DigitsFrom(s[..|s| - 1])
  }

  predicate EndsWith(s: string, suffix: string) {
    |s| >= |suffix| && s[|s| - |suffix|..] == suffix
  }

  /** The chunk a file name matches, as `chunk-0*(\d+)-extraction\.json$` searches it. */
  function ChunkOf(name: string): Option<nat> {
    var stem := if EndsWith(name, "\n") then name[..|name| - 1] else name;
    if !EndsWith(stem, SUFFIX) then None
    else
      var head := stem[..|stem| - |SUFFIX|];
      var i := DigitsFrom(head);
      if i < |head| && EndsWith(head[..i], PREFIX) then Some(DecimalValue(head[i..])) else None
  }

  type Candidates = nat -> seq<string>

  datatype Dir = Dir(name: string, files: seq<string>, dirs: seq<Dir>)

  datatype Found = Found(chunk: nat, path: string)

  function FoundFiles(prefix: string, files: seq<string>): seq<Found> {
    if files == [] then []
    else
      var name := files[|files| - 1];
      FoundFiles(prefix, files[..|files| - 1])
      + if ChunkOf(name).Some? then [Found(ChunkOf(name).value, prefix + "/" + name)] else []
  }

  /** Every matching file below a directory, skipping directories named `previews`. The source walks
      names in sorted order; `WalkOrderIsIrrelevant` shows that the order does not matter. */
  function Discovered(dir: Dir, prefix: string): seq<Found>
    decreases dir, |dir.dirs| + 1
  {
    if dir.name == "previews" then [] else FoundFiles(prefix, dir.files) + DiscoveredIn(dir, dir.dirs, prefix)
  }

  function DiscoveredIn(parent: Dir, dirs: seq<Dir>, prefix: string): seq<Found>
    requires forall i :: 0 <= i < |dirs| ==> dirs[i] < parent
    decreases parent, |dirs|
  {
    if dirs == [] then []
    else
      var last := |dirs| - 1;
      DiscoveredIn(parent, dirs[..last], prefix) + Discovered(dirs[last], prefix + "/" + dirs[last].name)
  }

  function PathsFor(found: seq<Found>, chunk: nat): seq<string> {
    if found == [] then []
    else
      PathsFor(found[..|found| - 1], chunk)
      + if found[|found| - 1].chunk == chunk then [found[|found| - 1].path] else []
  }

  /** The dictionary of candidates by chunk. */
  ghost predicate Groups(byChunk: map<nat, seq<string>>, found: seq<Found>) {
    forall chunk :: PathsFor(found, chunk) == if chunk in byChunk then byChunk[chunk] else []
  }

  lemma {:induction false} PathsForSnoc(found: seq<Found>, more: Found, chunk: nat)
    ensures PathsFor(found + [more], chunk) == PathsFor(found, chunk) + if more.chunk == chunk then [more.path] else []
  {
    assert (found + [more])[..|found|] == found;
  }

  lemma {:induction false} GroupsStep(byChunk: map<nat, seq<string>>, found: seq<Found>, more: Found)
    requires Groups(byChunk, found)
    ensures var old_ := if more.chunk in byChunk then byChunk[more.chunk] else [];
      Groups(byChunk[more.chunk := old_ + [more.path]], found + [more])
  {
    var after := byChunk[more.chunk := (if more.chunk in byChunk then byChunk[more.chunk] else []) + [more.path]];
    forall chunk
      ensures PathsFor(found + [more], chunk) == if chunk in after then after[chunk] else []
    {
      PathsForSnoc(found, more, chunk);
    }
  }

  /** The matching files of one directory. */
  method CollectFiles(prefix: string, files: seq<string>, byChunk: map<nat, seq<string>>, ghost before: seq<Found>)
    returns (r: map<nat, seq<string>>)
    requires Groups(byChunk, before)
    ensures Groups(r, before + FoundFiles(prefix, files))
  {
    hide Groups, ChunkOf;
    r := byChunk;
    ghost var found := before;
    for i := 0 to |files|
      invariant found == before + FoundFiles(prefix, files[..i]) && Groups(r, found)
    {
      var name := files[i];
      assert files[..i + 1][..i] == files[..i];
      var chunk := ChunkOf(name);
      if chunk.None? {
        continue;
      }
      var path := prefix + "/" + name;
      GroupsStep(r, found, Found(chunk.value, path));
      r := r[chunk.value := (if chunk.value in r then r[chunk.value] else []) + [path]];
      found := found + [Found(chunk.value, path)];
    }
    assert files[..|files|] == files;
  }

  /** Walk one directory, adding its candidates to the dictionary. */
  method WalkDirectory(dir: Dir, prefix: string, byChunk: map<nat, seq<string>>, ghost before: seq<Found>)
    returns (r: map<nat, seq<string>>)
    requires Groups(byChunk, before)
    ensures Groups(r, before + Discovered(dir, prefix))
    decreases dir
  {
    hide Groups, FoundFiles;
    if dir.name == "previews" {
      assert before + [] == before;
      return byChunk;
    }
    r := CollectFiles(prefix, dir.files, byChunk, before);
    ghost var here := before + FoundFiles(prefix, dir.files);
    ghost var found := here;
    for i := 0 to |dir.dirs|
      invariant found == here + DiscoveredIn(dir, dir.dirs[..i], prefix) && Groups(r, found)
    {
      assert dir.dirs[..i + 1][..i] == dir.dirs[..i];
      var below := prefix + "/" + dir.dirs[i].name;
      r := WalkDirectory(dir.dirs[i], below, r, found);
      found := found + Discovered(dir.dirs[i], below);
    }
    assert dir.dirs[..|dir.dirs|] == dir.dirs;
    assert found == before + (FoundFiles(prefix, dir.files) + DiscoveredIn(dir, dir.dirs, prefix));
  }

  /** `Path` objects compare by their components. */
  predicate EarlierPath(a: string, b: string) {
    PartsLeq(Split(a, '/'), Split(b, '/'))
  }

  /** The sorted candidates of every chunk. */
  function CandidatesIn(root: Dir, prefix: string): Candidates {
    (chunk: nat) => SortBy(PathsFor(Discovered(root, prefix), chunk), EarlierPath)
  }

  /** `discover_candidates`. */
  method DiscoverCandidates(root: Dir, prefix: string) returns (byChunk: map<nat, seq<string>>)
    ensures forall chunk: nat :: CandidatesIn(root, prefix)(chunk) == if chunk in byChunk then byChunk[chunk] else []
  {
    var groups := WalkDirectory(root, prefix, map[], []);
    assert [] + Discovered(root, prefix) == Discovered(root, prefix);
    byChunk := map chunk | chunk in groups :: SortBy(groups[chunk], EarlierPath);
    assert SortBy([], EarlierPath) == [];
  }

  lemma {:induction false} EarlierIsTotal()
    ensures TotalPreorder(EarlierPath)
    ensures forall a, b :: EarlierPath(a, b) && EarlierPath(b, a) ==> a == b
  {
    forall a, b
      ensures EarlierPath(a, b) || EarlierPath(b, a)
      ensures EarlierPath(a, b) && EarlierPath(b, a) ==> a == b
    {
      PartsTotal(Split(a, '/'), Split(b, '/'));
      if EarlierPath(a, b) && EarlierPath(b, a) {
        PartsAntisymmetric(Split(a, '/'), Split(b, '/'));
        JoinSplit(a, '/');
        JoinSplit(b, '/');
      }
    }
    forall a, b, c | EarlierPath(a, b) && EarlierPath(b, c)
      ensures EarlierPath(a, c)
    {
      PartsTransitive(Split(a, '/'), Split(b, '/'), Split(c, '/'));
    }
  }

  lemma {:induction false} PathsCount(found: seq<Found>, chunk: nat, path: string)
    ensures multiset(PathsFor(found, chunk))[path] == multiset(found)[Found(chunk, path)]
  {
    if found != [] {
      var front, last := found[..|found| - 1], found[|found| - 1];
      PathsCount(front, chunk, path);
      assert found == front + [last];
    }
  }

  /** In whatever order the tree is walked, each chunk gets the same list. */
  lemma {:induction false} WalkOrderIsIrrelevant(a: seq<Found>, b: seq<Found>, chunk: nat)
    requires multiset(a) == multiset(b)
    ensures SortBy(PathsFor(a, chunk), EarlierPath) == SortBy(PathsFor(b, chunk), EarlierPath)
  {
    hide EarlierPath, PathsFor;
    var p, q := PathsFor(a, chunk), PathsFor(b, chunk);
    forall path
      ensures multiset(p)[path] == multiset(q)[path]
    {
      PathsCount(a, chunk, path);
      PathsCount(b, chunk, path);
    }
    assert multiset(p) == multiset(q);
    EarlierIsTotal();
    SortBySorted(p, EarlierPath);
    SortBySorted(q, EarlierPath);
    SortedUnique(SortBy(p, EarlierPath), SortBy(q, EarlierPath), EarlierPath);
  }

  // ----- Judging one candidate -----

  datatype Outcome = Candidate(unsupportedReason: Option<string>) | NoAssertion(reason: Option<string>) | OtherOutcome
  datatype Item = Item(recordId: string, outcome: Outcome)

  /** A draft file; `items` is `None` when it does not parse or does not fit the schema. */
  datatype File = File(mtime: real, items: Option<seq<Item>>)

  datatype Reason = ParseError | Templated | RecordIdMismatch | Superseded

  datatype Rejection = Rejection(path: string, reason: Reason)

  type Reader = string -> File

  function ReasonOf(item: Item): Option<string> {
    var value := match item.outcome
      case Candidate(reason) => reason
      case NoAssertion(reason) => reason
      case OtherOutcome => None;
    if value == Some("") then None else value
  }

  /** More than one item, each with a reason, and all reasons the same. */
  predicate IsTemplated(items: seq<Item>) {
    && |items| > 1
    && forall i :: 0 <= i < |items| ==> ReasonOf(items[i]).Some? && ReasonOf(items[i]) == ReasonOf(items[0])
  }

  function Values(items: seq<Item>): seq<string> {
    if items == [] then []
    else
      Values(items[..|items| - 1])
      + if ReasonOf(items[|items| - 1]).Some? then [ReasonOf(items[|items| - 1]).value] else []
  }

  /** `_collapse_check`: reason texts collected and counted. */
  method CollapseCheck(items: seq<Item>) returns (templated: bool)
    ensures templated <==> IsTemplated(items)
  {
    var values: seq<string> := [];
    for i := 0 to |items|
      invariant values == Values(items[..i])
    {
      assert items[..i + 1][..i] == items[..i];
      var value := ReasonOf(items[i]);
      if value.Some? {
        values := values + [value.value];
      }
    }
    assert items[..|items|] == items;
    ValuesMean(items);
    var distinct := set v | v in values;
    templated := |items| > 1 && |values| == |items| && |distinct| <= 1;
    if |values| == |items| && |items| > 1 {
      OneDistinct(values, distinct);
    }
  }

  lemma {:induction false} ValuesMean(items: seq<Item>)
    ensures |Values(items)| <= |items|
    ensures |Values(items)| == |items| <==> forall i :: 0 <= i < |items| ==> ReasonOf(items[i]).Some?
    ensures |Values(items)| == |items| ==> forall i :: 0 <= i < |items| ==> ReasonOf(items[i]) == Some(Values(items)[i])
  {
    if items != [] {
      ValuesMean(items[..|items| - 1]);
    }
  }

  lemma {:induction false} OneDistinct(values: seq<string>, distinct: set<string>)
    requires values != [] && distinct == set v | v in values
    ensures |distinct| <= 1 <==> forall i :: 0 <= i < |values| ==> values[i] == values[0]
  {
    assert values[0] in distinct;
    if |distinct| <= 1 {
      forall i | 0 <= i < |values|
        ensures values[i] == values[0]
      {
        assert values[i] in distinct;
        assert {values[0], values[i]} <= distinct;
        if values[i] != values[0] {
          assert |{values[0], values[i]}| == 2;
          SubsetSize({values[0], values[i]}, distinct);
        }
      }
    }
    if forall i :: 0 <= i < |values| ==> values[i] == values[0] {
      assert distinct == {values[0]};
    }
  }

  lemma {:induction false} SubsetSize(a: set<string>, b: set<string>)
    requires a <= b
    ensures |a| <= |b|
  {
    assert b == a + (b - a);
  }

  function RecordIds(items: seq<Item>): set<string> {
    set i | 0 <= i < |items| :: items[i].recordId
  }

  /** Why a candidate is rejected on its own account; `None` if it survives. */
  function Objection(path: string, read: Reader, transcript: Option<set<string>>): Option<Reason> {
    var file := read(path);
    if file.items.None? || file.items.value == [] then Some(ParseError)
    else if IsTemplated(file.items.value) then Some(Templated)
    else if transcript.None? || RecordIds(file.items.value) != transcript.value then Some(RecordIdMismatch)
    else None
  }

  // ----- Judging a chunk -----

  datatype Entry = Entry(chosen: Option<string>, rejected: seq<Rejection>)

  function Survivors(candidates: seq<string>, read: Reader, transcript: Option<set<string>>): seq<string> {
    if candidates == [] then []
    else
      var last := candidates[|candidates| - 1];
      Survivors(candidates[..|candidates| - 1], read, transcript)
        + if Objection(last, read, transcript).None? then [last] else []
  }

  function Rejections(candidates: seq<string>, read: Reader, transcript: Option<set<string>>): seq<Rejection> {
    if candidates == [] then []
    else
      var last := candidates[|candidates| - 1];
      Rejections(candidates[..|candidates| - 1], read, transcript)
      + if Objection(last, read, transcript).Some? then [Rejection(last, Objection(last, read, transcript).value)]
        else []
  }

  /** Newer first, then the lesser path. */
  predicate Prefers(read: Reader, a: string, b: string) {
    read(a).mtime > read(b).mtime || (read(a).mtime == read(b).mtime && StringLeq(a, b))
  }

  function Preference(read: Reader): (string, string) -> bool {
    (a, b) => Prefers(read, a, b)
  }

  predicate PathBefore(a: Rejection, b: Rejection) {
    StringLeq(a.path, b.path)
  }

  function SupersededBy(paths: seq<string>): (r: seq<Rejection>)
    ensures |r| == |paths|
  {
    seq(|paths|, i requires 0 <= i < |paths| => Rejection(paths[i], Superseded))
  }

  function Evaluate(candidates: seq<string>, read: Reader, transcript: Option<set<string>>): Entry {
    var rejected, survivors := Rejections(candidates, read, transcript), Survivors(candidates, read, transcript);
    if survivors == [] then Entry(None, SortBy(rejected, PathBefore))
    else
      var ranked := SortBy(survivors, Preference(read));
      Entry(Some(ranked[0]), SortBy(rejected + SupersededBy(ranked[1..]), PathBefore))
  }

  /** `evaluate_chunk`. */
  method EvaluateChunk(candidates: seq<string>, read: Reader, transcript: Option<set<string>>) returns (entry: Entry)
    ensures entry == Evaluate(candidates, read, transcript)
  {
    hide IsTemplated, SortBy;
    var rejected: seq<Rejection>, survivors: seq<string> := [], [];
    for i := 0 to |candidates|
      invariant rejected == Rejections(candidates[..i], read, transcript)
      invariant survivors == Survivors(candidates[..i], read, transcript)
    {
      var path := candidates[i];
      assert candidates[..i + 1][..i] == candidates[..i];
      var objection := Judge(path, read, transcript);
      if objection.Some? {
        rejected := rejected + [Rejection(path, objection.value)];
        continue;
      }
      survivors := survivors + [path];
    }
    assert candidates[..|candidates|] == candidates;
    if survivors == [] {
      return Entry(None, SortBy(rejected, PathBefore));
    }
    var ranked := SortBy(survivors, Preference(read));
    ghost var own := rejected;
    for i := 1 to |ranked|
      invariant rejected == own + SupersededBy(ranked[1..i])
    {
      assert ranked[1..i + 1] == ranked[1..i] + [ranked[i]];
      rejected := rejected + [Rejection(ranked[i], Superseded)];
    }
    assert ranked[1..|ranked|] == ranked[1..];
    return Entry(Some(ranked[0]), SortBy(rejected, PathBefore));
  }

  method Judge(path: string, read: Reader, transcript: Option<set<string>>) returns (objection: Option<Reason>)
    ensures objection == Objection(path, read, transcript)
  {
    var file := read(path);
    if file.items.None? || file.items.value == [] {
      return Some(ParseError);
    }
    var templated := CollapseCheck(file.items.value);
    if templated {
      return Some(Templated);
    }
    if transcript.None? {
      return Some(RecordIdMismatch);
    }
    if RecordIds(file.items.value) != transcript.value {
      return Some(RecordIdMismatch);
    }
    return None;
  }

  // ----- Order does not matter -----

  lemma {:induction false} SurvivorCount(candidates: seq<string>, read: Reader, transcript: Option<set<string>>,
                                         path: string)
    ensures multiset(Survivors(candidates, read, transcript))[path]
         == if Objection(path, read, transcript).None? then multiset(candidates)[path] else 0
  {
    hide Objection;
    if candidates != [] {
      var front, last := candidates[..|candidates| - 1], candidates[|candidates| - 1];
      assert candidates == front + [last];
      SurvivorCount(front, read, transcript, path);
    }
  }

  lemma {:induction false} RejectionCount(candidates: seq<string>, read: Reader, transcript: Option<set<string>>,
                                          r: Rejection)
    ensures multiset(Rejections(candidates, read, transcript))[r]
         == if Objection(r.path, read, transcript) == Some(r.reason) then multiset(candidates)[r.path] else 0
  {
    hide Objection;
    if candidates != [] {
      var front, last := candidates[..|candidates| - 1], candidates[|candidates| - 1];
      assert candidates == front + [last];
      RejectionCount(front, read, transcript, r);
    }
  }

  lemma {:induction false} PreferenceOrder(read: Reader)
    ensures TotalOrder(Preference(read))
  {
    StringOrder();
  }

  lemma {:induction false} SurvivorsPermuted(a: seq<string>, b: seq<string>, read: Reader,
                                             transcript: Option<set<string>>)
    requires multiset(a) == multiset(b)
    ensures SortBy(Survivors(a, read, transcript), Preference(read))
      == SortBy(Survivors(b, read, transcript), Preference(read))
  {
    hide Objection, Survivors, SortBy;
    var s, t := Survivors(a, read, transcript), Survivors(b, read, transcript);
    forall path
      ensures multiset(s)[path] == multiset(t)[path]
    {
      SurvivorCount(a, read, transcript, path);
      SurvivorCount(b, read, transcript, path);
    }
    assert multiset(s) == multiset(t);
    PreferenceOrder(read);
    SortBySorted(s, Preference(read));
    SortBySorted(t, Preference(read));
    SortedUnique(SortBy(s, Preference(read)), SortBy(t, Preference(read)), Preference(read));
  }

  /** The one rejection a path can get. */
  function RejectionOf(path: string, read: Reader, transcript: Option<set<string>>): Rejection {
    Rejection(path,
              if Objection(path, read, transcript).Some? then Objection(path, read, transcript).value else Superseded)
  }

  predicate AllProper(rejected: seq<Rejection>, read: Reader, transcript: Option<set<string>>) {
    forall i :: 0 <= i < |rejected| ==> rejected[i] == RejectionOf(rejected[i].path, read, transcript)
  }

  lemma {:induction false} RejectionsProper(candidates: seq<string>, read: Reader, transcript: Option<set<string>>)
    ensures AllProper(Rejections(candidates, read, transcript), read, transcript)
  {
    hide Objection;
    if candidates != [] {
      RejectionsProper(candidates[..|candidates| - 1], read, transcript);
    }
  }

  lemma {:induction false} SurvivorsUnobjected(candidates: seq<string>, read: Reader, transcript: Option<set<string>>)
    ensures forall x ::
      x in Survivors(candidates, read, transcript) <==> x in candidates && Objection(x, read, transcript).None?
  {
    hide Objection, Survivors;
    forall x
      ensures x in Survivors(candidates, read, transcript) <==> x in candidates && Objection(x, read, transcript).None?
    {
      SurvivorCount(candidates, read, transcript, x);
      assert x in candidates <==> x in multiset(candidates);
      assert x in Survivors(candidates, read, transcript) <==> x in multiset(Survivors(candidates, read, transcript));
    }
  }

  lemma {:induction false} SupersededProper(paths: seq<string>, read: Reader, transcript: Option<set<string>>)
    requires forall x :: x in paths ==> Objection(x, read, transcript).None?
    ensures AllProper(SupersededBy(paths), read, transcript)
  {
    hide Objection;
    assert forall i :: 0 <= i < |paths| ==> paths[i] in paths;
  }

  /** Rejections of the same files, however listed, sort to the same list. */
  lemma {:induction false} ProperSortAlike(a: seq<Rejection>, b: seq<Rejection>, read: Reader,
                                           transcript: Option<set<string>>)
    requires AllProper(a, read, transcript) && multiset(a) == multiset(b)
    ensures SortBy(a, PathBefore) == SortBy(b, PathBefore)
  {
    hide Objection, RejectionOf, SortBy;
    StringOrder();
    SortBySorted(a, PathBefore);
    SortBySorted(b, PathBefore);
    SortByMembers(a, PathBefore);
    var s := SortBy(a, PathBefore);
    forall x, y | x in s && y in s && PathBefore(x, y) && PathBefore(y, x)
      ensures x == y
    {
      assert x in a && y in a;
      assert x.path == y.path;
    }
    SortedUnique(s, SortBy(b, PathBefore), PathBefore);
  }

  lemma {:induction false} RejectionsPermuted(a: seq<string>, b: seq<string>, read: Reader,
                                              transcript: Option<set<string>>)
    requires multiset(a) == multiset(b)
    ensures multiset(Rejections(a, read, transcript)) == multiset(Rejections(b, read, transcript))
  {
    hide Objection, Rejections;
    forall r
      ensures multiset(Rejections(a, read, transcript))[r] == multiset(Rejections(b, read, transcript))[r]
    {
      RejectionCount(a, read, transcript, r);
      RejectionCount(b, read, transcript, r);
    }
  }

  lemma {:induction false} RankedUnobjected(candidates: seq<string>, read: Reader, transcript: Option<set<string>>)
    ensures forall x :: x in SortBy(Survivors(candidates, read, transcript), Preference(read)) ==>
      x in candidates && Objection(x, read, transcript).None?
  {
    SurvivorsUnobjected(candidates, read, transcript);
    SortByMembers(Survivors(candidates, read, transcript), Preference(read));
  }

  /** Listing a chunk's candidates in any other order changes nothing. */
  lemma {:induction false} OrderDoesNotMatter(a: seq<string>, b: seq<string>, read: Reader,
                                              transcript: Option<set<string>>)
    requires multiset(a) == multiset(b)
    ensures Evaluate(a, read, transcript) == Evaluate(b, read, transcript)
  {
    hide Objection, Survivors, Rejections, SortBy, AllProper;
    SurvivorsPermuted(a, b, read, transcript);
    RejectionsPermuted(a, b, read, transcript);
    RejectionsProper(a, read, transcript);
    var ranked := SortBy(Survivors(a, read, transcript), Preference(read));
    assert |ranked| == |Survivors(a, read, transcript)| == |Survivors(b, read, transcript)|;
    var ra, rb := Rejections(a, read, transcript), Rejections(b, read, transcript);
    if ranked == [] {
      ProperSortAlike(ra, rb, read, transcript);
    } else {
      RankedUnobjected(a, read, transcript);
      assert forall x :: x in ranked[1..] ==> x in ranked;
      SupersededProper(ranked[1..], read, transcript);
      var rest := SupersededBy(ranked[1..]);
      assert AllProper(ra + rest, read, transcript) by { ProperConcat(ra, rest, read, transcript); }
      ProperSortAlike(ra + rest, rb + rest, read, transcript);
    }
  }

  lemma {:induction false} ProperConcat(a: seq<Rejection>, b: seq<Rejection>, read: Reader,
                                        transcript: Option<set<string>>)
    requires AllProper(a, read, transcript) && AllProper(b, read, transcript)
    ensures AllProper(a + b, read, transcript)
  {
    hide RejectionOf;
  }

  // ----- What is chosen, and that nothing is dropped -----

  /** The chosen file survives every check, and no survivor is newer, nor equally new with a lesser
      path; there is one exactly when some candidate survives. */
  lemma {:induction false} ChosenIsBest(candidates: seq<string>, read: Reader, transcript: Option<set<string>>)
    ensures var entry := Evaluate(candidates, read, transcript);
      && (entry.chosen.Some? <==> exists i :: 0 <= i < |candidates| && Objection(candidates[i], read, transcript).None?)
      && (entry.chosen.Some? ==>
            && entry.chosen.value in candidates && Objection(entry.chosen.value, read, transcript).None?
            && forall i :: 0 <= i < |candidates| && Objection(candidates[i], read, transcript).None? ==>
                 Prefers(read, entry.chosen.value, candidates[i]))
  {
    hide Objection, Survivors, SortBy, Rejections;
    var survivors := Survivors(candidates, read, transcript);
    var ranked := SortBy(survivors, Preference(read));
    SurvivorsUnobjected(candidates, read, transcript);
    SortByMembers(survivors, Preference(read));
    PreferenceOrder(read);
    SortBySorted(survivors, Preference(read));
    if survivors != [] {
      assert ranked[0] in survivors && survivors[0] in survivors;
      forall i | 0 <= i < |candidates| && Objection(candidates[i], read, transcript).None?
        ensures Prefers(read, ranked[0], candidates[i])
      {
        assert candidates[i] in candidates;
        LeastFirst(ranked, candidates[i], Preference(read));
        assert Preference(read)(ranked[0], ranked[0]);
      }
      var k :| 0 <= k < |candidates| && candidates[k] == survivors[0];
    }
  }

  function Paths(rejected: seq<Rejection>): (r: seq<string>)
    ensures |r| == |rejected|
  {
    seq(|rejected|, i requires 0 <= i < |rejected| => rejected[i].path)
  }

  lemma {:induction false} PathsConcat(a: seq<Rejection>, b: seq<Rejection>)
    ensures Paths(a + b) == Paths(a) + Paths(b)
  {
  }

  lemma {:induction false} PathOne(r: Rejection)
    ensures Paths([r]) == [r.path] && Paths([]) == []
  {
  }

  lemma {:induction false} InsertPaths(x: Rejection, s: seq<Rejection>)
    ensures multiset(Paths(Insert(x, s, PathBefore))) == multiset(Paths(s)) + multiset{x.path}
  {
    hide Paths, PathBefore;
    PathOne(x);
    if s == [] {
    } else if PathBefore(x, s[0]) {
      PathsConcat([x], s);
    } else {
      InsertPaths(x, s[1..]);
      PathsConcat([s[0]], s[1..]);
      PathsConcat([s[0]], Insert(x, s[1..], PathBefore));
      assert s == [s[0]] + s[1..];
    }
  }

  lemma {:induction false} SortedPaths(rejected: seq<Rejection>)
    ensures multiset(Paths(SortBy(rejected, PathBefore))) == multiset(Paths(rejected))
  {
    hide Paths, PathBefore, Insert;
    if rejected != [] {
      SortedPaths(rejected[1..]);
      InsertPaths(rejected[0], SortBy(rejected[1..], PathBefore));
      assert rejected == [rejected[0]] + rejected[1..];
      PathsConcat([rejected[0]], rejected[1..]);
      PathOne(rejected[0]);
    }
  }

  lemma {:induction false} SurvivorsAndRejections(candidates: seq<string>, read: Reader,
                                                  transcript: Option<set<string>>)
    ensures multiset(Survivors(candidates, read, transcript))
      + multiset(Paths(Rejections(candidates, read, transcript)))
         == multiset(candidates)
  {
    hide Objection, Paths;
    if candidates == [] {
      PathOne(Rejection("", ParseError));
    } else {
      var front, last := candidates[..|candidates| - 1], candidates[|candidates| - 1];
      assert candidates == front + [last];
      SurvivorsAndRejections(front, read, transcript);
      var before, kept := Rejections(front, read, transcript), Survivors(front, read, transcript);
      var objection := Objection(last, read, transcript);
      if objection.Some? {
        PathsConcat(before, [Rejection(last, objection.value)]);
        PathOne(Rejection(last, objection.value));
        assert kept + [] == kept;
      } else {
        assert before + [] == before;
      }
    }
  }

  function ChosenPaths(entry: Entry): seq<string> {
    if entry.chosen.Some? then [entry.chosen.value] else []
  }

  /** Every candidate is chosen or rejected, exactly once. */
  lemma {:induction false} CandidatesAreConserved(candidates: seq<string>, read: Reader,
                                                  transcript: Option<set<string>>)
    ensures var entry := Evaluate(candidates, read, transcript);
      multiset(ChosenPaths(entry)) + multiset(Paths(entry.rejected)) == multiset(candidates)
  {
    hide Objection, Survivors, Rejections, SortBy;
    var rejected, survivors := Rejections(candidates, read, transcript), Survivors(candidates, read, transcript);
    SurvivorsAndRejections(candidates, read, transcript);
    if survivors == [] {
      SortedPaths(rejected);
    } else {
      var ranked := SortBy(survivors, Preference(read));
      var all := rejected + SupersededBy(ranked[1..]);
      SortedPaths(all);
      assert Paths(all) == Paths(rejected) + ranked[1..];
      assert ranked == [ranked[0]] + ranked[1..];
    }
  }

  // ----- The index -----

  datatype Summary = Summary(
    resolved: nat, unresolved: nat, multiple: nat, considered: nat, chosen: nat,
    parseError: nat, templated: nat, mismatch: nat, superseded: nat)

  datatype Index = Index(chunks: seq<(nat, Entry)>, unresolved: seq<(nat, Entry)>, summary: Summary)

  function CountReason(rejected: seq<Rejection>, reason: Reason): nat {
    if rejected == [] then 0
    else CountReason(rejected[..|rejected| - 1], reason) + if rejected[|rejected| - 1].reason == reason then 1 else 0
  }

  lemma {:induction false} ReasonsCoverAll(rejected: seq<Rejection>)
    ensures CountReason(rejected, ParseError) + CountReason(rejected, Templated)
      + CountReason(rejected, RecordIdMismatch)
            + CountReason(rejected, Superseded) == |rejected|
  {
    if rejected != [] {
      ReasonsCoverAll(rejected[..|rejected| - 1]);
    }
  }

  type Transcripts = nat -> Option<set<string>>

  function EntryFor(chunk: nat, candidates: Candidates, read: Reader, transcripts: Transcripts): Entry {
    Evaluate(candidates(chunk), read, transcripts(chunk))
  }

  /** Entries of the first `n` chunks that are, or are not, resolved. */
  function Entries(n: nat, resolved: bool, candidates: Candidates, read: Reader,
                   transcripts: Transcripts): seq<(nat, Entry)> {
    if n == 0 then []
    else
      var entry := EntryFor(n, candidates, read, transcripts);
      Entries(n - 1, resolved, candidates, read, transcripts)
        + if entry.chosen.Some? == resolved then [(n, entry)] else []
  }

  function Considered(n: nat, candidates: Candidates): nat {
    if n == 0 then 0 else Considered(n - 1, candidates) + |candidates(n)|
  }

  function Multiple(n: nat, candidates: Candidates): nat {
    if n == 0 then 0 else Multiple(n - 1, candidates) + if |candidates(n)| > 1 then 1 else 0
  }

  function Rejected(n: nat, reason: Reason, candidates: Candidates, read: Reader, transcripts: Transcripts): nat {
    if n == 0 then 0
    else Rejected(n - 1, reason, candidates, read, transcripts)
         + CountReason(EntryFor(n, candidates, read, transcripts).rejected, reason)
  }

  method CountRejections(rejected: seq<Rejection>)
    returns (parseError: nat, templated: nat, mismatch: nat, superseded: nat)
    ensures parseError == CountReason(rejected, ParseError) && templated == CountReason(rejected, Templated)
    ensures mismatch == CountReason(rejected, RecordIdMismatch) && superseded == CountReason(rejected, Superseded)
  {
    parseError, templated, mismatch, superseded := 0, 0, 0, 0;
    for i := 0 to |rejected|
      invariant parseError == CountReason(rejected[..i], ParseError)
        && templated == CountReason(rejected[..i], Templated)
      invariant mismatch == CountReason(rejected[..i], RecordIdMismatch)
        && superseded == CountReason(rejected[..i], Superseded)
    {
      assert rejected[..i + 1][..i] == rejected[..i];
      match rejected[i].reason
      case ParseError => parseError := parseError + 1;
      case Templated => templated := templated + 1;
      case RecordIdMismatch => mismatch := mismatch + 1;
      case Superseded => superseded := superseded + 1;
    }
    assert rejected[..|rejected|] == rejected;
  }

  /** The files found for chunks 1 to `n`. */
  function FoundWithin(found: seq<Found>, n: nat): nat {
    if found == [] then 0
    else FoundWithin(found[..|found| - 1], n) + if 1 <= found[|found| - 1].chunk <= n then 1 else 0
  }

  lemma {:induction false} OneMoreChunk(found: seq<Found>, n: nat)
    ensures FoundWithin(found, n + 1) == FoundWithin(found, n) + |PathsFor(found, n + 1)|
  {
    if found != [] { OneMoreChunk(found[..|found| - 1], n); }
  }

  lemma {:induction false} NoChunks(found: seq<Found>)
    ensures FoundWithin(found, 0) == 0
  {
    if found != [] { NoChunks(found[..|found| - 1]); }
  }

  /** What is considered is what was found for the chunks in range. */
  lemma {:induction false} ConsideredIsFound(root: Dir, prefix: string, n: nat)
    ensures Considered(n, CandidatesIn(root, prefix)) == FoundWithin(Discovered(root, prefix), n)
  {
    hide Discovered, PathsFor, EarlierPath;
    var found := Discovered(root, prefix);
    if n == 0 {
      NoChunks(found);
    } else {
      ConsideredIsFound(root, prefix, n - 1);
      OneMoreChunk(found, n - 1);
    }
  }

  /** Every file found is considered exactly when no file names a chunk outside the range; the
      others are left out without a word. */
  lemma {:induction false} AllAreConsideredIff(found: seq<Found>, n: nat)
    ensures FoundWithin(found, n) <= |found|
    ensures FoundWithin(found, n) == |found| <==> forall k :: 0 <= k < |found| ==> 1 <= found[k].chunk <= n
  {
    if found != [] {
      var front, last := found[..|found| - 1], found[|found| - 1];
      AllAreConsideredIff(front, n);
      assert found == front + [last];
      assert (forall k :: 0 <= k < |found| ==> 1 <= found[k].chunk <= n)
        <==> (forall k :: 0 <= k < |front| ==> 1 <= front[k].chunk <= n) && 1 <= last.chunk <= n;
    }
  }

  /** A draft named for a chunk beyond the range is found and not considered. */
  lemma {:induction false} StrayDraftIsLeftOut(n: nat, name: string, path: string)
    requires n > CHUNK_COUNT && name == PREFIX + Decimal(n) + SUFFIX && path == "drafts" + "/" + name
    ensures var found := Discovered(Dir("drafts", [name], []), "drafts");
      found == [Found(n, path)] && FoundWithin(found, CHUNK_COUNT) == 0
  {
    hide ChunkOf;
    NamesItsChunk(n);
    var files := [name];
    assert files[..|files| - 1] == [] && files[|files| - 1] == name;
    assert FoundFiles("drafts", []) == [];
    assert FoundFiles("drafts", files) == [] + [Found(n, path)] == [Found(n, path)];
    var root := Dir("drafts", files, []);
    assert DiscoveredIn(root, [], "drafts") == [];
    assert Discovered(root, "drafts") == [Found(n, path)] + [];
    AllAreConsideredIff([Found(n, path)], CHUNK_COUNT);
  }

  /** `chunk-<n>-extraction.json` is the name of a draft of chunk `n`. */
  lemma {:induction false} NamesItsChunk(n: nat)
    ensures ChunkOf(PREFIX + Decimal(n) + SUFFIX) == Some(n)
  {
    hide DecimalValue, Decimal;
    var head, name := PREFIX + Decimal(n), PREFIX + Decimal(n) + SUFFIX;
    assert name[|name| - 1] == SUFFIX[|SUFFIX| - 1] == 'n';
    assert name[|name| - |SUFFIX|..] == SUFFIX && name[..|name| - |SUFFIX|] == head;
    assert !EndsWith(name, "\n") by { assert name[|name| - 1..][0] == 'n'; }
    DigitsFromIs(head, |PREFIX|);
    assert head[..|PREFIX|] == PREFIX && head[|PREFIX|..] == Decimal(n);
    DecimalRoundTrip(n);
  }

  lemma {:induction false} DigitsFromIs(s: string, i: nat)
    requires i <= |s| && (forall k :: i <= k < |s| ==> IsDigit(s[k])) && (i > 0 ==> !IsDigit(s[i - 1]))
    ensures DigitsFrom(s) == i
  {
  }

  lemma {:induction false} NoneYet(candidates: Candidates, read: Reader, transcripts: Transcripts)
    ensures Entries(0, true, candidates, read, transcripts) == [] == Entries(0, false, candidates, read, transcripts)
    ensures Considered(0, candidates) == 0 == Multiple(0, candidates)
    ensures forall reason :: Rejected(0, reason, candidates, read, transcripts) == 0
  {
  }

  lemma {:induction false} NextChunk(n: nat, candidates: Candidates, read: Reader, transcripts: Transcripts)
    ensures var entry := Evaluate(candidates(n + 1), read, transcripts(n + 1));
      && (forall resolved :: Entries(n + 1, resolved, candidates, read, transcripts)
            == Entries(n, resolved, candidates, read, transcripts)
              + if entry.chosen.Some? == resolved then [(n + 1, entry)] else [])
      && Considered(n + 1, candidates) == Considered(n, candidates) + |candidates(n + 1)|
      && Multiple(n + 1, candidates) == Multiple(n, candidates) + (if |candidates(n + 1)| > 1 then 1 else 0)
      && (forall reason :: Rejected(n + 1, reason, candidates, read, transcripts)
            == Rejected(n, reason, candidates, read, transcripts) + CountReason(entry.rejected, reason))
  {
    hide Evaluate, CountReason;
  }

  /** `build_index`, from the drafts' directory on. */
  method BuildIndex(root: Dir, prefix: string, read: Reader, transcripts: Transcripts) returns (index: Index)
    ensures var candidates := CandidatesIn(root, prefix);
      && index.chunks == Entries(CHUNK_COUNT, true, candidates, read, transcripts)
      && index.unresolved == Entries(CHUNK_COUNT, false, candidates, read, transcripts)
      && index.summary == Summary(
           |index.chunks|, |index.unresolved|, Multiple(CHUNK_COUNT, candidates), Considered(CHUNK_COUNT, candidates),
           |index.chunks|, Rejected(CHUNK_COUNT, ParseError, candidates, read, transcripts),
           Rejected(CHUNK_COUNT, Templated, candidates, read, transcripts),
           Rejected(CHUNK_COUNT, RecordIdMismatch, candidates, read, transcripts),
           Rejected(CHUNK_COUNT, Superseded, candidates, read, transcripts))
    ensures var s := index.summary;
      && s.considered == FoundWithin(Discovered(root, prefix), CHUNK_COUNT)
      && s.considered == s.chosen + s.parseError + s.templated + s.mismatch + s.superseded
      && s.resolved + s.unresolved == 668
  {
    hide Evaluate, CountReason, Discovered, PathsFor, Entries, Considered, Multiple, Rejected, CandidatesIn;
    ghost var all := CandidatesIn(root, prefix);
    var byChunk := DiscoverCandidates(root, prefix);
    var chunks: seq<(nat, Entry)>, unresolved: seq<(nat, Entry)> := [], [];
    var considered, multiple, parseError, templated, mismatch, superseded := 0, 0, 0, 0, 0, 0;
    NoneYet(all, read, transcripts);
    for n := 0 to CHUNK_COUNT
      invariant chunks == Entries(n, true, all, read, transcripts)
      invariant unresolved == Entries(n, false, all, read, transcripts)
      invariant considered == Considered(n, all) && multiple == Multiple(n, all)
      invariant parseError == Rejected(n, ParseError, all, read, transcripts)
      invariant templated == Rejected(n, Templated, all, read, transcripts)
      invariant mismatch == Rejected(n, RecordIdMismatch, all, read, transcripts)
      invariant superseded == Rejected(n, Superseded, all, read, transcripts)
    {
      var chunk := n + 1;
      NextChunk(n, all, read, transcripts);
      var candidates := if chunk in byChunk then byChunk[chunk] else [];
      assert candidates == all(chunk);
      considered := considered + |candidates|;
      if |candidates| > 1 {
        multiple := multiple + 1;
      }
      var entry := EvaluateChunk(candidates, read, transcripts(chunk));
      var p, t, m, s := CountRejections(entry.rejected);
      parseError, templated, mismatch, superseded := parseError + p, templated + t, mismatch + m, superseded + s;
      if entry.chosen.Some? {
        chunks := chunks + [(chunk, entry)];
      } else {
        unresolved := unresolved + [(chunk, entry)];
      }
    }
    ConsideredIsFound(root, prefix, CHUNK_COUNT);
    FilesAreConserved(CHUNK_COUNT, all, read, transcripts);
    return Index(chunks, unresolved, Summary(|chunks|, |unresolved|, multiple, considered, |chunks|,
                                            parseError, templated, mismatch, superseded));
  }

  /** Files are conserved over the whole index: considered = chosen + the four rejection totals;
      and every chunk is resolved or not. */
  lemma {:induction false} FilesAreConserved(n: nat, candidates: Candidates, read: Reader, transcripts: Transcripts)
    ensures Considered(n, candidates)
         == |Entries(n, true, candidates, read, transcripts)|
            + Rejected(n, ParseError, candidates, read, transcripts)
            + Rejected(n, Templated, candidates, read, transcripts)
            + Rejected(n, RecordIdMismatch, candidates, read, transcripts)
            + Rejected(n, Superseded, candidates, read, transcripts)
    ensures |Entries(n, true, candidates, read, transcripts)| + |Entries(n, false, candidates, read, transcripts)| == n
  {
    hide Evaluate, CountReason;
    if n > 0 {
      FilesAreConserved(n - 1, candidates, read, transcripts);
      var entry := EntryFor(n, candidates, read, transcripts);
      EntryCounts(candidates(n), read, transcripts(n));
      ReasonsCoverAll(entry.rejected);
    }
  }

  lemma {:induction false} EntryCounts(candidates: seq<string>, read: Reader, transcript: Option<set<string>>)
    ensures var entry := Evaluate(candidates, read, transcript);
      |candidates| == |entry.rejected| + if entry.chosen.Some? then 1 else 0
  {
    hide Evaluate;
    var entry := Evaluate(candidates, read, transcript);
    CandidatesAreConserved(candidates, read, transcript);
    assert |multiset(candidates)| == |candidates|;
    assert |multiset(Paths(entry.rejected))| == |entry.rejected|;
  }
}
