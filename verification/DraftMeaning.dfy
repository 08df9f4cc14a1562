/** Which files are drafts of a chunk, why a draft is rejected, and what the index lists, in terms of
    names, files and transcripts alone. */
module DraftMeaning {
  import opened Wrappers
  import opened Ranges
  import opened Sorting
  import opened Strings
  import opened DraftIndex

  // ----- File names -----

  predicate AllDigits(s: string) {
    forall k :: 0 <= k < |s| ==> '0' <= s[k] <= '9'
  }

  /** The name ends in `chunk-<digits>-extraction.json`. */
  predicate NamesChunk(name: string, digits: string) {
    var ending := "chunk-" + digits + "-extraction.json";
    digits != "" && AllDigits(digits) && |name| >= |ending| && name[|name| - |ending|..] == ending
  }

  /** And the digits are those of this number. */
  predicate NamesNumber(name: string, digits: string, n: nat) {
    NamesChunk(name, digits) && DecimalValue(digits) == n
  }

  /** The name without a newline at its end. */
  function Stem(name: string): string {
    if |name| >= 1 && name[|name| - 1] == '\n' then name[..|name| - 1] else name
  }

  /** A file is a draft of a chunk exactly when its name, but for one newline at the end, ends in such a
      text; the digits say which chunk. */
  lemma {:induction false} ChunkOfIff(name: string, n: nat)
    ensures ChunkOf(name) == Some(n) <==> exists digits :: NamesNumber(Stem(name), digits, n)
  {
    hide DecimalValue, NamesChunk, EndsWith, Stem, DigitsFrom;
    StemIs(name);
    var stem := Stem(name);
    if digits :| NamesNumber(stem, digits, n) {
      NamedChunk(stem, digits);
    }
    if ChunkOf(name) == Some(n) {
      var digits := DigitsOf(stem);
      assert NamesNumber(stem, digits, n);
    }
  }

  lemma {:induction false} StemIs(name: string)
    ensures Stem(name) == if EndsWith(name, "\n") then name[..|name| - 1] else name
  {
    if |name| >= 1 {
      assert name[|name| - 1..] == [name[|name| - 1]];
    }
  }

  /** What a name that ends so is cut into. */
  lemma {:induction false} NamedChunk(stem: string, digits: string)
    requires NamesChunk(stem, digits)
    ensures EndsWith(stem, SUFFIX) && |stem| >= |SUFFIX| && digits != ""
    ensures var head := stem[..|stem| - |SUFFIX|];
      && DigitsFrom(head) == |head| - |digits| && head[DigitsFrom(head)..] == digits
      && EndsWith(head[..DigitsFrom(head)], PREFIX)
  {
    var ending := "chunk-" + digits + "-extraction.json";
    var start := |stem| - |ending|;
    var head := stem[..|stem| - |SUFFIX|];
    assert ending == PREFIX + digits + SUFFIX;
    assert stem == stem[..start] + PREFIX + digits + SUFFIX;
    assert stem[|stem| - |SUFFIX|..] == SUFFIX;
    assert head == stem[..start] + PREFIX + digits;
    var i := start + |PREFIX|;
    assert head[i..] == digits;
    assert head[..i] == stem[..start] + PREFIX;
    assert head[i - 1] == '-';
    forall k | i <= k < |head|
      ensures IsDigit(head[k])
    {
      assert head[k] == digits[k - i];
    }
    DigitsFromIs(head, i);
    assert head[..i][start..] == PREFIX;
  }

  lemma {:induction false} DigitsOf(stem: string) returns (digits: string)
    requires EndsWith(stem, SUFFIX)
    requires var head := stem[..|stem| - |SUFFIX|];
      DigitsFrom(head) < |head| && EndsWith(head[..DigitsFrom(head)], PREFIX)
    ensures NamesChunk(stem, digits)
    ensures var head := stem[..|stem| - |SUFFIX|]; digits == head[DigitsFrom(head)..]
  {
    var head := stem[..|stem| - |SUFFIX|];
    var i := DigitsFrom(head);
    digits := head[i..];
    var start := i - |PREFIX|;
    assert head[..i][start..] == PREFIX;
    assert stem == head + SUFFIX && head == head[..start] + PREFIX + digits;
    assert stem[start..] == PREFIX + digits + SUFFIX;
    assert "chunk-" + digits + "-extraction.json" == PREFIX + digits + SUFFIX;
  }

  // ----- Which files are found -----

  /** The file at the end of a trail of directories, none of them named `previews`. */
  predicate Leads(dir: Dir, trail: seq<nat>, file: nat)
    decreases |trail|
  {
    && dir.name != "previews"
    && if trail == [] then file < |dir.files| else trail[0] < |dir.dirs| && Leads(dir.dirs[trail[0]], trail[1..], file)
  }

  /** What a directory found: a draft's name and its path. */
  function PathAt(dir: Dir, trail: seq<nat>, file: nat, prefix: string): string
    requires Leads(dir, trail, file)
    decreases |trail|
  {
    if trail == [] then prefix + "/" + dir.files[file]
    else PathAt(dir.dirs[trail[0]], trail[1..], file, prefix + "/" + dir.dirs[trail[0]].name)
  }

  function NameAt(dir: Dir, trail: seq<nat>, file: nat): string
    requires Leads(dir, trail, file)
    decreases |trail|
  {
    if trail == [] then dir.files[file] else NameAt(dir.dirs[trail[0]], trail[1..], file)
  }

  /** Found there, as a draft of its chunk. */
  predicate FoundAt(dir: Dir, prefix: string, f: Found, trail: seq<nat>, file: nat) {
    && Leads(dir, trail, file)
    && ChunkOf(NameAt(dir, trail, file)) == Some(f.chunk) && PathAt(dir, trail, file, prefix) == f.path
  }

  /** Found below the directory number `d`. */
  predicate FoundBelow(dirs: seq<Dir>, prefix: string, f: Found, d: nat, trail: seq<nat>, file: nat) {
    d < |dirs| && FoundAt(dirs[d], prefix + "/" + dirs[d].name, f, trail, file)
  }

  lemma {:induction false} FoundFilesAre(prefix: string, files: seq<string>, f: Found)
    ensures f in FoundFiles(prefix, files) <==>
      exists k :: 0 <= k < |files| && ChunkOf(files[k]) == Some(f.chunk) && f.path == prefix + "/" + files[k]
  {
    hide ChunkOf;
    if files != [] {
      var front, last := files[..|files| - 1], files[|files| - 1];
      FoundFilesAre(prefix, front, f);
      if k :| 0 <= k < |front| && ChunkOf(front[k]) == Some(f.chunk) && f.path == prefix + "/" + front[k] {
        assert files[k] == front[k];
      }
    }
  }

  /** Exactly the files that lie on such a trail and are named as drafts are found, each for the chunk it
      names. */
  lemma {:induction false} DiscoveredIff(dir: Dir, prefix: string, f: Found)
    ensures f in Discovered(dir, prefix) <==> exists trail, file: nat :: FoundAt(dir, prefix, f, trail, file)
    decreases dir, |dir.dirs| + 1
  {
    hide ChunkOf;
    if dir.name != "previews" {
      FoundFilesAre(prefix, dir.files, f);
      DiscoveredInIff(dir, dir.dirs, prefix, f);
      if k :| 0 <= k < |dir.files| && ChunkOf(dir.files[k]) == Some(f.chunk) && f.path == prefix + "/" + dir.files[k] {
        assert FoundAt(dir, prefix, f, [], k);
      }
      if d: nat, trail, file: nat :| FoundBelow(dir.dirs, prefix, f, d, trail, file) {
        assert ([d] + trail)[1..] == trail;
        assert FoundAt(dir, prefix, f, [d] + trail, file);
      }
      if trail, file: nat :| FoundAt(dir, prefix, f, trail, file) {
        if trail != [] {
          assert FoundBelow(dir.dirs, prefix, f, trail[0], trail[1..], file);
        }
      }
    }
  }

  lemma {:induction false} DiscoveredInIff(parent: Dir, dirs: seq<Dir>, prefix: string, f: Found)
    requires forall i :: 0 <= i < |dirs| ==> dirs[i] < parent
    ensures f in DiscoveredIn(parent, dirs, prefix) <==>
      exists d: nat, trail, file: nat :: FoundBelow(dirs, prefix, f, d, trail, file)
    decreases parent, |dirs|
  {
    hide FoundAt;
    if dirs != [] {
      var last := |dirs| - 1;
      DiscoveredInIff(parent, dirs[..last], prefix, f);
      DiscoveredIff(dirs[last], prefix + "/" + dirs[last].name, f);
      if trail, file: nat :| FoundAt(dirs[last], prefix + "/" + dirs[last].name, f, trail, file) {
        assert FoundBelow(dirs, prefix, f, last, trail, file);
      }
      if d: nat, trail, file: nat :| FoundBelow(dirs, prefix, f, d, trail, file) {
        assert d < last ==> FoundBelow(dirs[..last], prefix, f, d, trail, file);
      }
      if d: nat, trail, file: nat :| FoundBelow(dirs[..last], prefix, f, d, trail, file) {
        assert FoundBelow(dirs, prefix, f, d, trail, file);
      }
    }
  }

  /** The candidates of a chunk are exactly the files found for it. */
  lemma {:induction false} CandidatesAre(root: Dir, prefix: string, chunk: nat, path: string)
    ensures path in CandidatesIn(root, prefix)(chunk) <==> Found(chunk, path) in Discovered(root, prefix)
  {
    hide Discovered;
    SortByMembers(PathsFor(Discovered(root, prefix), chunk), EarlierPath);
    PathsForAre(Discovered(root, prefix), chunk, path);
  }

  lemma {:induction false} PathsForAre(found: seq<Found>, chunk: nat, path: string)
    ensures path in PathsFor(found, chunk) <==> Found(chunk, path) in found
  {
    if found != [] {
      var front, last := found[..|found| - 1], found[|found| - 1];
      assert found == front + [last];
      PathsForAre(front, chunk, path);
    }
  }

  // ----- Why a draft is rejected -----

  /** The item gives this text as the reason it asserts nothing. */
  predicate Gives(item: Item, text: string) {
    text != "" && (item.outcome == Candidate(Some(text)) || item.outcome == NoAssertion(Some(text)))
  }

  predicate AllGive(items: seq<Item>, text: string) {
    forall i :: 0 <= i < |items| ==> Gives(items[i], text)
  }

  predicate NoneHas(items: seq<Item>, id: string) {
    forall i :: 0 <= i < |items| ==> items[i].recordId != id
  }

  /** A draft is rejected as unreadable exactly without items; as a template exactly when it has several
      and all give one and the same reason; and otherwise exactly when its record IDs are not those of the
      chunk's transcript. */
  lemma {:induction false} ObjectionIff(path: string, read: Reader, transcript: Option<set<string>>)
    ensures var o, items := Objection(path, read, transcript), read(path).items;
      && (o == Some(ParseError) <==> items.None? || items.value == [])
      && (o == Some(Templated) <==>
            items.Some? && |items.value| >= 2 && exists text :: AllGive(items.value, text))
      && (o == Some(RecordIdMismatch) <==>
            && o != Some(ParseError) && o != Some(Templated)
            && (transcript.None? || exists id :: id in transcript.value <==> NoneHas(items.value, id)))
      && o != Some(Superseded)
  {
    var items := read(path).items;
    if items.Some? {
      TemplatedIff(items.value);
      if transcript.Some? {
        IdsDiffer(items.value, transcript.value);
      }
    }
  }

  lemma {:induction false} TemplatedIff(items: seq<Item>)
    ensures IsTemplated(items) <==>
      |items| >= 2 && exists text :: AllGive(items, text)
  {
    forall item: Item, text
      ensures Gives(item, text) <==> ReasonOf(item) == Some(text)
    {
    }
    if IsTemplated(items) {
      assert AllGive(items, ReasonOf(items[0]).value);
    }
  }

  lemma {:induction false} IdsDiffer(items: seq<Item>, transcript: set<string>)
    ensures RecordIds(items) != transcript <==>
      exists id :: id in transcript <==> NoneHas(items, id)
  {
    var ids := RecordIds(items);
    forall id
      ensures id in ids <==> !NoneHas(items, id)
    {
    }
    if ids != transcript {
      if forall id :: id in ids ==> id in transcript {
        var id :| id in transcript && id !in ids;
      } else {
        var id :| id in ids && id !in transcript;
      }
    }
  }

  lemma {:induction false} RejectionsAre(candidates: seq<string>, read: Reader, transcript: Option<set<string>>)
    ensures forall r :: r in Rejections(candidates, read, transcript) <==>
      r.path in candidates && Objection(r.path, read, transcript) == Some(r.reason)
    ensures forall p :: p in Survivors(candidates, read, transcript) <==>
      p in candidates && Objection(p, read, transcript).None?
  {
    hide Objection;
    if candidates != [] {
      var front, last := candidates[..|candidates| - 1], candidates[|candidates| - 1];
      assert candidates == front + [last];
      RejectionsAre(front, read, transcript);
    }
  }

  lemma {:induction false} SurvivorsOnce(candidates: seq<string>, read: Reader, transcript: Option<set<string>>)
    requires NoRepeats(candidates)
    ensures NoRepeats(Survivors(candidates, read, transcript))
  {
    hide Objection;
    if candidates != [] {
      var front, last := candidates[..|candidates| - 1], candidates[|candidates| - 1];
      SurvivorsOnce(front, read, transcript);
      RejectionsAre(front, read, transcript);
      assert last !in front;
    }
  }

  /** What an entry lists as rejected: every file with an objection under that objection, and every
      file without one that is not chosen, as superseded; in the order of their paths. */
  lemma {:induction false} RejectedIff(candidates: seq<string>, read: Reader, transcript: Option<set<string>>,
                                       r: Rejection)
    requires NoRepeats(candidates)
    ensures var entry := Evaluate(candidates, read, transcript);
      && (r in entry.rejected <==>
            && r.path in candidates
            && match Objection(r.path, read, transcript)
               case Some(reason) => r.reason == reason
               case None => r.reason == Superseded && entry.chosen != Some(r.path))
      && (forall i, j :: 0 <= i < j < |entry.rejected| ==> StringLeq(entry.rejected[i].path, entry.rejected[j].path))
  {
    hide Objection, StringLeq, Survivors, Rejections, SortBy;
    RejectionsAre(candidates, read, transcript);
    SurvivorsOnce(candidates, read, transcript);
    var rejected, survivors := Rejections(candidates, read, transcript), Survivors(candidates, read, transcript);
    var ranked := SortBy(survivors, Preference(read));
    SortByMembers(survivors, Preference(read));
    SortByNoRepeats(survivors, Preference(read));
    PathsAreOrdered();
    if survivors == [] {
      SortByMembers(rejected, PathBefore);
      SortBySorted(rejected, PathBefore);
      ListedInOrder(SortBy(rejected, PathBefore));
    } else {
      var superseded := SupersededBy(ranked[1..]);
      SupersededAre(ranked, r);
      SortByMembers(rejected + superseded, PathBefore);
      SortBySorted(rejected + superseded, PathBefore);
      ListedInOrder(SortBy(rejected + superseded, PathBefore));
    }
  }

  lemma {:induction false} PathsAreOrdered()
    ensures TotalPreorder(PathBefore)
  {
    StringOrder();
  }

  lemma {:induction false} ListedInOrder(rejected: seq<Rejection>)
    requires Sorted(rejected, PathBefore)
    ensures forall i, j :: 0 <= i < j < |rejected| ==> StringLeq(rejected[i].path, rejected[j].path)
  {
    forall i, j | 0 <= i < j < |rejected|
      ensures StringLeq(rejected[i].path, rejected[j].path)
    {
      assert PathBefore(rejected[i], rejected[j]);
    }
  }

  lemma {:induction false} SupersededAre(ranked: seq<string>, r: Rejection)
    requires ranked != [] && NoRepeats(ranked)
    ensures r in SupersededBy(ranked[1..]) <==> r.reason == Superseded && r.path in ranked && r.path != ranked[0]
  {
    var rest, listed := ranked[1..], SupersededBy(ranked[1..]);
    assert ranked == [ranked[0]] + rest;
    if r.reason == Superseded && r.path in rest {
      var k :| 0 <= k < |rest| && rest[k] == r.path;
      assert listed[k] == r;
    }
    if r in listed {
      var k :| 0 <= k < |listed| && listed[k] == r;
      assert rest[k] == r.path && ranked[k + 1] == r.path;
    }
  }

  // ----- The index -----

  /** Every chunk in range, and no other, has its entry, among the resolved ones exactly if a draft is
      chosen. */
  lemma {:induction false} EntriesAre(n: nat, resolved: bool, candidates: Candidates, read: Reader,
                                      transcripts: Transcripts, chunk: nat, entry: Entry)
    ensures (chunk, entry) in Entries(n, resolved, candidates, read, transcripts) <==>
      && 1 <= chunk <= n && entry == Evaluate(candidates(chunk), read, transcripts(chunk))
      && entry.chosen.Some? == resolved
  {
    hide Evaluate;
    if n > 0 {
      EntriesAre(n - 1, resolved, candidates, read, transcripts, chunk, entry);
    }
  }

  /** The chunks with several candidates are counted. */
  lemma {:induction false} MultipleCounts(n: nat, candidates: Candidates)
    ensures Multiple(n, candidates) == |set c: nat | 1 <= c <= n && |candidates(c)| >= 2|
  {
    var now := set c: nat | 1 <= c <= n && |candidates(c)| >= 2;
    if n == 0 {
      assert now == {};
    } else {
      MultipleCounts(n - 1, candidates);
      var before := set c: nat | 1 <= c <= n - 1 && |candidates(c)| >= 2;
      if |candidates(n)| >= 2 {
        assert now == before + {n};
      } else {
        assert now == before;
      }
    }
  }

  /** A rejection total counts the rejections with that reason. */
  lemma {:induction false} ReasonCounts(rejected: seq<Rejection>, reason: Reason)
    ensures CountReason(rejected, reason) == |set k: nat | k < |rejected| && rejected[k].reason == reason|
  {
    var now := set k: nat | k < |rejected| && rejected[k].reason == reason;
    if rejected == [] {
      assert now == {};
    } else {
      var last := |rejected| - 1;
      ReasonCounts(rejected[..last], reason);
      var before := set k: nat | k < last && rejected[..last][k].reason == reason;
      forall k: nat
        ensures k in now <==> k in before || (k == last && rejected[last].reason == reason)
      {
      }
      SizeStep(now, before, last, rejected[last].reason == reason);
    }
  }

  lemma {:induction false} SizeStep(now: set<nat>, before: set<nat>, n: nat, added: bool)
    requires forall k: nat :: k in now <==> k in before || (k == n && added)
    requires n !in before
    ensures |now| == |before| + if added then 1 else 0
  {
    assert now == if added then before + {n} else before;
  }
}
