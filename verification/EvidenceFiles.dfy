/** Which stored files a run must account for, in terms of path names, receipts and the disk alone,
    and exactly when a run succeeds. */
module EvidenceFiles {
  import opened Wrappers
  import opened Sorting
  import opened Strings
  import opened EvidenceIndex

  // ----- Path names -----

  lemma {:induction false} PiecesOfName(name: string)
    requires Free(name, '/')
    ensures Pieces(name) == [name]
  {
    if name != [] {
      PiecesOfName(name[1..]);
      assert [name[0]] + name[1..] == name;
    }
  }

  lemma {:induction false} PiecesAfterName(name: string, rest: string)
    requires Free(name, '/')
    ensures Pieces(name + "/" + rest) == [name] + Pieces(rest)
  {
    var path := name + "/" + rest;
    if name == [] {
      assert path[1..] == rest;
    } else {
      PiecesAfterName(name[1..], rest);
      assert path[1..] == name[1..] + "/" + rest;
      assert [name[0]] + name[1..] == name;
    }
  }

  /** A name of a path: not empty, not a dot, no slash. */
  predicate Plain(name: string) {
    name != "" && name != "." && Free(name, '/')
  }

  /** The parts of two or three plain names joined by slashes are those names. */
  lemma {:induction false} PartsOfNames(a: string, b: string, c: string)
    requires Plain(a) && Plain(b) && Plain(c)
    ensures Parts(a + "/" + b) == [a, b]
    ensures Parts(a + "/" + b + "/" + c) == [a, b, c]
  {
    PiecesOfName(b);
    PiecesOfName(c);
    PiecesAfterName(a, b);
    PiecesAfterName(b, c);
    PiecesAfterName(a, b + "/" + c);
    assert a + "/" + b + "/" + c == a + "/" + (b + "/" + c);
    KeptPlain([a, b]);
    KeptPlain([a, b, c]);
    assert (a + "/" + b)[0] == a[0] && (a + "/" + b + "/" + c)[0] == a[0];
  }

  lemma {:induction false} KeptPlain(names: seq<string>)
    requires forall k :: 0 <= k < |names| ==> Plain(names[k])
    ensures Kept(names) == names
  {
    if names != [] {
      assert Plain(names[0]);
      KeptPlain(names[1..]);
    }
  }

  /** 64 lower-case hexadecimal digits. */
  predicate IsHex64(d: string) {
    |d| == 64 && forall k :: 0 <= k < 64 ==> d[k] in "0123456789abcdef"
  }

  lemma {:induction false} HexDigits(d: string)
    ensures IsDigest(d) <==> IsHex64(d)
  {
    if |d| == 64 {
      forall k | 0 <= k < 64
        ensures d[k] in "0123456789abcdef" <==> '0' <= d[k] <= '9' || 'a' <= d[k] <= 'f'
      {
        HexDigit(d[k]);
      }
    }
  }

  lemma {:induction false} HexDigit(c: char)
    ensures c in "0123456789abcdef" <==> '0' <= c <= '9' || 'a' <= c <= 'f'
  {
    var digits := "0123456789abcdef";
    if '0' <= c <= '9' {
      assert digits[c as int - '0' as int] == c;
    }
    if 'a' <= c <= 'f' {
      assert digits[c as int - 'a' as int + 10] == c;
    }
  }

  /** The parts of a content-addressed path. */
  function CasParts(kind: Kind, d: string): seq<string> {
    match kind
    case MetadataRaw => ["metadata", "raw", d + ".json"]
    case MetadataProjection => ["metadata", "projections", d + ".json"]
    case QuarantineKind => ["quarantine", d]
  }

  /** A path is content-addressed exactly when its parts have one of the three forms. */
  lemma {:induction false} DescribedIff(path: string, kind: Kind, d: string)
    ensures Describe(path) == Some((kind, d)) <==> IsHex64(d) && Parts(path) == CasParts(kind, d)
  {
    hide Parts, IsDigest, IsHex64;
    HexDigits(d);
    var parts := Parts(path);
    if |parts| == 3 {
      var name := parts[2];
      if WithoutJson(name) == Some(d) {
        assert name == name[..|name| - 5] + name[|name| - 5..];
      }
      assert name == d + ".json" ==> name[|name| - 5..] == ".json" && name[..|name| - 5] == d;
    }
  }

  /** Every digest has its three files. */
  lemma {:induction false} EveryDigestHasItsFiles(d: string)
    requires IsHex64(d)
    ensures Describe("quarantine/" + d) == Some((QuarantineKind, d))
    ensures Describe("metadata/raw/" + d + ".json") == Some((MetadataRaw, d))
    ensures Describe("metadata/projections/" + d + ".json") == Some((MetadataProjection, d))
  {
    hide Describe, Parts, IsHex64;
    DigestIsPlain(d);
    PartsOfNames("quarantine", d, d);
    assert "quarantine" + "/" + d == "quarantine/" + d;
    DescribedIff("quarantine/" + d, QuarantineKind, d);
    MetadataFile("raw", MetadataRaw, d);
    MetadataFile("projections", MetadataProjection, d);
    assert "metadata/" + "raw" + "/" == "metadata/raw/";
    assert "metadata/" + "projections" + "/" == "metadata/projections/";
  }

  lemma {:induction false} DigestIsPlain(d: string)
    requires IsHex64(d)
    ensures Plain(d) && Plain(d + ".json")
  {
    forall k | 0 <= k < |d|
      ensures d[k] != '/'
    {
      HexDigit(d[k]);
    }
  }

  lemma {:induction false} MetadataFile(directory: string, kind: Kind, d: string)
    requires IsHex64(d) && Plain(directory) && CasParts(kind, d) == ["metadata", directory, d + ".json"]
    ensures Describe("metadata/" + directory + "/" + d + ".json") == Some((kind, d))
  {
    hide Describe, Parts, IsHex64;
    DigestIsPlain(d);
    PartsOfNames("metadata", directory, d + ".json");
    var path := "metadata/" + directory + "/" + d + ".json";
    assert "metadata" + "/" + directory + "/" + (d + ".json") == path;
    DescribedIff(path, kind, d);
  }

  // ----- The files a run must account for -----

  /** Some result points at this file. */
  predicate Names(results: seq<ResultRecord>, path: string, sha: string, bytes: nat) {
    exists i :: 0 <= i < |results| &&
      var file := Some(StoredFile(path, sha, bytes));
      results[i].raw == file || results[i].projection == file || results[i].quarantine == file
  }

  predicate NamesPath(results: seq<ResultRecord>, path: string) {
    exists i :: 0 <= i < |results| &&
      (|| (results[i].raw.Some? && results[i].raw.value.path == path)
       || (results[i].projection.Some? && results[i].projection.value.path == path)
       || (results[i].quarantine.Some? && results[i].quarantine.value.path == path))
  }

  lemma {:induction false} FilesAreNamed(result: ResultRecord, path: string, sha: string, bytes: nat)
    ensures Holds(FilesOf(result), path, sha, bytes) <==>
      var file := Some(StoredFile(path, sha, bytes));
      result.raw == file || result.projection == file || result.quarantine == file
  {
    var files := FilesOf(result);
    var raw, projection := FileRecord(result.raw, result.subject), FileRecord(result.projection, result.subject);
    if result.raw.Some? {
      assert files[0] == raw[0];
    }
    if result.projection.Some? {
      assert files[|raw|] == projection[0];
    }
    if result.quarantine.Some? {
      assert files[|raw| + |projection|] == FileRecord(result.quarantine, result.subject)[0];
    }
  }

  lemma {:induction false} ResultsAreNamed(results: seq<ResultRecord>, path: string, sha: string, bytes: nat)
    ensures Holds(ResultRecords(results), path, sha, bytes) <==> Names(results, path, sha, bytes)
  {
    if results != [] {
      hide Holds, FilesOf;
      var last := |results| - 1;
      ResultsAreNamed(results[..last], path, sha, bytes);
      FilesAreNamed(results[last], path, sha, bytes);
      HoldsConcat(ResultRecords(results[..last]), FilesOf(results[last]));
      if Names(results[..last], path, sha, bytes) {
        var file := Some(StoredFile(path, sha, bytes));
        var i :| 0 <= i < last
              && (results[..last][i].raw == file || results[..last][i].projection == file
                  || results[..last][i].quarantine == file);
        assert results[..last][i] == results[i];
      }
    }
  }

  lemma {:induction false} PathsAreNamed(results: seq<ResultRecord>, path: string)
    ensures HasPath(ResultRecords(results), path) <==> NamesPath(results, path)
  {
    hide Holds, ResultRecords;
    PathOfHolds(ResultRecords(results), path);
    if s, b :| Holds(ResultRecords(results), path, s, b) {
      ResultsAreNamed(results, path, s, b);
    }
    if NamesPath(results, path) {
      var i :| 0 <= i < |results| &&
        (|| (results[i].raw.Some? && results[i].raw.value.path == path)
         || (results[i].projection.Some? && results[i].projection.value.path == path)
         || (results[i].quarantine.Some? && results[i].quarantine.value.path == path));
      var file := if results[i].raw.Some? && results[i].raw.value.path == path then results[i].raw.value
                  else if results[i].projection.Some? && results[i].projection.value.path == path
                  then results[i].projection.value else results[i].quarantine.value;
      assert file == StoredFile(path, file.sha, file.bytes);
      assert Names(results, path, file.sha, file.bytes);
      ResultsAreNamed(results, path, file.sha, file.bytes);
    }
  }

  /** A result's file is remembered as retained evidence of the result's subject. */
  lemma {:induction false} RetainedOrigins(results: seq<ResultRecord>, path: string, origin: Origin)
    ensures HasOrigin(ResultRecords(results), path, origin) <==> exists i ::
      && 0 <= i < |results|
      && origin == Origin(RetainedPriorEvidence, results[i].subject, None)
      && NamesPath([results[i]], path)
  {
    if results != [] {
      var last := |results| - 1;
      RetainedOrigins(results[..last], path, origin);
      HoldsConcat(ResultRecords(results[..last]), FilesOf(results[last]));
      OwnOrigins(results[last], path, origin);
      if i :| 0 <= i < last && origin == Origin(RetainedPriorEvidence, results[..last][i].subject, None)
            && NamesPath([results[..last][i]], path) {
        assert results[..last][i] == results[i];
      }
    }
  }

  lemma {:induction false} OwnOrigins(result: ResultRecord, path: string, origin: Origin)
    ensures HasOrigin(FilesOf(result), path, origin) <==>
      origin == Origin(RetainedPriorEvidence, result.subject, None) && NamesPath([result], path)
  {
    var files := FilesOf(result);
    var raw, projection := FileRecord(result.raw, result.subject), FileRecord(result.projection, result.subject);
    assert [result][0] == result;
    if result.raw.Some? {
      assert files[0] == raw[0];
    }
    if result.projection.Some? {
      assert files[|raw|] == projection[0];
    }
    if result.quarantine.Some? {
      assert files[|raw| + |projection|] == FileRecord(result.quarantine, result.subject)[0];
    }
  }

  /** The previous receipt lists this file, in its history or with a result. */
  predicate Listed(receipt: Receipt, path: string, sha: string, bytes: nat) {
    Holds(receipt.history, path, sha, bytes) || Names(receipt.results, path, sha, bytes)
  }

  /** The recovered temporaries, as the files now stored for them. */
  predicate RecoveredAs(inputs: Inputs, hash: seq<Byte> -> string, path: string, sha: string, bytes: nat) {
    && Recovers(inputs.recovered, path)
    && path in inputs.disk && sha == hash(inputs.disk[path]) && bytes == |inputs.disk[path]|
  }

  /** The run has to account for this file: a result points at it, it was recovered, the history
      remembers it, or the previous run pointed at it and nothing newer stands at its path. */
  predicate Accountable(previous: Option<Receipt>, inputs: Inputs, hash: seq<Byte> -> string, path: string,
                        sha: string, bytes: nat) {
    || Names(inputs.results, path, sha, bytes)
    || RecoveredAs(inputs, hash, path, sha, bytes)
    || (&& previous.Some?
        && (|| Holds(previous.value.history, path, sha, bytes)
            || (&& Names(previous.value.results, path, sha, bytes)
                && !NamesPath(inputs.results, path) && !HasPath(previous.value.history, path))))
  }

  /** The file is stored under its own digest, with this size. */
  predicate StoredAs(disk: Disk, hash: seq<Byte> -> string, path: string, sha: string, bytes: nat) {
    && path in disk && hash(disk[path]) == sha && |disk[path]| == bytes
    && Describe(path).Some? && Describe(path).value.1 == sha
  }

  ghost predicate AllStored(records: seq<Record>, disk: Disk, hash: seq<Byte> -> string) {
    forall p, s, b :: Holds(records, p, s, b) ==> StoredAs(disk, hash, p, s, b)
  }

  // ----- What the working history holds -----

  lemma {:induction false} RecoveredHolds(history: seq<Record>, recovered: seq<Recovery>, disk: Disk,
                                          hash: seq<Byte> -> string)
    requires DistinctPaths(history) && MergeRecovered(history, recovered, disk, hash).Some?
    ensures var r := MergeRecovered(history, recovered, disk, hash).value;
      && DistinctPaths(r)
      && (forall p :: Recovers(recovered, p) ==> p in disk)
      && (forall p, s, b :: Holds(r, p, s, b) <==>
            || Holds(history, p, s, b)
            || (Recovers(recovered, p) && p in disk && s == hash(disk[p]) && b == |disk[p]|))
  {
    if recovered != [] {
      hide Holds, HasOrigin, Merge, DistinctPaths, AsEntry, Recovers, RecoversOrigin;
      var last := |recovered| - 1;
      RecoveredHolds(history, recovered[..last], disk, hash);
      var before := MergeRecovered(history, recovered[..last], disk, hash).value;
      var record := RecoveredRecord(recovered[last], disk, hash).value;
      EntryKeepsRecord(record);
      MergeMeaning(before, AsEntry(record).value);
      forall p {
        RecoversSnoc(recovered, p);
      }
    }
  }

  lemma {:induction false} ForgottenHolds(prior: seq<Record>, forgotten: seq<Record>, current: seq<Record>,
                                          history: seq<Record>, path: string, sha: string, bytes: nat)
    requires forall r :: r in forgotten <==> r in prior && !HasPath(current, r.path) && !HasPath(history, r.path)
    ensures Holds(forgotten, path, sha, bytes)
       <==> Holds(prior, path, sha, bytes) && !HasPath(current, path) && !HasPath(history, path)
  {
    hide HasPath;
    if Holds(forgotten, path, sha, bytes) {
      var i :| 0 <= i < |forgotten|
            && forgotten[i].path == path && forgotten[i].sha == sha && forgotten[i].bytes == bytes;
      assert forgotten[i] in forgotten;
    }
    if Holds(prior, path, sha, bytes) && !HasPath(current, path) && !HasPath(history, path) {
      var i :| 0 <= i < |prior| && prior[i].path == path && prior[i].sha == sha && prior[i].bytes == bytes;
      assert prior[i] in forgotten;
    }
  }

  /** The previous run's files that nothing newer replaces. */
  predicate Retired(previous: Receipt, results: seq<ResultRecord>, path: string, sha: string, bytes: nat) {
    Names(previous.results, path, sha, bytes) && !NamesPath(results, path) && !HasPath(previous.history, path)
  }

  lemma {:induction false} CarriedHolds(previous: Receipt, results: seq<ResultRecord>, prior: seq<Record>, path: string,
                                        sha: string, bytes: nat)
    requires MergeAll([], Contributions(previous)) == Some(prior)
    ensures Holds(Forgotten(prior, ResultRecords(results), previous.history), path, sha, bytes)
       <==> Retired(previous, results, path, sha, bytes)
  {
    hide Forgotten, ResultRecords, MergeAll, Holds, DistinctPaths, Names, NamesPath, HasPath;
    var rr := ResultRecords(results);
    NothingHeld();
    MergeAllMeaning([], Contributions(previous));
    ForgottenMembers(prior, rr, previous.history);
    HoldsConcat(Stripped(previous.history), ResultRecords(previous.results));
    StrippedHolds(previous.history);
    ForgottenHolds(prior, Forgotten(prior, rr, previous.history), rr, previous.history, path, sha, bytes);
    ResultsAreNamed(previous.results, path, sha, bytes);
    PathsAreNamed(results, path);
    PathOfHolds(previous.history, path);
  }

  lemma {:induction false} RememberedHolds(previous: Option<Receipt>, inputs: Inputs, hash: seq<Byte> -> string,
                                           path: string, sha: string, bytes: nat)
    requires previous.Some? ==> DistinctPaths(previous.value.history)
    requires Remembered(previous, inputs, hash).Some?
    ensures Holds(Remembered(previous, inputs, hash).value, path, sha, bytes) <==>
      || RecoveredAs(inputs, hash, path, sha, bytes)
      || (&& previous.Some?
          && (|| Holds(previous.value.history, path, sha, bytes)
              || Retired(previous.value, inputs.results, path, sha, bytes)))
    ensures forall p :: Recovers(inputs.recovered, p) ==> p in inputs.disk
    ensures DistinctPaths(Remembered(previous, inputs, hash).value)
  {
    hide MergeEntries, MergeRecovered, Forgotten, MergeAll, Holds, Recovers, DistinctPaths, Retired, Contributions,
      ResultRecords;
    if previous.Some? {
      var prior := MergeAll([], Contributions(previous.value)).value;
      var forgotten := Forgotten(prior, ResultRecords(inputs.results), previous.value.history);
      CarriedHolds(previous.value, inputs.results, prior, path, sha, bytes);
      EntriesMeaning(previous.value.history, forgotten);
      RecoveredHolds(MergeEntries(previous.value.history, forgotten).value, inputs.recovered, inputs.disk, hash);
    } else {
      NothingHeld();
      RecoveredHolds([], inputs.recovered, inputs.disk, hash);
    }
  }

  // ----- When a run succeeds -----

  lemma {:induction false} StoredAgree(records: seq<Record>, disk: Disk, hash: seq<Byte> -> string)
    requires AllStored(records, disk, hash)
    ensures Agree(records)
  {
    hide Holds, Describe;
  }

  lemma {:induction false} MergeStored(index: seq<Record>, record: Record, disk: Disk, hash: seq<Byte> -> string)
    requires DistinctPaths(index) && AllStored(index, disk, hash)
    requires StoredAs(disk, hash, record.path, record.sha, record.bytes)
    ensures Merge(index, record).Some?
    ensures var r := Merge(index, record).value; DistinctPaths(r) && AllStored(r, disk, hash)
  {
    hide Holds, Describe, Merge, DistinctPaths;
    MergeFailsIff(index, record);
    MergeMeaning(index, record);
  }

  /** Entries that are stored under their own digests merge. */
  lemma {:induction false} EntriesMerge(history: seq<Record>, records: seq<Record>, disk: Disk,
                                        hash: seq<Byte> -> string)
    requires DistinctPaths(history) && AllStored(history, disk, hash) && AllStored(records, disk, hash)
    ensures MergeEntries(history, records).Some?
    ensures var r := MergeEntries(history, records).value; DistinctPaths(r) && AllStored(r, disk, hash)
  {
    if records != [] {
      hide Merge, DistinctPaths, Describe;
      var front, last := records[..|records| - 1], records[|records| - 1];
      assert records == front + [last];
      HoldsSnoc(front, last);
      EntriesMerge(history, front, disk, hash);
      assert Holds(records, last.path, last.sha, last.bytes);
      MergeStored(MergeEntries(history, front).value, AsEntry(last).value, disk, hash);
    }
  }

  lemma {:induction false} RecoveredMerge(history: seq<Record>, recovered: seq<Recovery>, disk: Disk,
                                          hash: seq<Byte> -> string)
    requires DistinctPaths(history) && AllStored(history, disk, hash)
    requires forall p :: Recovers(recovered, p) ==> p in disk && StoredAs(disk, hash, p, hash(disk[p]), |disk[p]|)
    ensures MergeRecovered(history, recovered, disk, hash).Some?
  {
    if recovered != [] {
      hide Merge, DistinctPaths, Describe, Recovers, RecoversOrigin, AllStored;
      var last := |recovered| - 1;
      forall p {
        RecoversSnoc(recovered, p);
      }
      RecoveredMerge(history, recovered[..last], disk, hash);
      var before := MergeRecovered(history, recovered[..last], disk, hash).value;
      RecoveredStored(history, recovered[..last], disk, hash);
      assert Recovers(recovered, recovered[last].path);
      var record := RecoveredRecord(recovered[last], disk, hash).value;
      MergeStored(before, AsEntry(record).value, disk, hash);
    }
  }

  lemma {:induction false} RecoveredStored(history: seq<Record>, recovered: seq<Recovery>, disk: Disk,
                                           hash: seq<Byte> -> string)
    requires DistinctPaths(history) && AllStored(history, disk, hash)
    requires MergeRecovered(history, recovered, disk, hash).Some?
    requires forall p :: Recovers(recovered, p) ==> p in disk && StoredAs(disk, hash, p, hash(disk[p]), |disk[p]|)
    ensures var r := MergeRecovered(history, recovered, disk, hash).value; DistinctPaths(r) && AllStored(r, disk, hash)
  {
    hide Holds, Describe, Recovers, DistinctPaths, MergeRecovered;
    RecoveredHolds(history, recovered, disk, hash);
  }

  /** The working history exists when everything it would hold is stored. */
  lemma {:induction false} RememberedExists(previous: Option<Receipt>, inputs: Inputs, hash: seq<Byte> -> string)
    requires previous.Some? ==> DistinctPaths(previous.value.history) && Agree(Contributions(previous.value))
    requires forall p :: Recovers(inputs.recovered, p) ==>
      p in inputs.disk && StoredAs(inputs.disk, hash, p, hash(inputs.disk[p]), |inputs.disk[p]|)
    requires forall p, s, b :: Accountable(previous, inputs, hash, p, s, b) ==> StoredAs(inputs.disk, hash, p, s, b)
    ensures Remembered(previous, inputs, hash).Some?
  {
    hide MergeEntries, MergeRecovered, Forgotten, MergeAll, Holds, Recovers, DistinctPaths, Contributions,
      ResultRecords, StoredAs, Names, NamesPath, HasPath, Agree;
    NothingHeld();
    if previous.Some? {
      MergeSucceedsIff([], Contributions(previous.value));
      assert [] + Contributions(previous.value) == Contributions(previous.value);
      var prior := MergeAll([], Contributions(previous.value)).value;
      var forgotten := Forgotten(prior, ResultRecords(inputs.results), previous.value.history);
      forall p, s, b | Holds(forgotten, p, s, b)
        ensures StoredAs(inputs.disk, hash, p, s, b)
      {
        CarriedHolds(previous.value, inputs.results, prior, p, s, b);
        assert Accountable(previous, inputs, hash, p, s, b);
      }
      forall p, s, b | Holds(previous.value.history, p, s, b)
        ensures StoredAs(inputs.disk, hash, p, s, b)
      {
        assert Accountable(previous, inputs, hash, p, s, b);
      }
      EntriesMerge(previous.value.history, forgotten, inputs.disk, hash);
      RecoveredMerge(MergeEntries(previous.value.history, forgotten).value, inputs.recovered, inputs.disk, hash);
    } else {
      RecoveredMerge([], inputs.recovered, inputs.disk, hash);
    }
  }

  /** The index the run checks against the disk holds exactly the files it must account for. */
  lemma {:induction false} IndexedHolds(previous: Option<Receipt>, inputs: Inputs, hash: seq<Byte> -> string,
                                        current: seq<Record>, indexed: seq<Record>)
    requires previous.Some? ==> DistinctPaths(previous.value.history)
    requires Remembered(previous, inputs, hash).Some?
    requires MergeAll([], ResultRecords(inputs.results)) == Some(current)
    requires MergeAll(current, Stripped(Remembered(previous, inputs, hash).value)) == Some(indexed)
    ensures forall p, s, b :: Holds(indexed, p, s, b) <==> Accountable(previous, inputs, hash, p, s, b)
  {
    hide Remembered, MergeAll, Holds, DistinctPaths, ResultRecords, Names, NamesPath, HasPath, RecoveredAs, Stripped;
    var history := Remembered(previous, inputs, hash).value;
    NothingHeld();
    MergeAllMeaning([], ResultRecords(inputs.results));
    MergeAllMeaning(current, Stripped(history));
    StrippedHolds(history);
    forall p, s, b
      ensures Holds(indexed, p, s, b) <==> Accountable(previous, inputs, hash, p, s, b)
    {
      ResultsAreNamed(inputs.results, p, s, b);
      RememberedHolds(previous, inputs, hash, p, s, b);
    }
  }

  /** The previous receipt never lists one path with two digests or sizes. */
  ghost predicate Consistent(previous: Option<Receipt>) {
    previous.Some? ==> forall p, s, b, t, c ::
      Listed(previous.value, p, s, b) && Listed(previous.value, p, t, c) ==> s == t && b == c
  }

  lemma {:induction false} ConsistentAgrees(receipt: Receipt)
    ensures Agree(Contributions(receipt)) <==> Consistent(Some(receipt))
  {
    hide Holds, Names, ResultRecords, Stripped;
    StrippedHolds(receipt.history);
    HoldsConcat(Stripped(receipt.history), ResultRecords(receipt.results));
    forall p, s, b
      ensures Holds(Contributions(receipt), p, s, b) <==> Listed(receipt, p, s, b)
    {
      ResultsAreNamed(receipt.results, p, s, b);
    }
  }

  /** Exactly when a run publishes a history: the previous receipt is consistent, every recovered
      temporary is stored, every file to account for is stored under its own digest with its size,
      and every content-addressed file on disk is one of them. */
  lemma {:induction false} RunSucceedsIff(previous: Option<Receipt>, inputs: Inputs, hash: seq<Byte> -> string,
                                          encode: Origin -> string)
    requires previous.Some? ==> DistinctPaths(previous.value.history)
    ensures HistoryOf(previous, inputs, hash, encode).Some? <==>
      && Consistent(previous)
      && (forall i :: 0 <= i < |inputs.recovered| ==> inputs.recovered[i].path in inputs.disk)
      && (forall p, s, b :: Accountable(previous, inputs, hash, p, s, b) ==> StoredAs(inputs.disk, hash, p, s, b))
      && (forall p :: p in inputs.disk && Describe(p).Some? ==>
            exists s, b :: Accountable(previous, inputs, hash, p, s, b))
  {
    hide Remembered, MergeAll, DistinctPaths, Accountable, StoredAs, Consistent, StorageMatches, Published, Holds;
    if HistoryOf(previous, inputs, hash, encode).Some? {
      SuccessMeans(previous, inputs, hash, encode);
    }
    if && Consistent(previous)
       && (forall i :: 0 <= i < |inputs.recovered| ==> inputs.recovered[i].path in inputs.disk)
       && (forall p, s, b :: Accountable(previous, inputs, hash, p, s, b) ==> StoredAs(inputs.disk, hash, p, s, b))
       && (forall p :: p in inputs.disk && Describe(p).Some? ==>
             exists s, b :: Accountable(previous, inputs, hash, p, s, b))
    {
      RunSucceeds(previous, inputs, hash, encode);
    }
  }

  lemma {:induction false} SuccessMeans(previous: Option<Receipt>, inputs: Inputs, hash: seq<Byte> -> string,
                                        encode: Origin -> string)
    requires previous.Some? ==> DistinctPaths(previous.value.history)
    requires HistoryOf(previous, inputs, hash, encode).Some?
    ensures Consistent(previous)
    ensures forall i :: 0 <= i < |inputs.recovered| ==> inputs.recovered[i].path in inputs.disk
    ensures forall p, s, b :: Accountable(previous, inputs, hash, p, s, b) ==> StoredAs(inputs.disk, hash, p, s, b)
    ensures forall p :: p in inputs.disk && Describe(p).Some? ==>
      exists s, b :: Accountable(previous, inputs, hash, p, s, b)
  {
    hide MergeAll, MergeEntries, MergeRecovered, DistinctPaths, Accountable, Consistent, Published, Describe,
      Contributions, Agree;
    var current, history := MergeAll([], ResultRecords(inputs.results)).value, Remembered(previous, inputs, hash).value;
    var indexed := MergeAll(current, Stripped(history)).value;
    IndexedHolds(previous, inputs, hash, current, indexed);
    if previous.Some? {
      NothingHeld();
      MergeSucceedsIff([], Contributions(previous.value));
      assert [] + Contributions(previous.value) == Contributions(previous.value);
      ConsistentAgrees(previous.value);
    } else {
      assert Consistent(None) by { NoneIsConsistent(); }
    }
    forall i | 0 <= i < |inputs.recovered|
      ensures inputs.recovered[i].path in inputs.disk
    {
      RememberedHolds(previous, inputs, hash, "", "", 0);
      assert Recovers(inputs.recovered, inputs.recovered[i].path);
    }
    forall p, s, b | Accountable(previous, inputs, hash, p, s, b)
      ensures StoredAs(inputs.disk, hash, p, s, b)
    {
      assert Holds(indexed, p, s, b);
      var i :| 0 <= i < |indexed| && indexed[i].path == p && indexed[i].sha == s && indexed[i].bytes == b;
      assert RecordMatches(indexed[i], inputs.disk, hash);
    }
    forall p | p in inputs.disk && Describe(p).Some?
      ensures exists s, b :: Accountable(previous, inputs, hash, p, s, b)
    {
      PathOfHolds(indexed, p);
      var s, b :| Holds(indexed, p, s, b);
      assert Accountable(previous, inputs, hash, p, s, b);
    }
  }

  lemma {:induction false} NoneIsConsistent()
    ensures Consistent(None)
  {
  }

  lemma {:induction false} RunSucceeds(previous: Option<Receipt>, inputs: Inputs, hash: seq<Byte> -> string,
                                       encode: Origin -> string)
    requires previous.Some? ==> DistinctPaths(previous.value.history)
    requires Consistent(previous)
    requires forall i :: 0 <= i < |inputs.recovered| ==> inputs.recovered[i].path in inputs.disk
    requires forall p, s, b :: Accountable(previous, inputs, hash, p, s, b) ==> StoredAs(inputs.disk, hash, p, s, b)
    requires forall p :: p in inputs.disk && Describe(p).Some? ==>
      exists s, b :: Accountable(previous, inputs, hash, p, s, b)
    ensures HistoryOf(previous, inputs, hash, encode).Some?
  {
    hide Remembered, MergeAll, DistinctPaths, Consistent, Published, Describe, Contributions, Agree, Holds,
      ResultRecords, Names, NamesPath, HasPath, Accountable;
    if previous.Some? {
      ConsistentAgrees(previous.value);
    }
    forall p | Recovers(inputs.recovered, p)
      ensures p in inputs.disk && StoredAs(inputs.disk, hash, p, hash(inputs.disk[p]), |inputs.disk[p]|)
    {
      RecoveredIsAccountable(previous, inputs, hash, p);
    }
    RememberedExists(previous, inputs, hash);
    var history := Remembered(previous, inputs, hash).value;
    NothingHeld();
    ResultsStored(previous, inputs, hash);
    StoredAgree(ResultRecords(inputs.results), inputs.disk, hash);
    assert [] + ResultRecords(inputs.results) == ResultRecords(inputs.results);
    MergeSucceedsIff([], ResultRecords(inputs.results));
    var current := MergeAll([], ResultRecords(inputs.results)).value;
    MergeAllMeaning([], ResultRecords(inputs.results));
    HistoryStored(previous, inputs, hash, current);
    StoredAgree(current + Stripped(history), inputs.disk, hash);
    MergeSucceedsIff(current, Stripped(history));
    var indexed := MergeAll(current, Stripped(history)).value;
    IndexedHolds(previous, inputs, hash, current, indexed);
    IndexMatches(previous, inputs, hash, indexed);
  }

  lemma {:induction false} RecoveredIsAccountable(previous: Option<Receipt>, inputs: Inputs, hash: seq<Byte> -> string,
                                                  path: string)
    requires Recovers(inputs.recovered, path)
    requires forall i :: 0 <= i < |inputs.recovered| ==> inputs.recovered[i].path in inputs.disk
    ensures path in inputs.disk
    ensures Accountable(previous, inputs, hash, path, hash(inputs.disk[path]), |inputs.disk[path]|)
  {
    hide Names, Holds;
  }

  lemma {:induction false} ResultsStored(previous: Option<Receipt>, inputs: Inputs, hash: seq<Byte> -> string)
    requires forall p, s, b :: Accountable(previous, inputs, hash, p, s, b) ==> StoredAs(inputs.disk, hash, p, s, b)
    ensures AllStored(ResultRecords(inputs.results), inputs.disk, hash)
  {
    hide Holds, Names, StoredAs, ResultRecords, NamesPath, HasPath;
    forall p, s, b | Holds(ResultRecords(inputs.results), p, s, b)
      ensures StoredAs(inputs.disk, hash, p, s, b)
    {
      ResultsAreNamed(inputs.results, p, s, b);
      assert Accountable(previous, inputs, hash, p, s, b);
    }
  }

  lemma {:induction false} HistoryStored(previous: Option<Receipt>, inputs: Inputs, hash: seq<Byte> -> string,
                                         current: seq<Record>)
    requires previous.Some? ==> DistinctPaths(previous.value.history)
    requires Remembered(previous, inputs, hash).Some?
    requires Combines(current, [], ResultRecords(inputs.results))
    requires AllStored(ResultRecords(inputs.results), inputs.disk, hash)
    requires forall p, s, b :: Accountable(previous, inputs, hash, p, s, b) ==> StoredAs(inputs.disk, hash, p, s, b)
    ensures AllStored(current + Stripped(Remembered(previous, inputs, hash).value), inputs.disk, hash)
  {
    hide Holds, HasOrigin, DistinctPaths, Names, StoredAs, ResultRecords, NamesPath, HasPath, Remembered, RecoveredAs,
      Stripped;
    var history := Remembered(previous, inputs, hash).value;
    NothingHeld();
    StrippedHolds(history);
    HoldsConcat(current, Stripped(history));
    forall p, s, b | Holds(current + Stripped(history), p, s, b)
      ensures StoredAs(inputs.disk, hash, p, s, b)
    {
      RememberedHolds(previous, inputs, hash, p, s, b);
      assert Holds(history, p, s, b) ==> Accountable(previous, inputs, hash, p, s, b);
    }
  }

  lemma {:induction false} IndexMatches(previous: Option<Receipt>, inputs: Inputs, hash: seq<Byte> -> string,
                                        indexed: seq<Record>)
    requires forall p, s, b :: Holds(indexed, p, s, b) <==> Accountable(previous, inputs, hash, p, s, b)
    requires forall p, s, b :: Accountable(previous, inputs, hash, p, s, b) ==> StoredAs(inputs.disk, hash, p, s, b)
    requires forall p :: p in inputs.disk && Describe(p).Some? ==>
      exists s, b :: Accountable(previous, inputs, hash, p, s, b)
    ensures StorageMatches(indexed, inputs.disk, hash)
  {
    hide Accountable, Describe;
    forall i | 0 <= i < |indexed|
      ensures RecordMatches(indexed[i], inputs.disk, hash)
    {
      assert Holds(indexed, indexed[i].path, indexed[i].sha, indexed[i].bytes);
      assert StoredAs(inputs.disk, hash, indexed[i].path, indexed[i].sha, indexed[i].bytes);
    }
    forall p | p in inputs.disk && Describe(p).Some?
      ensures HasPath(indexed, p)
    {
      var s, b :| Accountable(previous, inputs, hash, p, s, b);
      PathOfHolds(indexed, p);
    }
  }

  /** A content-addressed file on disk that no receipt, result or recovery names stops the run. */
  lemma {:induction false} OrphanIsRefused(previous: Option<Receipt>, inputs: Inputs, hash: seq<Byte> -> string,
                                           encode: Origin -> string, path: string, d: string)
    requires previous.Some? ==> DistinctPaths(previous.value.history)
    requires IsHex64(d) && path in inputs.disk
    requires path in {"quarantine/" + d, "metadata/raw/" + d + ".json", "metadata/projections/" + d + ".json"}
    requires forall s, b :: !Names(inputs.results, path, s, b)
    requires forall i :: 0 <= i < |inputs.recovered| ==> inputs.recovered[i].path != path
    requires previous.Some? ==> forall s, b :: !Listed(previous.value, path, s, b)
    ensures HistoryOf(previous, inputs, hash, encode).None?
  {
    hide HistoryOf, Holds, Names, NamesPath, HasPath, Describe, StoredAs, Consistent, DistinctPaths, IsHex64;
    EveryDigestHasItsFiles(d);
    RunSucceedsIff(previous, inputs, hash, encode);
    forall s, b
      ensures !Accountable(previous, inputs, hash, path, s, b)
    {
      if previous.Some? {
        assert !Listed(previous.value, path, s, b);
      }
    }
  }

  // ----- What a history entry may say -----

  /** A history entry is accepted exactly when it stands under the path of its own kind and digest, and
      lists its origins in order and once each: prior results of catalog subjects, and recovered
      temporaries under the subject their name belongs to. */
  lemma {:induction false} EntryOkIff(entry: Record, subjects: set<string>, recognized: string -> Option<string>,
                                      encode: Origin -> string)
    requires Injective(encode)
    ensures EntryOk(entry, subjects, recognized, encode) <==>
      && entry.kind.Some? && IsHex64(entry.sha) && Parts(entry.path) == CasParts(entry.kind.value, entry.sha)
      && (forall i, j :: 0 <= i < j < |entry.origins| ==>
            && StringLeq(encode(entry.origins[i]), encode(entry.origins[j])) && entry.origins[i] != entry.origins[j])
      && (forall o :: o in entry.origins ==>
            match o.code
            case RetainedPriorEvidence => o.subject in subjects && o.originalPath.None?
            case InterruptedTempRecovered =>
              o.originalPath.Some? && recognized(o.originalPath.value) == Some(o.subject))
  {
    hide Describe, Parts, IsHex64, StringLeq;
    if Describe(entry.path).Some? {
      DescribedIff(entry.path, Describe(entry.path).value.0, Describe(entry.path).value.1);
    }
    if entry.kind.Some? {
      DescribedIff(entry.path, entry.kind.value, entry.sha);
    }
    StringOrder();
  }

  /** A receipt's history is accepted exactly when its entries are, in strict order of their paths, and
      nothing the receipt lists contradicts another. */
  lemma {:induction false} HistoryOkIff(receipt: Receipt, subjects: set<string>, recognized: string -> Option<string>,
                                        encode: Origin -> string)
    ensures HistoryOk(receipt, subjects, recognized, encode) <==>
      && (forall entry :: entry in receipt.history ==> EntryOk(entry, subjects, recognized, encode))
      && (forall i, j :: 0 <= i < j < |receipt.history| ==>
            && StringLeq(receipt.history[i].path, receipt.history[j].path)
            && receipt.history[i].path != receipt.history[j].path)
      && Consistent(Some(receipt))
  {
    hide EntryOk, StringLeq, Consistent, MergeAll, Agree, Contributions;
    ConsistentAgrees(receipt);
    NothingHeld();
    MergeSucceedsIff([], Contributions(receipt));
    assert [] + Contributions(receipt) == Contributions(receipt);
    if forall entry :: entry in receipt.history ==> EntryOk(entry, subjects, recognized, encode) {
      forall i | 0 <= i < |receipt.history|
        ensures EntryOk(receipt.history[i], subjects, recognized, encode)
      {
        assert receipt.history[i] in receipt.history;
      }
    }
  }

  /** Repeated slashes and dots make no parts, and a leading slash makes one. */
  lemma {:induction false} PartsSkip(a: string, b: string)
    requires Plain(a) && Plain(b)
    ensures Parts(a + "//" + b) == [a, b]
    ensures Parts("./" + a + "/" + b) == [a, b]
    ensures Parts("/" + a + "/" + b) == ["/", a, b]
  {
    hide Kept, Pieces;
    KeptSkips(a, b);
    PiecesSkip(a, b);
    assert (a + "//" + b)[0] == a[0] && a[0] != '/' by { assert Free(a, '/'); }
  }

  lemma {:induction false} KeptSkips(a: string, b: string)
    requires Plain(a) && Plain(b)
    ensures Kept([a, "", b]) == [a, b] && Kept([".", a, b]) == [a, b] && Kept(["", a, b]) == [a, b]
  {
    KeptPlain([b]);
    KeptPlain([a, b]);
    assert [a, "", b][1..] == ["", b] && ["", b][1..] == [b];
    assert [".", a, b][1..] == [a, b] && ["", a, b][1..] == [a, b];
  }

  lemma {:induction false} PiecesSkip(a: string, b: string)
    requires Plain(a) && Plain(b)
    ensures Pieces(a + "//" + b) == [a, "", b]
    ensures Pieces("./" + a + "/" + b) == [".", a, b]
    ensures Pieces("/" + a + "/" + b) == ["", a, b]
  {
    hide Pieces;
    PiecesOfName(b);
    PiecesAfterName(a, b);
    PiecesAfterName("", b);
    PiecesAfterName(a, "/" + b);
    PiecesAfterName(".", a + "/" + b);
    PiecesAfterName("", a + "/" + b);
    assert a + "//" + b == a + "/" + ("/" + b) && "" + "/" + b == "/" + b;
    assert "./" + a + "/" + b == "." + "/" + (a + "/" + b) && "/" + a + "/" + b == "" + "/" + (a + "/" + b);
  }
}
