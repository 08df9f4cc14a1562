/** The content-addressed evidence index of `acquisition.py`: every run must account for every
    stored payload, and no run may forget one. */
module EvidenceIndex {
  import opened Wrappers
  import opened Sorting
  import opened Strings

  type Byte = b: int | 0 <= b < 256

  datatype Terminal = RetainedPriorEvidence | InterruptedTempRecovered

  datatype Origin = Origin(code: Terminal, subject: string, originalPath: Option<string>)

  datatype Kind = MetadataRaw | MetadataProjection | QuarantineKind

  /** An index record; history entries also carry their storage kind. */
  datatype Record = Record(kind: Option<Kind>, path: string, sha: string, bytes: nat, origins: seq<Origin>)

  datatype StoredFile = StoredFile(path: string, sha: string, bytes: nat)

  /** The files one result points at; an artifact has at most a quarantine file. */
  datatype ResultRecord = ResultRecord(subject: string, raw: Option<StoredFile>, projection: Option<StoredFile>,
                                       quarantine: Option<StoredFile>)

  datatype Receipt = Receipt(history: seq<Record>, results: seq<ResultRecord>)

  datatype IndexError =
    | IndexConflict | HistoryDigestDiffers | RecoveredUnreadable | Unindexed | Missing | PayloadDiffers

  // ----- Content-addressed paths -----

  /** The pieces between slashes. */
  function Pieces(path: string): (r: seq<string>)
    ensures |r| >= 1
  {
    if path == [] then [""]
    else
      var rest := Pieces(path[1..]);
      if path[0] == '/' then [""] + rest else [[path[0]] + rest[0]] + rest[1..]
  }

  function Kept(pieces: seq<string>): seq<string> {
    if pieces == [] then []
    else (if pieces[0] == "" || pieces[0] == "." then [] else [pieces[0]]) + Kept(pieces[1..])
  }

  /** `PurePosixPath(path).parts`. */
  function Parts(path: string): seq<string> {
    (if path != "" && path[0] == '/' then ["/"] else []) + Kept(Pieces(path))
  }

  predicate IsDigest(name: string) {
    |name| == 64 && forall k :: 0 <= k < |name| ==> '0' <= name[k] <= '9' || 'a' <= name[k] <= 'f'
  }

  function WithoutJson(name: string): Option<string> {
    if |name| >= 5 && name[|name| - 5..] == ".json" then Some(name[..|name| - 5]) else None
  }

  /** `_cas_descriptor`. */
  function Describe(path: string): Option<(Kind, string)> {
    var parts := Parts(path);
    if |parts| == 3 && parts[0] == "metadata" && (parts[1] == "raw" || parts[1] == "projections") then
      var digest := WithoutJson(parts[2]);
      if digest.Some? && IsDigest(digest.value) then
        Some((if parts[1] == "raw" then MetadataRaw else MetadataProjection, digest.value))
      else None
    else if |parts| == 2 && parts[0] == "quarantine" && IsDigest(parts[1]) then Some((QuarantineKind, parts[1]))
    else None
  }

  // ----- Merging records into an index -----

  function Find(index: seq<Record>, path: string): (i: Option<nat>)
    ensures i.Some? ==> i.value < |index| && index[i.value].path == path
    ensures i.None? <==> forall k :: 0 <= k < |index| ==> index[k].path != path
  {
    if index == [] then None
    else if index[|index| - 1].path == path then Some(|index| - 1)
    else Find(index[..|index| - 1], path)
  }

  predicate DistinctPaths(index: seq<Record>) {
    forall i, j :: 0 <= i < j < |index| ==> index[i].path != index[j].path
  }

  /** Some record lists this path, digest and size. */
  predicate Holds(index: seq<Record>, path: string, sha: string, bytes: nat) {
    exists i :: 0 <= i < |index| && index[i].path == path && index[i].sha == sha && index[i].bytes == bytes
  }

  predicate HasPath(index: seq<Record>, path: string) {
    exists i :: 0 <= i < |index| && index[i].path == path
  }

  predicate HasOrigin(index: seq<Record>, path: string, origin: Origin) {
    exists i :: 0 <= i < |index| && index[i].path == path && origin in index[i].origins
  }

  /** `_merge_cas_record` and, with a kind, `_merge_history_entry`. */
  function Merge(index: seq<Record>, record: Record): Option<seq<Record>> {
    var i := Find(index, record.path);
    if i.None? then Some(index + [record])
    else
      var existing := index[i.value];
      if existing.sha != record.sha || existing.bytes != record.bytes then None
      else Some(index[i.value := existing.(origins := existing.origins + record.origins)])
  }

  function MergeAll(index: seq<Record>, records: seq<Record>): Option<seq<Record>> {
    if records == [] then Some(index)
    else
      var before := MergeAll(index, records[..|records| - 1]);
      if before.None? then None else Merge(before.value, records[|records| - 1])
  }

  /** What an index says is what was put in: same files, same origins, one record per path. */
  ghost predicate Combines(r: seq<Record>, index: seq<Record>, records: seq<Record>) {
    && DistinctPaths(r)
    && (forall p, s, b :: Holds(r, p, s, b) <==> Holds(index, p, s, b) || Holds(records, p, s, b))
    && (forall p, o :: HasOrigin(r, p, o) <==> HasOrigin(index, p, o) || HasOrigin(records, p, o))
  }

  lemma {:induction false} HoldsSnoc(records: seq<Record>, record: Record)
    ensures forall p, s, b ::
      Holds(records + [record], p, s, b)
      <==> Holds(records, p, s, b) || (record.path == p && record.sha == s && record.bytes == b)
    ensures forall p, o ::
      HasOrigin(records + [record], p, o)
      <==> HasOrigin(records, p, o) || (record.path == p && o in record.origins)
  {
    var longer := records + [record];
    assert longer[|records|] == record;
    forall p, s, b | Holds(records, p, s, b)
      ensures Holds(longer, p, s, b)
    {
      var i :| 0 <= i < |records| && records[i].path == p && records[i].sha == s && records[i].bytes == b;
      assert longer[i] == records[i];
    }
    forall p, o | HasOrigin(records, p, o)
      ensures HasOrigin(longer, p, o)
    {
      var i :| 0 <= i < |records| && records[i].path == p && o in records[i].origins;
      assert longer[i] == records[i];
    }
  }

  lemma {:induction false} MergeMeaning(index: seq<Record>, record: Record)
    requires DistinctPaths(index) && Merge(index, record).Some?
    ensures var r := Merge(index, record).value;
      && DistinctPaths(r)
      && (forall p, s, b :: Holds(r, p, s, b)
            <==> Holds(index, p, s, b) || (record.path == p && record.sha == s && record.bytes == b))
      && (forall p, o :: HasOrigin(r, p, o)
            <==> HasOrigin(index, p, o) || (record.path == p && o in record.origins))
  {
    var i := Find(index, record.path);
    if i.None? {
      HoldsSnoc(index, record);
    } else {
      MergeInPlace(index, record, i.value);
    }
  }

  lemma {:induction false} MergeInPlace(index: seq<Record>, record: Record, i: nat)
    requires DistinctPaths(index) && i < |index| && index[i].path == record.path
    requires index[i].sha == record.sha && index[i].bytes == record.bytes
    ensures var r := index[i := index[i].(origins := index[i].origins + record.origins)];
      && DistinctPaths(r)
      && (forall p, s, b :: Holds(r, p, s, b) <==> Holds(index, p, s, b))
      && (forall p, o :: HasOrigin(r, p, o)
            <==> HasOrigin(index, p, o) || (record.path == p && o in record.origins))
      && Holds(index, record.path, record.sha, record.bytes)
  {
    var r := index[i := index[i].(origins := index[i].origins + record.origins)];
    forall p, s, b
      ensures Holds(r, p, s, b) <==> Holds(index, p, s, b)
    {
      if Holds(index, p, s, b) {
        var k :| 0 <= k < |index| && index[k].path == p && index[k].sha == s && index[k].bytes == b;
        assert r[k].path == p;
      }
      if Holds(r, p, s, b) {
        var k :| 0 <= k < |r| && r[k].path == p && r[k].sha == s && r[k].bytes == b;
        assert index[k].path == p;
      }
    }
    forall p, o
      ensures HasOrigin(r, p, o) <==> HasOrigin(index, p, o) || (record.path == p && o in record.origins)
    {
      if HasOrigin(index, p, o) {
        var k :| 0 <= k < |index| && index[k].path == p && o in index[k].origins;
        assert r[k].path == p && o in r[k].origins;
      }
      if record.path == p && o in record.origins {
        assert r[i].path == p && o in r[i].origins;
      }
      if HasOrigin(r, p, o) {
        var k :| 0 <= k < |r| && r[k].path == p && o in r[k].origins;
        assert index[k].path == p;
      }
    }
  }

  lemma {:induction false} CombinesStep(before: seq<Record>, index: seq<Record>, records: seq<Record>, record: Record,
                                        added: Record)
    requires Combines(before, index, records)
    requires added == record.(kind := added.kind) && Merge(before, added).Some?
    ensures Combines(Merge(before, added).value, index, records + [record])
  {
    hide Holds, HasOrigin, Merge, DistinctPaths;
    MergeMeaning(before, added);
    HoldsSnoc(records, record);
  }

  lemma {:induction false} MergeAllMeaning(index: seq<Record>, records: seq<Record>)
    requires DistinctPaths(index) && MergeAll(index, records).Some?
    ensures Combines(MergeAll(index, records).value, index, records)
  {
    if records != [] {
      hide Combines, Merge, DistinctPaths;
      var last := |records| - 1;
      MergeAllMeaning(index, records[..last]);
      CombinesStep(MergeAll(index, records[..last]).value, index, records[..last], records[last], records[last]);
      assert records == records[..last] + [records[last]];
    } else {
      assert forall p, s, b :: !Holds([], p, s, b);
      assert forall p, o :: !HasOrigin([], p, o);
    }
  }

  /** Records of one path never disagree. */
  ghost predicate Agree(index: seq<Record>) {
    forall p, s, b, t, c :: Holds(index, p, s, b) && Holds(index, p, t, c) ==> s == t && b == c
  }

  lemma {:induction false} AgreeSnoc(records: seq<Record>, record: Record)
    ensures Agree(records + [record])
       <==> Agree(records) && forall s, b :: Holds(records, record.path, s, b) ==> s == record.sha && b == record.bytes
  {
    hide Holds;
    HoldsSnoc(records, record);
    var longer := records + [record];
    assert Holds(longer, record.path, record.sha, record.bytes);
    if Agree(longer) {
      forall s, b | Holds(records, record.path, s, b)
        ensures s == record.sha && b == record.bytes
      {
        assert Holds(longer, record.path, s, b);
      }
    }
  }

  /** Merging succeeds exactly when no two records of one path disagree. */
  lemma {:induction false} MergeSucceedsIff(index: seq<Record>, records: seq<Record>)
    requires DistinctPaths(index)
    ensures MergeAll(index, records).Some? <==> Agree(index + records)
  {
    if records == [] {
      assert index + records == index;
      DistinctAgree(index);
    } else {
      hide Holds, HasOrigin, DistinctPaths, Agree, Merge;
      var last := |records| - 1;
      MergeSucceedsIff(index, records[..last]);
      assert index + records == (index + records[..last]) + [records[last]];
      AgreeSnoc(index + records[..last], records[last]);
      if MergeAll(index, records[..last]).Some? {
        MergeAllMeaning(index, records[..last]);
        HoldsConcat(index, records[..last]);
        MergeFailsIff(MergeAll(index, records[..last]).value, records[last]);
      }
    }
  }

  lemma {:induction false} HoldsConcat(a: seq<Record>, b: seq<Record>)
    ensures forall p, s, n :: Holds(a + b, p, s, n) <==> Holds(a, p, s, n) || Holds(b, p, s, n)
    ensures forall p, o :: HasOrigin(a + b, p, o) <==> HasOrigin(a, p, o) || HasOrigin(b, p, o)
    decreases |b|
  {
    if b == [] {
      assert a + b == a;
    } else {
      var last := |b| - 1;
      HoldsConcat(a, b[..last]);
      HoldsSnoc(a + b[..last], b[last]);
      HoldsSnoc(b[..last], b[last]);
      assert a + b == (a + b[..last]) + [b[last]] && b == b[..last] + [b[last]];
    }
  }

  lemma {:induction false} MergeFailsIff(index: seq<Record>, record: Record)
    requires DistinctPaths(index)
    ensures Merge(index, record).None?
       <==> exists s, b :: Holds(index, record.path, s, b) && (s != record.sha || b != record.bytes)
  {
    var i := Find(index, record.path);
    if i.Some? {
      assert Holds(index, record.path, index[i.value].sha, index[i.value].bytes);
      forall s, b | Holds(index, record.path, s, b)
        ensures s == index[i.value].sha && b == index[i.value].bytes
      {
      }
    }
  }

  lemma {:induction false} DistinctAgree(index: seq<Record>)
    requires DistinctPaths(index)
    ensures Agree(index)
  {
  }

  // ----- The records of a receipt -----

  function Retained(subject: string): Origin {
    Origin(RetainedPriorEvidence, subject, None)
  }

  function FileRecord(file: Option<StoredFile>, subject: string): seq<Record> {
    if file.None? then []
    else [Record(None, file.value.path, file.value.sha, file.value.bytes, [Retained(subject)])]
  }

  function FilesOf(result: ResultRecord): seq<Record> {
    FileRecord(result.raw, result.subject) + FileRecord(result.projection, result.subject)
    + FileRecord(result.quarantine, result.subject)
  }

  function ResultRecords(results: seq<ResultRecord>): seq<Record> {
    if results == [] then []
    else ResultRecords(results[..|results| - 1]) + FilesOf(results[|results| - 1])
  }

  function Stripped(history: seq<Record>): (r: seq<Record>)
    ensures |r| == |history|
  {
    seq(|history|, i requires 0 <= i < |history| => history[i].(kind := None, origins := []))
  }

  /** Every record a receipt contributes to the index, history first. */
  function Contributions(receipt: Receipt): seq<Record> {
    Stripped(receipt.history) + ResultRecords(receipt.results)
  }

  lemma {:induction false} MergeAllConcat(index: seq<Record>, a: seq<Record>, b: seq<Record>)
    ensures MergeAll(index, a + b)
         == if MergeAll(index, a).None? then None else MergeAll(MergeAll(index, a).value, b)
    decreases |b|
  {
    if b == [] {
      assert a + b == a;
    } else {
      var last := |b| - 1;
      MergeAllConcat(index, a, b[..last]);
      assert (a + b)[..|a + b| - 1] == a + b[..last];
    }
  }

  method MergeHistory(index: seq<Record>, history: seq<Record>) returns (r: Option<seq<Record>>)
    ensures r == MergeAll(index, Stripped(history))
  {
    var records := index;
    for i := 0 to |history|
      invariant MergeAll(index, Stripped(history)[..i]) == Some(records)
    {
      hide MergeAll, Merge;
      assert Stripped(history)[..i + 1] == Stripped(history)[..i] + [Stripped(history)[i]];
      MergeAllConcat(index, Stripped(history)[..i], [Stripped(history)[i]]);
      MergeOne(records, Stripped(history)[i]);
      var merged := Merge(records, history[i].(kind := None, origins := []));
      if merged.None? {
        FailureIsFinal(index, Stripped(history), i + 1);
        return None;
      }
      records := merged.value;
    }
    assert Stripped(history)[..|history|] == Stripped(history);
    return Some(records);
  }

  method MergeResults(index: seq<Record>, results: seq<ResultRecord>) returns (r: Option<seq<Record>>)
    ensures r == MergeAll(index, ResultRecords(results))
  {
    var records := index;
    for i := 0 to |results|
      invariant MergeAll(index, ResultRecords(results[..i])) == Some(records)
    {
      hide MergeAll, Merge;
      assert results[..i + 1][..i] == results[..i];
      MergeAllConcat(index, ResultRecords(results[..i]), FilesOf(results[i]));
      var merged := MergeFiles(records, results[i]);
      if merged.None? {
        ResultsPrefix(results, i + 1);
        FailureIsFinal(index, ResultRecords(results), |ResultRecords(results[..i + 1])|);
        return None;
      }
      records := merged.value;
    }
    assert results[..|results|] == results;
    return Some(records);
  }

  /** `_prior_cas_records`. */
  method PriorCasRecords(receipt: Receipt) returns (r: Option<seq<Record>>)
    ensures r == MergeAll([], Contributions(receipt))
  {
    hide MergeAll, Merge;
    MergeAllConcat([], Stripped(receipt.history), ResultRecords(receipt.results));
    r := MergeHistory([], receipt.history);
    if r.Some? {
      r := MergeResults(r.value, receipt.results);
    }
  }

  lemma {:induction false} MergeOne(index: seq<Record>, record: Record)
    ensures MergeAll(index, [record]) == Merge(index, record)
  {
    assert [record][..0] == [];
  }

  method MergeFiles(index: seq<Record>, result: ResultRecord) returns (r: Option<seq<Record>>)
    ensures r == MergeAll(index, FilesOf(result))
  {
    hide MergeAll, Merge;
    var raw, projection, quarantine :=
      FileRecord(result.raw, result.subject), FileRecord(result.projection, result.subject),
        FileRecord(result.quarantine, result.subject);
    MergeAllConcat(index, raw + projection, quarantine);
    MergeAllConcat(index, raw, projection);
    r := MergeFile(index, result.raw, result.subject);
    if r.Some? {
      r := MergeFile(r.value, result.projection, result.subject);
    }
    if r.Some? {
      r := MergeFile(r.value, result.quarantine, result.subject);
    }
  }

  method MergeFile(index: seq<Record>, file: Option<StoredFile>, subject: string) returns (r: Option<seq<Record>>)
    ensures r == MergeAll(index, FileRecord(file, subject))
  {
    if file.None? {
      return Some(index);
    }
    MergeOne(index, FileRecord(file, subject)[0]);
    return Merge(index, Record(None, file.value.path, file.value.sha, file.value.bytes, [Retained(subject)]));
  }

  /** A conflict is not mended by later records. */
  lemma {:induction false} FailureIsFinal(index: seq<Record>, records: seq<Record>, n: nat)
    requires n <= |records| && MergeAll(index, records[..n]).None?
    ensures MergeAll(index, records).None?
  {
    assert records == records[..n] + records[n..];
    MergeAllConcat(index, records[..n], records[n..]);
  }

  lemma {:induction false} ResultsPrefix(results: seq<ResultRecord>, n: nat)
    requires n <= |results|
    ensures |ResultRecords(results[..n])| <= |ResultRecords(results)|
    ensures ResultRecords(results)[..|ResultRecords(results[..n])|] == ResultRecords(results[..n])
    decreases |results|
  {
    if n < |results| {
      var shorter := results[..|results| - 1];
      assert shorter[..n] == results[..n];
      ResultsPrefix(shorter, n);
    } else {
      assert results[..n] == results;
    }
  }

  // ----- Building the history of a run -----

  /** Files in the content-addressed directories. */
  type Disk = map<string, seq<Byte>>

  datatype Recovery = Recovery(path: string, origins: seq<Origin>)

  /** Records of the previous run's files that this run neither points at nor already remembers. */
  function Forgotten(prior: seq<Record>, current: seq<Record>, history: seq<Record>): seq<Record> {
    if prior == [] then []
    else
      var last := prior[|prior| - 1];
      Forgotten(prior[..|prior| - 1], current, history)
      + if HasPath(current, last.path) || HasPath(history, last.path) then [] else [last]
  }

  /** The record as a history entry, if its path is content-addressed under its own digest. */
  function AsEntry(record: Record): Option<Record> {
    var described := Describe(record.path);
    if described.Some? && described.value.1 == record.sha then Some(record.(kind := Some(described.value.0))) else None
  }

  function MergeEntries(history: seq<Record>, records: seq<Record>): Option<seq<Record>> {
    if records == [] then Some(history)
    else
      var before, entry := MergeEntries(history, records[..|records| - 1]), AsEntry(records[|records| - 1]);
      if before.None? || entry.None? then None else Merge(before.value, entry.value)
  }

  /** A recovered temporary as the file now stored for it. */
  function RecoveredRecord(recovery: Recovery, disk: Disk, hash: seq<Byte> -> string): Option<Record> {
    if recovery.path in disk
    then Some(Record(None, recovery.path, hash(disk[recovery.path]), |disk[recovery.path]|, recovery.origins))
    else None
  }

  function MergeRecovered(history: seq<Record>, recovered: seq<Recovery>, disk: Disk,
                          hash: seq<Byte> -> string): Option<seq<Record>> {
    if recovered == [] then Some(history)
    else
      var last := |recovered| - 1;
      var before, record := MergeRecovered(history, recovered[..last], disk,
                                           hash), RecoveredRecord(recovered[last], disk, hash);
      if before.None? || record.None? then None
      else
        var entry := AsEntry(record.value);
        if entry.None? then None else Merge(before.value, entry.value)
  }

  /** Stored payloads and index agree: nothing unindexed, nothing missing, digests and sizes right. */
  predicate StorageMatches(indexed: seq<Record>, disk: Disk, hash: seq<Byte> -> string) {
    && (forall p :: p in disk && Describe(p).Some? ==> HasPath(indexed, p))
    && (forall i :: 0 <= i < |indexed| ==> indexed[i].path in disk && Describe(indexed[i].path).Some?)
    && (forall i :: 0 <= i < |indexed| ==> RecordMatches(indexed[i], disk, hash))
  }

  /** `_validate_cas_record` accepts. */
  predicate RecordMatches(record: Record, disk: Disk, hash: seq<Byte> -> string) {
    && record.path in disk
    && Describe(record.path).Some? && Describe(record.path).value.1 == record.sha
    && hash(disk[record.path]) == record.sha
    && |disk[record.path]| == record.bytes
  }

  function Normalised(entry: Record, encode: Origin -> string): Record {
    entry.(origins := SortedSet(entry.origins, (a, b) => StringLeq(encode(a), encode(b))))
  }

  predicate PathLeq(a: Record, b: Record) {
    StringLeq(a.path, b.path)
  }

  function Published(history: seq<Record>, encode: Origin -> string): seq<Record> {
    SortBy(seq(|history|, i requires 0 <= i < |history| => Normalised(history[i], encode)), PathLeq)
  }

  /** One run's inputs to the history. */
  datatype Inputs = Inputs(recovered: seq<Recovery>, results: seq<ResultRecord>, disk: Disk)

  /** The working history before it is checked against the disk. */
  function Remembered(previous: Option<Receipt>, inputs: Inputs, hash: seq<Byte> -> string): Option<seq<Record>> {
    var current := ResultRecords(inputs.results);
    var carried :=
      if previous.None? then Some([])
      else
        var prior := MergeAll([], Contributions(previous.value));
        if prior.None? then None
        else MergeEntries(previous.value.history, Forgotten(prior.value, current, previous.value.history));
    if carried.None? then None else MergeRecovered(carried.value, inputs.recovered, inputs.disk, hash)
  }

  /** The history a run publishes, or nothing when some check refuses the run. */
  function HistoryOf(previous: Option<Receipt>, inputs: Inputs, hash: seq<Byte> -> string,
                     encode: Origin -> string): Option<seq<Record>> {
    var current, history := MergeAll([], ResultRecords(inputs.results)), Remembered(previous, inputs, hash);
    if current.None? || history.None? then None
    else
      var indexed := MergeAll(current.value, Stripped(history.value));
      if indexed.None? || !StorageMatches(indexed.value, inputs.disk, hash) then None
      else Some(Published(history.value, encode))
  }

  lemma {:induction false} PathOfHolds(index: seq<Record>, path: string)
    ensures HasPath(index, path) <==> exists s, b :: Holds(index, path, s, b)
  {
    if HasPath(index, path) {
      var i :| 0 <= i < |index| && index[i].path == path;
      assert Holds(index, path, index[i].sha, index[i].bytes);
    }
  }

  lemma {:induction false} CombinesPaths(r: seq<Record>, index: seq<Record>, records: seq<Record>, path: string)
    requires Combines(r, index, records)
    ensures HasPath(r, path) <==> HasPath(index, path) || HasPath(records, path)
  {
    hide Holds, HasOrigin, HasPath, DistinctPaths;
    PathOfHolds(r, path);
    PathOfHolds(index, path);
    PathOfHolds(records, path);
    if HasPath(index, path) {
      var s, b :| Holds(index, path, s, b);
      assert Holds(r, path, s, b);
    }
    if HasPath(records, path) {
      var s, b :| Holds(records, path, s, b);
      assert Holds(r, path, s, b);
    }
  }

  lemma {:induction false} MergedPaths(index: seq<Record>, records: seq<Record>, path: string)
    requires DistinctPaths(index) && MergeAll(index, records).Some?
    ensures HasPath(MergeAll(index, records).value, path) <==> HasPath(index, path) || HasPath(records, path)
  {
    hide Combines, MergeAll, HasPath;
    MergeAllMeaning(index, records);
    CombinesPaths(MergeAll(index, records).value, index, records, path);
  }

  lemma {:induction false} ForgottenStep(prior: seq<Record>, current: seq<Record>, history: seq<Record>, n: nat)
    requires n < |prior|
    ensures Forgotten(prior[..n + 1], current, history)
         == Forgotten(prior[..n], current, history)
            + if HasPath(current, prior[n].path) || HasPath(history, prior[n].path) then [] else [prior[n]]
  {
    assert prior[..n + 1][..n] == prior[..n];
  }

  lemma {:induction false} EntriesStep(history: seq<Record>, records: seq<Record>, record: Record)
    ensures MergeEntries(history, records + [record]) ==
      if MergeEntries(history, records).None? || AsEntry(record).None? then None
      else Merge(MergeEntries(history, records).value, AsEntry(record).value)
  {
    assert (records + [record])[..|records|] == records;
  }

  lemma {:induction false} EntriesFail(history: seq<Record>, records: seq<Record>, n: nat)
    requires n <= |records| && MergeEntries(history, records[..n]).None?
    ensures MergeEntries(history, records).None?
    decreases |records|
  {
    if n < |records| {
      var shorter := records[..|records| - 1];
      assert shorter[..n] == records[..n];
      EntriesFail(history, shorter, n);
    } else {
      assert records[..n] == records;
    }
  }

  lemma {:induction false} ForgottenPrefix(prior: seq<Record>, current: seq<Record>, history: seq<Record>,
                                           n: nat) returns (more: seq<Record>)
    requires n <= |prior|
    ensures Forgotten(prior, current, history) == Forgotten(prior[..n], current, history) + more
    decreases |prior|
  {
    if n == |prior| {
      assert prior[..n] == prior;
      more := [];
    } else {
      var last := |prior| - 1;
      more := ForgottenPrefix(prior[..last], current, history, n);
      assert prior[..last][..n] == prior[..n];
      more := more + if HasPath(current, prior[last].path)
        || HasPath(history, prior[last].path) then [] else [prior[last]];
    }
  }

  /** Carry forward the previous run's files that would otherwise be forgotten. */
  method CarryForward(history: seq<Record>, prior: seq<Record>, current: seq<Record>) returns (r: Option<seq<Record>>)
    requires DistinctPaths(history) && DistinctPaths(prior)
    ensures r == MergeEntries(history, Forgotten(prior, current, history))
  {
    var entries := history;
    for i := 0 to |prior|
      invariant MergeEntries(history, Forgotten(prior[..i], current, history)) == Some(entries)
      invariant DistinctPaths(entries)
      invariant forall k :: i <= k < |prior| ==> (HasPath(entries, prior[k].path) <==> HasPath(history, prior[k].path))
    {
      hide MergeEntries, Forgotten, AsEntry, HasPath;
      ForgottenStep(prior, current, history, i);
      if HasPath(current, prior[i].path) || HasPath(entries, prior[i].path) {
        assert Forgotten(prior[..i + 1], current, history) == Forgotten(prior[..i], current, history);
        continue;
      }
      EntriesStep(history, Forgotten(prior[..i], current, history), prior[i]);
      var entry := AsEntry(prior[i]);
      var merged := if entry.None? then None else Merge(entries, entry.value);
      if merged.None? {
        var more := ForgottenPrefix(prior, current, history, i + 1);
        var all, part := Forgotten(prior, current, history), Forgotten(prior[..i + 1], current, history);
        assert all[..|part|] == part;
        EntriesFail(history, all, |part|);
        return None;
      }
      EntryAdded(entries, prior[i], prior, i);
      entries := merged.value;
    }
    assert prior[..|prior|] == prior;
    return Some(entries);
  }

  lemma {:induction false} EntryAdded(entries: seq<Record>, record: Record, prior: seq<Record>, i: nat)
    requires DistinctPaths(entries) && DistinctPaths(prior) && i < |prior| && record == prior[i]
    requires AsEntry(record).Some? && Merge(entries, AsEntry(record).value).Some?
    ensures var merged := Merge(entries, AsEntry(record).value).value;
      && DistinctPaths(merged)
      && forall k :: i < k < |prior| ==> (HasPath(merged, prior[k].path) <==> HasPath(entries, prior[k].path))
  {
    hide Describe;
    var entry := AsEntry(record).value;
    assert entry.path == record.path;
    var merged := Merge(entries, entry).value;
    MergeMeaning(entries, entry);
    forall k | i < k < |prior|
      ensures HasPath(merged, prior[k].path) <==> HasPath(entries, prior[k].path)
    {
      OtherPathKept(entries, entry, prior[k].path);
    }
  }

  lemma {:induction false} OtherPathKept(entries: seq<Record>, entry: Record, path: string)
    requires DistinctPaths(entries) && Merge(entries, entry).Some? && path != entry.path
    ensures HasPath(Merge(entries, entry).value, path) <==> HasPath(entries, path)
  {
    hide Holds, HasPath;
    MergeMeaning(entries, entry);
    PathOfHolds(Merge(entries, entry).value, path);
    PathOfHolds(entries, path);
  }

  method AddRecovered(history: seq<Record>, recovered: seq<Recovery>, disk: Disk, hash: seq<Byte> -> string)
    returns (r: Result<seq<Record>, IndexError>)
    ensures r.Success? <==> MergeRecovered(history, recovered, disk, hash).Some?
    ensures r.Success? ==> r.value == MergeRecovered(history, recovered, disk, hash).value
  {
    var entries := history;
    for i := 0 to |recovered|
      invariant MergeRecovered(history, recovered[..i], disk, hash) == Some(entries)
    {
      hide Merge, AsEntry;
      assert recovered[..i + 1][..i] == recovered[..i];
      RecoveredFails(history, recovered, i + 1, disk, hash);
      var record := RecoveredRecord(recovered[i], disk, hash);
      if record.None? {
        return Failure(RecoveredUnreadable);
      }
      var entry := AsEntry(record.value);
      if entry.None? {
        return Failure(HistoryDigestDiffers);
      }
      var merged := Merge(entries, entry.value);
      if merged.None? {
        return Failure(IndexConflict);
      }
      entries := merged.value;
    }
    assert recovered[..|recovered|] == recovered;
    return Success(entries);
  }

  lemma {:induction false} RecoveredFails(history: seq<Record>, recovered: seq<Recovery>, n: nat, disk: Disk,
                                          hash: seq<Byte> -> string)
    requires n <= |recovered|
    ensures MergeRecovered(history, recovered[..n], disk, hash).None? ==>
      MergeRecovered(history, recovered, disk, hash).None?
    decreases |recovered|
  {
    if n < |recovered| {
      var shorter := recovered[..|recovered| - 1];
      assert shorter[..n] == recovered[..n];
      RecoveredFails(history, shorter, n, disk, hash);
    } else {
      assert recovered[..n] == recovered;
    }
  }

  lemma {:induction false} MergedDistinct(records: seq<Record>)
    requires MergeAll([], records).Some?
    ensures DistinctPaths(MergeAll([], records).value)
  {
    MergeAllMeaning([], records);
  }

  lemma {:induction false} ForgottenSame(prior: seq<Record>, a: seq<Record>, b: seq<Record>, history: seq<Record>)
    requires forall p :: HasPath(a, p) <==> HasPath(b, p)
    ensures Forgotten(prior, a, history) == Forgotten(prior, b, history)
  {
    hide HasPath;
    if prior != [] {
      ForgottenSame(prior[..|prior| - 1], a, b, history);
    }
  }

  /** `_build_history`. */
  method BuildHistory(previous: Option<Receipt>, inputs: Inputs, hash: seq<Byte> -> string, encode: Origin -> string)
    returns (r: Result<seq<Record>, IndexError>)
    requires previous.Some? ==> DistinctPaths(previous.value.history)
    ensures r.Success? <==> HistoryOf(previous, inputs, hash, encode).Some?
    ensures r.Success? ==> r.value == HistoryOf(previous, inputs, hash, encode).value
  {
    hide MergeAll, MergeEntries, MergeRecovered, Forgotten, HasPath, RecordMatches, Describe, DistinctPaths;
    var merged := MergeResults([], inputs.results);
    if merged.None? {
      return Failure(IndexConflict);
    }
    var current := merged.value;
    var history: seq<Record> := [];
    if previous.Some? {
      var prior := PriorCasRecords(previous.value);
      if prior.None? {
        return Failure(IndexConflict);
      }
      MergedDistinct(Contributions(previous.value));
      ForgottenSameAsMerged(prior.value, inputs.results, previous.value.history);
      var carried := CarryForward(previous.value.history, prior.value, current);
      if carried.None? {
        return Failure(HistoryDigestDiffers);
      }
      history := carried.value;
    }
    var added := AddRecovered(history, inputs.recovered, inputs.disk, hash);
    if added.Failure? {
      return Failure(added.error);
    }
    history := added.value;
    assert Remembered(previous, inputs, hash) == Some(history);
    var indexed := MergeHistory(current, history);
    if indexed.None? {
      return Failure(IndexConflict);
    }
    if exists p :: p in inputs.disk && Describe(p).Some? && !HasPath(indexed.value, p) {
      return Failure(Unindexed);
    }
    if exists i ::
      0 <= i < |indexed.value| && !(indexed.value[i].path in inputs.disk && Describe(indexed.value[i].path).Some?) {
      return Failure(Missing);
    }
    for i := 0 to |indexed.value|
      invariant forall k :: 0 <= k < i ==> RecordMatches(indexed.value[k], inputs.disk, hash)
    {
      if !RecordMatches(indexed.value[i], inputs.disk, hash) {
        return Failure(PayloadDiffers);
      }
    }
    return Success(Published(history, encode));
  }

  lemma {:induction false} ForgottenSameAsMerged(prior: seq<Record>, results: seq<ResultRecord>, history: seq<Record>)
    requires MergeAll([], ResultRecords(results)).Some?
    ensures Forgotten(prior, MergeAll([], ResultRecords(results)).value, history)
      == Forgotten(prior, ResultRecords(results), history)
  {
    hide Forgotten, MergeAll, HasPath;
    forall p
      ensures HasPath(MergeAll([], ResultRecords(results)).value, p) <==> HasPath(ResultRecords(results), p)
    {
      MergedPaths([], ResultRecords(results), p);
      EmptyHasNoPath(p);
    }
    ForgottenSame(prior, MergeAll([], ResultRecords(results)).value, ResultRecords(results), history);
  }

  lemma {:induction false} EmptyHasNoPath(path: string)
    ensures !HasPath([], path)
  {
  }

  // ----- What a receipt's history promises -----

  /** `_validate_history_index` accepts. */
  ghost predicate HistoryOk(receipt: Receipt, subjects: set<string>, recognized: string -> Option<string>,
                            encode: Origin -> string) {
    && (forall i, j :: 0 <= i < j < |receipt.history| ==>
          PathLeq(receipt.history[i], receipt.history[j]) && receipt.history[i].path != receipt.history[j].path)
    && (forall i :: 0 <= i < |receipt.history| ==> EntryOk(receipt.history[i], subjects, recognized, encode))
    && MergeAll([], Contributions(receipt)).Some?
  }

  predicate EntryOk(entry: Record, subjects: set<string>, recognized: string -> Option<string>,
                    encode: Origin -> string) {
    && Describe(entry.path).Some?
    && entry.kind == Some(Describe(entry.path).value.0) && entry.sha == Describe(entry.path).value.1
    && StrictlySorted(entry.origins, (a, b) => StringLeq(encode(a), encode(b)))
    && OriginsOk(entry.origins, subjects, recognized)
  }

  predicate OriginsOk(origins: seq<Origin>, subjects: set<string>, recognized: string -> Option<string>) {
    forall o :: o in origins ==> OriginOk(o, subjects, recognized)
  }

  /** A retained origin names a catalog subject; a recovered one names the temporary it was. */
  predicate OriginOk(origin: Origin, subjects: set<string>, recognized: string -> Option<string>) {
    if origin.code == RetainedPriorEvidence then origin.subject in subjects && origin.originalPath.None?
    else origin.originalPath.Some? && recognized(origin.originalPath.value) == Some(origin.subject)
  }

  /** What the rest of a run guarantees about its inputs: results belong to catalog subjects, and
      recovered temporaries were recognized. */
  predicate InputsOk(inputs: Inputs, subjects: set<string>, recognized: string -> Option<string>) {
    && (forall i :: 0 <= i < |inputs.results| ==> inputs.results[i].subject in subjects)
    && (forall i :: 0 <= i < |inputs.recovered| ==> OriginsOk(inputs.recovered[i].origins, subjects, recognized))
  }

  /** Canonical JSON text identifies an origin. */
  ghost predicate Injective(encode: Origin -> string) {
    forall a, b :: encode(a) == encode(b) ==> a == b
  }

  lemma {:induction false} EncodedOrder(encode: Origin -> string)
    requires Injective(encode)
    ensures TotalOrder((a: Origin, b: Origin) => StringLeq(encode(a), encode(b)))
  {
    StringOrder();
  }

  /** An entry under construction: described, with well-formed origins. */
  predicate Draft(entry: Record, subjects: set<string>, recognized: string -> Option<string>) {
    && Describe(entry.path).Some?
    && entry.kind == Some(Describe(entry.path).value.0) && entry.sha == Describe(entry.path).value.1
    && OriginsOk(entry.origins, subjects, recognized)
  }

  predicate Drafts(entries: seq<Record>, subjects: set<string>, recognized: string -> Option<string>) {
    && DistinctPaths(entries)
    && forall i :: 0 <= i < |entries| ==> Draft(entries[i], subjects, recognized)
  }

  lemma {:induction false} DraftMerged(entries: seq<Record>, record: Record, subjects: set<string>,
                                       recognized: string -> Option<string>)
    requires Drafts(entries, subjects, recognized) && OriginsOk(record.origins, subjects, recognized)
    requires AsEntry(record).Some? && Merge(entries, AsEntry(record).value).Some?
    ensures Drafts(Merge(entries, AsEntry(record).value).value, subjects, recognized)
  {
    hide Describe;
  }

  lemma {:induction false} ResultOrigins(results: seq<ResultRecord>, subjects: set<string>,
                                         recognized: string -> Option<string>)
    requires forall i :: 0 <= i < |results| ==> results[i].subject in subjects
    ensures forall i ::
      0 <= i < |ResultRecords(results)| ==> OriginsOk(ResultRecords(results)[i].origins, subjects, recognized)
  {
    if results != [] {
      ResultOrigins(results[..|results| - 1], subjects, recognized);
    }
  }

  lemma {:induction false} ForgottenMembers(prior: seq<Record>, current: seq<Record>, history: seq<Record>)
    ensures forall r ::
      r in Forgotten(prior, current, history)
      <==> r in prior && !HasPath(current, r.path) && !HasPath(history, r.path)
  {
    hide HasPath;
    if prior != [] {
      var last := |prior| - 1;
      ForgottenMembers(prior[..last], current, history);
      assert prior == prior[..last] + [prior[last]];
    }
  }

  lemma {:induction false} EntriesDrafts(history: seq<Record>, records: seq<Record>, subjects: set<string>,
                                         recognized: string -> Option<string>)
    requires Drafts(history, subjects, recognized) && MergeEntries(history, records).Some?
    requires forall i :: 0 <= i < |records| ==> OriginsOk(records[i].origins, subjects, recognized)
    ensures Drafts(MergeEntries(history, records).value, subjects, recognized)
  {
    hide Drafts, OriginsOk, AsEntry;
    if records != [] {
      var last := |records| - 1;
      EntriesDrafts(history, records[..last], subjects, recognized);
      DraftMerged(MergeEntries(history, records[..last]).value, records[last], subjects, recognized);
    }
  }

  lemma {:induction false} RecoveredDrafts(history: seq<Record>, recovered: seq<Recovery>, disk: Disk,
                                           hash: seq<Byte> -> string,
                                           subjects: set<string>, recognized: string -> Option<string>,
                                           merged: seq<Record>)
    requires Drafts(history, subjects, recognized) && MergeRecovered(history, recovered, disk, hash) == Some(merged)
    requires forall i :: 0 <= i < |recovered| ==> OriginsOk(recovered[i].origins, subjects, recognized)
    ensures Drafts(merged, subjects, recognized)
  {
    hide Drafts, OriginsOk, AsEntry;
    if recovered != [] {
      var last := |recovered| - 1;
      var before := MergeRecovered(history, recovered[..last], disk, hash).value;
      RecoveredDrafts(history, recovered[..last], disk, hash, subjects, recognized, before);
      DraftMerged(before, RecoveredRecord(recovered[last], disk, hash).value, subjects, recognized);
    }
  }

  // ----- A successful run -----

  lemma {:induction false} MergedOrigins(index: seq<Record>, records: seq<Record>, subjects: set<string>,
                                         recognized: string -> Option<string>)
    requires Combines(index, [], records)
    requires forall i :: 0 <= i < |records| ==> OriginsOk(records[i].origins, subjects, recognized)
    ensures forall i :: 0 <= i < |index| ==> OriginsOk(index[i].origins, subjects, recognized)
  {
    hide OriginOk, Holds, DistinctPaths;
    forall i | 0 <= i < |index|
      ensures OriginsOk(index[i].origins, subjects, recognized)
    {
      forall o | o in index[i].origins
        ensures OriginOk(o, subjects, recognized)
      {
        assert HasOrigin(index, index[i].path, o);
        assert !HasOrigin([], index[i].path, o);
        var k :| 0 <= k < |records| && records[k].path == index[i].path && o in records[k].origins;
        assert OriginsOk(records[k].origins, subjects, recognized);
      }
    }
  }

  /** A receipt whose history validates and whose results belong to catalog subjects. */
  ghost predicate ReceiptOk(receipt: Receipt, subjects: set<string>, recognized: string -> Option<string>,
                            encode: Origin -> string) {
    && HistoryOk(receipt, subjects, recognized, encode)
    && forall i :: 0 <= i < |receipt.results| ==> receipt.results[i].subject in subjects
  }

  lemma {:induction false} HistoryIsDrafts(receipt: Receipt, subjects: set<string>,
                                           recognized: string -> Option<string>, encode: Origin -> string)
    requires HistoryOk(receipt, subjects, recognized, encode)
    ensures Drafts(receipt.history, subjects, recognized)
  {
    hide Describe, StrictlySorted, OriginsOk, MergeAll;
    forall i | 0 <= i < |receipt.history|
      ensures Draft(receipt.history[i], subjects, recognized)
    {
      assert EntryOk(receipt.history[i], subjects, recognized, encode);
    }
  }

  lemma {:induction false} RememberedDrafts(previous: Option<Receipt>, inputs: Inputs, hash: seq<Byte> -> string,
                                            subjects: set<string>,
                         recognized: string -> Option<string>, encode: Origin -> string)
    requires previous.Some? ==> ReceiptOk(previous.value, subjects, recognized, encode)
    requires InputsOk(inputs, subjects, recognized) && Remembered(previous, inputs, hash).Some?
    ensures Drafts(Remembered(previous, inputs, hash).value, subjects, recognized)
  {
    hide MergeEntries, MergeRecovered, Forgotten, OriginsOk, MergeAll;
    if previous.Some? {
      var prior := MergeAll([], Contributions(previous.value)).value;
      HistoryIsDrafts(previous.value, subjects, recognized, encode);
      MergeAllMeaning([], Contributions(previous.value));
      ContributionOrigins(previous.value, subjects, recognized);
      MergedOrigins(prior, Contributions(previous.value), subjects, recognized);
      var forgotten := Forgotten(prior, ResultRecords(inputs.results), previous.value.history);
      ForgottenMembers(prior, ResultRecords(inputs.results), previous.value.history);
      forall i | 0 <= i < |forgotten|
        ensures OriginsOk(forgotten[i].origins, subjects, recognized)
      {
        assert forgotten[i] in forgotten;
      }
      EntriesDrafts(previous.value.history, forgotten, subjects, recognized);
      RecoveredDrafts(MergeEntries(previous.value.history, forgotten).value, inputs.recovered, inputs.disk, hash,
                      subjects,
                      recognized, MergeRecovered(MergeEntries(previous.value.history, forgotten).value,
                                                 inputs.recovered, inputs.disk, hash).value);
    } else {
      RecoveredDrafts([], inputs.recovered, inputs.disk, hash, subjects, recognized,
                      MergeRecovered([], inputs.recovered, inputs.disk, hash).value);
    }
  }

  lemma {:induction false} ContributionOrigins(receipt: Receipt, subjects: set<string>,
                                               recognized: string -> Option<string>)
    requires forall i :: 0 <= i < |receipt.results| ==> receipt.results[i].subject in subjects
    ensures forall i ::
      0 <= i < |Contributions(receipt)| ==> OriginsOk(Contributions(receipt)[i].origins, subjects, recognized)
  {
    ResultOrigins(receipt.results, subjects, recognized);
  }

  lemma {:induction false} StrippedHolds(history: seq<Record>)
    ensures forall p, s, b :: Holds(Stripped(history), p, s, b) <==> Holds(history, p, s, b)
  {
    var stripped := Stripped(history);
    forall p, s, b
      ensures Holds(stripped, p, s, b) <==> Holds(history, p, s, b)
    {
      if Holds(history, p, s, b) {
        var i :| 0 <= i < |history| && history[i].path == p && history[i].sha == s && history[i].bytes == b;
        assert stripped[i].path == p;
      }
    }
  }

  /** Publishing sorts entries and their origins, and changes nothing else. */
  lemma {:induction false} PublishedMeans(history: seq<Record>, encode: Origin -> string)
    ensures forall p, s, b :: Holds(Published(history, encode), p, s, b) <==> Holds(history, p, s, b)
    ensures forall p, o :: HasOrigin(Published(history, encode), p, o) <==> HasOrigin(history, p, o)
  {
    var normalised := seq(|history|, i requires 0 <= i < |history| => Normalised(history[i], encode));
    var published := Published(history, encode);
    SortByMembers(normalised, PathLeq);
    forall p, s, b
      ensures Holds(published, p, s, b) <==> Holds(history, p, s, b)
    {
      SameHolds(normalised, published, p, s, b);
      if Holds(history, p, s, b) {
        var i :| 0 <= i < |history| && history[i].path == p && history[i].sha == s && history[i].bytes == b;
        assert normalised[i].path == p;
      }
      if Holds(normalised, p, s, b) {
        var i :| 0 <= i < |normalised| && normalised[i].path == p && normalised[i].sha == s && normalised[i].bytes == b;
        assert history[i].path == p;
      }
    }
    forall p, o
      ensures HasOrigin(published, p, o) <==> HasOrigin(history, p, o)
    {
      SameOrigins(normalised, published, p, o);
      if HasOrigin(history, p, o) {
        var i :| 0 <= i < |history| && history[i].path == p && o in history[i].origins;
        assert normalised[i].path == p && o in normalised[i].origins;
      }
      if HasOrigin(normalised, p, o) {
        var i :| 0 <= i < |normalised| && normalised[i].path == p && o in normalised[i].origins;
        assert history[i].path == p && o in history[i].origins;
      }
    }
  }

  lemma {:induction false} SameHolds(a: seq<Record>, b: seq<Record>, path: string, sha: string, bytes: nat)
    requires forall r :: r in a <==> r in b
    ensures Holds(a, path, sha, bytes) <==> Holds(b, path, sha, bytes)
  {
    if Holds(a, path, sha, bytes) {
      var i :| 0 <= i < |a| && a[i].path == path && a[i].sha == sha && a[i].bytes == bytes;
      assert a[i] in b;
    }
    if Holds(b, path, sha, bytes) {
      var i :| 0 <= i < |b| && b[i].path == path && b[i].sha == sha && b[i].bytes == bytes;
      assert b[i] in a;
    }
  }

  lemma {:induction false} SameOrigins(a: seq<Record>, b: seq<Record>, path: string, origin: Origin)
    requires forall r :: r in a <==> r in b
    ensures HasOrigin(a, path, origin) <==> HasOrigin(b, path, origin)
  {
    if HasOrigin(a, path, origin) {
      var i :| 0 <= i < |a| && a[i].path == path && origin in a[i].origins;
      assert a[i] in b;
    }
    if HasOrigin(b, path, origin) {
      var i :| 0 <= i < |b| && b[i].path == path && origin in b[i].origins;
      assert b[i] in a;
    }
  }

  lemma {:induction false} PublishedFrom(history: seq<Record>, encode: Origin -> string, i: nat) returns (k: nat)
    requires i < |Published(history, encode)|
    ensures k < |history| && Published(history, encode)[i] == Normalised(history[k], encode)
  {
    hide Normalised;
    var normalised := seq(|history|, n requires 0 <= n < |history| => Normalised(history[n], encode));
    SortByMembers(normalised, PathLeq);
    assert Published(history, encode)[i] in normalised;
    k :| 0 <= k < |history| && normalised[k] == Published(history, encode)[i];
  }

  lemma {:induction false} PublishedEntries(history: seq<Record>, subjects: set<string>,
                                            recognized: string -> Option<string>, encode: Origin -> string)
    requires Drafts(history, subjects, recognized) && Injective(encode)
    ensures forall i ::
      0 <= i < |Published(history, encode)| ==> EntryOk(Published(history, encode)[i], subjects, recognized, encode)
  {
    hide Describe, Published, SortedSet;
    EncodedOrder(encode);
    forall i | 0 <= i < |Published(history, encode)|
      ensures EntryOk(Published(history, encode)[i], subjects, recognized, encode)
    {
      var k := PublishedFrom(history, encode, i);
      SortedSetSorted(history[k].origins, (a: Origin, b: Origin) => StringLeq(encode(a), encode(b)));
      assert Draft(history[k], subjects, recognized);
    }
  }

  lemma {:induction false} NormalisedNoRepeats(history: seq<Record>, encode: Origin -> string)
    requires DistinctPaths(history)
    ensures NoRepeats(seq(|history|, n requires 0 <= n < |history| => Normalised(history[n], encode)))
  {
  }

  lemma {:induction false} PublishedOrdered(history: seq<Record>, encode: Origin -> string)
    requires DistinctPaths(history)
    ensures var published := Published(history, encode);
      forall i, j ::
        0 <= i < j < |published| ==> PathLeq(published[i], published[j]) && published[i].path != published[j].path
  {
    hide SortBy, SortedSet, StringLeq;
    var normalised := seq(|history|, n requires 0 <= n < |history| => Normalised(history[n], encode));
    var published := Published(history, encode);
    StringOrder();
    SortBySorted(normalised, PathLeq);
    NormalisedNoRepeats(history, encode);
    SortByNoRepeats(normalised, PathLeq);
    forall i, j | 0 <= i < j < |published|
      ensures PathLeq(published[i], published[j]) && published[i].path != published[j].path
    {
      var k := PublishedFrom(history, encode, i);
      var m := PublishedFrom(history, encode, j);
      assert published[i] != published[j];
    }
  }

  lemma {:induction false} AgreeSame(a: seq<Record>, b: seq<Record>)
    requires forall p, s, n :: Holds(a, p, s, n) <==> Holds(b, p, s, n)
    requires Agree(a)
    ensures Agree(b)
  {
    hide Holds;
  }

  /** The files a new receipt contributes are exactly the index that was checked on disk. */
  lemma {:induction false} NewContributions(history: seq<Record>, results: seq<ResultRecord>, encode: Origin -> string)
    requires MergeAll([], ResultRecords(results)).Some?
    requires MergeAll(MergeAll([], ResultRecords(results)).value, Stripped(history)).Some?
    ensures var indexed := MergeAll(MergeAll([], ResultRecords(results)).value, Stripped(history)).value;
      forall p, s, b ::
        Holds(Contributions(Receipt(Published(history, encode), results)), p, s, b) <==> Holds(indexed, p, s, b)
    ensures MergeAll([], Contributions(Receipt(Published(history, encode), results))).Some?
  {
    hide Holds, HasOrigin, MergeAll, Published, ResultRecords, Stripped;
    var rr, receipt := ResultRecords(results), Receipt(Published(history, encode), results);
    var current := MergeAll([], rr).value;
    NothingHeld();
    MergeAllMeaning([], rr);
    MergeAllMeaning(current, Stripped(history));
    var indexed := MergeAll(current, Stripped(history)).value;
    StrippedHolds(history);
    PublishedMeans(history, encode);
    StrippedHolds(receipt.history);
    HoldsConcat(Stripped(receipt.history), rr);
    assert forall p, s, b :: Holds(Contributions(receipt), p, s, b) <==> Holds(indexed, p, s, b);
    DistinctAgree(indexed);
    AgreeSame(indexed, Contributions(receipt));
    MergeSucceedsIff([], Contributions(receipt));
    assert [] + Contributions(receipt) == Contributions(receipt);
  }

  lemma {:induction false} NothingHeld()
    ensures DistinctPaths([])
    ensures forall p, s, b :: !Holds([], p, s, b)
    ensures forall p, o :: !HasOrigin([], p, o)
  {
  }

  /** A successful run publishes this receipt. */
  predicate Publishes(previous: Option<Receipt>, inputs: Inputs, hash: seq<Byte> -> string, encode: Origin -> string,
                      receipt: Receipt) {
    && HistoryOf(previous, inputs, hash, encode) == Some(receipt.history)
    && receipt.results == inputs.results
  }

  /** A successful run publishes a history that its own validator accepts. */
  lemma {:induction false} HistoryAccepted(previous: Option<Receipt>, inputs: Inputs, hash: seq<Byte> -> string,
                                           subjects: set<string>,
                                           recognized: string -> Option<string>, encode: Origin -> string,
                                           receipt: Receipt)
    requires Injective(encode) && InputsOk(inputs, subjects, recognized)
    requires previous.Some? ==> ReceiptOk(previous.value, subjects, recognized, encode)
    requires Publishes(previous, inputs, hash, encode, receipt)
    ensures ReceiptOk(receipt, subjects, recognized, encode)
  {
    hide Remembered, Drafts, Published, EntryOk, MergeAll, StorageMatches, Injective;
    var history := Remembered(previous, inputs, hash).value;
    RememberedDrafts(previous, inputs, hash, subjects, recognized, encode);
    PublishedEntries(history, subjects, recognized, encode);
    assert DistinctPaths(history) by { DraftsDistinct(history, subjects, recognized); }
    PublishedOrdered(history, encode);
    NewContributions(history, inputs.results, encode);
    assert receipt == Receipt(Published(history, encode), inputs.results);
  }

  lemma {:induction false} DraftsDistinct(history: seq<Record>, subjects: set<string>,
                                          recognized: string -> Option<string>)
    requires Drafts(history, subjects, recognized)
    ensures DistinctPaths(history)
  {
  }

  /** The indexed paths are exactly the content-addressed files on disk, and every indexed digest
      and size is that of the stored payload. */
  lemma {:induction false} IndexEqualsStorage(previous: Option<Receipt>, inputs: Inputs, hash: seq<Byte> -> string,
                                              encode: Origin -> string, receipt: Receipt)
    requires Publishes(previous, inputs, hash, encode, receipt)
    ensures forall p :: HasPath(Contributions(receipt), p) <==> p in inputs.disk && Describe(p).Some?
    ensures forall p, s, b :: Holds(Contributions(receipt), p, s, b) ==>
      && p in inputs.disk && Describe(p).Some?
      && s == Describe(p).value.1 == hash(inputs.disk[p]) && b == |inputs.disk[p]|
  {
    var history := Remembered(previous, inputs, hash).value;
    var contributions := Contributions(receipt);
    assert receipt == Receipt(Published(history, encode), inputs.results);
    var indexed := MergeAll(MergeAll([], ResultRecords(inputs.results)).value, Stripped(history)).value;
    NewContributions(history, inputs.results, encode);
    hide Remembered, Published, MergeAll, Describe, Contributions, HasPath;
    forall p, s, b | Holds(contributions, p, s, b)
      ensures p in inputs.disk && Describe(p).Some?
      ensures s == Describe(p).value.1 == hash(inputs.disk[p]) && b == |inputs.disk[p]|
    {
      assert Holds(indexed, p, s, b);
    }
    forall p
      ensures HasPath(contributions, p) <==> p in inputs.disk && Describe(p).Some?
    {
      PathOfHolds(contributions, p);
      PathOfHolds(indexed, p);
      if HasPath(indexed, p) {
        var s, b :| Holds(indexed, p, s, b);
        assert Holds(contributions, p, s, b);
      }
    }
  }

  // ----- Nothing is forgotten -----

  lemma {:induction false} EntryKeepsRecord(record: Record)
    requires AsEntry(record).Some?
    ensures AsEntry(record).value == record.(kind := AsEntry(record).value.kind)
  {
    hide Describe;
  }

  lemma {:induction false} EntriesMeaning(history: seq<Record>, records: seq<Record>)
    requires DistinctPaths(history) && MergeEntries(history, records).Some?
    ensures Combines(MergeEntries(history, records).value, history, records)
  {
    if records == [] {
      NothingHeld();
    } else {
      hide Combines, Merge, DistinctPaths, AsEntry;
      var last := |records| - 1;
      EntriesMeaning(history, records[..last]);
      EntryKeepsRecord(records[last]);
      CombinesStep(MergeEntries(history, records[..last]).value, history, records[..last], records[last],
                   AsEntry(records[last]).value);
      assert records == records[..last] + [records[last]];
    }
  }

  predicate Recovers(recovered: seq<Recovery>, path: string) {
    exists i :: 0 <= i < |recovered| && recovered[i].path == path
  }

  predicate RecoversOrigin(recovered: seq<Recovery>, path: string, origin: Origin) {
    exists i :: 0 <= i < |recovered| && recovered[i].path == path && origin in recovered[i].origins
  }

  lemma {:induction false} RecoversSnoc(recovered: seq<Recovery>, path: string)
    requires recovered != []
    ensures var last := |recovered| - 1;
      Recovers(recovered, path) <==> Recovers(recovered[..last], path) || recovered[last].path == path
    ensures var last := |recovered| - 1;
      forall o :: RecoversOrigin(recovered, path, o)
        <==> (|| RecoversOrigin(recovered[..last], path, o)
              || (recovered[last].path == path && o in recovered[last].origins))
  {
    var last := |recovered| - 1;
    forall o
      ensures RecoversOrigin(recovered, path, o)
        <==> (|| RecoversOrigin(recovered[..last], path, o)
              || (recovered[last].path == path && o in recovered[last].origins))
    {
      if RecoversOrigin(recovered, path, o) {
        var i :| 0 <= i < |recovered| && recovered[i].path == path && o in recovered[i].origins;
        assert i < last ==> recovered[..last][i] == recovered[i];
      }
      if RecoversOrigin(recovered[..last], path, o) {
        var i :| 0 <= i < last && recovered[..last][i].path == path && o in recovered[..last][i].origins;
        assert recovered[i].path == path;
      }
    }
    if Recovers(recovered[..last], path) {
      var i :| 0 <= i < last && recovered[..last][i].path == path;
      assert recovered[i].path == path;
    }
    if Recovers(recovered, path) {
      var i :| 0 <= i < |recovered| && recovered[i].path == path;
      assert i < last ==> recovered[..last][i] == recovered[i];
    }
  }

  lemma {:induction false} RecoveredMeaning(history: seq<Record>, recovered: seq<Recovery>, disk: Disk,
                                            hash: seq<Byte> -> string, path: string)
    requires DistinctPaths(history) && MergeRecovered(history, recovered, disk, hash).Some?
    ensures var r := MergeRecovered(history, recovered, disk, hash).value;
      && DistinctPaths(r)
      && (HasPath(r, path) <==> HasPath(history, path) || Recovers(recovered, path))
      && (forall o :: HasOrigin(r, path, o) <==> HasOrigin(history, path, o) || RecoversOrigin(recovered, path, o))
  {
    if recovered != [] {
      hide Holds, HasOrigin, Merge, DistinctPaths, AsEntry, Recovers, RecoversOrigin, HasPath;
      var last := |recovered| - 1;
      RecoveredMeaning(history, recovered[..last], disk, hash, path);
      var before := MergeRecovered(history, recovered[..last], disk, hash).value;
      var record := RecoveredRecord(recovered[last], disk, hash).value;
      EntryKeepsRecord(record);
      MergeMeaning(before, AsEntry(record).value);
      PathAfterMerge(before, AsEntry(record).value, path);
      RecoversSnoc(recovered, path);
    }
  }

  lemma {:induction false} PathAfterMerge(index: seq<Record>, record: Record, path: string)
    requires DistinctPaths(index) && Merge(index, record).Some?
    ensures HasPath(Merge(index, record).value, path) <==> HasPath(index, path) || record.path == path
  {
    hide Holds, HasPath, HasOrigin;
    MergeMeaning(index, record);
    var r := Merge(index, record).value;
    PathOfHolds(r, path);
    PathOfHolds(index, path);
    assert Holds(r, record.path, record.sha, record.bytes);
  }

  /** The origin is that of a previous result's file that this run neither points at nor already
      had in its history. */
  predicate Retires(previous: Receipt, results: seq<ResultRecord>, path: string, origin: Origin) {
    && HasOrigin(ResultRecords(previous.results), path, origin)
    && !HasPath(ResultRecords(results), path)
    && !HasPath(previous.history, path)
  }

  lemma {:induction false} CarriedMeaning(previous: Receipt, results: seq<ResultRecord>, prior: seq<Record>,
                                          path: string)
    requires MergeAll([], Contributions(previous)) == Some(prior)
    ensures var forgotten := Forgotten(prior, ResultRecords(results), previous.history);
      && (HasPath(forgotten, path) <==>
            HasPath(Contributions(previous), path) && !HasPath(ResultRecords(results), path)
              && !HasPath(previous.history, path))
      && (forall o :: HasOrigin(forgotten, path, o) <==> Retires(previous, results, path, o))
  {
    hide Forgotten, ResultRecords, MergeAll, Holds, DistinctPaths;
    var rr := ResultRecords(results);
    var forgotten := Forgotten(prior, rr, previous.history);
    NothingHeld();
    MergeAllMeaning([], Contributions(previous));
    MergedPaths([], Contributions(previous), path);
    EmptyHasNoPath(path);
    ForgottenMembers(prior, rr, previous.history);
    HoldsConcat(Stripped(previous.history), ResultRecords(previous.results));
    forall o
      ensures HasOrigin(forgotten, path, o) <==> Retires(previous, results, path, o)
    {
      StrippedHasNoOrigin(previous.history, path, o);
      ForgottenOrigin(prior, forgotten, rr, previous.history, path, o);
    }
    ForgottenPath(prior, forgotten, rr, previous.history, path);
  }

  lemma {:induction false} StrippedHasNoOrigin(history: seq<Record>, path: string, origin: Origin)
    ensures !HasOrigin(Stripped(history), path, origin)
  {
  }

  lemma {:induction false} ForgottenOrigin(prior: seq<Record>, forgotten: seq<Record>, current: seq<Record>,
                                           history: seq<Record>, path: string, origin: Origin)
    requires forall r :: r in forgotten <==> r in prior && !HasPath(current, r.path) && !HasPath(history, r.path)
    ensures HasOrigin(forgotten, path, origin)
       <==> HasOrigin(prior, path, origin) && !HasPath(current, path) && !HasPath(history, path)
  {
    hide HasPath;
    if HasOrigin(forgotten, path, origin) {
      var i :| 0 <= i < |forgotten| && forgotten[i].path == path && origin in forgotten[i].origins;
      assert forgotten[i] in forgotten;
    }
    if HasOrigin(prior, path, origin) && !HasPath(current, path) && !HasPath(history, path) {
      var i :| 0 <= i < |prior| && prior[i].path == path && origin in prior[i].origins;
      assert prior[i] in forgotten;
    }
  }

  lemma {:induction false} ForgottenPath(prior: seq<Record>, forgotten: seq<Record>, current: seq<Record>,
                                         history: seq<Record>, path: string)
    requires forall r :: r in forgotten <==> r in prior && !HasPath(current, r.path) && !HasPath(history, r.path)
    ensures HasPath(forgotten, path) <==> HasPath(prior, path) && !HasPath(current, path) && !HasPath(history, path)
  {
    if HasPath(forgotten, path) {
      var i :| 0 <= i < |forgotten| && forgotten[i].path == path;
      assert forgotten[i] in forgotten;
    }
    if HasPath(prior, path) && !HasPath(current, path) && !HasPath(history, path) {
      var i :| 0 <= i < |prior| && prior[i].path == path;
      assert prior[i] in forgotten;
    }
  }

  /** What the working history of a run holds, path by path and origin by origin. */
  lemma {:induction false} RememberedMeaning(previous: Option<Receipt>, inputs: Inputs, hash: seq<Byte> -> string,
                                             path: string)
    requires previous.Some? ==> DistinctPaths(previous.value.history)
    requires Remembered(previous, inputs, hash).Some?
    ensures var r := Remembered(previous, inputs, hash).value;
      && (HasPath(r, path) <==>
            || Recovers(inputs.recovered, path)
            || (previous.Some? && (HasPath(previous.value.history, path)
                || (HasPath(Contributions(previous.value), path) && !HasPath(ResultRecords(inputs.results), path)))))
      && (forall o :: HasOrigin(r, path, o) <==>
            || RecoversOrigin(inputs.recovered, path, o)
            || (&& previous.Some?
                && (HasOrigin(previous.value.history, path, o) || Retires(previous.value, inputs.results, path, o))))
  {
    hide MergeEntries, MergeRecovered, Forgotten, MergeAll, HasPath, HasOrigin, Recovers, RecoversOrigin, DistinctPaths,
      Retires, Contributions, ResultRecords;
    if previous.Some? {
      var prior := MergeAll([], Contributions(previous.value)).value;
      var forgotten := Forgotten(prior, ResultRecords(inputs.results), previous.value.history);
      var carried := MergeEntries(previous.value.history, forgotten).value;
      CarriedMeaning(previous.value, inputs.results, prior, path);
      EntriesMeaning(previous.value.history, forgotten);
      CombinesPaths(carried, previous.value.history, forgotten, path);
      RecoveredMeaning(carried, inputs.recovered, inputs.disk, hash, path);
    } else {
      NothingHeld();
      EmptyHasNoPath(path);
      RecoveredMeaning([], inputs.recovered, inputs.disk, hash, path);
    }
  }

  /** A successful run loses no indexed path. */
  lemma {:induction false} PathsOnlyGrow(previous: Option<Receipt>, inputs: Inputs, hash: seq<Byte> -> string,
                                         encode: Origin -> string,
                                         receipt: Receipt, path: string)
    requires previous.Some? ==> DistinctPaths(previous.value.history)
    requires Publishes(previous, inputs, hash, encode, receipt)
    ensures previous.Some? && HasPath(Contributions(previous.value), path) ==> HasPath(Contributions(receipt), path)
  {
    hide Remembered, MergeAll, StorageMatches, HasPath, HasOrigin, Holds, ResultRecords, Recovers, RecoversOrigin,
      Published, Retires, DistinctPaths;
    var history := Remembered(previous, inputs, hash).value;
    assert receipt == Receipt(Published(history, encode), inputs.results);
    RememberedMeaning(previous, inputs, hash, path);
    PublishedPath(history, encode, path);
    ContributedPath(receipt, path);
    if previous.Some? {
      ContributedPath(previous.value, path);
    }
  }

  lemma {:induction false} PublishedPath(history: seq<Record>, encode: Origin -> string, path: string)
    ensures HasPath(Published(history, encode), path) <==> HasPath(history, path)
  {
    hide Published, HasPath, Holds, HasOrigin;
    PublishedMeans(history, encode);
    PathOfHolds(Published(history, encode), path);
    PathOfHolds(history, path);
  }

  lemma {:induction false} ContributedPath(receipt: Receipt, path: string)
    ensures HasPath(Contributions(receipt), path)
      <==> HasPath(receipt.history, path) || HasPath(ResultRecords(receipt.results), path)
  {
    hide HasPath, Holds, HasOrigin, ResultRecords;
    var a, b := Stripped(receipt.history), ResultRecords(receipt.results);
    HoldsConcat(a, b);
    StrippedHolds(receipt.history);
    PathOfHolds(a + b, path);
    PathOfHolds(b, path);
    PathOfHolds(receipt.history, path);
    if HasPath(receipt.history, path) {
      var s, n :| Holds(receipt.history, path, s, n);
      assert Holds(a, path, s, n);
      assert Holds(a + b, path, s, n);
    }
    if HasPath(b, path) {
      var s, n :| Holds(b, path, s, n);
      assert Holds(a + b, path, s, n);
    }
    if HasPath(a + b, path) {
      var s, n :| Holds(a + b, path, s, n);
    }
  }

  /** Exactly which origins a successful run records: those of the previous history, those of
      results it retires, and those it recovered. None is lost and none is invented. */
  lemma {:induction false} OriginsAreExact(previous: Option<Receipt>, inputs: Inputs, hash: seq<Byte> -> string,
                                           encode: Origin -> string, receipt: Receipt, path: string, origin: Origin)
    requires previous.Some? ==> DistinctPaths(previous.value.history)
    requires Publishes(previous, inputs, hash, encode, receipt)
    ensures HasOrigin(receipt.history, path, origin) <==>
      (|| RecoversOrigin(inputs.recovered, path, origin)
       || (&& previous.Some?
           && (|| HasOrigin(previous.value.history, path, origin)
               || Retires(previous.value, inputs.results, path, origin))))
  {
    hide Remembered, MergeAll, StorageMatches, HasPath, HasOrigin, RecoversOrigin, Published, Retires;
    RememberedMeaning(previous, inputs, hash, path);
    PublishedMeans(Remembered(previous, inputs, hash).value, encode);
  }

  // ----- Any number of successful runs -----

  function Before(receipts: seq<Receipt>, i: nat): Option<Receipt>
    requires i <= |receipts|
  {
    if i == 0 then None else Some(receipts[i - 1])
  }

  /** Receipts published by consecutive successful runs, the first from an empty root. */
  predicate Succession(receipts: seq<Receipt>, runs: seq<Inputs>, hash: seq<Byte> -> string, encode: Origin -> string) {
    && |receipts| == |runs|
    && forall i :: 0 <= i < |runs| ==> Publishes(Before(receipts, i), runs[i], hash, encode, receipts[i])
  }

  /** Every receipt of the succession validates. */
  lemma {:induction false} SuccessionValid(receipts: seq<Receipt>, runs: seq<Inputs>, hash: seq<Byte> -> string,
                                           subjects: set<string>,
                                           recognized: string -> Option<string>, encode: Origin -> string, i: nat)
    requires Succession(receipts, runs, hash, encode) && i < |runs| && Injective(encode)
    requires forall k :: 0 <= k < |runs| ==> InputsOk(runs[k], subjects, recognized)
    ensures ReceiptOk(receipts[i], subjects, recognized, encode)
    decreases i
  {
    hide HistoryOf, ReceiptOk, InputsOk, Injective;
    assert Publishes(Before(receipts, i), runs[i], hash, encode, receipts[i]);
    if i > 0 {
      SuccessionValid(receipts, runs, hash, subjects, recognized, encode, i - 1);
    }
    HistoryAccepted(Before(receipts, i), runs[i], hash, subjects, recognized, encode, receipts[i]);
  }

  lemma {:induction false} ReceiptDistinct(receipt: Receipt, subjects: set<string>,
                                           recognized: string -> Option<string>, encode: Origin -> string)
    requires ReceiptOk(receipt, subjects, recognized, encode)
    ensures DistinctPaths(receipt.history)
  {
    hide EntryOk, MergeAll;
  }

  /** Over any number of successful runs: what an earlier receipt indexes, a later one still
      indexes, and an origin once in the history stays; every receipt indexes exactly the
      content-addressed files then on disk, under their own digests. */
  lemma {:induction false} EvidenceIsNeverLost(receipts: seq<Receipt>, runs: seq<Inputs>, hash: seq<Byte> -> string,
                                               subjects: set<string>,
                                               recognized: string -> Option<string>, encode: Origin -> string, i: nat,
                                               j: nat, path: string)
    requires Succession(receipts, runs, hash, encode) && i <= j < |runs| && Injective(encode)
    requires forall k :: 0 <= k < |runs| ==> InputsOk(runs[k], subjects, recognized)
    ensures HasPath(Contributions(receipts[i]), path) ==> HasPath(Contributions(receipts[j]), path)
    ensures HasPath(Contributions(receipts[j]), path) <==> path in runs[j].disk && Describe(path).Some?
    ensures forall s, b :: Holds(Contributions(receipts[j]), path, s, b) ==>
      && path in runs[j].disk && Describe(path).Some?
      && s == Describe(path).value.1 == hash(runs[j].disk[path]) && b == |runs[j].disk[path]|
    ensures forall o :: HasOrigin(receipts[i].history, path, o) ==> HasOrigin(receipts[j].history, path, o)
    decreases j
  {
    hide HistoryOf, ReceiptOk, InputsOk, Injective, HasPath, HasOrigin, Holds, Contributions, Describe, Retires,
      RecoversOrigin;
    var previous := Before(receipts, j);
    assert Publishes(previous, runs[j], hash, encode, receipts[j]);
    IndexEqualsStorage(previous, runs[j], hash, encode, receipts[j]);
    if i < j {
      EvidenceIsNeverLost(receipts, runs, hash, subjects, recognized, encode, i, j - 1, path);
      SuccessionValid(receipts, runs, hash, subjects, recognized, encode, j - 1);
      ReceiptDistinct(receipts[j - 1], subjects, recognized, encode);
      PathsOnlyGrow(previous, runs[j], hash, encode, receipts[j], path);
      forall o | HasOrigin(receipts[i].history, path, o)
        ensures HasOrigin(receipts[j].history, path, o)
      {
        OriginsAreExact(previous, runs[j], hash, encode, receipts[j], path, o);
      }
    }
  }
}
