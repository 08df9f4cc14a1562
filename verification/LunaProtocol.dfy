/** Concurrent workers on one output root. A worker takes the ledger lock, loads the pointer,
    computes a transition, installs immutable payloads, installs an immutable snapshot, renames
    the pointer and unlocks - one step at a time, interleaved with every other worker's steps,
    and it may stop (a crash, which drops its lock) between any two of them. An install is two
    steps, a hard link and the removal of the temporary name; a crash between them leaves a file
    with two links, which every later install under that name refuses. */
module LunaProtocol {
  import opened Wrappers
  import opened LunaQueue
  import opened LunaLedger
  import opened LunaHistory

  type Worker = nat

  /** What is installed, and under which name. */
  datatype File = SnapshotFile(ledger: Ledger) | OutputFile(path: OutputPath, payload: Payload)
  datatype Name = SnapshotName(ledger: Ledger) | OutputName(path: OutputPath)

  function NameOf(file: File): Name {
    match file
    case SnapshotFile(ledger) => SnapshotName(ledger)
    case OutputFile(path, _) => OutputName(path)
  }

  /** Where a worker stands. Every state but `Idle` is inside the lock. */
  datatype Pc =
    | Idle
    | Linked(file: File, next: Pc)         // the file has its name, and still its temporary one
    | Locked(op: Op)
    | Creating(op: Op)                     // first ledger: snapshot installed, pointer not yet
    | Loaded(op: Op, ledger: Ledger)
    | ResponseStored(op: Op, updated: Ledger)
    | Computed(op: Op, updated: Ledger)
    | Snapshotted(op: Op, updated: Ledger)
    | Renamed(op: Op)

  /** The output root and its workers: `snapshots` and `files` have one link each, the files under
      `halfLinked` have two. `committed`, `visible` and `acknowledged` only record what
      happened: operations whose rename took place, every ledger the pointer ever named, and
      operations whose call returned. */
  datatype World = World(
    pointer: Option<Ledger>,
    snapshots: set<Ledger>,
    files: map<OutputPath, Payload>,
    halfLinked: set<Name>,
    lock: Option<Worker>,
    pcs: map<Worker, Pc>,
    committed: seq<Op>,
    visible: seq<Ledger>,
    acknowledged: multiset<Op>)

  datatype Action = Start(op: Op) | Proceed | Stop

  datatype Turn = Turn(worker: Worker, action: Action)

  const EMPTY_ROOT := World(None, {}, map[], {}, None, map[], [], [], multiset{})

  function PcOf(world: World, worker: Worker): Pc {
    if worker in world.pcs then world.pcs[worker] else Idle
  }

  function At(world: World, worker: Worker, pc: Pc): World {
    world.(pcs := world.pcs[worker := pc])
  }

  /** Leave the lock, whatever the reason. */
  function Leave(world: World, worker: Worker): World {
    At(world, worker, Idle).(lock := None)
  }

  /** `install_immutable_bytes`: reuse identical content, refuse different content. */
  predicate Installable(files: map<OutputPath, Payload>, path: OutputPath, payload: Payload) {
    path in files ==> files[path] == payload
  }

  predicate Present(snapshots: set<Ledger>, files: map<OutputPath, Payload>, file: File) {
    match file
    case SnapshotFile(ledger) => ledger in snapshots
    case OutputFile(path, _) => path in files
  }

  predicate Same(files: map<OutputPath, Payload>, file: File) {
    file.OutputFile? ==> Installable(files, file.path, file.payload)
  }

  /** Payload names are digests, so are snapshot names. */
  predicate Addressed(file: File) {
    file.OutputFile? ==> file.path.digest == PayloadDigest(file.payload)
  }

  /** The first half of an install: a name with two links is refused, a present file is reused if
      it is the same, and otherwise the file is linked. */
  function Install(world: World, w: Worker, file: File, next: Pc): World {
    if NameOf(file) in world.halfLinked || !Same(world.files, file) then Leave(world, w)
    else if Present(world.snapshots, world.files, file) then At(world, w, next)
    else At(world, w, Linked(file, next)).(halfLinked := world.halfLinked + {NameOf(file)})
  }

  /** The second half: the temporary name is gone. */
  function Settle(world: World, file: File): World {
    var settled := world.(halfLinked := world.halfLinked - {NameOf(file)});
    match file
    case SnapshotFile(ledger) => settled.(snapshots := world.snapshots + {ledger})
    case OutputFile(path, payload) => settled.(files := world.files[path := payload])
  }

  /** The completion writes its payloads only when it will change the record. */
  predicate WritesPayloads(op: Op, ledger: Ledger, updated: Ledger) {
    op.CompleteOp? && updated != ledger && op.response.structured.Some?
  }

  function ResponseFile(op: Op): (file: File)
    requires op.CompleteOp? && op.response.structured.Some?
    ensures Addressed(file)
  {
    OutputFile(OutputsFor(op.jobId, op.response).responsePath, ResponsePayload(op.response))
  }

  function StructuredFile(op: Op): (file: File)
    requires op.CompleteOp? && op.response.structured.Some?
    ensures Addressed(file)
  {
    OutputFile(OutputsFor(op.jobId, op.response).structuredPath, StructuredPayload(op.response.structured.value))
  }

  /** One step of one worker. A step that is not enabled changes nothing. */
  function Take(world: World, queue: Queue, turn: Turn): World {
    var w := turn.worker;
    match turn.action
    case Start(op) =>
      if PcOf(world, w).Idle? && world.lock.None? then At(world, w, Locked(op)).(lock := Some(w)) else world
    case Stop =>
      if PcOf(world, w).Idle? then world else Leave(world, w)
    case Proceed =>
      match PcOf(world, w)
      case Idle => world
      case Linked(file, next) => At(Settle(world, file), w, next)
      case Locked(op) =>
        if world.pointer.None? then Install(world, w, SnapshotFile(InitialLedger(queue)), Creating(op))
        else if ValidLedger(world.pointer.value, queue) then At(world, w, Loaded(op, world.pointer.value))
        else Leave(world, w)
      case Creating(op) =>
        At(world, w, Loaded(op, InitialLedger(queue))).(
          pointer := Some(InitialLedger(queue)), visible := world.visible + [InitialLedger(queue)])
      case Loaded(op, ledger) =>
        var r := Step(ledger, queue, op);
        if r.Failure? then Leave(world, w)
        else if WritesPayloads(op, ledger, r.value) then
          Install(world, w, ResponseFile(op), ResponseStored(op, r.value))
        else At(world, w, Computed(op, r.value))
      case ResponseStored(op, updated) =>
        if op.CompleteOp? && op.response.structured.Some? then
          Install(world, w, StructuredFile(op), Computed(op, updated))
        else Leave(world, w)
      case Computed(op, updated) => Install(world, w, SnapshotFile(updated), Snapshotted(op, updated))
      case Snapshotted(op, updated) =>
        At(world, w, Renamed(op)).(
          pointer := Some(updated), committed := world.committed + [op], visible := world.visible + [updated])
      case Renamed(op) =>
        Leave(world, w).(acknowledged := world.acknowledged + multiset{op})
  }

  /** The world after a schedule: any workers, any operations, any order. */
  function Play(queue: Queue, schedule: seq<Turn>): World {
    if schedule == [] then EMPTY_ROOT
    else Take(Play(queue, schedule[..|schedule| - 1]), queue, schedule[|schedule| - 1])
  }

  // ----- The inductive invariant -----

  predicate HoldsPayloads(files: map<OutputPath, Payload>, outputs: Outputs) {
    && outputs.responsePath in files
    && PayloadDigest(files[outputs.responsePath]) == outputs.responseSha
    && outputs.structuredPath in files
    && PayloadDigest(files[outputs.structuredPath]) == outputs.structuredSha
  }

  predicate Stored(files: map<OutputPath, Payload>, ledger: Ledger) {
    forall i :: 0 <= i < |ledger.records| && ledger.records[i].status == Completed ==>
      ledger.records[i].outputs.Some? && HoldsPayloads(files, ledger.records[i].outputs.value)
  }

  predicate ContentAddressed(files: map<OutputPath, Payload>) {
    forall path :: path in files ==> PayloadDigest(files[path]) == path.digest
  }

  predicate PointerOk(world: World, queue: Queue) {
    if world.pointer.None? then world.committed == [] && world.visible == []
    else
      && |world.visible| == |world.committed| + 1
      && world.pointer.value == world.visible[|world.committed|]
      && Stored(world.files, world.pointer.value)
  }

  /** The pointer has named exactly the ledgers of the committed operations' prefixes. */
  predicate VisibleOk(world: World, queue: Queue) {
    forall n :: 0 <= n < |world.visible| ==>
      && n <= |world.committed|
      && world.visible[n] == RunOf(queue, world.committed[..n]).ledger
      && world.visible[n] in world.snapshots
  }

  ghost predicate LockOk(world: World) {
    forall w: Worker :: !PcOf(world, w).Idle? ==> world.lock == Some(w)
  }

  /** What holds of a worker between installs. */
  predicate BasePcOk(world: World, queue: Queue, pc: Pc) {
    match pc
    case Linked(_, _) => false
    case Idle => world.acknowledged <= multiset(world.committed)
    case Locked(_) => world.acknowledged <= multiset(world.committed)
    case Creating(_) =>
      && world.pointer.None? && InitialLedger(queue) in world.snapshots
      && world.acknowledged <= multiset(world.committed)
    case Loaded(_, ledger) =>
      world.pointer == Some(ledger) && world.acknowledged <= multiset(world.committed)
    case ResponseStored(op, updated) =>
      && Computes(world, queue, op, updated)
      && WritesPayloads(op, world.pointer.value, updated)
      && OutputsFor(op.jobId, op.response).responsePath in world.files
    case Computed(op, updated) =>
      Computes(world, queue, op, updated) && Stored(world.files, updated)
    case Snapshotted(op, updated) =>
      Computes(world, queue, op, updated) && Stored(world.files, updated) && updated in world.snapshots
    case Renamed(op) => world.acknowledged + multiset{op} <= multiset(world.committed)
  }

  /** A worker inside an install stands where the finished install will put it. */
  predicate PcOk(world: World, queue: Queue, pc: Pc) {
    if pc.Linked? then
      && NameOf(pc.file) in world.halfLinked && Addressed(pc.file)
      && BasePcOk(Settle(world, pc.file), queue, pc.next)
    else BasePcOk(world, queue, pc)
  }

  /** Nobody moved the pointer between the worker's load and now. */
  predicate Computes(world: World, queue: Queue, op: Op, updated: Ledger) {
    && world.pointer.Some?
    && Step(world.pointer.value, queue, op) == Success(updated)
    && world.acknowledged <= multiset(world.committed)
  }

  predicate HolderOk(world: World, queue: Queue) {
    PcOk(world, queue, if world.lock.None? then Idle else PcOf(world, world.lock.value))
  }

  /** A file has one link or two. */
  ghost predicate HalfOk(world: World) {
    && (forall path :: OutputName(path) in world.halfLinked ==> path !in world.files)
    && (forall ledger :: SnapshotName(ledger) in world.halfLinked ==> ledger !in world.snapshots)
  }

  ghost predicate Inv(world: World, queue: Queue) {
    && LockOk(world)
    && HalfOk(world)
    && PointerOk(world, queue)
    && VisibleOk(world, queue)
    && ContentAddressed(world.files)
    && HolderOk(world, queue)
  }

  lemma {:induction false} StoredGrows(files: map<OutputPath, Payload>, path: OutputPath, payload: Payload,
                                       ledger: Ledger)
    requires Stored(files, ledger) && Installable(files, path, payload)
    ensures Stored(files[path := payload], ledger)
  {
    forall i | 0 <= i < |ledger.records| && ledger.records[i].status == Completed
      ensures ledger.records[i].outputs.Some? && HoldsPayloads(files[path := payload], ledger.records[i].outputs.value)
    {
      assert HoldsPayloads(files, ledger.records[i].outputs.value);
    }
  }

  /** A step that writes no payload completes nothing new. */
  lemma {:induction false} StepKeepsStored(files: map<OutputPath, Payload>, ledger: Ledger, queue: Queue, op: Op)
    requires Stored(files, ledger)
    requires Step(ledger, queue, op).Success?
    requires WritesPayloads(op, ledger, Step(ledger, queue, op).value) ==>
      HoldsPayloads(files, OutputsFor(op.jobId, op.response))
    ensures Stored(files, Step(ledger, queue, op).value)
  {
    var updated := Step(ledger, queue, op).value;
    StepMovesLegally(ledger, queue, op);
    forall i | 0 <= i < |updated.records| && updated.records[i].status == Completed
      ensures updated.records[i].outputs.Some? && HoldsPayloads(files, updated.records[i].outputs.value)
    {
      assert LegalMove(ledger.records[i], updated.records[i], op, ledger.queueSha);
    }
  }

  lemma {:induction false} StartKeepsInv(world: World, queue: Queue, w: Worker, op: Op)
    requires Inv(world, queue)
    ensures Inv(Take(world, queue, Turn(w, Start(op))), queue)
  {
  }

  lemma {:induction false} LeaveKeepsInv(world: World, queue: Queue, w: Worker)
    requires Inv(world, queue) && !PcOf(world, w).Idle?
    ensures Inv(Leave(world, w), queue)
  {
    hide Step, Stored, InitialLedger, VisibleOk, PointerOk, ContentAddressed, OutputsFor;
    var after := Leave(world, w);
    StateIsFramed(world, after, queue);
    assert world.lock == Some(w);
    forall v: Worker
      ensures PcOf(after, v).Idle?
    {
      assert v != w ==> PcOf(after, v) == PcOf(world, v);
    }
  }

  lemma {:induction false} MovedHolder(world: World, after: World, w: Worker, pc: Pc)
    requires LockOk(world) && world.lock == Some(w)
    requires after.lock == world.lock && after.pcs == world.pcs[w := pc]
    ensures LockOk(after) && PcOf(after, w) == pc
  {
    forall v: Worker | !PcOf(after, v).Idle?
      ensures after.lock == Some(v)
    {
      if v != w {
        assert PcOf(after, v) == PcOf(world, v);
      }
    }
  }

  /** A finished install keeps everything but the worker's own place. */
  lemma {:induction false} SettleKeeps(world: World, queue: Queue, file: File)
    requires HalfOk(world) && PointerOk(world, queue) && VisibleOk(world, queue) && ContentAddressed(world.files)
    requires Addressed(file) && Same(world.files, file)
    ensures var after := Settle(world, file);
      HalfOk(after) && PointerOk(after, queue) && VisibleOk(after, queue) && ContentAddressed(after.files)
  {
    if file.OutputFile? && world.pointer.Some? {
      StoredGrows(world.files, file.path, file.payload, world.pointer.value);
    }
  }

  lemma {:induction false} InstallKeepsInv(world: World, queue: Queue, w: Worker, file: File, next: Pc)
    requires Inv(world, queue) && !PcOf(world, w).Idle? && Addressed(file)
    requires BasePcOk(Settle(world, file), queue, next)
    ensures Inv(Install(world, w, file, next), queue)
  {
    hide BasePcOk, PointerOk, VisibleOk;
    var after := Install(world, w, file, next);
    assert world.lock == Some(w);
    if NameOf(file) in world.halfLinked || !Same(world.files, file) {
      assert after == Leave(world, w);
      LeaveKeepsInv(world, queue, w);
    } else if Present(world.snapshots, world.files, file) {
      SettlesAlready(world, file);
      BaseIsNotLinked(world, queue, next);
      MovedHolder(world, after, w, next);
      PlaceIsFramed(world, after, queue, next);
      StateIsFramed(world, after, queue);
    } else {
      MovedHolder(world, after, w, Linked(file, next));
      assert after.halfLinked - {NameOf(file)} == world.halfLinked - {NameOf(file)};
      PlaceIsFramed(Settle(world, file), Settle(after, file), queue, next);
      StateIsFramed(world, after, queue);
    }
  }

  lemma {:induction false} SettlesAlready(world: World, file: File)
    requires NameOf(file) !in world.halfLinked && Same(world.files, file) && Present(world.snapshots, world.files, file)
    ensures Settle(world, file) == world
  {
    match file
    case SnapshotFile(ledger) => assert world.snapshots + {ledger} == world.snapshots;
    case OutputFile(path, payload) => assert world.files[path := payload] == world.files;
  }

  /** Places, locks and half-linked names do not matter between installs. */
  lemma {:induction false} PlaceIsFramed(a: World, b: World, queue: Queue, pc: Pc)
    requires b == a.(pcs := b.pcs, lock := b.lock, halfLinked := b.halfLinked) && BasePcOk(a, queue, pc)
    ensures BasePcOk(b, queue, pc)
  {
    hide Step, Stored;
  }

  lemma {:induction false} StateIsFramed(a: World, b: World, queue: Queue)
    requires b == a.(pcs := b.pcs, lock := b.lock, halfLinked := b.halfLinked)
    requires PointerOk(a, queue) && VisibleOk(a, queue)
    ensures PointerOk(b, queue) && VisibleOk(b, queue)
  {
    hide Stored;
  }

  lemma {:induction false} SettleKeepsInv(world: World, queue: Queue, w: Worker)
    requires Inv(world, queue) && PcOf(world, w).Linked?
    ensures Inv(Take(world, queue, Turn(w, Proceed)), queue)
  {
    hide BasePcOk, PointerOk, VisibleOk;
    var file, next := PcOf(world, w).file, PcOf(world, w).next;
    var after := Take(world, queue, Turn(w, Proceed));
    assert world.lock == Some(w);
    assert Same(world.files, file);
    SettleKeeps(world, queue, file);
    MovedHolder(Settle(world, file), after, w, next);
    PlaceIsFramed(Settle(world, file), after, queue, next);
    StateIsFramed(Settle(world, file), after, queue);
    assert !next.Linked? by { BaseIsNotLinked(after, queue, next); }
  }

  lemma {:induction false} BaseIsNotLinked(world: World, queue: Queue, pc: Pc)
    requires BasePcOk(world, queue, pc)
    ensures !pc.Linked?
  {
    hide Step, Stored;
  }

  lemma {:induction false} LoadKeepsInv(world: World, queue: Queue, w: Worker)
    requires Inv(world, queue) && PcOf(world, w).Locked?
    ensures Inv(Take(world, queue, Turn(w, Proceed)), queue)
  {
    hide ValidLedger, Step, Stored, InitialLedger;
    var after := Take(world, queue, Turn(w, Proceed));
    if world.pointer.None? {
      InstallKeepsInv(world, queue, w, SnapshotFile(InitialLedger(queue)), Creating(PcOf(world, w).op));
    } else if !ValidLedger(world.pointer.value, queue) {
      LeaveKeepsInv(world, queue, w);
    } else {
      MovedHolder(world, after, w, PcOf(after, w));
    }
  }

  lemma {:induction false} CreateKeepsInv(world: World, queue: Queue, w: Worker)
    requires Inv(world, queue) && PcOf(world, w).Creating?
    ensures Inv(Take(world, queue, Turn(w, Proceed)), queue)
  {
    hide ValidLedger, Step;
    var after := Take(world, queue, Turn(w, Proceed));
    MovedHolder(world, after, w, PcOf(after, w));
    assert after.committed[..0] == [];
    assert after.visible == [InitialLedger(queue)];
    assert after.visible[0] == RunOf(queue, []).ledger;
  }

  lemma {:induction false} ApplyKeepsInv(world: World, queue: Queue, w: Worker)
    requires Inv(world, queue) && PcOf(world, w).Loaded?
    ensures Inv(Take(world, queue, Turn(w, Proceed)), queue)
  {
    hide Step, Install;
    var after := Take(world, queue, Turn(w, Proceed));
    var op, ledger := PcOf(world, w).op, PcOf(world, w).ledger;
    var r := Step(ledger, queue, op);
    if r.Failure? {
      LeaveKeepsInv(world, queue, w);
    } else if WritesPayloads(op, ledger, r.value) {
      InstallKeepsInv(world, queue, w, ResponseFile(op), ResponseStored(op, r.value));
    } else {
      MovedHolder(world, after, w, PcOf(after, w));
      StepKeepsStored(world.files, ledger, queue, op);
    }
  }

  lemma {:induction false} StructuredKeepsInv(world: World, queue: Queue, w: Worker)
    requires Inv(world, queue) && PcOf(world, w).ResponseStored?
    ensures Inv(Take(world, queue, Turn(w, Proceed)), queue)
  {
    hide Step, Install, HalfOk;
    var op, updated := PcOf(world, w).op, PcOf(world, w).updated;
    var file, outputs := StructuredFile(op), OutputsFor(op.jobId, op.response);
    var settled := Settle(world, file);
    StoredGrows(world.files, file.path, file.payload, world.pointer.value);
    assert HoldsPayloads(settled.files, outputs);
    StepKeepsStored(settled.files, world.pointer.value, queue, op);
    InstallKeepsInv(world, queue, w, file, Computed(op, updated));
  }

  lemma {:induction false} SnapshotKeepsInv(world: World, queue: Queue, w: Worker)
    requires Inv(world, queue) && PcOf(world, w).Computed?
    ensures Inv(Take(world, queue, Turn(w, Proceed)), queue)
  {
    hide Step, Stored, InitialLedger, Install, HalfOk;
    var op, updated := PcOf(world, w).op, PcOf(world, w).updated;
    InstallKeepsInv(world, queue, w, SnapshotFile(updated), Snapshotted(op, updated));
  }

  lemma {:induction false} RenameKeepsInv(world: World, queue: Queue, w: Worker)
    requires Inv(world, queue) && PcOf(world, w).Snapshotted?
    ensures Inv(Take(world, queue, Turn(w, Proceed)), queue)
  {
    hide Step, Stored, InitialLedger, ContentAddressed;
    var after := Take(world, queue, Turn(w, Proceed));
    MovedHolder(world, after, w, PcOf(after, w));
    RenamedVisible(world, after, queue, w);
  }

  lemma {:induction false} RenamedVisible(world: World, after: World, queue: Queue, w: Worker)
    requires Inv(world, queue) && PcOf(world, w).Snapshotted? && after == Take(world, queue, Turn(w, Proceed))
    ensures VisibleOk(after, queue) && PointerOk(after, queue)
    ensures multiset(after.committed) == multiset(world.committed) + multiset{PcOf(world, w).op}
  {
    hide Step, Stored, InitialLedger, ContentAddressed, HalfOk;
    var op, updated := PcOf(world, w).op, PcOf(world, w).updated;
    var n := |world.committed|;
    assert world.committed[..n] == world.committed;
    CommitRuns(queue, world.committed, op);
    forall k | 0 <= k < |after.visible|
      ensures after.visible[k] == RunOf(queue, after.committed[..k]).ledger && after.visible[k] in after.snapshots
    {
      if k <= n {
        assert after.committed[..k] == world.committed[..k];
      } else {
        assert after.committed[..k] == after.committed;
      }
    }
  }

  /** Appending an accepted operation runs it on the ledger reached so far. */
  lemma {:induction false} CommitRuns(queue: Queue, ops: seq<Op>, op: Op)
    ensures Step(RunOf(queue, ops).ledger, queue, op).Success? ==>
      RunOf(queue, ops + [op]).ledger == Step(RunOf(queue, ops).ledger, queue, op).value
  {
    hide Step;
    assert (ops + [op])[..|ops|] == ops;
  }

  lemma {:induction false} ReturnKeepsInv(world: World, queue: Queue, w: Worker)
    requires Inv(world, queue) && PcOf(world, w).Renamed?
    ensures Inv(Take(world, queue, Turn(w, Proceed)), queue)
  {
    LeaveKeepsInv(world, queue, w);
  }

  lemma {:induction false} TakeKeepsInv(world: World, queue: Queue, turn: Turn)
    requires Inv(world, queue)
    ensures Inv(Take(world, queue, turn), queue)
  {
    var w := turn.worker;
    match turn.action
    case Start(op) => StartKeepsInv(world, queue, w, op);
    case Stop =>
      if !PcOf(world, w).Idle? {
        LeaveKeepsInv(world, queue, w);
      }
    case Proceed =>
      match PcOf(world, w)
      case Idle =>
      case Linked(_, _) => SettleKeepsInv(world, queue, w);
      case Locked(_) => LoadKeepsInv(world, queue, w);
      case Creating(_) => CreateKeepsInv(world, queue, w);
      case Loaded(_, _) => ApplyKeepsInv(world, queue, w);
      case ResponseStored(_, _) => StructuredKeepsInv(world, queue, w);
      case Computed(_, _) => SnapshotKeepsInv(world, queue, w);
      case Snapshotted(_, _) => RenameKeepsInv(world, queue, w);
      case Renamed(_) => ReturnKeepsInv(world, queue, w);
  }

  lemma {:induction false} InvAlways(queue: Queue, schedule: seq<Turn>)
    ensures Inv(Play(queue, schedule), queue)
  {
    if schedule != [] {
      InvAlways(queue, schedule[..|schedule| - 1]);
      TakeKeepsInv(Play(queue, schedule[..|schedule| - 1]), queue, schedule[|schedule| - 1]);
    }
  }

  // ----- Main results -----

  /** In every interleaving, with stops anywhere: the visible ledger is valid and is the
      sequential result of the committed operations; no acknowledged operation is lost; every
      completed record's payloads are on disk under their digests, with one link; at most one worker
      is inside the lock. */
  lemma {:induction false} EveryInterleavingIsSafe(queue: Queue, schedule: seq<Turn>)
    requires QueueAccepted(queue)
    ensures var world := Play(queue, schedule);
      && (world.pointer.Some? ==>
            && ValidLedger(world.pointer.value, queue)
            && world.pointer.value == RunOf(queue, world.committed).ledger
            && Stored(world.files, world.pointer.value))
      && (world.pointer.None? ==> world.committed == [])
      && world.acknowledged <= multiset(world.committed)
      && (forall v: Worker, w: Worker :: !PcOf(world, v).Idle? && !PcOf(world, w).Idle? ==> v == w)
      && HalfOk(world)
  {
    hide Inv, Take, Step, ValidLedger, Stored, HalfOk;
    InvAlways(queue, schedule);
    var world := Play(queue, schedule);
    LoadsSafely(world, queue);
    PointerIsTheRun(world, queue);
    NothingAcknowledgedIsLost(world, queue);
    OneInside(world, queue);
  }

  lemma {:induction false} PointerIsTheRun(world: World, queue: Queue)
    requires Inv(world, queue)
    ensures world.pointer.Some? ==>
      world.pointer.value == RunOf(queue, world.committed).ledger && Stored(world.files, world.pointer.value)
    ensures world.pointer.None? ==> world.committed == []
    ensures HalfOk(world)
  {
    hide Step, Stored, InitialLedger, HolderOk, ContentAddressed;
    assert world.committed[..|world.committed|] == world.committed;
  }

  lemma {:induction false} NothingAcknowledgedIsLost(world: World, queue: Queue)
    requires Inv(world, queue)
    ensures world.acknowledged <= multiset(world.committed)
  {
    hide Step, Stored, InitialLedger, VisibleOk, PointerOk, ContentAddressed, HalfOk;
    if world.lock.Some? && PcOf(world, world.lock.value).Renamed? {
      var op := PcOf(world, world.lock.value).op;
      assert world.acknowledged <= world.acknowledged + multiset{op};
    }
  }

  lemma {:induction false} OneInside(world: World, queue: Queue)
    requires Inv(world, queue)
    ensures forall v: Worker, w: Worker :: !PcOf(world, v).Idle? && !PcOf(world, w).Idle? ==> v == w
  {
    hide HolderOk, VisibleOk, PointerOk, ContentAddressed, HalfOk;
  }

  /** Every ledger the pointer ever named has an immutable snapshot, is valid, and is the result
      of a prefix of the committed operations. */
  lemma {:induction false} EveryVisibleLedgerIsKept(queue: Queue, schedule: seq<Turn>, n: nat)
    requires QueueAccepted(queue) && n < |Play(queue, schedule).visible|
    ensures var world := Play(queue, schedule);
      && world.visible[n] in world.snapshots
      && ValidLedger(world.visible[n], queue)
      && n <= |world.committed|
      && world.visible[n] == RunOf(queue, world.committed[..n]).ledger
  {
    InvAlways(queue, schedule);
    RunExplained(queue, Play(queue, schedule).committed[..n]);
  }

  /** What was committed, shown, kept or stored earlier is still there later. */
  predicate Extends(earlier: World, later: World) {
    && earlier.committed <= later.committed
    && earlier.visible <= later.visible
    && earlier.snapshots <= later.snapshots
    && earlier.acknowledged <= later.acknowledged
    && Preserved(earlier.files, later.files)
  }

  predicate Preserved(earlier: map<OutputPath, Payload>, later: map<OutputPath, Payload>) {
    forall path :: path in earlier ==> path in later && later[path] == earlier[path]
  }

  lemma {:induction false} TakeExtends(world: World, queue: Queue, turn: Turn)
    requires HalfOk(world) && HolderSettles(world, turn.worker)
    ensures Extends(world, Take(world, queue, turn))
  {
    hide Step, ValidLedger, InitialLedger, OutputsFor, WritesPayloads;
  }

  /** The file a worker is installing is the one its name will hold. */
  predicate HolderSettles(world: World, w: Worker) {
    PcOf(world, w).Linked? ==> NameOf(PcOf(world, w).file) in world.halfLinked
  }

  lemma {:induction false} HolderLinks(world: World, queue: Queue, w: Worker)
    requires Inv(world, queue)
    ensures HalfOk(world) && HolderSettles(world, w)
  {
    hide BasePcOk;
  }

  lemma {:induction false} ExtendsItself(world: World)
    ensures Extends(world, world)
  {
  }

  lemma {:induction false} ExtendsTransitive(a: World, b: World, c: World)
    requires Extends(a, b) && Extends(b, c)
    ensures Extends(a, c)
  {
  }

  /** Nothing is ever taken back: a schedule's effects survive every longer schedule. */
  lemma {:induction false} NothingIsTakenBack(queue: Queue, schedule: seq<Turn>, n: nat)
    requires n <= |schedule|
    ensures Extends(Play(queue, schedule[..n]), Play(queue, schedule))
    decreases |schedule|
  {
    hide Take, Extends;
    if n == |schedule| {
      assert schedule[..n] == schedule;
      ExtendsItself(Play(queue, schedule));
    } else {
      var last := |schedule| - 1;
      assert schedule[..last][..n] == schedule[..n];
      NothingIsTakenBack(queue, schedule[..last], n);
      InvAlways(queue, schedule[..last]);
      HolderLinks(Play(queue, schedule[..last]), queue, schedule[last].worker);
      TakeExtends(Play(queue, schedule[..last]), queue, schedule[last]);
      ExtendsTransitive(Play(queue, schedule[..n]), Play(queue, schedule[..last]), Play(queue, schedule));
    }
  }

  // ----- An undisturbed call does what the sequential code does -----

  /** The durable part of the output root. */
  datatype Root = Root(pointer: Option<Ledger>, snapshots: set<Ledger>, files: map<OutputPath, Payload>,
                       halfLinked: set<Name>)

  function RootOf(world: World): Root {
    Root(world.pointer, world.snapshots, world.files, world.halfLinked)
  }

  /** What a call leaves behind, and whether it got through. */
  datatype Called = Called(root: Root, done: bool)

  /** One install without interference: refused under a name with two links or different content. */
  function Put(root: Root, file: File): Called {
    if NameOf(file) in root.halfLinked || !Same(root.files, file) then Called(root, false)
    else
      match file
      case SnapshotFile(ledger) => Called(root.(snapshots := root.snapshots + {ledger}), true)
      case OutputFile(path, payload) => Called(root.(files := root.files[path := payload]), true)
  }

  /** `save_luna_ledger`: install the snapshot, then replace the pointer. */
  function AfterSave(root: Root, updated: Ledger): Called {
    var put := Put(root, SnapshotFile(updated));
    if put.done then Called(put.root.(pointer := Some(updated)), true) else put
  }

  /** `load_luna_ledger`: create the first ledger when the pointer is absent. */
  function AfterLoad(root: Root, queue: Queue): (c: Called)
    ensures c.done ==> c.root.pointer.Some?
  {
    if root.pointer.Some? then Called(root, true) else AfterSave(root, InitialLedger(queue))
  }

  /** The payloads of a completion. */
  function AfterPayloads(root: Root, op: Op, updated: Ledger): Called
    requires root.pointer.Some?
  {
    if WritesPayloads(op, root.pointer.value, updated) then
      var first := Put(root, ResponseFile(op));
      if first.done then Put(first.root, StructuredFile(op)) else first
    else Called(root, true)
  }

  /** The rest of a call once the ledger is loaded. */
  function AfterLoaded(root: Root, queue: Queue, op: Op): Called
    requires root.pointer.Some?
  {
    var r := Step(root.pointer.value, queue, op);
    if r.Failure? then Called(root, false)
    else
      var stored := AfterPayloads(root, op, r.value);
      if stored.done then AfterSave(stored.root, r.value) else stored
  }

  /** One locked call - load, transition, payloads, save - without interference. */
  function AfterCall(root: Root, queue: Queue, op: Op): Called {
    var loaded := AfterLoad(root, queue);
    if loaded.done then AfterLoaded(loaded.root, queue, op) else loaded
  }

  /** The ledger a call works on, and the names it installs under. */
  function LedgerFor(root: Root, queue: Queue): Ledger {
    if root.pointer.Some? then root.pointer.value else InitialLedger(queue)
  }

  function NamesInstalled(root: Root, queue: Queue, op: Op): set<Name>
    requires Step(LedgerFor(root, queue), queue, op).Success?
  {
    var ledger := LedgerFor(root, queue);
    var updated := Step(ledger, queue, op).value;
    (if root.pointer.None? then {SnapshotName(ledger)} else {})
    + (if WritesPayloads(op, ledger, updated) then {NameOf(ResponseFile(op)), NameOf(StructuredFile(op))} else {})
    + {SnapshotName(updated)}
  }

  /** An undisturbed call gets through exactly when the transition accepts the operation and no
      crash has left one of the names it installs with two links. */
  lemma {:induction false} CallGetsThroughIff(root: Root, queue: Queue, op: Op)
    requires ContentAddressed(root.files)
    ensures AfterCall(root, queue, op).done <==>
      && Step(LedgerFor(root, queue), queue, op).Success?
      && NamesInstalled(root, queue, op) !! root.halfLinked
  {
    hide Step, InitialLedger;
    var ledger := LedgerFor(root, queue);
    var loaded := AfterLoad(root, queue);
    if loaded.done && Step(ledger, queue, op).Success? {
      var updated := Step(ledger, queue, op).value;
      PayloadsGetThroughIff(loaded.root, op, updated);
    }
  }

  lemma {:induction false} PayloadsGetThroughIff(root: Root, op: Op, updated: Ledger)
    requires root.pointer.Some? && ContentAddressed(root.files)
    ensures var stored := AfterPayloads(root, op, updated);
      && stored.root.halfLinked == root.halfLinked
      && (stored.done <==> (WritesPayloads(op, root.pointer.value, updated) ==>
            NameOf(ResponseFile(op)) !in root.halfLinked && NameOf(StructuredFile(op)) !in root.halfLinked))
  {
    hide OutputsFor;
  }

  function Proceeds(world: World, queue: Queue, w: Worker, n: nat): World
    decreases n
  {
    if n == 0 then world else Proceeds(Take(world, queue, Turn(w, Proceed)), queue, w, n - 1)
  }

  /** The worker is out of the lock with this outcome; its operation joins those committed and
      acknowledged before exactly if it got through. */
  predicate Left(after: World, committed: seq<Op>, acknowledged: multiset<Op>, w: Worker, op: Op, outcome: Called) {
    && RootOf(after) == outcome.root && after.lock.None? && PcOf(after, w).Idle?
    && after.committed == committed + (if outcome.done then [op] else [])
    && after.acknowledged == acknowledged + (if outcome.done then multiset{op} else multiset{})
  }

  lemma {:induction false} IdleProceeds(world: World, queue: Queue, w: Worker, n: nat)
    requires PcOf(world, w).Idle?
    ensures Proceeds(world, queue, w, n) == world
  {
    if n > 0 {
      IdleProceeds(world, queue, w, n - 1);
    }
  }

  lemma {:induction false} LeavesAtOnce(world: World, queue: Queue, w: Worker, op: Op, n: nat)
    requires n >= 1 && Take(world, queue, Turn(w, Proceed)) == Leave(world, w)
    ensures Left(Proceeds(world, queue, w, n), world.committed, world.acknowledged, w, op, Called(RootOf(world), false))
  {
    hide Take;
    IdleProceeds(Leave(world, w), queue, w, n - 1);
  }

  /** An install that is not refused takes one step, if the file is there, or two. */
  lemma {:induction false} InstallRuns(world: World, queue: Queue, w: Worker, file: File, next: Pc,
                                       n: nat) returns (m: nat)
    requires n >= 2 && Take(world, queue, Turn(w, Proceed)) == Install(world, w, file, next)
    requires NameOf(file) !in world.halfLinked && Same(world.files, file)
    ensures n - 2 <= m && Proceeds(world, queue, w, n) == Proceeds(At(Settle(world, file), w, next), queue, w, m)
    ensures RootOf(At(Settle(world, file), w, next)) == Put(RootOf(world), file).root && Put(RootOf(world), file).done
  {
    hide Take, Install, Step;
    assert world.halfLinked - {NameOf(file)} == world.halfLinked;
    InstallIs(world, w, file, next);
    if Present(world.snapshots, world.files, file) {
      SettlesAlready(world, file);
      m := n - 1;
    } else {
      LinksAndUnlinks(world, queue, w, file, next);
      TwoProceeds(world, queue, w, n);
      m := n - 2;
    }
  }

  lemma {:induction false} InstallIs(world: World, w: Worker, file: File, next: Pc)
    requires NameOf(file) !in world.halfLinked && Same(world.files, file)
    ensures Present(world.snapshots, world.files, file) ==> Install(world, w, file, next) == At(world, w, next)
  {
  }

  lemma {:induction false} LinksAndUnlinks(world: World, queue: Queue, w: Worker, file: File, next: Pc)
    requires NameOf(file) !in world.halfLinked && Same(world.files, file)
      && !Present(world.snapshots, world.files, file)
    ensures Take(Install(world, w, file, next), queue, Turn(w, Proceed)) == At(Settle(world, file), w, next)
  {
    hide Step, ValidLedger, InitialLedger;
    var linked := Install(world, w, file, next);
    assert world.halfLinked + {NameOf(file)} - {NameOf(file)} == world.halfLinked == world.halfLinked - {NameOf(file)};
    assert linked.pcs[w := next] == world.pcs[w := next];
  }

  lemma {:induction false} TwoProceeds(world: World, queue: Queue, w: Worker, n: nat)
    requires n >= 2
    ensures Proceeds(world, queue, w, n)
         == Proceeds(Take(Take(world, queue, Turn(w, Proceed)), queue, Turn(w, Proceed)), queue, w, n - 2)
  {
    hide Take;
    var next := Take(world, queue, Turn(w, Proceed));
    assert Proceeds(world, queue, w, n) == Proceeds(next, queue, w, n - 1);
  }

  lemma {:induction false} RenameRuns(world: World, queue: Queue, w: Worker, op: Op, updated: Ledger, n: nat)
    requires PcOf(world, w) == Snapshotted(op, updated) && n >= 2
    ensures Left(Proceeds(world, queue, w, n), world.committed, world.acknowledged, w, op,
                 Called(RootOf(world).(pointer := Some(updated)), true))
  {
    hide Step, Install, Proceeds;
    TwoProceeds(world, queue, w, n);
    IdleProceeds(Take(Take(world, queue, Turn(w, Proceed)), queue, Turn(w, Proceed)), queue, w, n - 2);
  }

  /** From a computed transition: snapshot, rename, return. */
  lemma {:induction false} SaveRuns(world: World, queue: Queue, w: Worker, op: Op, updated: Ledger, n: nat)
    requires PcOf(world, w) == Computed(op, updated) && n >= 4
    ensures Left(Proceeds(world, queue, w, n), world.committed, world.acknowledged, w, op,
                 AfterSave(RootOf(world), updated))
  {
    hide Step, Install, Proceeds, Left;
    var file := SnapshotFile(updated);
    if NameOf(file) in world.halfLinked {
      InstallRefused(world, w, file, Snapshotted(op, updated));
      LeavesAtOnce(world, queue, w, op, n);
    } else {
      var m := InstallRuns(world, queue, w, file, Snapshotted(op, updated), n);
      RenameRuns(At(Settle(world, file), w, Snapshotted(op, updated)), queue, w, op, updated, m);
    }
  }

  lemma {:induction false} InstallRefused(world: World, w: Worker, file: File, next: Pc)
    requires NameOf(file) in world.halfLinked
    ensures Install(world, w, file, next) == Leave(world, w)
    ensures Put(RootOf(world), file) == Called(RootOf(world), false)
  {
  }

  lemma {:induction false} PayloadsRun(world: World, queue: Queue, w: Worker, op: Op, updated: Ledger, n: nat)
    requires ContentAddressed(world.files) && n >= 8
    requires world.pointer.Some? && PcOf(world, w) == Loaded(op, world.pointer.value)
    requires Step(world.pointer.value, queue, op) == Success(updated)
    requires WritesPayloads(op, world.pointer.value, updated)
    ensures Left(Proceeds(world, queue, w, n), world.committed, world.acknowledged, w, op,
                 AfterLoaded(RootOf(world), queue, op))
  {
    hide Step, Install, Put, OutputsFor, Left, ResponseFile, StructuredFile, AfterSave;
    var first, second := ResponseFile(op), StructuredFile(op);
    assert Take(world, queue, Turn(w, Proceed)) == Install(world, w, first, ResponseStored(op, updated));
    if NameOf(first) in world.halfLinked {
      InstallRefused(world, w, first, ResponseStored(op, updated));
      LeavesAtOnce(world, queue, w, op, n);
    } else {
      var m := InstallRuns(world, queue, w, first, ResponseStored(op, updated), n);
      StructuredRuns(At(Settle(world, first), w, ResponseStored(op, updated)), queue, w, op, updated, m);
    }
  }

  lemma {:induction false} StructuredRuns(world: World, queue: Queue, w: Worker, op: Op, updated: Ledger, n: nat)
    requires ContentAddressed(world.files) && n >= 6
    requires PcOf(world, w) == ResponseStored(op, updated) && op.CompleteOp? && op.response.structured.Some?
    ensures var put := Put(RootOf(world), StructuredFile(op));
      Left(Proceeds(world, queue, w, n), world.committed, world.acknowledged, w, op,
           if put.done then AfterSave(put.root, updated) else put)
  {
    hide Step, Install, Put, OutputsFor, Left, StructuredFile, AfterSave;
    var file := StructuredFile(op);
    assert Take(world, queue, Turn(w, Proceed)) == Install(world, w, file, Computed(op, updated));
    if NameOf(file) in world.halfLinked {
      InstallRefused(world, w, file, Computed(op, updated));
      LeavesAtOnce(world, queue, w, op, n);
    } else {
      var m := InstallRuns(world, queue, w, file, Computed(op, updated), n);
      SaveRuns(At(Settle(world, file), w, Computed(op, updated)), queue, w, op, updated, m);
    }
  }

  lemma {:induction false} LoadedRuns(world: World, queue: Queue, w: Worker, op: Op, n: nat)
    requires ContentAddressed(world.files) && n >= 8
    requires world.pointer.Some? && PcOf(world, w) == Loaded(op, world.pointer.value)
    ensures Left(Proceeds(world, queue, w, n), world.committed, world.acknowledged, w, op,
                 AfterLoaded(RootOf(world), queue, op))
  {
    hide Step, Install, Put, OutputsFor, Left, AfterSave;
    var r := Step(world.pointer.value, queue, op);
    if r.Failure? {
      LeavesAtOnce(world, queue, w, op, n);
    } else if WritesPayloads(op, world.pointer.value, r.value) {
      PayloadsRun(world, queue, w, op, r.value, n);
    } else {
      SaveRuns(Take(world, queue, Turn(w, Proceed)), queue, w, op, r.value, n - 1);
    }
  }

  /** A worker that finds the lock free and is not interrupted leaves exactly `AfterCall` behind,
      commits and returns its operation exactly when the call gets through, and unlocks. */
  lemma {:induction false} UndisturbedCall(world: World, queue: Queue, w: Worker, op: Op)
    requires Inv(world, queue) && QueueAccepted(queue)
    requires PcOf(world, w).Idle? && world.lock.None?
    ensures Left(Proceeds(Take(world, queue, Turn(w, Start(op))), queue, w, 11), world.committed, world.acknowledged, w,
                 op,
                 AfterCall(RootOf(world), queue, op))
  {
    hide Step, ValidLedger, QueueAccepted, InitialLedger, Left, AfterLoaded, Install, Put, Inv;
    var started := Take(world, queue, Turn(w, Start(op)));
    var first := SnapshotFile(InitialLedger(queue));
    LoadsSafely(world, queue);
    if world.pointer.Some? {
      LoadedRuns(Take(started, queue, Turn(w, Proceed)), queue, w, op, 10);
    } else if NameOf(first) in world.halfLinked {
      InstallRefused(started, w, first, Creating(op));
      LeavesAtOnce(started, queue, w, op, 11);
    } else {
      var m := InstallRuns(started, queue, w, first, Creating(op), 11);
      var creating := At(Settle(started, first), w, Creating(op));
      LoadedRuns(Take(creating, queue, Turn(w, Proceed)), queue, w, op, m - 1);
    }
  }

  /** The visible ledger is valid, so loading never refuses. */
  lemma {:induction false} LoadsSafely(world: World, queue: Queue)
    requires Inv(world, queue) && QueueAccepted(queue)
    ensures world.pointer.Some? ==> ValidLedger(world.pointer.value, queue)
    ensures ContentAddressed(world.files)
  {
    if world.pointer.Some? {
      RunExplained(queue, world.committed);
      assert world.committed[..|world.committed|] == world.committed;
    }
  }

  // ----- What a crash inside an install costs -----

  /** A schedule in which nobody crashes. */
  predicate NoStops(schedule: seq<Turn>) {
    forall k :: 0 <= k < |schedule| ==> !schedule[k].action.Stop?
  }

  /** Only the lock holder's own install is under way. */
  predicate OnlyHoldersLink(world: World) {
    forall name :: name in world.halfLinked ==>
      world.lock.Some? && PcOf(world, world.lock.value).Linked? && name == NameOf(PcOf(world, world.lock.value).file)
  }

  /** Without crashes no name keeps two links, so between calls nothing stands in a call's way. */
  lemma {:induction false} WithoutCrashesNothingIsLeft(queue: Queue, schedule: seq<Turn>)
    requires NoStops(schedule)
    ensures OnlyHoldersLink(Play(queue, schedule))
    ensures Play(queue, schedule).lock.None? ==> Play(queue, schedule).halfLinked == {}
  {
    hide Step, ValidLedger, InitialLedger;
    if schedule != [] {
      var front, turn := schedule[..|schedule| - 1], schedule[|schedule| - 1];
      WithoutCrashesNothingIsLeft(queue, front);
      InvAlways(queue, front);
      TakeLeavesNothing(Play(queue, front), queue, turn);
    }
  }

  lemma {:induction false} TakeLeavesNothing(world: World, queue: Queue, turn: Turn)
    requires LockOk(world) && OnlyHoldersLink(world) && !turn.action.Stop?
    ensures OnlyHoldersLink(Take(world, queue, turn))
  {
    hide Step, ValidLedger, InitialLedger;
    if turn.action.Proceed? && !PcOf(world, turn.worker).Idle? {
      assert world.lock == Some(turn.worker);
    }
  }

  /** No pointer, and the name of the first snapshot has two links. */
  ghost predicate Blocked(world: World, queue: Queue) {
    && world.pointer.None? && SnapshotName(InitialLedger(queue)) in world.halfLinked && world.committed == []
    && forall w: Worker :: PcOf(world, w).Idle? || PcOf(world, w).Locked?
  }

  /** One crash between the link and the unlink of the very first snapshot stops the root for
      good: whatever any worker does afterwards, no ledger ever becomes visible. */
  lemma {:induction false} OneCrashBlocksForGood(queue: Queue, w: Worker, op: Op, schedule: seq<Turn>)
    ensures var crash := [Turn(w, Start(op)), Turn(w, Proceed), Turn(w, Stop)];
      Play(queue, crash + schedule).pointer.None? && Play(queue, crash + schedule).committed == []
  {
    BlockedStays(queue, w, op, schedule);
  }

  lemma {:induction false} TakeKeepsBlocked(world: World, queue: Queue, turn: Turn)
    requires Blocked(world, queue)
    ensures Blocked(Take(world, queue, turn), queue)
  {
    hide Step, ValidLedger, InitialLedger;
    var after := Take(world, queue, turn);
    forall v: Worker
      ensures PcOf(after, v).Idle? || PcOf(after, v).Locked?
    {
      assert PcOf(world, v).Idle? || PcOf(world, v).Locked?;
      assert PcOf(world, turn.worker).Idle? || PcOf(world, turn.worker).Locked?;
    }
  }

  lemma {:induction false} BlockedStays(queue: Queue, w: Worker, op: Op, schedule: seq<Turn>)
    ensures Blocked(Play(queue, [Turn(w, Start(op)), Turn(w, Proceed), Turn(w, Stop)] + schedule), queue)
    decreases |schedule|
  {
    hide Step, ValidLedger, InitialLedger;
    var start, link, stop := Turn(w, Start(op)), Turn(w, Proceed), Turn(w, Stop);
    var crash := [start, link, stop];
    var all := crash + schedule;
    if schedule == [] {
      assert all == crash && crash[..2] == [start, link] && [start, link][..1] == [start] && [start][..0] == [];
      var started := Take(EMPTY_ROOT, queue, start);
      assert Play(queue, []) == EMPTY_ROOT;
      assert Play(queue, [start]) == started;
      var linked := Take(started, queue, link);
      assert Play(queue, [start, link]) == linked;
      assert PcOf(linked, w).Linked?;
      assert Play(queue, crash) == Take(linked, queue, stop);
    } else {
      var last := |schedule| - 1;
      assert all[..|all| - 1] == crash + schedule[..last] && all[|all| - 1] == schedule[last];
      BlockedStays(queue, w, op, schedule[..last]);
      TakeKeepsBlocked(Play(queue, all[..|all| - 1]), queue, schedule[last]);
    }
  }
}
