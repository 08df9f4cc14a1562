/** No-clobber installation by hard links (`storage.py`), run by any number of installers on one
    destination: every file-system call is one step, steps interleave freely, and an installer may
    die between any two of them. */
module InstallProtocol {
  import opened Wrappers

  type Byte = b: int | 0 <= b < 256
  type Bytes = seq<Byte>
  type Worker = nat

  datatype Name = Destination | Temporary(worker: Worker) | Unrelated(name: string)

  /** `changes` stands for the change time: every link and unlink moves it. */
  datatype Inode = Inode(content: Bytes, changes: nat)

  datatype Files = Files(names: map<Name, nat>, inodes: map<nat, Inode>, unused: nat)

  datatype Stat = Stat(ino: nat, links: nat, size: nat, changes: nat)

  function NamesOf(files: Files, ino: nat): set<Name> {
    set n | n in files.names && files.names[n] == ino
  }

  function StatOf(files: Files, ino: nat): Stat
    requires ino in files.inodes
  {
    Stat(ino, |NamesOf(files, ino)|, |files.inodes[ino].content|, files.inodes[ino].changes)
  }

  function Touched(files: Files, ino: nat): map<nat, Inode>
    requires ino in files.inodes
  {
    files.inodes[ino := Inode(files.inodes[ino].content, files.inodes[ino].changes + 1)]
  }

  /** `mkstemp`. */
  function Create(files: Files, name: Name): Files {
    Files(files.names[name := files.unused], files.inodes[files.unused := Inode([], 0)], files.unused + 1)
  }

  function Write(files: Files, ino: nat, content: Bytes): Files
    requires ino in files.inodes
  {
    files.(inodes := files.inodes[ino := Inode(content, files.inodes[ino].changes + 1)])
  }

  function Link(files: Files, ino: nat, name: Name): Files
    requires ino in files.inodes
  {
    files.(names := files.names[name := ino], inodes := Touched(files, ino))
  }

  /** `_unlink_regular_identity`: only if the name is still bound to this inode. */
  function Unlink(files: Files, name: Name, ino: nat): Files
    requires ino in files.inodes
  {
    if name in files.names && files.names[name] == ino
    then files.(names := files.names - {name}, inodes := Touched(files, ino)) else files
  }

  // ----- One installer -----

  datatype Reason = SeveralLinks | Absent | ChangedWhileRead | Differs

  datatype InstallOutcome = Installed | Reused | Refused(reason: Reason)

  /** How far a stable read of the destination has come. */
  datatype Phase =
    | Begin | Inspected | Opened(stat: Stat) | BytesRead(stat: Stat, content: Bytes)
    | Verified(stat: Stat, content: Bytes)

  /** What a read step leads to. */
  datatype Reading = Continue(phase: Phase) | Yields(content: Bytes) | Fails(reason: Reason)

  datatype Pc =
    | Idle
    | Created(ino: nat)
    | Written(ino: nat)
    | Attested(ino: nat)
    | Linked(ino: nat)
    | Identified(ino: nat)
    | Confirming(ino: nat, phase: Phase)   // the linker reads its installed file back
    | Reusing(ino: nat, phase: Phase)      // the name was taken: read what is there
    | Matched(ino: nat)
    | Withdrawing(ino: nat, reason: Reason)
    | Discarding(ino: nat, reason: Reason)
    | Done(outcome: InstallOutcome)
    | Dead

  /** `bound`, `winner` only record what happened: what the destination was first bound to, and
      which installer linked it. */
  datatype World = World(files: Files, pcs: map<Worker, Pc>, bound: Option<(nat, Bytes)>, winner: Option<Worker>)

  datatype Action = Go | Die
  datatype Turn = Turn(worker: Worker, action: Action)

  function PcOf(world: World, w: Worker): Pc {
    if w in world.pcs then world.pcs[w] else Idle
  }

  function At(world: World, w: Worker, pc: Pc): World {
    world.(pcs := world.pcs[w := pc])
  }

  /** One step of `read_regular_snapshot` on the destination. A regular file must have exactly one
      link at every look, and nothing about it may change meanwhile. */
  function ReadStep(files: Files, phase: Phase): Reading {
    match phase
    case Begin => Inspect(files, Inspected)
    case Inspected =>
      if Destination !in files.names || files.names[Destination] !in files.inodes then Fails(Absent)
      else
        var stat := StatOf(files, files.names[Destination]);
        if stat.links != 1 then Fails(SeveralLinks) else Continue(Opened(stat))
    case Opened(stat) =>
      if stat.ino !in files.inodes then Fails(Absent)
      else Continue(BytesRead(stat, files.inodes[stat.ino].content))
    case BytesRead(stat, content) =>
      if stat.ino !in files.inodes then Fails(Absent)
      else
        var after := StatOf(files, stat.ino);
        if after.links != 1 then Fails(SeveralLinks)
        else if after != stat || |content| != after.size then Fails(ChangedWhileRead)
        else Continue(Verified(stat, content))
    case Verified(stat, content) =>
      if Destination !in files.names || files.names[Destination] !in files.inodes then Fails(Absent)
      else
        var current := StatOf(files, files.names[Destination]);
        if current.links != 1 then Fails(SeveralLinks)
        else if current != stat then Fails(ChangedWhileRead)
        else Yields(content)
  }

  /** The first `lstat`. */
  function Inspect(files: Files, next: Phase): Reading {
    if Destination !in files.names || files.names[Destination] !in files.inodes then Fails(Absent)
    else if StatOf(files, files.names[Destination]).links != 1 then Fails(SeveralLinks)
    else Continue(next)
  }

  /** One step of installer `w`, whose payload is `payload(w)`. */
  function Take(world: World, payload: Worker -> Bytes, turn: Turn): World {
    var w, files := turn.worker, world.files;
    if turn.action.Die? then
      if PcOf(world, w).Done? then world else At(world, w, Dead)
    else
      match PcOf(world, w)
      case Idle =>
        if Temporary(w) in files.names then world
        else At(world, w, Created(files.unused)).(files := Create(files, Temporary(w)))
      case Created(ino) =>
        if ino !in files.inodes then world
        else At(world, w, Written(ino)).(files := Write(files, ino, payload(w)))
      case Written(ino) =>
        if ino in files.inodes && StatOf(files, ino).links == 1 && files.inodes[ino].content == payload(w)
        then At(world, w, Attested(ino)) else At(world, w, Discarding(ino, ChangedWhileRead))
      case Attested(ino) =>
        if ino !in files.inodes then world
        else if Destination in files.names then At(world, w, Reusing(ino, Begin))
        else At(world, w, Linked(ino)).(
          files := Link(files, ino, Destination), bound := Some((ino, files.inodes[ino].content)), winner := Some(w))
      case Linked(ino) =>
        if Destination in files.names && files.names[Destination] == ino then At(world, w, Identified(ino))
        else At(world, w, Withdrawing(ino, ChangedWhileRead))
      case Identified(ino) =>
        if ino !in files.inodes then world
        else At(world, w, Confirming(ino, Begin)).(files := Unlink(files, Temporary(w), ino))
      case Confirming(ino, phase) =>
        (match ReadStep(files, phase)
         case Continue(next) => At(world, w, Confirming(ino, next))
         case Yields(content) =>
           At(world, w, if content == payload(w) then Done(Installed) else Withdrawing(ino, Differs))
         case Fails(reason) => At(world, w, Withdrawing(ino, reason)))
      case Reusing(ino, phase) =>
        (match ReadStep(files, phase)
         case Continue(next) => At(world, w, Reusing(ino, next))
         case Yields(content) =>
           At(world, w, if content == payload(w) then Matched(ino) else Discarding(ino, Differs))
         case Fails(reason) => At(world, w, Discarding(ino, reason)))
      case Matched(ino) =>
        if ino !in files.inodes then world
        else At(world, w, Done(Reused)).(files := Unlink(files, Temporary(w), ino))
      case Withdrawing(ino, reason) =>
        if ino !in files.inodes then world
        else At(world, w, Discarding(ino, reason)).(files := Unlink(files, Destination, ino))
      case Discarding(ino, reason) =>
        if ino !in files.inodes then world
        else At(world, w, Done(Refused(reason))).(files := Unlink(files, Temporary(w), ino))
      case Done(_) => world
      case Dead => world
  }

  /** The world after a schedule, from a starting file system. */
  function Play(start: Files, payload: Worker -> Bytes, schedule: seq<Turn>): World {
    if schedule == [] then Initial(start)
    else Take(Play(start, payload, schedule[..|schedule| - 1]), payload, schedule[|schedule| - 1])
  }

  function Initial(start: Files): World {
    var bound :=
      if Destination in start.names && start.names[Destination] in start.inodes
      then Some((start.names[Destination], start.inodes[start.names[Destination]].content)) else None;
    World(start, map[], bound, None)
  }

  /** Names refer to inodes, new inode numbers are unused, and no temporary exists yet. */
  ghost predicate GoodStart(start: Files) {
    && FilesOk(start)
    && forall w: Worker :: Temporary(w) !in start.names
  }

  ghost predicate FilesOk(files: Files) {
    && (forall n :: n in files.names ==> files.names[n] in files.inodes)
    && (forall ino :: ino in files.inodes ==> ino < files.unused)
  }

  // ----- The inductive invariant -----

  predicate OnlyNames(files: Files, ino: nat, names: set<Name>) {
    ino in files.inodes && NamesOf(files, ino) == names
  }

  predicate Holds(files: Files, ino: nat, names: set<Name>, content: Bytes) {
    OnlyNames(files, ino, names) && files.inodes[ino].content == content
  }

  /** A linker, or one that was when it died. */
  predicate Winning(pc: Pc) {
    pc.Linked? || pc.Identified? || pc.Confirming? || pc == Done(Installed)
  }

  /** Facts read so far are still true of the destination. */
  predicate PhaseOk(world: World, phase: Phase) {
    && world.bound.Some?
    && var ino := world.bound.value.0;
    && ino in world.files.inodes
    && match phase
       case Begin => true
       case Inspected => StatOf(world.files, ino).links == 1
       case Opened(stat) => stat.links == 1 && stat == StatOf(world.files, ino)
       case BytesRead(stat, content) =>
         stat.links == 1 && stat == StatOf(world.files, ino) && content == world.bound.value.1
       case Verified(stat, content) =>
         stat.links == 1 && stat == StatOf(world.files, ino) && content == world.bound.value.1
  }

  predicate ReasonOk(world: World, w: Worker, payload: Worker -> Bytes, reason: Reason) {
    && world.bound.Some?
    && (reason == SeveralLinks || (reason == Differs && world.bound.value.1 != payload(w)))
  }

  predicate WorkerOk(world: World, payload: Worker -> Bytes, w: Worker) {
    var files := world.files;
    && (PcOf(world, w) != Dead ==> (Winning(PcOf(world, w)) <==> world.winner == Some(w)))
    && match PcOf(world, w)
       case Idle => Temporary(w) !in files.names
       case Created(ino) => OnlyNames(files, ino, {Temporary(w)})
       case Written(ino) => Holds(files, ino, {Temporary(w)}, payload(w))
       case Attested(ino) => Holds(files, ino, {Temporary(w)}, payload(w))
       case Linked(ino) => Holds(files, ino, {Temporary(w), Destination}, payload(w))
       case Identified(ino) => Holds(files, ino, {Temporary(w), Destination}, payload(w))
       case Confirming(ino, phase) => Holds(files, ino, {Destination}, payload(w)) && PhaseOk(world, phase)
         && Temporary(w) !in files.names
       case Reusing(ino, phase) => Holds(files, ino, {Temporary(w)}, payload(w)) && PhaseOk(world, phase)
       case Matched(ino) => Holds(files, ino, {Temporary(w)}, payload(w)) && world.bound.Some?
         && world.bound.value.1 == payload(w)
       case Withdrawing(ino, reason) => false
       case Discarding(ino, reason) => OnlyNames(files, ino, {Temporary(w)}) && ReasonOk(world, w, payload, reason)
       case Done(outcome) =>
         && Temporary(w) !in files.names
         && (outcome == Reused ==> world.bound.Some? && world.bound.value.1 == payload(w))
         && (outcome.Refused? ==> ReasonOk(world, w, payload, outcome.reason))
       case Dead => true
  }

  /** The destination is bound to one inode with one content, for good. */
  predicate BoundOk(world: World, payload: Worker -> Bytes) {
    && (Destination in world.files.names <==> world.bound.Some?)
    && (world.bound.Some? ==>
          && world.files.names[Destination] == world.bound.value.0
          && world.bound.value.0 in world.files.inodes
          && world.files.inodes[world.bound.value.0].content == world.bound.value.1)
    && (world.winner.Some? ==> world.bound.Some? && world.bound.value.1 == payload(world.winner.value))
  }

  ghost predicate Inv(world: World, payload: Worker -> Bytes) {
    && FilesOk(world.files)
    && BoundOk(world, payload)
    && forall w: Worker :: WorkerOk(world, payload, w)
  }

  /** Only installer `w` moved, and only its own inode `touched` changed. */
  ghost predicate OnlyTouches(before: World, after: World, w: Worker, touched: nat) {
    && (forall v: Worker :: v != w ==>
          && PcOf(after, v) == PcOf(before, v)
          && (Temporary(v) in after.files.names <==> Temporary(v) in before.files.names))
    && (touched in before.files.inodes ==> Temporary(w) in NamesOf(before.files, touched))
    && (forall ino :: ino in before.files.inodes && ino != touched ==>
          && ino in after.files.inodes && after.files.inodes[ino] == before.files.inodes[ino]
          && NamesOf(after.files, ino) == NamesOf(before.files, ino))
    && (before.bound.Some? ==> after.bound == before.bound)
    && (after.winner == before.winner || (before.winner.None? && after.winner == Some(w)))
  }

  lemma {:induction false} TwoNames(files: Files, ino: nat, w: Worker)
    requires ino in files.inodes && Temporary(w) in NamesOf(files, ino) && Destination in NamesOf(files, ino)
    ensures StatOf(files, ino).links >= 2
  {
    var names := NamesOf(files, ino);
    assert names == {Temporary(w), Destination} + (names - {Temporary(w), Destination});
    assert |{Temporary(w), Destination}| == 2;
  }

  lemma {:induction false} PhaseKept(before: World, after: World, payload: Worker -> Bytes, w: Worker, touched: nat,
                                     phase: Phase)
    requires BoundOk(before, payload) && OnlyTouches(before, after, w, touched) && PhaseOk(before, phase)
    requires touched == before.bound.value.0 ==> touched in after.files.inodes
    ensures PhaseOk(after, phase)
  {
    var ino := before.bound.value.0;
    assert Destination in NamesOf(before.files, ino);
    if ino == touched {
      TwoNames(before.files, ino, w);
    }
  }

  lemma {:induction false} OthersKept(before: World, after: World, payload: Worker -> Bytes, w: Worker, touched: nat,
                                      v: Worker)
    requires BoundOk(before, payload) && WorkerOk(before, payload, v) && v != w
    requires OnlyTouches(before, after, w, touched)
    requires before.bound.Some? && touched == before.bound.value.0 ==> touched in after.files.inodes
    ensures WorkerOk(after, payload, v)
  {
    hide ReadStep, StatOf;
    var pc := PcOf(before, v);
    assert PcOf(after, v) == pc;
    if pc.Confirming? || pc.Reusing? {
      PhaseKept(before, after, payload, w, touched, pc.phase);
    }
  }

  /** A step that keeps the files, the binding and its own worker in order keeps everything. */
  lemma {:induction false} StepKeepsInv(before: World, after: World, payload: Worker -> Bytes, w: Worker, touched: nat)
    requires Inv(before, payload) && OnlyTouches(before, after, w, touched)
    requires FilesOk(after.files) && BoundOk(after, payload) && WorkerOk(after, payload, w)
    ensures Inv(after, payload)
  {
    forall v: Worker | v != w
      ensures WorkerOk(after, payload, v)
    {
      OthersKept(before, after, payload, w, touched, v);
    }
  }

  lemma {:induction false} CreateKeepsInv(world: World, payload: Worker -> Bytes, w: Worker)
    requires Inv(world, payload) && PcOf(world, w).Idle?
    ensures Inv(Take(world, payload, Turn(w, Go)), payload)
  {
    assert WorkerOk(world, payload, w);
    var after := Take(world, payload, Turn(w, Go));
    if Temporary(w) !in world.files.names {
      assert NamesOf(after.files, world.files.unused) == {Temporary(w)};
      forall ino | ino in world.files.inodes
        ensures NamesOf(after.files, ino) == NamesOf(world.files, ino)
      {
      }
      StepKeepsInv(world, after, payload, w, world.files.unused);
    }
  }

  lemma {:induction false} WriteKeepsInv(world: World, payload: Worker -> Bytes, w: Worker)
    requires Inv(world, payload) && PcOf(world, w).Created?
    ensures Inv(Take(world, payload, Turn(w, Go)), payload)
  {
    assert WorkerOk(world, payload, w);
    var after, ino := Take(world, payload, Turn(w, Go)), PcOf(world, w).ino;
    assert Temporary(w) in NamesOf(world.files, ino) && Destination !in NamesOf(world.files, ino);
    forall other | other in world.files.inodes
      ensures NamesOf(after.files, other) == NamesOf(world.files, other)
    {
    }
    StepKeepsInv(world, after, payload, w, ino);
  }

  lemma {:induction false} AttestKeepsInv(world: World, payload: Worker -> Bytes, w: Worker)
    requires Inv(world, payload) && PcOf(world, w).Written?
    ensures Inv(Take(world, payload, Turn(w, Go)), payload)
    ensures PcOf(Take(world, payload, Turn(w, Go)), w).Attested?
  {
    assert WorkerOk(world, payload, w);
    var after, ino := Take(world, payload, Turn(w, Go)), PcOf(world, w).ino;
    assert |NamesOf(world.files, ino)| == |{Temporary(w)}| == 1;
    assert OnlyTouches(world, after, w, ino);
    StepKeepsInv(world, after, payload, w, ino);
  }

  lemma {:induction false} LinkKeepsInv(world: World, payload: Worker -> Bytes, w: Worker)
    requires Inv(world, payload) && PcOf(world, w).Attested?
    ensures Inv(Take(world, payload, Turn(w, Go)), payload)
  {
    hide ReadStep;
    assert WorkerOk(world, payload, w);
    var after, ino := Take(world, payload, Turn(w, Go)), PcOf(world, w).ino;
    assert Temporary(w) in NamesOf(world.files, ino);
    if Destination !in world.files.names {
      assert NamesOf(after.files, ino) == {Temporary(w), Destination};
      forall other | other in world.files.inodes && other != ino
        ensures NamesOf(after.files, other) == NamesOf(world.files, other)
      {
      }
    }
    StepKeepsInv(world, after, payload, w, ino);
  }

  lemma {:induction false} IdentifyKeepsInv(world: World, payload: Worker -> Bytes, w: Worker)
    requires Inv(world, payload) && PcOf(world, w).Linked?
    ensures Inv(Take(world, payload, Turn(w, Go)), payload)
  {
    hide ReadStep;
    assert WorkerOk(world, payload, w);
    var after, ino := Take(world, payload, Turn(w, Go)), PcOf(world, w).ino;
    assert Destination in NamesOf(world.files, ino) && Temporary(w) in NamesOf(world.files, ino);
    StepKeepsInv(world, after, payload, w, ino);
  }

  /** Removing the temporary name leaves the inode with its other names. */
  lemma {:induction false} UnlinkTemporary(files: Files, w: Worker, ino: nat)
    requires FilesOk(files) && ino in files.inodes && Temporary(w) in NamesOf(files, ino)
    ensures var after := Unlink(files, Temporary(w), ino);
      && FilesOk(after) && ino in after.inodes
      && after.inodes[ino].content == files.inodes[ino].content
      && Temporary(w) !in after.names
      && NamesOf(after, ino) == NamesOf(files, ino) - {Temporary(w)}
      && (forall n :: n != Temporary(w) ==>
            && (n in after.names <==> n in files.names)
            && (n in files.names ==> after.names[n] == files.names[n]))
      && (forall other :: other in files.inodes && other != ino ==>
            other in after.inodes && after.inodes[other] == files.inodes[other]
              && NamesOf(after, other) == NamesOf(files, other))
  {
    var after := Unlink(files, Temporary(w), ino);
    forall other | other in files.inodes && other != ino
      ensures NamesOf(after, other) == NamesOf(files, other)
    {
      assert Temporary(w) !in NamesOf(files, other);
    }
  }

  lemma {:induction false} SettleKeepsInv(world: World, payload: Worker -> Bytes, w: Worker)
    requires Inv(world, payload) && PcOf(world, w).Identified?
    ensures Inv(Take(world, payload, Turn(w, Go)), payload)
  {
    hide ReadStep, Unlink;
    assert WorkerOk(world, payload, w);
    var after, ino := Take(world, payload, Turn(w, Go)), PcOf(world, w).ino;
    assert Destination in NamesOf(world.files, ino) && Temporary(w) in NamesOf(world.files, ino);
    UnlinkTemporary(world.files, w, ino);
    StepKeepsInv(world, after, payload, w, ino);
  }

  lemma {:induction false} FinishKeepsInv(world: World, payload: Worker -> Bytes, w: Worker)
    requires Inv(world, payload) && (PcOf(world, w).Matched? || PcOf(world, w).Discarding?)
    ensures Inv(Take(world, payload, Turn(w, Go)), payload)
  {
    hide ReadStep, Unlink;
    assert WorkerOk(world, payload, w);
    var after, ino := Take(world, payload, Turn(w, Go)), PcOf(world, w).ino;
    assert Temporary(w) in NamesOf(world.files, ino) && Destination !in NamesOf(world.files, ino);
    UnlinkTemporary(world.files, w, ino);
    StepKeepsInv(world, after, payload, w, ino);
  }

  /** Every look at the bound destination either refuses it for its links or stays true. */
  lemma {:induction false} ReadStaysTrue(world: World, payload: Worker -> Bytes, phase: Phase)
    requires BoundOk(world, payload) && PhaseOk(world, phase)
    ensures match ReadStep(world.files, phase)
      case Continue(next) => PhaseOk(world, next)
      case Yields(content) => content == world.bound.value.1
      case Fails(reason) => reason == SeveralLinks && StatOf(world.files, world.bound.value.0).links != 1
  {
  }

  lemma {:induction false} ConfirmKeepsInv(world: World, payload: Worker -> Bytes, w: Worker)
    requires Inv(world, payload) && PcOf(world, w).Confirming?
    ensures Inv(Take(world, payload, Turn(w, Go)), payload)
  {
    assert WorkerOk(world, payload, w);
    var after, ino, phase := Take(world, payload, Turn(w, Go)), PcOf(world, w).ino, PcOf(world, w).phase;
    assert Destination in NamesOf(world.files, ino);
    assert |NamesOf(world.files, ino)| == |{Destination}| == 1;
    ReadStaysTrue(world, payload, phase);
    hide ReadStep;
    StepKeepsInv(world, after, payload, w, world.files.unused);
  }

  lemma {:induction false} ReuseKeepsInv(world: World, payload: Worker -> Bytes, w: Worker)
    requires Inv(world, payload) && PcOf(world, w).Reusing?
    ensures Inv(Take(world, payload, Turn(w, Go)), payload)
  {
    assert WorkerOk(world, payload, w);
    var after, phase := Take(world, payload, Turn(w, Go)), PcOf(world, w).phase;
    ReadStaysTrue(world, payload, phase);
    hide ReadStep, StatOf;
    StepKeepsInv(world, after, payload, w, world.files.unused);
  }

  lemma {:induction false} DieKeepsInv(world: World, payload: Worker -> Bytes, w: Worker)
    requires Inv(world, payload)
    ensures Inv(Take(world, payload, Turn(w, Die)), payload)
  {
    StepKeepsInv(world, Take(world, payload, Turn(w, Die)), payload, w, world.files.unused);
  }

  /** A linker never has to take its link back: no one else touches the destination. */
  lemma {:induction false} NeverWithdraws(world: World, payload: Worker -> Bytes, w: Worker)
    requires Inv(world, payload)
    ensures !PcOf(world, w).Withdrawing?
  {
    assert WorkerOk(world, payload, w);
  }

  lemma {:induction false} TakeKeepsInv(world: World, payload: Worker -> Bytes, turn: Turn)
    requires Inv(world, payload)
    ensures Inv(Take(world, payload, turn), payload)
  {
    var w := turn.worker;
    if turn.action.Die? {
      DieKeepsInv(world, payload, w);
    } else {
      NeverWithdraws(world, payload, w);
      match PcOf(world, w)
      case Idle => CreateKeepsInv(world, payload, w);
      case Created(_) => WriteKeepsInv(world, payload, w);
      case Written(_) => AttestKeepsInv(world, payload, w);
      case Attested(_) => LinkKeepsInv(world, payload, w);
      case Linked(_) => IdentifyKeepsInv(world, payload, w);
      case Identified(_) => SettleKeepsInv(world, payload, w);
      case Confirming(_, _) => ConfirmKeepsInv(world, payload, w);
      case Reusing(_, _) => ReuseKeepsInv(world, payload, w);
      case Matched(_) => FinishKeepsInv(world, payload, w);
      case Withdrawing(_, _) =>
      case Discarding(_, _) => FinishKeepsInv(world, payload, w);
      case Done(_) =>
      case Dead =>
    }
  }

  lemma {:induction false} InvAlways(start: Files, payload: Worker -> Bytes, schedule: seq<Turn>)
    requires GoodStart(start)
    ensures Inv(Play(start, payload, schedule), payload)
  {
    if schedule != [] {
      InvAlways(start, payload, schedule[..|schedule| - 1]);
      TakeKeepsInv(Play(start, payload, schedule[..|schedule| - 1]), payload, schedule[|schedule| - 1]);
    }
  }

  // ----- Main results -----

  /** Whatever the interleaving and whoever dies: an installer that reports success finds exactly
      its payload under the name; at most one reports INSTALLED; one that is refused saw several
      links or different content; and a finished installer leaves no temporary behind. */
  lemma {:induction false} EveryInstallIsSafe(start: Files, payload: Worker -> Bytes, schedule: seq<Turn>, w: Worker,
                                              v: Worker)
    requires GoodStart(start)
    ensures var world := Play(start, payload, schedule);
      && (PcOf(world, w) == Done(Installed) || PcOf(world, w) == Done(Reused) ==>
            && Destination in world.files.names && world.files.names[Destination] in world.files.inodes
            && world.files.inodes[world.files.names[Destination]].content == payload(w))
      && (PcOf(world, w) == Done(Installed) && PcOf(world, v) == Done(Installed) ==> v == w)
      && (PcOf(world, w).Done? && PcOf(world, w).outcome.Refused? && PcOf(world, w).outcome.reason != SeveralLinks ==>
            && Destination in world.files.names && world.files.names[Destination] in world.files.inodes
            && world.files.inodes[world.files.names[Destination]].content != payload(w))
      && (PcOf(world, w).Done? ==> Temporary(w) !in world.files.names)
      && !PcOf(world, w).Withdrawing?
  {
    InvAlways(start, payload, schedule);
    assert WorkerOk(Play(start, payload, schedule), payload, w);
    assert WorkerOk(Play(start, payload, schedule), payload, v);
  }

  lemma {:induction false} TakeKeepsBinding(world: World, payload: Worker -> Bytes, turn: Turn)
    requires Inv(world, payload)
    ensures world.bound.Some? ==> Take(world, payload, turn).bound == world.bound
    ensures world.winner.Some? ==> Take(world, payload, turn).winner == world.winner
  {
    hide ReadStep;
    assert WorkerOk(world, payload, turn.worker);
  }

  /** The bytes bound to the name never change: once the destination exists, every later schedule
      leaves the same inode with the same content there. */
  lemma {:induction false} BindingIsForGood(start: Files, payload: Worker -> Bytes, schedule: seq<Turn>, n: nat)
    requires GoodStart(start) && n <= |schedule|
    requires Destination in Play(start, payload, schedule[..n]).files.names
    ensures var early, late := Play(start, payload, schedule[..n]).files, Play(start, payload, schedule).files;
      && Destination in late.names && late.names[Destination] == early.names[Destination]
      && early.names[Destination] in early.inodes && early.names[Destination] in late.inodes
      && late.inodes[late.names[Destination]].content == early.inodes[early.names[Destination]].content
  {
    BoundKept(start, payload, schedule, n);
    InvAlways(start, payload, schedule[..n]);
    InvAlways(start, payload, schedule);
  }

  lemma {:induction false} BoundKept(start: Files, payload: Worker -> Bytes, schedule: seq<Turn>, n: nat)
    requires GoodStart(start) && n <= |schedule|
    ensures var early, late := Play(start, payload, schedule[..n]), Play(start, payload, schedule);
      && (early.bound.Some? ==> late.bound == early.bound)
      && (early.winner.Some? ==> late.winner == early.winner)
    decreases |schedule|
  {
    hide Take;
    if n == |schedule| {
      assert schedule[..n] == schedule;
    } else {
      var last := |schedule| - 1;
      assert schedule[..last][..n] == schedule[..n];
      BoundKept(start, payload, schedule[..last], n);
      InvAlways(start, payload, schedule[..last]);
      TakeKeepsBinding(Play(start, payload, schedule[..last]), payload, schedule[last]);
    }
  }

  /** On a destination that was absent, whoever bound it was an installer. */
  lemma {:induction false} BoundMeansWon(start: Files, payload: Worker -> Bytes, schedule: seq<Turn>)
    requires GoodStart(start)
    ensures var world := Play(start, payload, schedule);
      world.bound.Some? <==> Destination in start.names || world.winner.Some?
  {
    if schedule != [] {
      var world := Play(start, payload, schedule[..|schedule| - 1]);
      BoundMeansWon(start, payload, schedule[..|schedule| - 1]);
      InvAlways(start, payload, schedule[..|schedule| - 1]);
      BindsWithWinning(world, payload, schedule[|schedule| - 1]);
    }
  }

  lemma {:induction false} BindsWithWinning(world: World, payload: Worker -> Bytes, turn: Turn)
    requires Inv(world, payload)
    ensures var after := Take(world, payload, turn);
      || (after.bound == world.bound && after.winner == world.winner)
      || (after.bound.Some? && after.winner.Some?)
  {
    hide ReadStep;
  }

  /** If the destination was absent and every installer that started has finished, exactly one of
      them reports INSTALLED. If it was present, none does. */
  lemma {:induction false} ExactlyOneInstalls(start: Files, payload: Worker -> Bytes, schedule: seq<Turn>, w: Worker)
    requires GoodStart(start)
    requires var world := Play(start, payload, schedule);
      PcOf(world, w).Done? && forall v: Worker :: PcOf(world, v).Idle? || PcOf(world, v).Done?
    ensures var world := Play(start, payload, schedule);
      && (Destination !in start.names ==> exists v: Worker :: PcOf(world, v) == Done(Installed))
      && (Destination !in start.names ==> forall u: Worker, v: Worker ::
            PcOf(world, u) == Done(Installed) && PcOf(world, v) == Done(Installed) ==> u == v)
      && (Destination in start.names ==> forall v: Worker :: PcOf(world, v) != Done(Installed))
  {
    var world := Play(start, payload, schedule);
    InvAlways(start, payload, schedule);
    BoundMeansWon(start, payload, schedule);
    assert WorkerOk(world, payload, w);
    if Destination !in start.names {
      assert WorkerOk(world, payload, world.winner.value);
      assert PcOf(world, world.winner.value) == Done(Installed);
      forall u: Worker, v: Worker | PcOf(world, u) == Done(Installed) && PcOf(world, v) == Done(Installed)
        ensures u == v
      {
        assert WorkerOk(world, payload, u) && WorkerOk(world, payload, v);
      }
    } else {
      NoWinner(start, payload, schedule);
      forall v: Worker
        ensures PcOf(world, v) != Done(Installed)
      {
        assert WorkerOk(world, payload, v);
      }
    }
  }

  lemma {:induction false} NoWinner(start: Files, payload: Worker -> Bytes, schedule: seq<Turn>)
    requires GoodStart(start) && Destination in start.names
    ensures Play(start, payload, schedule).winner.None? && Play(start, payload, schedule).bound.Some?
  {
    if schedule != [] {
      var world := Play(start, payload, schedule[..|schedule| - 1]);
      NoWinner(start, payload, schedule[..|schedule| - 1]);
      InvAlways(start, payload, schedule[..|schedule| - 1]);
      OnlyUnboundIsWon(world, payload, schedule[|schedule| - 1]);
    }
  }

  lemma {:induction false} OnlyUnboundIsWon(world: World, payload: Worker -> Bytes, turn: Turn)
    requires Inv(world, payload) && world.bound.Some?
    ensures Take(world, payload, turn).winner == world.winner && Take(world, payload, turn).bound == world.bound
  {
    hide ReadStep;
    assert WorkerOk(world, payload, turn.worker);
  }

  /** The two-link window: while the linker has not yet removed its temporary name, any installer
      that looks at the destination is refused rather than shown unfinished content. */
  lemma {:induction false} TheWindowRefuses(world: World, payload: Worker -> Bytes, w: Worker)
    requires Inv(world, payload)
    requires world.winner.Some?
      && (PcOf(world, world.winner.value).Linked? || PcOf(world, world.winner.value).Identified?)
    requires PcOf(world, w).Reusing?
    ensures PcOf(world, w).phase == Begin || PcOf(world, w).phase == Inspected
    ensures PcOf(Take(world, payload, Turn(w, Go)), w) == Discarding(PcOf(world, w).ino, SeveralLinks)
  {
    var linker := world.winner.value;
    assert WorkerOk(world, payload, linker) && WorkerOk(world, payload, w);
    var ino := PcOf(world, linker).ino;
    assert Temporary(linker) in NamesOf(world.files, ino) && Destination in NamesOf(world.files, ino);
    TwoNames(world.files, ino, linker);
  }

  // ----- What a stable read notices -----

  /** Writing, linking and unlinking a file all move its change count, and nothing else about it but its
      bytes or its number of names. */
  lemma {:induction false} EveryCallMoves(files: Files, ino: nat, name: Name, content: Bytes)
    requires ino in files.inodes
    ensures Write(files, ino, content).inodes[ino] == Inode(content, files.inodes[ino].changes + 1)
    ensures Link(files, ino, name).inodes[ino] == Inode(files.inodes[ino].content, files.inodes[ino].changes + 1)
    ensures name in files.names && files.names[name] == ino ==>
      Unlink(files, name, ino).inodes[ino] == Inode(files.inodes[ino].content, files.inodes[ino].changes + 1)
    ensures !(name in files.names && files.names[name] == ino) ==> Unlink(files, name, ino) == files
  {
  }

  /** So a read fails if the file it opened was written, linked or unlinked while its bytes were read, if
      it has another number of names than one, or if the bytes are not all there. */
  lemma {:induction false} ChangesAreNoticed(files: Files, stat: Stat, content: Bytes)
    requires stat.ino in files.inodes
    ensures ReadStep(files, BytesRead(stat, content)) == Continue(Verified(stat, content)) <==>
      && |NamesOf(files, stat.ino)| == 1 == stat.links && files.inodes[stat.ino].changes == stat.changes
      && |files.inodes[stat.ino].content| == stat.size == |content|
    ensures ReadStep(files, BytesRead(stat, content)) != Continue(Verified(stat, content)) ==>
      ReadStep(files, BytesRead(stat, content)).Fails?
  {
  }

  /** And at the end the name must still lead to the very file that was read. */
  lemma {:induction false} RebindingIsNoticed(files: Files, stat: Stat, content: Bytes)
    ensures ReadStep(files, Verified(stat, content)) == Yields(content) <==>
      && Destination in files.names && files.names[Destination] == stat.ino && stat.ino in files.inodes
      && |NamesOf(files, stat.ino)| == 1 == stat.links && files.inodes[stat.ino].changes == stat.changes
      && |files.inodes[stat.ino].content| == stat.size
  {
  }
}
