/**
 The disk server thread and one client thread around a ring: the server's I/O loop
 with its stop handshake (libecasound/audioio-db-server.cpp) and the client's reads,
 writes and seeks (libecasound/audioio-db-client.cpp), interleaved at every access to
 shared data.

 An input client takes blocks the server fetched from its child; an output client
 puts blocks the server writes to its child. `clean` records whether every reset so
 far came after the client had observed the server stopped.
 */
module DbProtocol {
  import opened DbBuffer
  import opened DbLink

  datatype Io = Input | Output

  /** Where the server's loop stands; everything but `Head` is its processing section. */
  datatype ServerPc =
    Head | Visit | ChildCheck | SLoad | SDecide | SMove | SFlag | SAdvance | StopCheck | AckStop | AckRun

  /**
   Where the client stands. `complete` remembers whether the server had already
   published its last block when the client loaded the write pointer, `saw` whether
   the client found the server stopped, `was` whether it has to start it again.
   */
  datatype ClientPc =
    | Ready
    | CLoad
    | CDecide(complete: bool)
    | CMove
    | CAdvance
    | FinCheck(complete: bool)
    | Overrun
    | Recheck(w: nat)
    | SeekRun
    | AskStop
    | Observe
    | SeekChild(saw: bool, was: bool)
    | ResetRead(saw: bool, was: bool)
    | ResetWrite(saw: bool, was: bool)
    | ResetFlag(saw: bool, was: bool)
    | Rearm
    | Relaunch

  datatype State = State(
    io: Io, link: Link, finished: bool, running: bool, stopRequest: bool, childFinished: bool,
    srv: ServerPc, cli: ClientPc, recursing: bool, clientFinished: bool, clean: bool)

  /** What an idle client does next; Start and Stop are also what seeks of other clients do. */
  datatype Op = Transfer | Seek | Start | Stop

  /** One scheduled step, with the data and answers its environment supplies. */
  datatype Action =
    | Server(b: Block, childEnds: bool)
    | Client(op: Op, b: Block, childEnds: bool)

  /** The transfer a thread is in agrees with its place in the program. */
  predicate Agrees(p: Producer, k: Consumer, decide: bool, move: bool, hold: bool, producing: bool) {
    if producing then p.PLoaded? == decide && p.PFilling? == move && p.PFull? == hold
    else k.KLoaded? == decide && k.KCopying? == move && k.KHeld? == hold
  }

  predicate TypeOk(s: State) {
    && s.link.TypeOk()
    && Agrees(s.link.prod, s.link.cons, s.srv.SDecide?, s.srv.SMove?, s.srv.SFlag? || s.srv.SAdvance?, s.io.Input?)
    && Agrees(s.link.prod, s.link.cons, s.cli.CDecide?, s.cli.CMove?, s.cli.CAdvance?, s.io.Output?)
    && (s.cli.Recheck? ==> s.cli.w < |s.link.ring.slots|)
  }

  /** The block the server has fetched from an input child and not yet published. */
  function Pending(s: State): seq<Block> {
    if s.io.Input? && s.link.prod.PFull? then [s.link.prod.b] else []
  }

  /** Every block the server fetched from an input child since the last reset. */
  function Fetched(s: State): seq<Block> {
    s.link.put + Pending(s)
  }

  /** The child has ended and its last block has been published. */
  predicate Complete(s: State) {
    s.childFinished && Pending(s) == []
  }

  /** What the server's step does to the ring. `b` is what a child read delivers (or half-written data). */
  function ServerMoves(l: Link, io: Io, pc: ServerPc, proceed: bool, b: Block): Link
    requires l.TypeOk()
    requires Agrees(l.prod, l.cons, pc.SDecide?, pc.SMove?, pc.SFlag? || pc.SAdvance?, io.Input?)
  {
    match pc
    case SLoad => if io.Input? then l.ProducerLoads() else l.ConsumerLoads()
    case SDecide =>
      if io.Input? then if proceed then l.ProducerBegins(b) else l.(prod := PIdle)
      else if proceed then l.ConsumerBegins() else l.(cons := KIdle)
    case SMove => if io.Input? then l.ProducerStores(b) else l.ConsumerCopies()
    case SAdvance => if io.Input? then l.ProducerPublishes() else l.ConsumerReleases()
    case _ => l
  }

  /** Where the loop goes next. */
  function ServerNext(pc: ServerPc, proceed: bool, running: bool, finished: bool, stopRequest: bool): ServerPc {
    match pc
    case Head => if running then Visit else Head
    case Visit => if finished then StopCheck else ChildCheck
    case ChildCheck => SLoad
    case SLoad => SDecide
    case SDecide => if proceed then SMove else StopCheck
    case SMove => SFlag
    case SFlag => SAdvance
    case SAdvance => StopCheck
    case StopCheck => if stopRequest then AckStop else Head
    case AckStop => AckRun
    case AckRun => Head
  }

  /** Whether there is room (or data) and the child can still take part. */
  predicate ServerProceeds(s: State)
    requires TypeOk(s)
  {
    s.srv.SDecide? && !s.childFinished && if s.io.Input? then s.link.HasRoom() else s.link.Seen() > 0
  }

  /** One step of `io_thread`. */
  function ServerStep(s: State, b: Block, childEnds: bool): (s': State)
    requires TypeOk(s)
  {
    var proceed := ServerProceeds(s);
    s.(link := ServerMoves(s.link, s.io, s.srv, proceed, b),
    srv := ServerNext(s.srv, proceed, s.running, s.finished, s.stopRequest),
    finished := s.finished || ((s.srv.ChildCheck? || s.srv.SFlag?) && s.childFinished),
    childFinished := s.childFinished || (s.srv.SMove? && childEnds),
    stopRequest := s.stopRequest && !s.srv.AckStop?,
    running := s.running && !s.srv.AckRun?)
  }

  predicate Transferring(pc: ClientPc) {
    pc.CLoad? || pc.CDecide? || pc.CMove? || pc.CAdvance?
  }

  predicate Resetting(pc: ClientPc) {
    pc.ResetRead? || pc.ResetWrite? || pc.ResetFlag?
  }

  /** What the client's step does to the ring. `b` is the block to write (or half-written data). */
  function ClientMoves(l: Link, io: Io, pc: ClientPc, proceed: bool, b: Block): Link
    requires l.TypeOk() && Transferring(pc)
    requires Agrees(l.prod, l.cons, pc.CDecide?, pc.CMove?, pc.CAdvance?, io.Output?)
  {
    match pc
    case CLoad => if io.Input? then l.ConsumerLoads() else l.ProducerLoads()
    case CDecide(_) =>
      if io.Input? then if proceed then l.ConsumerBegins() else l.(cons := KIdle)
      else if proceed then l.ProducerBegins(b) else l.(prod := PIdle)
    case CMove => if io.Input? then l.ConsumerCopies() else l.ProducerStores(b)
    case CAdvance => if io.Input? then l.ConsumerReleases() else l.ProducerPublishes()
  }

  /** Whether the space computed from the two loads is positive. */
  predicate ClientProceeds(s: State)
    requires TypeOk(s)
  {
    s.cli.CDecide? && if s.io.Input? then s.link.Seen() > 0 else s.link.HasRoom()
  }

  /** A step of `read_buffer` or `write_buffer` on the ring. */
  function TransferStep(s: State, b: Block): State
    requires TypeOk(s) && Transferring(s.cli)
  {
    var proceed := ClientProceeds(s);
    s.(link := ClientMoves(s.link, s.io, s.cli, proceed, b),
    recursing := s.recursing && !s.cli.CAdvance?,
    cli := if s.cli.CLoad? then CDecide(Complete(s))
    else if s.cli.CDecide? then if proceed then CMove else FinCheck(s.cli.complete)
    else if s.cli.CMove? then CAdvance else Ready)
  }

  /** A step of `reset`, which restarts the ring's history. */
  function ResetStep(s: State): State
    requires Resetting(s.cli)
  {
    var pc, l := s.cli, s.link;
    var ring := l.ring.(read := if pc.ResetRead? then 0 else l.ring.read,
                write := if pc.ResetWrite? then 0 else l.ring.write);
    s.(link := if pc.ResetFlag? then l.(put := [], taken := []) else l.(ring := ring),
    finished := s.finished && !pc.ResetFlag?,
    clientFinished := s.clientFinished && !pc.ResetFlag?,
    recursing := s.recursing && !pc.ResetFlag?,
    cli := if pc.ResetRead? then ResetWrite(pc.saw, pc.was)
    else if pc.ResetWrite? then ResetFlag(pc.saw, pc.was)
    else if pc.was then Rearm else Ready)
  }

  /** Where a client goes next from a step that leaves the ring alone. */
  function ControlNext(pc: ClientPc, op: Op, input: bool, finished: bool, recursing: bool, running: bool,
                       again: bool, write: nat): ClientPc {
    match pc
    case Ready =>
      if op.Transfer? then CLoad else if op.Seek? then SeekRun else if op.Start? then Rearm else Ready
    case FinCheck(_) => if finished || input then Ready else Overrun
    case Overrun => if recursing then SeekRun else Recheck(write)
    case Recheck(_) => if again then CLoad else SeekRun
    case SeekRun => if running then AskStop else SeekChild(true, false)
    case AskStop => Observe
    case Observe => SeekChild(!running, true)
    case SeekChild(saw, was) => ResetRead(saw, was)
    case Rearm => Relaunch
    case _ => Ready
  }

  /** A step that leaves the ring alone: the rest of the client, and `start` and `stop`. */
  function ControlStep(s: State, op: Op, childEnds: bool): State
    requires TypeOk(s) && !Transferring(s.cli) && !Resetting(s.cli)
  {
    var pc := s.cli;
    var again := pc.Recheck? && WriteSpaceOf(|s.link.ring.slots|, pc.w, s.link.ring.read) > 0;
    var ended := pc.FinCheck? && s.finished;
    s.(cli := ControlNext(pc, op, s.io.Input?, s.finished, s.recursing, s.running, again, s.link.ring.write),
    recursing := again || (s.recursing && !ended),
    clientFinished := s.clientFinished || ended,
    childFinished := if pc.SeekChild? then childEnds else s.childFinished,
    clean := s.clean && (pc.SeekChild? ==> pc.saw),
    stopRequest := (s.stopRequest && !pc.Rearm?) || pc.AskStop? || (pc.Ready? && op.Stop?),
    running := s.running || pc.Relaunch?)
  }

  /** One step of the client: `read_buffer`, `write_buffer`, `seek_position`, `start` or `stop`. */
  function ClientStep(s: State, op: Op, b: Block, childEnds: bool): (s': State)
    requires TypeOk(s)
  {
    if Transferring(s.cli) then TransferStep(s, b)
    else if Resetting(s.cli) then ResetStep(s)
    else ControlStep(s, op, childEnds)
  }

  /** A freshly registered client: the server not started, the ring empty. */
  function Init(io: Io, slots: seq<Block>, childFinished: bool): State
    requires |slots| > 0
  {
    State(io, Link(Ring(slots, 0, 0), PIdle, KIdle, [], []), false, false, false, childFinished,
          Head, Ready, false, false, true)
  }

  // --- The invariant ---------------------------------------------------------

  predicate InSection(pc: ServerPc) {
    !pc.Head?
  }

  /** The client has seen the server stopped and has not started it again. */
  predicate SawStopped(pc: ClientPc) {
    (pc.SeekChild? || Resetting(pc)) && pc.saw
  }

  /** How `complete` relates what an input client counted to what is still to come. */
  predicate FinishOk(s: State)
    requires TypeOk(s) && s.io.Input?
  {
    var left := |s.link.ring.Contents()| + |Pending(s)|;
    && (s.finished ==> s.childFinished)
    && (s.srv.SMove? ==> !s.childFinished)
    && (s.cli.CDecide? && s.cli.complete ==> Complete(s) && s.link.Seen() == left)
    && (s.cli.CDecide? && !s.cli.complete && s.childFinished ==> s.link.Seen() < left)
    && (s.cli.FinCheck? && s.cli.complete ==> Complete(s) && left == 0)
    && (s.cli.FinCheck? && !s.cli.complete && s.childFinished ==> left > 0)
  }

  predicate DataOk(s: State)
    requires TypeOk(s)
  {
    s.link.Inv() && (s.io.Input? ==> FinishOk(s))
  }

  predicate ResetOk(s: State) {
    && (s.cli.ResetWrite? && s.cli.saw ==> s.link.ring.read == 0)
    && (s.cli.ResetFlag? && s.cli.saw ==> s.link.ring.read == 0 && s.link.ring.write == 0)
  }

  predicate Inv(s: State) {
    && TypeOk(s)
    && (InSection(s.srv) ==> s.running)
    && (SawStopped(s.cli) ==> !s.running)
    && (s.clean && Resetting(s.cli) ==> s.cli.saw)
    && ResetOk(s)
    && (s.clean && !Resetting(s.cli) ==> DataOk(s))
  }

  lemma ServerMovesKeeps(l: Link, io: Io, pc: ServerPc, proceed: bool, b: Block)
    requires l.Inv()
    requires Agrees(l.prod, l.cons, pc.SDecide?, pc.SMove?, pc.SFlag? || pc.SAdvance?, io.Input?)
    requires pc.SDecide? && proceed ==> if io.Input? then l.HasRoom() else l.Seen() > 0
    ensures ServerMoves(l, io, pc, proceed, b).Inv()
  {
    match (pc, io)
    case (SLoad, Input) => ProducerLoadsKeeps(l);
    case (SLoad, Output) => ConsumerLoadsKeeps(l);
    case (SDecide, Input) => if proceed { ProducerBeginsKeeps(l, b); }
    case (SDecide, Output) => if proceed { ConsumerBeginsKeeps(l); }
    case (SMove, Input) => ProducerStoresKeeps(l, b);
    case (SMove, Output) => ConsumerCopiesKeeps(l);
    case (SAdvance, Input) => ProducerPublishesKeeps(l);
    case (SAdvance, Output) => ConsumerReleasesKeeps(l);
    case _ =>
  }

  lemma ClientMovesKeeps(l: Link, io: Io, pc: ClientPc, proceed: bool, b: Block)
    requires l.Inv() && Transferring(pc)
    requires Agrees(l.prod, l.cons, pc.CDecide?, pc.CMove?, pc.CAdvance?, io.Output?)
    requires pc.CDecide? && proceed ==> if io.Output? then l.HasRoom() else l.Seen() > 0
    ensures ClientMoves(l, io, pc, proceed, b).Inv()
  {
    match (pc, io)
    case (CLoad, Output) => ProducerLoadsKeeps(l);
    case (CLoad, Input) => ConsumerLoadsKeeps(l);
    case (CDecide(_), Output) => if proceed { ProducerBeginsKeeps(l, b); }
    case (CDecide(_), Input) => if proceed { ConsumerBeginsKeeps(l); }
    case (CMove, Output) => ProducerStoresKeeps(l, b);
    case (CMove, Input) => ConsumerCopiesKeeps(l);
    case (CAdvance, Output) => ProducerPublishesKeeps(l);
    case (CAdvance, Input) => ConsumerReleasesKeeps(l);
  }

  lemma ServerTypeOk(s: State, b: Block, e: bool)
    requires TypeOk(s)
    ensures TypeOk(ServerStep(s, b, e))
  {
  }

  lemma TransferTypeOk(s: State, b: Block)
    requires TypeOk(s) && Transferring(s.cli)
    ensures TypeOk(TransferStep(s, b))
  {
  }

  lemma ControlTypeOk(s: State, op: Op, e: bool)
    requires TypeOk(s) && !Transferring(s.cli) && !Resetting(s.cli)
    ensures TypeOk(ControlStep(s, op, e))
  {
  }

  lemma ClientTypeOk(s: State, op: Op, b: Block, e: bool)
    requires TypeOk(s)
    ensures TypeOk(ClientStep(s, op, b, e))
  {
    if Transferring(s.cli) { TransferTypeOk(s, b); }
    else if !Resetting(s.cli) { ControlTypeOk(s, op, e); }
  }

  lemma ServerFinishOk(s: State, b: Block, e: bool)
    requires TypeOk(s) && s.io.Input? && s.link.Inv() && FinishOk(s)
    ensures TypeOk(ServerStep(s, b, e)) && FinishOk(ServerStep(s, b, e))
  {
    ServerTypeOk(s, b, e);
    match s.srv
    case SDecide => FillKeepsContents(s.link.ring, b);
    case SMove => FillKeepsContents(s.link.ring, b);
    case SAdvance => ProducerPublishesKeeps(s.link);
    case _ =>
  }

  lemma TransferFinishOk(s: State, b: Block)
    requires TypeOk(s) && s.io.Input? && s.link.Inv() && FinishOk(s) && Transferring(s.cli)
    ensures TypeOk(TransferStep(s, b)) && FinishOk(TransferStep(s, b))
  {
    TransferTypeOk(s, b);
    if s.cli.CLoad? { ConsumerLoadsKeeps(s.link); }
  }

  /** Every server step keeps the invariant. */
  lemma ServerStepKeeps(s: State, b: Block, e: bool)
    requires Inv(s)
    ensures Inv(ServerStep(s, b, e))
  {
    ServerTypeOk(s, b, e);
    if s.clean && !Resetting(s.cli) {
      ServerMovesKeeps(s.link, s.io, s.srv, ServerProceeds(s), b);
      if s.io.Input? { ServerFinishOk(s, b, e); }
    }
  }

  lemma TransferStepKeeps(s: State, b: Block)
    requires Inv(s) && Transferring(s.cli)
    ensures Inv(TransferStep(s, b))
  {
    TransferTypeOk(s, b);
    if s.clean {
      ClientMovesKeeps(s.link, s.io, s.cli, ClientProceeds(s), b);
      if s.io.Input? { TransferFinishOk(s, b); }
    }
  }

  lemma ControlStepKeeps(s: State, op: Op, e: bool)
    requires Inv(s) && !Transferring(s.cli) && !Resetting(s.cli)
    ensures Inv(ControlStep(s, op, e))
  {
  }

  lemma ResetStepKeeps(s: State)
    requires Inv(s) && Resetting(s.cli)
    ensures Inv(ResetStep(s))
  {
  }

  /** Every client step keeps the invariant. */
  lemma ClientStepKeeps(s: State, op: Op, b: Block, e: bool)
    requires Inv(s)
    ensures Inv(ClientStep(s, op, b, e))
  {
    if Transferring(s.cli) { TransferStepKeeps(s, b); }
    else if Resetting(s.cli) { ResetStepKeeps(s); }
    else { ControlStepKeeps(s, op, e); }
  }

  // --- Whole runs ------------------------------------------------------------

  function Step(s: State, a: Action): (s': State)
    requires TypeOk(s)
    ensures TypeOk(s')
  {
    match a
    case Server(b, e) => ServerTypeOk(s, b, e); ServerStep(s, b, e)
    case Client(op, b, e) => ClientTypeOk(s, op, b, e); ClientStep(s, op, b, e)
  }

  ghost predicate Next(s: State, s': State)
    requires TypeOk(s)
  {
    exists a :: StepsTo(s, a, s')
  }

  predicate StepsTo(s: State, a: Action, s': State)
    requires TypeOk(s)
  {
    s' == Step(s, a)
  }

  /** A run: from a fresh client on, any interleaving of server and client steps. */
  ghost predicate IsRun(run: seq<State>) {
    && |run| > 0
    && (forall i :: 0 <= i < |run| ==> TypeOk(run[i]))
    && (exists io, slots, ends :: |slots| > 0 && run[0] == Init(io, slots, ends))
    && (forall i :: 0 < i < |run| ==> StepAt(run, i))
  }

  /** The i-th state of a run follows from the one before. */
  ghost predicate StepAt(run: seq<State>, i: nat)
    requires 0 < i < |run| && TypeOk(run[i - 1])
  {
    Next(run[i - 1], run[i])
  }

  ghost predicate Reachable(s: State) {
    exists run :: IsRun(run) && run[|run| - 1] == s
  }

  lemma StepKeeps(s: State, a: Action)
    requires Inv(s)
    ensures Inv(Step(s, a))
  {
    match a
    case Server(b, e) => ServerStepKeeps(s, b, e);
    case Client(op, b, e) => ClientStepKeeps(s, op, b, e);
  }

  /** The invariant holds at every point of every run. */
  lemma {:induction false} RunKeeps(run: seq<State>, i: nat)
    requires IsRun(run) && i < |run|
    ensures Inv(run[i])
  {
    if i > 0 {
      RunKeeps(run, i - 1);
      assert StepAt(run, i);
      NextKeeps(run[i - 1], run[i]);
    }
  }

  lemma NextKeeps(s: State, s': State)
    requires Inv(s) && Next(s, s')
    ensures Inv(s')
  {
    var a :| StepsTo(s, a, s');
    StepKeeps(s, a);
  }

  lemma ReachableInv(s: State)
    requires Reachable(s)
    ensures Inv(s)
  {
    var run :| IsRun(run) && run[|run| - 1] == s;
    RunKeeps(run, |run| - 1);
  }

  /**
   In every interleaving, as long as each reset followed an observed stop: the blocks
   taken are a prefix of the blocks put in, what is missing is exactly what the ring
   holds, and the slot being written is never the slot being copied.
   */
  lemma BlocksConserved(s: State)
    requires Reachable(s) && s.clean && !Resetting(s.cli)
    ensures s.link.taken <= s.link.put
    ensures s.link.put == s.link.taken + s.link.ring.Contents()
    ensures s.link.prod.PFilling? && s.link.cons.KCopying? ==> s.link.ring.write != s.link.ring.read
    ensures s.link.cons.KHeld? ==> s.link.taken + [s.link.cons.b] <= s.link.put
  {
    ReachableInv(s);
    if s.link.prod.PFilling? && s.link.cons.KCopying? { SlotsNeverShared(s.link); }
  }

  /**
   An input client about to report the end of the stream has received every block the
   server fetched exactly when the server had published its last block before the
   client loaded the write pointer.
   */
  lemma FinishedReportExact(s: State)
    requires Reachable(s) && s.clean && s.io.Input? && s.cli.FinCheck? && s.finished
    ensures s.link.taken == Fetched(s) <==> s.cli.complete
  {
    ReachableInv(s);
  }

  /**
   Once the client has seen the server stopped, the server is at the head of its loop
   and none of its steps changes anything, until the client starts it again.
   */
  lemma ObservedStopHolds(s: State, b: Block, e: bool)
    requires Reachable(s) && SawStopped(s.cli)
    ensures s.srv.Head? && ServerStep(s, b, e) == s
  {
    ReachableInv(s);
  }

  /** The last step of a reset that followed an observed stop leaves an empty ring at slot 0. */
  lemma ResetRestartsEmpty(s: State, op: Op, b: Block, e: bool)
    requires Reachable(s) && s.cli.ResetFlag? && s.cli.saw
    ensures var s' := ClientStep(s, op, b, e);
            && s'.link.ring.read == 0 && s'.link.ring.write == 0
            && s'.link.ring.Contents() == [] && s'.link.put == [] && s'.link.taken == []
            && !s'.finished && !s'.clientFinished && !InSection(s'.srv)
  {
    ReachableInv(s);
  }

  /**
   The wait for a stop may time out, and the seek goes on regardless: the section is
   closed to the server during the seek exactly when the flag reads stopped.
   */
  lemma StopObservationExact(s: State, op: Op, b: Block, e: bool)
    requires Reachable(s) && s.cli.Observe?
    ensures TypeOk(s) && TypeOk(ControlStep(s, op, e))
    ensures var t := ControlStep(s, op, e);
            t.cli.SeekChild? && (!s.running <==> !InSection(t.srv) && !InSection(ServerStep(t, b, e).srv))
  {
    ReachableInv(s);
    ControlTypeOk(s, op, e);
  }

  // --- Starting again --------------------------------------------------------

  /** The server has decided to stop and has not yet said so. */
  predicate Stopping(s: State) {
    s.srv.AckStop? || s.srv.AckRun?
  }

  /** A step of the server, as far as starting and stopping go. */
  predicate ServerEffect(s: State, s': State) {
    && s'.running == (s.running && !s.srv.AckRun?)
    && s'.cli == s.cli
    && (s'.srv.AckStop? ==> s.srv.StopCheck? && s.stopRequest)
    && (s'.srv.AckRun? <==> s.srv.AckStop?)
    && (s.srv.AckRun? || (s.srv.Head? && !s.running) ==> s'.srv.Head?)
  }

  /** And one of the client. */
  predicate ClientEffect(s: State, s': State) {
    s'.srv == s.srv && s'.running == (s.running || s.cli.Relaunch?) && (s.cli.Relaunch? ==> !s'.cli.Relaunch?)
  }

  predicate Effect(s: State, s': State) {
    ServerEffect(s, s') || ClientEffect(s, s')
  }

  lemma ServerEffects(s: State, b: Block, e: bool)
    requires TypeOk(s)
    ensures ServerEffect(s, ServerStep(s, b, e))
  {
  }

  lemma ClientEffects(s: State, op: Op, b: Block, e: bool)
    requires TypeOk(s)
    ensures ClientEffect(s, ClientStep(s, op, b, e))
  {
    if !Transferring(s.cli) && !Resetting(s.cli) {
      ControlEffects(s, op, e);
    }
  }

  lemma ControlEffects(s: State, op: Op, e: bool)
    requires TypeOk(s) && !Transferring(s.cli) && !Resetting(s.cli)
    ensures ClientEffect(s, ControlStep(s, op, e))
  {
  }

  lemma Effects(s: State, s': State)
    requires TypeOk(s) && Next(s, s')
    ensures Effect(s, s')
  {
    var a :| StepsTo(s, a, s');
    match a
    case Server(b, e) => ServerEffects(s, b, e);
    case Client(op, b, e) => ClientEffects(s, op, b, e);
  }

  /** How a start has come out so far, `stopping` being whether the server was about to acknowledge a stop. */
  predicate Outcome(stopping: bool, s: State) {
    if stopping then Stopping(s) || (s.srv.Head? && !s.running) else s.running && !Stopping(s)
  }

  lemma OutcomeStays(stopping: bool, s: State, s': State)
    requires Effect(s, s')
    requires Outcome(stopping, s) && !s.stopRequest && !s.cli.Relaunch?
    ensures Outcome(stopping, s')
  {
  }

  lemma Restarted(s: State, s': State)
    requires Effect(s, s')
    requires s.cli.Relaunch? && !s'.cli.Relaunch?
    ensures s'.running && s'.srv == s.srv
  {
  }

  /** From the i-th state, in which the client starts the server, up to before the j-th nobody asks for a stop or starts it again. */
  predicate Undisturbed(run: seq<State>, i: nat, j: nat)
    requires j <= |run|
  {
    forall k :: i < k < j ==> !run[k].stopRequest && !run[k].cli.Relaunch?
  }

  /** What a run looks like as far as starting and stopping go. */
  predicate EffectRun(run: seq<State>) {
    forall k :: 0 < k < |run| ==> Effect(run[k - 1], run[k])
  }

  lemma RunEffects(run: seq<State>)
    requires IsRun(run)
    ensures EffectRun(run)
  {
    forall k | 0 < k < |run| ensures Effect(run[k - 1], run[k]) {
      assert StepAt(run, k);
      Effects(run[k - 1], run[k]);
    }
  }

  lemma {:induction false} RestartOutcome(run: seq<State>, i: nat, j: nat)
    requires EffectRun(run) && i < j < |run| && Undisturbed(run, i, j)
    requires run[i].cli.Relaunch? && !run[i + 1].cli.Relaunch?
    ensures Outcome(Stopping(run[i]), run[j])
  {
    assert Effect(run[j - 1], run[j]);
    if j == i + 1 {
      Restarted(run[i], run[j]);
    } else {
      RestartOutcome(run, i, j - 1);
      OutcomeStays(Stopping(run[i]), run[j - 1], run[j]);
    }
  }

  /**
   A start has taken effect the next time the server is at the head of its loop exactly if
   the server was not, at that moment, about to acknowledge an earlier stop.
   */
  lemma RestartExact(run: seq<State>, i: nat, j: nat)
    requires IsRun(run) && i < j < |run| && Undisturbed(run, i, j)
    requires run[i].cli.Relaunch? && !run[i + 1].cli.Relaunch? && run[j].srv.Head?
    ensures run[j].running <==> !Stopping(run[i])
  {
    RunEffects(run);
    RestartOutcome(run, i, j);
  }

  lemma StopSeen(run: seq<State>, h: nat)
    requires IsRun(run) && h < |run| && SawStopped(run[h].cli)
    ensures !run[h].running
  {
    RunKeeps(run, h);
  }

  lemma StoppedOutside(run: seq<State>, i: nat)
    requires IsRun(run) && i < |run| && !run[i].running
    ensures run[i].srv.Head?
  {
    RunKeeps(run, i);
  }

  lemma {:induction false} StaysStopped(run: seq<State>, h: nat, i: nat)
    requires EffectRun(run) && h <= i < |run| && !run[h].running
    requires forall k :: h <= k < i ==> !run[k].cli.Relaunch?
    ensures !run[i].running
  {
    if h < i {
      StaysStopped(run, h, i - 1);
      assert Effect(run[i - 1], run[i]);
    }
  }

  /** From an observed stop on, through the whole seek and until the next start, the server stays out of its section. */
  lemma SeekStaysClear(run: seq<State>, h: nat, i: nat)
    requires IsRun(run) && h <= i < |run| && SawStopped(run[h].cli)
    requires forall k :: h <= k < i ==> !run[k].cli.Relaunch?
    ensures !run[i].running && run[i].srv.Head?
  {
    RunEffects(run);
    StopSeen(run, h);
    StaysStopped(run, h, i);
    StoppedOutside(run, i);
  }

  /** A start after an observed stop takes effect, and the server runs until the next stop request. */
  lemma RestartAfterStop(run: seq<State>, h: nat, i: nat, j: nat)
    requires IsRun(run) && h < i < j < |run| && SawStopped(run[h].cli) && Undisturbed(run, i, j)
    requires forall k :: h <= k < i ==> !run[k].cli.Relaunch?
    requires run[i].cli.Relaunch? && !run[i + 1].cli.Relaunch?
    ensures run[j].running
  {
    RunEffects(run);
    SeekStaysClear(run, h, i);
    RestartOutcome(run, i, j);
  }

  // --- Runs that go wrong ----------------------------------------------------

  lemma Extend(s: State, a: Action, s': State)
    requires Reachable(s) && TypeOk(s) && s' == Step(s, a)
    ensures Reachable(s') && TypeOk(s')
  {
    var run :| IsRun(run) && run[|run| - 1] == s;
    assert StepsTo(s, a, s') && Next(s, s');
    ExtendRun(run, s');
    assert (run + [s'])[|run + [s']| - 1] == s';
  }

  lemma ExtendRun(run: seq<State>, s': State)
    requires IsRun(run) && TypeOk(s') && Next(run[|run| - 1], s')
    ensures IsRun(run + [s'])
  {
    var run' := run + [s'];
    assert run'[0] == run[0];
    forall i | 0 <= i < |run'| ensures TypeOk(run'[i]) {
      assert i < |run| ==> run'[i] == run[i];
    }
    forall i | 0 < i < |run'| ensures StepAt(run', i) {
      if i < |run| {
        assert StepAt(run, i);
        assert run'[i - 1] == run[i - 1] && run'[i] == run[i];
      }
    }
  }

  lemma Server1(s: State, b: Block, e: bool, s': State)
    requires Reachable(s) && TypeOk(s) && s' == ServerStep(s, b, e)
    ensures Reachable(s') && TypeOk(s')
  {
    Extend(s, Server(b, e), s');
  }

  lemma Control1(s: State, op: Op, s': State)
    requires Reachable(s) && TypeOk(s) && !Transferring(s.cli) && !Resetting(s.cli)
    requires s' == ControlStep(s, op, false)
    ensures Reachable(s') && TypeOk(s')
  {
    Extend(s, Client(op, [], false), s');
  }

  lemma Transfer1(s: State, s': State)
    requires Reachable(s) && TypeOk(s) && Transferring(s.cli) && s' == TransferStep(s, [])
    ensures Reachable(s') && TypeOk(s')
  {
    Extend(s, Client(Transfer, [], false), s');
  }

  /** An input client of a three-slot ring, before and after starting the server. */
  const FRESH := Init(Input, [[], [], []], false)
  const LAUNCHED := FRESH.(running := true)
  const STARTED := LAUNCHED.(srv := SLoad)

  lemma FreshReachable()
    ensures Reachable(FRESH) && TypeOk(FRESH)
  {
    var run := [FRESH];
    assert IsRun(run) && run[|run| - 1] == FRESH;
  }

  lemma RearmedReachable()
    ensures Reachable(FRESH.(cli := Rearm)) && TypeOk(FRESH.(cli := Rearm))
  {
    FreshReachable();
    Control1(FRESH, Start, FRESH.(cli := Rearm));
  }

  lemma LaunchedReachable()
    ensures Reachable(LAUNCHED) && TypeOk(LAUNCHED)
  {
    RearmedReachable();
    var s := FRESH;
    Control1(s.(cli := Rearm), Start, s.(cli := Relaunch));
    Control1(s.(cli := Relaunch), Start, LAUNCHED);
  }

  lemma StartedReachable()
    ensures Reachable(STARTED) && TypeOk(STARTED)
  {
    LaunchedReachable();
    var s := LAUNCHED;
    Server1(s, [], false, s.(srv := Visit));
    Server1(s.(srv := Visit), [], false, s.(srv := ChildCheck));
    Server1(s.(srv := ChildCheck), [], false, STARTED);
  }

  /** The client has loaded the write pointer of the still empty ring, then the server fetches a block. */
  const LOOKED := STARTED.(cli := CDecide(false), link := STARTED.link.(cons := KLoaded(0)))
  const FETCHING := LOOKED.(srv := SMove, link := LOOKED.link.(prod := PFilling))
  const FLAGGED := FETCHING.(srv := SAdvance, childFinished := true, finished := true,
                   link := FETCHING.link.ProducerStores([1.0]))

  lemma LookedReachable()
    ensures Reachable(LOOKED) && TypeOk(LOOKED)
  {
    StartedReachable();
    Control1(STARTED, Transfer, STARTED.(cli := CLoad));
    Transfer1(STARTED.(cli := CLoad), LOOKED);
  }

  lemma FetchingReachable()
    ensures Reachable(FETCHING) && TypeOk(FETCHING)
  {
    LookedReachable();
    var t := LOOKED.(srv := SDecide, link := LOOKED.link.(prod := PLoaded(0)));
    Server1(LOOKED, [], false, t);
    Server1(t, [], false, FETCHING);
  }

  lemma FlaggedReachable()
    ensures Reachable(FLAGGED) && TypeOk(FLAGGED)
  {
    FetchingReachable();
    Server1(FETCHING, [1.0], true, FLAGGED.(srv := SFlag, finished := false));
    Server1(FLAGGED.(srv := SFlag, finished := false), [], false, FLAGGED);
  }

  /** A run in which the client reports the end although a fetched block never reached it. */
  lemma FinishedTooEarly() returns (s: State)
    ensures Reachable(s) && s.clean && s.clientFinished
    ensures s.link.taken == [] && Fetched(s) == [[1.0]]
  {
    FlaggedReachable();
    var t := FLAGGED.(cli := FinCheck(false), link := FLAGGED.link.(cons := KIdle));
    Transfer1(FLAGGED, t);
    s := t.(clientFinished := true, cli := Ready);
    Control1(t, Transfer, s);
  }

  const FILLING := STARTED.(srv := SMove, link := STARTED.link.(prod := PFilling))

  lemma FillingReachable()
    ensures Reachable(FILLING) && TypeOk(FILLING)
  {
    StartedReachable();
    var t := STARTED.(srv := SDecide, link := STARTED.link.(prod := PLoaded(0)));
    Server1(STARTED, [], false, t);
    Server1(t, [], false, FILLING);
  }

  const WAITED := FILLING.(stopRequest := true, cli := Observe)

  lemma AskingReachable()
    ensures Reachable(FILLING.(cli := SeekRun)) && TypeOk(FILLING.(cli := SeekRun))
  {
    FillingReachable();
    Control1(FILLING, Seek, FILLING.(cli := SeekRun));
  }

  lemma WaitedReachable()
    ensures Reachable(WAITED) && TypeOk(WAITED)
  {
    AskingReachable();
    var s := FILLING;
    Control1(s.(cli := SeekRun), Seek, s.(cli := AskStop));
    Control1(s.(cli := AskStop), Seek, WAITED);
  }

  /** A run in which a seek whose wait timed out goes on to its reset while the server is filling a slot. */
  lemma TimedOutSeekOverlaps() returns (s: State)
    ensures Reachable(s) && !s.clean && s.cli.ResetRead? && s.srv.SMove? && s.link.prod.PFilling?
  {
    WaitedReachable();
    Control1(WAITED, Seek, WAITED.(cli := SeekChild(false, true)));
    s := WAITED.(clean := false, cli := ResetRead(false, true));
    Control1(WAITED.(cli := SeekChild(false, true)), Seek, s);
  }

  lemma Reset1(s: State, s': State)
    requires Reachable(s) && TypeOk(s) && Resetting(s.cli) && s' == ResetStep(s)
    ensures Reachable(s') && TypeOk(s')
  {
    Extend(s, Client(Seek, [], false), s');
  }

  /** The server finishes the block of that run and notes the stop, while the client has not looked yet. */
  const PUBLISHED := WAITED.(srv := StopCheck, link := WAITED.link.ProducerStores([1.0]).ProducerPublishes())
  const ACKING := PUBLISHED.(srv := AckRun, stopRequest := false)

  const STORED := WAITED.(srv := SFlag, link := WAITED.link.ProducerStores([1.0]))

  lemma StoredReachable()
    ensures Reachable(STORED) && TypeOk(STORED)
  {
    WaitedReachable();
    Server1(WAITED, [1.0], false, STORED);
  }

  lemma PublishedReachable()
    ensures Reachable(PUBLISHED) && TypeOk(PUBLISHED)
  {
    StoredReachable();
    Server1(STORED, [], false, STORED.(srv := SAdvance));
    Server1(STORED.(srv := SAdvance), [], false, PUBLISHED);
  }

  lemma AckingReachable()
    ensures Reachable(ACKING) && TypeOk(ACKING)
  {
    PublishedReachable();
    Server1(PUBLISHED, [], false, PUBLISHED.(srv := AckStop));
    Server1(PUBLISHED.(srv := AckStop), [], false, ACKING);
  }

  lemma SeekingReachable() returns (s: State)
    ensures Reachable(s) && TypeOk(s) && s.cli == ResetRead(false, true) && s.srv.AckRun?
  {
    AckingReachable();
    Control1(ACKING, Seek, ACKING.(cli := SeekChild(false, true)));
    s := ACKING.(clean := false, cli := ResetRead(false, true));
    Control1(ACKING.(cli := SeekChild(false, true)), Seek, s);
  }

  lemma ResetToRearm(s: State) returns (t: State)
    requires Reachable(s) && TypeOk(s) && s.cli == ResetRead(false, true)
    ensures Reachable(t) && TypeOk(t) && t.cli.Rearm? && t.srv == s.srv
  {
    var s1 := ResetStep(s);
    Reset1(s, s1);
    var s2 := ResetStep(s1);
    Reset1(s1, s2);
    t := ResetStep(s2);
    Reset1(s2, t);
  }

  /** A run in which a seek whose wait timed out starts the server just as that is about to acknowledge the stop. */
  lemma RestartMeetsStop() returns (s: State)
    ensures Reachable(s) && s.cli.Relaunch? && Stopping(s)
  {
    var r := SeekingReachable();
    var t := ResetToRearm(r);
    s := ControlStep(t, Seek, false);
    Control1(t, Seek, s);
  }
}
