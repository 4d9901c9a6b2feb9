/**
 What the two threads of the disk server get done (libecasound/audioio-db-server.cpp,
 libecasound/audioio-db-client.cpp): when a load leads to a transfer, what a transfer adds
 to the history whatever the other thread does meanwhile, and where a thread's own steps
 take it.
 */
module DbProgress {
  import opened DbBuffer
  import opened DbLink
  import opened DbProtocol

  // --- Whose step it was -----------------------------------------------------

  /** The client's side of the link: the part of it that only the client writes. */
  predicate ClientSideKept(s: State, t: State) {
    && t.cli == s.cli && t.io == s.io && |t.link.ring.slots| == |s.link.ring.slots|
    && (s.io.Input? ==> t.link.cons == s.link.cons && t.link.taken == s.link.taken && t.link.ring.read == s.link.ring.read)
    && (s.io.Output? ==> t.link.prod == s.link.prod && t.link.put == s.link.put && t.link.ring.write == s.link.ring.write)
  }

  /** And the server's, with what it knows of its child. */
  predicate ServerSideKept(s: State, t: State) {
    && t.io == s.io && |t.link.ring.slots| == |s.link.ring.slots| && t.childFinished == s.childFinished
    && (s.io.Input? ==> t.link.prod == s.link.prod && t.link.put == s.link.put && t.link.ring.write == s.link.ring.write)
    && (s.io.Output? ==> t.link.cons == s.link.cons && t.link.taken == s.link.taken && t.link.ring.read == s.link.ring.read)
  }

  lemma ServerLeavesClient(s: State, b: Block, e: bool)
    requires TypeOk(s)
    ensures ClientSideKept(s, ServerStep(s, b, e))
  {
  }

  lemma TransferLeavesServer(s: State, b: Block)
    requires TypeOk(s) && Transferring(s.cli)
    ensures ServerSideKept(s, TransferStep(s, b)) && TransferStep(s, b).srv == s.srv
    ensures TransferStep(s, b).finished == s.finished
  {
  }

  lemma ControlLeavesServer(s: State, op: Op, e: bool)
    requires TypeOk(s) && !Transferring(s.cli) && !Resetting(s.cli) && !s.cli.SeekChild?
    ensures ServerSideKept(s, ControlStep(s, op, e)) && ControlStep(s, op, e).srv == s.srv
    ensures ControlStep(s, op, e).finished == s.finished
  {
  }

  /** A client in a transfer goes on with every step of its own. */
  lemma ClientMoves1(s: State, op: Op, b: Block, e: bool)
    requires TypeOk(s) && Transferring(s.cli)
    ensures ClientStep(s, op, b, e).cli != s.cli
    ensures ClientStep(s, op, b, e) == TransferStep(s, b)
  {
  }

  /** The server goes on with every step of its own, but for waiting to be started. */
  lemma ServerMoves1(s: State, b: Block, e: bool)
    requires TypeOk(s)
    ensures ServerStep(s, b, e).srv == s.srv <==> s.srv.Head? && !s.running
    ensures ServerStep(s, b, e).cli == s.cli
  {
  }

  ghost predicate ByServer(s: State, t: State)
    requires TypeOk(s)
  {
    exists b: Block, e: bool :: t == ServerStep(s, b, e)
  }

  ghost predicate ByClient(s: State, t: State)
    requires TypeOk(s)
  {
    exists op: Op, b: Block, e: bool :: t == ClientStep(s, op, b, e)
  }

  lemma OneOfThem(s: State, t: State)
    requires TypeOk(s) && Next(s, t)
    ensures ByServer(s, t) || ByClient(s, t)
  {
    var a :| StepsTo(s, a, t);
    match a
    case Server(b, e) => assert t == ServerStep(s, b, e);
    case Client(op, b, e) => assert t == ClientStep(s, op, b, e);
  }

  /** While a transferring client stays where it is, only the server moves. */
  lemma ClientStayed(s: State, t: State)
    requires TypeOk(s) && Next(s, t) && Transferring(s.cli) && t.cli == s.cli
    ensures ClientSideKept(s, t)
  {
    OneOfThem(s, t);
    if ByServer(s, t) {
      var b: Block, e: bool :| t == ServerStep(s, b, e);
      ServerLeavesClient(s, b, e);
    } else {
      var op: Op, b: Block, e: bool :| t == ClientStep(s, op, b, e);
      ClientMoves1(s, op, b, e);
    }
  }

  lemma ServerStays(s: State, t: State)
    requires TypeOk(s) && ByServer(s, t)
    ensures t.cli == s.cli
  {
    var b: Block, e: bool :| t == ServerStep(s, b, e);
    ServerMoves1(s, b, e);
  }

  /** When it does not, the step was its own. */
  lemma ClientWent(s: State, t: State) returns (b: Block)
    requires TypeOk(s) && Next(s, t) && Transferring(s.cli) && t.cli != s.cli
    ensures t == TransferStep(s, b)
  {
    OneOfThem(s, t);
    if ByServer(s, t) {
      ServerStays(s, t);
    }
    var op: Op, c: Block, e: bool :| t == ClientStep(s, op, c, e);
    b := c;
    ClientMoves1(s, op, c, e);
  }

  // --- The client over runs --------------------------------------------------

  /** From the i-th state to the j-th the client stays in one place of a transfer. */
  predicate ClientWaits(run: seq<State>, i: nat, j: nat) {
    i <= j < |run| && Transferring(run[i].cli) && forall k :: i <= k <= j ==> run[k].cli == run[i].cli
  }

  predicate ClientHeld(s: State, t: State) {
    Transferring(s.cli) && t.cli == s.cli ==> ClientSideKept(s, t)
  }

  predicate ClientHeldRun(run: seq<State>) {
    forall k :: 0 < k < |run| ==> ClientHeld(run[k - 1], run[k])
  }

  lemma RunClientHeld(run: seq<State>)
    requires IsRun(run)
    ensures ClientHeldRun(run)
  {
    forall k | 0 < k < |run| ensures ClientHeld(run[k - 1], run[k]) {
      assert StepAt(run, k);
      if Transferring(run[k - 1].cli) && run[k].cli == run[k - 1].cli {
        ClientStayed(run[k - 1], run[k]);
      }
    }
  }

  lemma {:induction false} ClientSideStays(run: seq<State>, i: nat, j: nat)
    requires ClientHeldRun(run) && ClientWaits(run, i, j)
    ensures ClientSideKept(run[i], run[j])
    decreases j - i
  {
    if i < j {
      ClientSideStays(run, i, j - 1);
      assert ClientHeld(run[j - 1], run[j]);
    }
  }

  lemma LoadOfClient(s: State, b: Block)
    requires TypeOk(s) && s.cli.CLoad?
    ensures var t := TransferStep(s, b);
            && t.cli.CDecide? && t.link.put == s.link.put && t.link.taken == s.link.taken && t.link.ring == s.link.ring
            && (s.io.Input? ==> t.link.cons == KLoaded(s.link.ring.write))
            && (s.io.Output? ==> t.link.prod == PLoaded(s.link.ring.write))
  {
  }

  lemma DecisionOfClient(s: State, b: Block, n: nat)
    requires TypeOk(s) && s.cli.CDecide?
    requires s.io.Input? ==> n == ReadSpaceOf(|s.link.ring.slots|, s.link.cons.w, s.link.ring.read)
    requires s.io.Output? ==> s.link.prod.w == s.link.ring.write
    ensures var t := TransferStep(s, b);
            && t.link.put == s.link.put && t.link.taken == s.link.taken
            && (if s.io.Input? then n > 0 else |s.link.ring.Contents()| < |s.link.ring.slots| - 1)
               == t.cli.CMove?
            && (t.cli.CMove? || t.cli.FinCheck?)
  {
    SpacesCountContents(s.link.ring);
  }

  /**
   The client loads at the i-th state and decides at the j-th, whatever the server does in
   between. It goes on to the transfer exactly if, reading, the ring held a block when it
   loaded, or, writing, the ring has room when it decides; else it looks at the finished flag.
   */
  lemma ClientDecision(run: seq<State>, i: nat, j: nat)
    requires IsRun(run) && i < j && j + 1 < |run| && run[i].cli.CLoad? && run[i + 1].cli != run[i].cli
    requires ClientWaits(run, i + 1, j) && run[j + 1].cli != run[j].cli
    ensures run[j].cli.CDecide? && (run[j + 1].cli.CMove? || run[j + 1].cli.FinCheck?)
    ensures run[i].io.Input? ==> (run[j + 1].cli.CMove? <==> |run[i].link.ring.Contents()| > 0)
    ensures run[i].io.Output? ==>
      (run[j + 1].cli.CMove? <==> |run[j].link.ring.Contents()| < |run[j].link.ring.slots| - 1)
  {
    assert StepAt(run, i + 1) && StepAt(run, j + 1);
    var b := ClientWent(run[i], run[i + 1]);
    LoadOfClient(run[i], b);
    SpacesCountContents(run[i].link.ring);
    RunClientHeld(run);
    ClientSideStays(run, i + 1, j);
    var c := ClientWent(run[j], run[j + 1]);
    DecisionOfClient(run[j], c, |run[i].link.ring.Contents()|);
  }

  lemma MoveOfClient(s: State, b: Block)
    requires TypeOk(s) && s.cli.CMove?
    ensures var t := TransferStep(s, b);
            && t.cli.CAdvance? && t.link.put == s.link.put && t.link.taken == s.link.taken
            && (s.io.Output? ==> t.link.prod == PFull(b))
            && (s.io.Input? ==> t.link.cons == KHeld(s.link.ring.slots[s.link.ring.read]))
  {
  }

  lemma AdvanceOfClient(s: State, b: Block)
    requires TypeOk(s) && s.cli.CAdvance?
    ensures var t := TransferStep(s, b);
            && t.cli.Ready? && !t.recursing
            && (s.io.Output? ==> t.link.put == s.link.put + [s.link.prod.b] && t.link.taken == s.link.taken)
            && (s.io.Input? ==> t.link.taken == s.link.taken + [s.link.cons.b] && t.link.put == s.link.put)
  {
  }

  lemma OldestFirst(r: Ring)
    requires r.Valid() && |r.Contents()| > 0
    ensures r.Contents()[0] == r.slots[r.read]
  {
  }

  /**
   The client moves a block at the i-th state and advances at the j-th, whatever the server
   does in between: then its call is over, and what was put is longer by exactly the block it
   stored, or what was taken by exactly the oldest block of the ring.
   */
  lemma ClientTransfer(run: seq<State>, i: nat, j: nat)
    requires IsRun(run) && i < j && j + 1 < |run| && run[i].clean && run[i].cli.CMove? && run[i + 1].cli != run[i].cli
    requires ClientWaits(run, i + 1, j) && run[j + 1].cli != run[j].cli
    ensures run[j].cli.CAdvance? && run[j + 1].cli.Ready?
    ensures run[i].io.Output? ==>
      run[i + 1].link.prod.PFull? && run[j + 1].link.put == run[i].link.put + [run[i + 1].link.prod.b]
    ensures run[i].io.Input? ==>
      |run[i].link.ring.Contents()| > 0 && run[j + 1].link.taken == run[i].link.taken + [run[i].link.ring.Contents()[0]]
  {
    assert StepAt(run, i + 1) && StepAt(run, j + 1);
    var b := ClientWent(run[i], run[i + 1]);
    MoveOfClient(run[i], b);
    RunClientHeld(run);
    ClientSideStays(run, i + 1, j);
    var c := ClientWent(run[j], run[j + 1]);
    AdvanceOfClient(run[j], c);
    CopyingHasBlock(run, i);
  }

  lemma CopyingHasBlock(run: seq<State>, i: nat)
    requires IsRun(run) && i < |run| && run[i].clean && run[i].cli.CMove?
    ensures run[i].io.Input? ==>
      var r := run[i].link.ring; |r.Contents()| > 0 && r.Contents()[0] == r.slots[r.read]
  {
    RunKeeps(run, i);
    if run[i].io.Input? {
      OldestFirst(run[i].link.ring);
    }
  }

  // --- The server over runs --------------------------------------------------

  predicate CleanRun(run: seq<State>) {
    forall k :: 0 < k < |run| && run[k].clean ==> run[k - 1].clean
  }

  lemma RunClean(run: seq<State>)
    requires IsRun(run)
    ensures CleanRun(run)
  {
    forall k | 0 < k < |run| && run[k].clean ensures run[k - 1].clean {
      assert StepAt(run, k);
      CleanStep(run[k - 1], run[k]);
    }
  }

  /** A run stays clean only if it has been so all along. */
  lemma {:induction false} CleanBefore(run: seq<State>, i: nat, j: nat)
    requires CleanRun(run) && i <= j < |run| && run[j].clean
    ensures run[i].clean
    decreases j - i
  {
    if i < j {
      CleanBefore(run, i, j - 1);
    }
  }

  lemma CleanStep(s: State, t: State)
    requires TypeOk(s) && Next(s, t) && t.clean
    ensures s.clean
  {
    OneOfThem(s, t);
    if ByClient(s, t) {
      var op: Op, b: Block, e: bool :| t == ClientStep(s, op, b, e);
      CleanOfClient(s, op, b, e);
    } else {
      var b: Block, e: bool :| t == ServerStep(s, b, e);
    }
  }

  lemma CleanOfClient(s: State, op: Op, b: Block, e: bool)
    requires TypeOk(s)
    ensures ClientStep(s, op, b, e).clean ==> s.clean && (s.cli.SeekChild? ==> s.cli.saw)
  {
    if !Transferring(s.cli) && !Resetting(s.cli) {
      ControlClean(s, op, e);
    }
  }

  lemma ControlClean(s: State, op: Op, e: bool)
    requires TypeOk(s) && !Transferring(s.cli) && !Resetting(s.cli)
    ensures ControlStep(s, op, e).clean ==> s.clean && (s.cli.SeekChild? ==> s.cli.saw)
  {
  }

  /** While the server is in its section, a clean client neither resets nor seeks the child, and leaves the server's side alone. */
  lemma CleanClientLeavesServer(s: State, op: Op, b: Block, e: bool)
    requires Inv(s) && s.clean && InSection(s.srv) && ClientStep(s, op, b, e).clean
    ensures ServerSideKept(s, ClientStep(s, op, b, e)) && ClientStep(s, op, b, e).srv == s.srv
    ensures ClientStep(s, op, b, e).finished == s.finished
  {
    CleanOfClient(s, op, b, e);
    if Transferring(s.cli) {
      TransferLeavesServer(s, b);
    } else if !Resetting(s.cli) && !s.cli.SeekChild? {
      ControlLeavesServer(s, op, e);
    }
  }

  /** A step that leaves the server where it is, in its section, is the client's. */
  lemma ServerStayed(s: State, t: State)
    requires Inv(s) && Next(s, t) && s.clean && t.clean && InSection(s.srv) && t.srv == s.srv
    ensures ServerSideKept(s, t) && t.finished == s.finished
  {
    OneOfThem(s, t);
    if ByClient(s, t) {
      var op: Op, b: Block, e: bool :| t == ClientStep(s, op, b, e);
      CleanClientLeavesServer(s, op, b, e);
    } else {
      ServerWentOn(s, t);
    }
  }

  lemma ServerWentOn(s: State, t: State)
    requires TypeOk(s) && ByServer(s, t) && InSection(s.srv)
    ensures t.srv != s.srv
  {
    var b: Block, e: bool :| t == ServerStep(s, b, e);
    ServerMoves1(s, b, e);
  }

  /** One that moves it is its own. */
  lemma ServerWent(s: State, t: State)
    requires Inv(s) && Next(s, t) && s.clean && t.clean && InSection(s.srv) && t.srv != s.srv
    ensures ByServer(s, t)
  {
    OneOfThem(s, t);
    if ByClient(s, t) {
      ClientStaysOut(s, t);
    }
  }

  lemma ClientStaysOut(s: State, t: State)
    requires Inv(s) && s.clean && t.clean && InSection(s.srv) && ByClient(s, t)
    ensures t.srv == s.srv
  {
    var op: Op, b: Block, e: bool :| t == ClientStep(s, op, b, e);
    CleanClientLeavesServer(s, op, b, e);
  }

  predicate ServerWaits(run: seq<State>, i: nat, j: nat) {
    i <= j < |run| && InSection(run[i].srv) && forall k :: i <= k <= j ==> run[k].srv == run[i].srv
  }

  predicate ServerHeld(s: State, t: State) {
    s.clean && t.clean && InSection(s.srv) && t.srv == s.srv ==> ServerSideKept(s, t) && t.finished == s.finished
  }

  predicate ServerHeldRun(run: seq<State>) {
    forall k :: 0 < k < |run| ==> ServerHeld(run[k - 1], run[k])
  }

  lemma RunServerHeld(run: seq<State>)
    requires IsRun(run)
    ensures ServerHeldRun(run)
  {
    forall k | 0 < k < |run| ensures ServerHeld(run[k - 1], run[k]) {
      assert StepAt(run, k);
      RunKeeps(run, k - 1);
      var s, t := run[k - 1], run[k];
      if s.clean && t.clean && InSection(s.srv) && t.srv == s.srv {
        ServerStayed(s, t);
      }
    }
  }

  lemma {:induction false} ServerSideStays(run: seq<State>, i: nat, j: nat)
    requires ServerHeldRun(run) && ServerWaits(run, i, j) && forall k :: i <= k <= j ==> run[k].clean
    ensures ServerSideKept(run[i], run[j]) && run[j].finished == run[i].finished
    decreases j - i
  {
    if i < j {
      ServerSideStays(run, i, j - 1);
      assert ServerHeld(run[j - 1], run[j]);
    }
  }

  lemma AllClean(run: seq<State>, j: nat)
    requires IsRun(run) && j < |run| && run[j].clean
    ensures forall k :: 0 <= k <= j ==> run[k].clean
  {
    RunClean(run);
    forall k | 0 <= k <= j ensures run[k].clean {
      CleanBefore(run, k, j);
    }
  }

  /** What the server knew at the start of a wait it still knows at its end, as the run is clean up to the m-th state. */
  lemma ServerSideWaits(run: seq<State>, i: nat, j: nat, m: nat)
    requires IsRun(run) && ServerWaits(run, i, j) && j <= m < |run| && run[m].clean
    ensures ServerSideKept(run[i], run[j]) && run[j].finished == run[i].finished
  {
    AllClean(run, m);
    RunServerHeld(run);
    ServerSideStays(run, i, j);
  }

  lemma OwnStep(run: seq<State>, k: nat, m: nat)
    requires IsRun(run) && k < m < |run| && run[m].clean
    requires InSection(run[k].srv) && run[k + 1].srv != run[k].srv
    ensures ByServer(run[k], run[k + 1])
  {
    assert StepAt(run, k + 1);
    AllClean(run, m);
    RunKeeps(run, k);
    ServerWent(run[k], run[k + 1]);
  }

  lemma LoadOfServer(s: State, b: Block, e: bool)
    requires TypeOk(s) && s.srv.SLoad?
    ensures var t := ServerStep(s, b, e);
            && t.srv.SDecide? && t.link.put == s.link.put && t.link.taken == s.link.taken && t.link.ring == s.link.ring
            && t.childFinished == s.childFinished
            && (s.io.Output? ==> t.link.cons == KLoaded(s.link.ring.write))
            && (s.io.Input? ==> t.link.prod == PLoaded(s.link.ring.write))
  {
  }

  lemma DecisionOfServer(s: State, b: Block, e: bool, n: nat)
    requires TypeOk(s) && s.srv.SDecide?
    requires s.io.Output? ==> n == ReadSpaceOf(|s.link.ring.slots|, s.link.cons.w, s.link.ring.read)
    requires s.io.Input? ==> s.link.prod.w == s.link.ring.write
    ensures var t := ServerStep(s, b, e);
            && t.link.put == s.link.put && t.link.taken == s.link.taken && t.childFinished == s.childFinished
            && (!s.childFinished && if s.io.Output? then n > 0 else |s.link.ring.Contents()| < |s.link.ring.slots| - 1)
               == t.srv.SMove?
            && (t.srv.SMove? || t.srv.StopCheck?)
  {
    SpacesCountContents(s.link.ring);
  }

  /**
   The server loads at the i-th state of a clean run and decides at the j-th, whatever the
   client does in between. It goes on to the transfer exactly if its child has not ended and,
   writing to it, the ring held a block when it loaded, or, reading from it, the ring has
   room when it decides; else its round is over.
   */
  lemma ServerDecision(run: seq<State>, i: nat, j: nat)
    requires IsRun(run) && i < j && j + 1 < |run| && run[j + 1].clean && run[i].srv.SLoad? && run[i + 1].srv != run[i].srv
    requires ServerWaits(run, i + 1, j) && run[j + 1].srv != run[j].srv
    ensures run[j].srv.SDecide? && (run[j + 1].srv.SMove? || run[j + 1].srv.StopCheck?)
    ensures run[i].io.Output? ==>
      (run[j + 1].srv.SMove? <==> !run[i].childFinished && |run[i].link.ring.Contents()| > 0)
    ensures run[i].io.Input? ==>
      (run[j + 1].srv.SMove? <==> !run[i].childFinished && |run[j].link.ring.Contents()| < |run[j].link.ring.slots| - 1)
  {
    ServerSideWaits(run, i + 1, j, j + 1);
    OwnStep(run, i, j + 1);
    OwnStep(run, j, j + 1);
    DecisionRound(run[i], run[i + 1], run[j], run[j + 1]);
  }

  lemma DecisionRound(s: State, l: State, d: State, t: State)
    requires TypeOk(s) && s.srv.SLoad? && ByServer(s, l)
    requires TypeOk(d) && ServerSideKept(l, d) && d.srv == l.srv && ByServer(d, t)
    ensures d.srv.SDecide? && (t.srv.SMove? || t.srv.StopCheck?)
    ensures s.io.Output? ==> (t.srv.SMove? <==> !s.childFinished && |s.link.ring.Contents()| > 0)
    ensures s.io.Input? ==> (t.srv.SMove? <==> !s.childFinished && |d.link.ring.Contents()| < |d.link.ring.slots| - 1)
  {
    var b: Block, e: bool :| l == ServerStep(s, b, e);
    LoadOfServer(s, b, e);
    SpacesCountContents(s.link.ring);
    var c: Block, f: bool :| t == ServerStep(d, c, f);
    DecisionOfServer(d, c, f, |s.link.ring.Contents()|);
  }

  lemma MoveOfServer(s: State, b: Block, e: bool)
    requires TypeOk(s) && s.srv.SMove?
    ensures var t := ServerStep(s, b, e);
            && t.srv.SFlag? && t.link.put == s.link.put && t.link.taken == s.link.taken
            && t.childFinished == (s.childFinished || e) && t.finished == s.finished
            && (s.io.Input? ==> t.link.prod == PFull(b))
            && (s.io.Output? ==> t.link.cons == KHeld(s.link.ring.slots[s.link.ring.read]))
  {
  }

  lemma FlagOfServer(s: State, b: Block, e: bool)
    requires TypeOk(s) && s.srv.SFlag?
    ensures var t := ServerStep(s, b, e);
            t == s.(srv := SAdvance, finished := s.finished || s.childFinished)
  {
  }

  lemma AdvanceOfServer(s: State, b: Block, e: bool)
    requires TypeOk(s) && s.srv.SAdvance?
    ensures var t := ServerStep(s, b, e);
            && t.srv.StopCheck? && t.finished == s.finished && t.childFinished == s.childFinished
            && (s.io.Input? ==> t.link.put == s.link.put + [s.link.prod.b] && t.link.taken == s.link.taken)
            && (s.io.Output? ==> t.link.taken == s.link.taken + [s.link.cons.b] && t.link.put == s.link.put)
  {
  }

  lemma OwnThree(run: seq<State>, i: nat, f: nat, j: nat)
    requires IsRun(run) && i < f < j && j + 1 < |run| && run[j + 1].clean
    requires InSection(run[i].srv) && InSection(run[f].srv) && InSection(run[j].srv)
    requires run[i + 1].srv != run[i].srv && run[f + 1].srv != run[f].srv && run[j + 1].srv != run[j].srv
    ensures ByServer(run[i], run[i + 1]) && ByServer(run[f], run[f + 1]) && ByServer(run[j], run[j + 1])
  {
    OwnStep(run, i, j + 1);
    OwnStep(run, f, j + 1);
    OwnStep(run, j, j + 1);
  }

  /** Nothing of the server's side changes between the three steps of a transfer. */
  lemma KeptBetween(run: seq<State>, i: nat, f: nat, j: nat)
    requires IsRun(run) && i < f < j && j + 1 < |run| && run[j + 1].clean
    requires ServerWaits(run, i + 1, f) && ServerWaits(run, f + 1, j)
    ensures ServerSideKept(run[i + 1], run[f]) && run[f].finished == run[i + 1].finished
    ensures ServerSideKept(run[f + 1], run[j]) && run[j].finished == run[f + 1].finished
  {
    ServerSideWaits(run, i + 1, f, j + 1);
    ServerSideWaits(run, f + 1, j, j + 1);
  }

  /**
   The server moves a block at the i-th state of a clean run, notes the child's end at the
   f-th and advances at the j-th, whatever the client does in between: what was put is longer
   by exactly the block its child gave, or what was taken by exactly the oldest block, and
   the finished flag has been set if the child has ended.
   */
  lemma ServerTransfer(run: seq<State>, i: nat, f: nat, j: nat)
    requires IsRun(run) && i < f < j && j + 1 < |run| && run[j + 1].clean
    requires run[i].srv.SMove? && run[i + 1].srv != run[i].srv
    requires ServerWaits(run, i + 1, f) && run[f + 1].srv != run[f].srv
    requires ServerWaits(run, f + 1, j) && run[j + 1].srv != run[j].srv
    ensures run[f].srv.SFlag? && run[j].srv.SAdvance? && run[j + 1].srv.StopCheck?
    ensures run[i].io.Input? ==>
      run[i + 1].link.prod.PFull? && run[j + 1].link.put == run[i].link.put + [run[i + 1].link.prod.b]
    ensures run[i].io.Output? ==>
      |run[i].link.ring.Contents()| > 0 && run[j + 1].link.taken == run[i].link.taken + [run[i].link.ring.Contents()[0]]
    ensures run[j + 1].finished == (run[i].finished || run[i + 1].childFinished)
  {
    OwnThree(run, i, f, j);
    KeptBetween(run, i, f, j);
    WritingHasBlock(run, i, j + 1);
    TransferRound(run[i], run[i + 1], run[f], run[f + 1], run[j], run[j + 1]);
  }

  lemma TransferRound(s: State, m: State, f: State, n: State, a: State, t: State)
    requires TypeOk(s) && s.srv.SMove? && ByServer(s, m)
    requires s.io.Output? ==> var r := s.link.ring; |r.Contents()| > 0 && r.Contents()[0] == r.slots[r.read]
    requires TypeOk(f) && ServerSideKept(m, f) && f.finished == m.finished && f.srv == m.srv && ByServer(f, n)
    requires TypeOk(a) && ServerSideKept(n, a) && a.finished == n.finished && a.srv == n.srv && ByServer(a, t)
    ensures f.srv.SFlag? && a.srv.SAdvance? && t.srv.StopCheck?
    ensures s.io.Input? ==> m.link.prod.PFull? && t.link.put == s.link.put + [m.link.prod.b]
    ensures s.io.Output? ==>
      |s.link.ring.Contents()| > 0 && t.link.taken == s.link.taken + [s.link.ring.Contents()[0]]
    ensures t.finished == (s.finished || m.childFinished)
  {
    var b: Block, e: bool :| m == ServerStep(s, b, e);
    MoveOfServer(s, b, e);
    var c: Block, d: bool :| n == ServerStep(f, c, d);
    FlagOfServer(f, c, d);
    var g: Block, h: bool :| t == ServerStep(a, g, h);
    AdvanceOfServer(a, g, h);
  }

  lemma WritingHasBlock(run: seq<State>, i: nat, m: nat)
    requires IsRun(run) && i <= m < |run| && run[m].clean && run[i].srv.SMove?
    ensures run[i].io.Output? ==>
      var r := run[i].link.ring; |r.Contents()| > 0 && r.Contents()[0] == r.slots[r.read]
  {
    RunKeeps(run, i);
    AllClean(run, m);
    SectionNotResetting(run[i]);
    if run[i].io.Output? {
      OldestFirst(run[i].link.ring);
    }
  }

  lemma SectionNotResetting(s: State)
    requires Inv(s) && s.clean && InSection(s.srv)
    ensures !Resetting(s.cli)
  {
  }

  // --- A thread left alone ---------------------------------------------------

  /** `n` steps of the server in a row, `b` being what its child gives and `e` whether it ends with that. */
  function ServerRun(s: State, b: Block, e: bool, n: nat): (t: State)
    requires TypeOk(s)
    ensures TypeOk(t)
  {
    if n == 0 then s
    else
      var p := ServerRun(s, b, e, n - 1);
      ServerTypeOk(p, b, e);
      ServerStep(p, b, e)
  }

  function ClientRun(s: State, op: Op, b: Block, e: bool, n: nat): (t: State)
    requires TypeOk(s)
    ensures TypeOk(t)
  {
    if n == 0 then s
    else
      var p := ClientRun(s, op, b, e, n - 1);
      ClientTypeOk(p, op, b, e);
      ClientStep(p, op, b, e)
  }

  lemma ServerTurn(s: State, b: Block, e: bool, n: nat)
    requires TypeOk(s)
    ensures ServerRun(s, b, e, n + 1) == ServerStep(ServerRun(s, b, e, n), b, e)
  {
  }

  lemma ClientTurn(s: State, op: Op, b: Block, e: bool, n: nat)
    requires TypeOk(s)
    ensures ClientRun(s, op, b, e, n + 1) == ClientStep(ClientRun(s, op, b, e, n), op, b, e)
  {
  }

  lemma HeadStep(s: State, b: Block, e: bool)
    requires TypeOk(s) && s.srv.Head?
    ensures ServerStep(s, b, e) == if s.running then s.(srv := Visit) else s
  {
  }

  lemma VisitStep(s: State, b: Block, e: bool)
    requires TypeOk(s) && s.srv.Visit?
    ensures ServerStep(s, b, e) == s.(srv := if s.finished then StopCheck else ChildCheck)
  {
  }

  lemma CheckStep(s: State, b: Block, e: bool)
    requires TypeOk(s) && s.srv.ChildCheck?
    ensures ServerStep(s, b, e) == s.(srv := SLoad, finished := s.finished || s.childFinished)
  {
  }

  lemma LoadStep(s: State, b: Block, e: bool)
    requires TypeOk(s) && s.srv.SLoad?
    ensures ServerStep(s, b, e) == s.(srv := SDecide, link := if s.io.Input? then s.link.ProducerLoads() else s.link.ConsumerLoads())
  {
  }

  lemma StopStep(s: State, b: Block, e: bool)
    requires TypeOk(s) && s.srv.StopCheck?
    ensures ServerStep(s, b, e) == s.(srv := if s.stopRequest then AckStop else Head)
  {
  }

  lemma AckStopStep(s: State, b: Block, e: bool)
    requires TypeOk(s) && s.srv.AckStop?
    ensures ServerStep(s, b, e) == s.(srv := AckRun, stopRequest := false)
  {
  }

  lemma AckRunStep(s: State, b: Block, e: bool)
    requires TypeOk(s) && s.srv.AckRun?
    ensures ServerStep(s, b, e) == s.(srv := Head, running := false)
  {
  }

  /** From the head of its loop, where `n` steps from `o` have led, to where it decides about a transfer. */
  lemma ServerToDecision(o: State, n: nat, s: State, b: Block, e: bool)
    requires TypeOk(o) && s == ServerRun(o, b, e, n) && s.srv.Head? && s.running && !s.finished
    ensures ServerRun(o, b, e, n + 4)
         == s.(srv := SDecide, finished := s.childFinished,
               link := if s.io.Input? then s.link.ProducerLoads() else s.link.ConsumerLoads())
  {
    ServerTurn(o, b, e, n);
    HeadStep(s, b, e);
    ServerTurn(o, b, e, n + 1);
    VisitStep(ServerRun(o, b, e, n + 1), b, e);
    ServerTurn(o, b, e, n + 2);
    CheckStep(ServerRun(o, b, e, n + 2), b, e);
    ServerTurn(o, b, e, n + 3);
    LoadStep(ServerRun(o, b, e, n + 3), b, e);
  }

  lemma DecideFetch(s: State, b: Block, e: bool)
    requires TypeOk(s) && s.io.Input? && s.srv.SDecide? && !s.childFinished && s.link.HasRoom()
    ensures ServerStep(s, b, e) == s.(srv := SMove, link := s.link.ProducerBegins(b))
  {
  }

  lemma MoveFetch(s: State, b: Block, e: bool)
    requires TypeOk(s) && s.io.Input? && s.srv.SMove?
    ensures ServerStep(s, b, e) == s.(srv := SFlag, childFinished := s.childFinished || e, link := s.link.ProducerStores(b))
  {
  }

  lemma AdvanceFetch(s: State, b: Block, e: bool)
    requires TypeOk(s) && s.io.Input? && s.srv.SAdvance?
    ensures ServerStep(s, b, e) == s.(srv := StopCheck, link := s.link.ProducerPublishes())
  {
  }

  lemma DecideWrite(s: State, b: Block, e: bool)
    requires TypeOk(s) && s.io.Output? && s.srv.SDecide? && !s.childFinished && s.link.Seen() > 0
    ensures ServerStep(s, b, e) == s.(srv := SMove, link := s.link.ConsumerBegins())
  {
  }

  lemma MoveWrite(s: State, b: Block, e: bool)
    requires TypeOk(s) && s.io.Output? && s.srv.SMove?
    ensures ServerStep(s, b, e) == s.(srv := SFlag, childFinished := s.childFinished || e, link := s.link.ConsumerCopies())
  {
  }

  lemma AdvanceWrite(s: State, b: Block, e: bool)
    requires TypeOk(s) && s.io.Output? && s.srv.SAdvance?
    ensures ServerStep(s, b, e) == s.(srv := StopCheck, link := s.link.ConsumerReleases())
  {
  }

  /** The link after a block has been stored and published, or the oldest taken. */
  function Stored(l: Link, b: Block): Link
    requires l.TypeOk()
  {
    l.(ring := l.ring.Fill(b).AdvanceWrite(), put := l.put + [b], prod := PIdle)
  }

  function Released(l: Link): Link
    requires l.TypeOk()
  {
    l.(ring := l.ring.AdvanceRead(), cons := KIdle, taken := l.taken + [l.ring.slots[l.ring.read]])
  }

  lemma StoredIs(l: Link, b: Block)
    requires l.TypeOk()
    ensures l.ProducerBegins(b).TypeOk() && l.ProducerBegins(b).ProducerStores(b).TypeOk()
    ensures l.ProducerBegins(b).ProducerStores(b).ProducerPublishes() == Stored(l, b)
  {
    assert l.ring.slots[l.ring.write := b][l.ring.write := b] == l.ring.slots[l.ring.write := b];
  }

  /** The steps of a transfer from the decision on. */
  lemma FetchSteps(o: State, n: nat, s: State, b: Block, e: bool)
    requires TypeOk(o) && s == ServerRun(o, b, e, n)
    requires s.io.Input? && s.srv.SDecide? && !s.childFinished && s.link.HasRoom()
    ensures ServerRun(o, b, e, n + 2) == s.(srv := SFlag, childFinished := e, link := s.link.ProducerBegins(b).ProducerStores(b))
  {
    ServerTurn(o, b, e, n);
    DecideFetch(s, b, e);
    ServerTurn(o, b, e, n + 1);
    MoveFetch(ServerRun(o, b, e, n + 1), b, e);
  }

  lemma WriteSteps(o: State, n: nat, s: State, b: Block, e: bool)
    requires TypeOk(o) && s == ServerRun(o, b, e, n)
    requires s.io.Output? && s.srv.SDecide? && !s.childFinished && s.link.Seen() > 0
    ensures ServerRun(o, b, e, n + 2) == s.(srv := SFlag, childFinished := e, link := s.link.ConsumerBegins().ConsumerCopies())
  {
    ServerTurn(o, b, e, n);
    DecideWrite(s, b, e);
    ServerTurn(o, b, e, n + 1);
    MoveWrite(ServerRun(o, b, e, n + 1), b, e);
  }

  /** And from where the child's end is noted to the head of the loop. */
  lemma FetchEnds(o: State, n: nat, s: State, b: Block, e: bool)
    requires TypeOk(o) && s == ServerRun(o, b, e, n) && s.io.Input? && s.srv.SFlag? && !s.stopRequest
    ensures ServerRun(o, b, e, n + 3) == s.(srv := Head, finished := s.finished || s.childFinished, link := s.link.ProducerPublishes())
  {
    ServerTurn(o, b, e, n);
    FlagOfServer(s, b, e);
    ServerTurn(o, b, e, n + 1);
    AdvanceFetch(ServerRun(o, b, e, n + 1), b, e);
    ServerTurn(o, b, e, n + 2);
    StopStep(ServerRun(o, b, e, n + 2), b, e);
  }

  lemma WriteEnds(o: State, n: nat, s: State, b: Block, e: bool)
    requires TypeOk(o) && s == ServerRun(o, b, e, n) && s.io.Output? && s.srv.SFlag? && !s.stopRequest
    ensures ServerRun(o, b, e, n + 3) == s.(srv := Head, finished := s.finished || s.childFinished, link := s.link.ConsumerReleases())
  {
    ServerTurn(o, b, e, n);
    FlagOfServer(s, b, e);
    ServerTurn(o, b, e, n + 1);
    AdvanceWrite(ServerRun(o, b, e, n + 1), b, e);
    ServerTurn(o, b, e, n + 2);
    StopStep(ServerRun(o, b, e, n + 2), b, e);
  }

  lemma StoredContents(l: Link, b: Block)
    requires l.TypeOk() && |l.ring.Contents()| < |l.ring.slots| - 1
    ensures Stored(l, b).ring.Valid() && Stored(l, b).ring.Contents() == l.ring.Contents() + [b]
  {
    FillKeepsContents(l.ring, b);
    AdvanceWriteAppends(l.ring.Fill(b));
  }

  lemma ReleasedContents(l: Link)
    requires l.TypeOk() && |l.ring.Contents()| > 0
    ensures Released(l).ring.Valid() && l.ring.Contents() == [l.ring.Contents()[0]] + Released(l).ring.Contents()
    ensures Released(l).taken == l.taken + [l.ring.Contents()[0]]
  {
    AdvanceReadDrops(l.ring);
  }

  /** A round of a running server left alone fetches the next block of an input child into a ring with room. */
  lemma ServerFetches(o: State, n: nat, s: State, b: Block, e: bool)
    requires TypeOk(o) && s == ServerRun(o, b, e, n)
    requires s.io.Input? && s.srv.Head? && s.running && !s.stopRequest && !s.finished && !s.childFinished
    requires |s.link.ring.Contents()| < |s.link.ring.slots| - 1
    ensures ServerRun(o, b, e, n + 9) == s.(childFinished := e, finished := e, link := Stored(s.link, b))
    ensures Stored(s.link, b).put == s.link.put + [b] && Stored(s.link, b).ring.Contents() == s.link.ring.Contents() + [b]
  {
    ServerToDecision(o, n, s, b, e);
    SpacesCountContents(s.link.ring);
    FetchSteps(o, n + 4, ServerRun(o, b, e, n + 4), b, e);
    FetchEnds(o, n + 6, ServerRun(o, b, e, n + 6), b, e);
    StoredIs(s.link, b);
    StoredContents(s.link, b);
  }

  /** Or writes the oldest block of the ring to an output child. */
  lemma ServerWrites(o: State, n: nat, s: State, b: Block, e: bool)
    requires TypeOk(o) && s == ServerRun(o, b, e, n)
    requires s.io.Output? && s.srv.Head? && s.running && !s.stopRequest && !s.finished && !s.childFinished
    requires |s.link.ring.Contents()| > 0
    ensures ServerRun(o, b, e, n + 9) == s.(childFinished := e, finished := e, link := Released(s.link))
    ensures Released(s.link).taken == s.link.taken + [s.link.ring.Contents()[0]]
    ensures s.link.ring.Contents() == [s.link.ring.Contents()[0]] + Released(s.link).ring.Contents()
  {
    ServerToDecision(o, n, s, b, e);
    SpacesCountContents(s.link.ring);
    WriteSteps(o, n + 4, ServerRun(o, b, e, n + 4), b, e);
    WriteEnds(o, n + 6, ServerRun(o, b, e, n + 6), b, e);
    ReleasedContents(s.link);
  }

  /** A stop request is acknowledged at the end of the round, and the server then waits to be started. */
  lemma ServerStops(o: State, n: nat, s: State, b: Block, e: bool)
    requires TypeOk(o) && s == ServerRun(o, b, e, n) && s.srv.StopCheck? && s.stopRequest
    ensures ServerRun(o, b, e, n + 3) == s.(srv := Head, stopRequest := false, running := false)
  {
    ServerTurn(o, b, e, n);
    StopStep(s, b, e);
    ServerTurn(o, b, e, n + 1);
    AckStopStep(ServerRun(o, b, e, n + 1), b, e);
    ServerTurn(o, b, e, n + 2);
    AckRunStep(ServerRun(o, b, e, n + 2), b, e);
  }

  // --- The client left alone -------------------------------------------------

  lemma LoadStepOf(s: State, op: Op, b: Block, e: bool)
    requires TypeOk(s) && s.cli.CLoad?
    ensures ClientStep(s, op, b, e)
         == s.(cli := CDecide(Complete(s)), link := if s.io.Input? then s.link.ConsumerLoads() else s.link.ProducerLoads())
  {
  }

  lemma DecideRead(s: State, op: Op, b: Block, e: bool)
    requires TypeOk(s) && s.io.Input? && s.cli.CDecide? && s.link.Seen() > 0
    ensures ClientStep(s, op, b, e) == s.(cli := CMove, link := s.link.ConsumerBegins())
  {
  }

  lemma DecideStore(s: State, op: Op, b: Block, e: bool)
    requires TypeOk(s) && s.io.Output? && s.cli.CDecide? && s.link.HasRoom()
    ensures ClientStep(s, op, b, e) == s.(cli := CMove, link := s.link.ProducerBegins(b))
  {
  }

  lemma MoveOrStore(s: State, op: Op, b: Block, e: bool)
    requires TypeOk(s) && s.cli.CMove?
    ensures ClientStep(s, op, b, e)
         == s.(cli := CAdvance, link := if s.io.Input? then s.link.ConsumerCopies() else s.link.ProducerStores(b))
  {
  }

  lemma AdvanceCall(s: State, op: Op, b: Block, e: bool)
    requires TypeOk(s) && s.cli.CAdvance?
    ensures ClientStep(s, op, b, e)
         == s.(cli := Ready, recursing := false,
               link := if s.io.Input? then s.link.ConsumerReleases() else s.link.ProducerPublishes())
  {
  }

  lemma ControlOnly(s: State, op: Op, b: Block, e: bool)
    requires TypeOk(s) && !Transferring(s.cli) && !Resetting(s.cli)
    ensures ClientStep(s, op, b, e) == ControlStep(s, op, e)
  {
  }

  lemma CallControl(s: State, e: bool)
    requires TypeOk(s) && s.cli.Ready?
    ensures ControlStep(s, Transfer, e) == s.(cli := CLoad)
  {
  }

  /** A call up to its decision. */
  lemma CallToDecision(o: State, n: nat, s: State, b: Block, e: bool)
    requires TypeOk(o) && s == ClientRun(o, Transfer, b, e, n) && s.cli.Ready?
    ensures ClientRun(o, Transfer, b, e, n + 2)
         == s.(cli := CDecide(Complete(s)), link := if s.io.Input? then s.link.ConsumerLoads() else s.link.ProducerLoads())
  {
    ClientTurn(o, Transfer, b, e, n);
    ControlOnly(s, Transfer, b, e);
    CallControl(s, e);
    ClientTurn(o, Transfer, b, e, n + 1);
    LoadStepOf(ClientRun(o, Transfer, b, e, n + 1), Transfer, b, e);
  }

  lemma CallEnds(o: State, n: nat, s: State, b: Block, e: bool)
    requires TypeOk(o) && s == ClientRun(o, Transfer, b, e, n) && s.cli.CMove?
    requires TypeOk(MovedCall(s, b))
    ensures ClientRun(o, Transfer, b, e, n + 2)
         == s.(cli := Ready, recursing := false,
               link := if s.io.Input? then s.link.ConsumerCopies().ConsumerReleases()
                       else s.link.ProducerStores(b).ProducerPublishes())
  {
    ClientTurn(o, Transfer, b, e, n);
    MoveOrStore(s, Transfer, b, e);
    ClientTurn(o, Transfer, b, e, n + 1);
    AdvanceCall(MovedCall(s, b), Transfer, b, e);
  }

  function MovedCall(s: State, b: Block): State
    requires TypeOk(s) && s.cli.CMove?
  {
    s.(cli := CAdvance, link := if s.io.Input? then s.link.ConsumerCopies() else s.link.ProducerStores(b))
  }

  lemma MovedOk(s: State, b: Block)
    requires TypeOk(s) && s.cli.CMove?
    ensures TypeOk(MovedCall(s, b))
  {
  }

  /** A read of an input client takes the oldest block, if there is one. */
  lemma ClientReads(o: State, n: nat, s: State, b: Block, e: bool)
    requires TypeOk(o) && s == ClientRun(o, Transfer, b, e, n)
    requires s.io.Input? && s.cli.Ready? && |s.link.ring.Contents()| > 0
    ensures ClientRun(o, Transfer, b, e, n + 5) == s.(recursing := false, link := Released(s.link))
    ensures Released(s.link).taken == s.link.taken + [s.link.ring.Contents()[0]]
    ensures s.link.ring.Contents() == [s.link.ring.Contents()[0]] + Released(s.link).ring.Contents()
  {
    CallToDecision(o, n, s, b, e);
    SpacesCountContents(s.link.ring);
    ClientTurn(o, Transfer, b, e, n + 2);
    DecideRead(ClientRun(o, Transfer, b, e, n + 2), Transfer, b, e);
    MovedOk(ClientRun(o, Transfer, b, e, n + 3), b);
    CallEnds(o, n + 3, ClientRun(o, Transfer, b, e, n + 3), b, e);
    ReleasedContents(s.link);
  }

  /** A write of an output client puts its block into a ring with room. */
  lemma ClientWrites(o: State, n: nat, s: State, b: Block, e: bool)
    requires TypeOk(o) && s == ClientRun(o, Transfer, b, e, n)
    requires s.io.Output? && s.cli.Ready? && |s.link.ring.Contents()| < |s.link.ring.slots| - 1
    ensures ClientRun(o, Transfer, b, e, n + 5) == s.(recursing := false, link := Stored(s.link, b))
    ensures Stored(s.link, b).put == s.link.put + [b] && Stored(s.link, b).ring.Contents() == s.link.ring.Contents() + [b]
  {
    CallToDecision(o, n, s, b, e);
    SpacesCountContents(s.link.ring);
    ClientTurn(o, Transfer, b, e, n + 2);
    DecideStore(ClientRun(o, Transfer, b, e, n + 2), Transfer, b, e);
    MovedOk(ClientRun(o, Transfer, b, e, n + 3), b);
    CallEnds(o, n + 3, ClientRun(o, Transfer, b, e, n + 3), b, e);
    StoredIs(s.link, b);
    StoredContents(s.link, b);
  }

  lemma RefusedControl(s: State, op: Op, e: bool)
    requires TypeOk(s) && (s.cli.FinCheck? || s.cli.Overrun?)
    ensures var t := ControlStep(s, op, e);
            && (s.cli.FinCheck? ==> t.clientFinished == (s.clientFinished || s.finished)
                                    && t.cli == if s.finished || s.io.Input? then Ready else Overrun)
            && (s.cli.Overrun? ==> t.cli == if s.recursing then SeekRun else Recheck(s.link.ring.write))
            && t.link == s.link
  {
  }

  lemma RecheckControl(s: State, op: Op, e: bool)
    requires TypeOk(s) && s.cli.Recheck?
    ensures var t := ControlStep(s, op, e);
            t.link == s.link
            && if WriteSpaceOf(|s.link.ring.slots|, s.cli.w, s.link.ring.read) > 0 then t.cli.CLoad? && t.recursing else t.cli.SeekRun?
  {
  }

  /**
   What a client does that cannot transfer. With the flag set it is finished; else a read
   gives up, and a write waits and tries once more if there is room then, and otherwise seeks
   to start the server anew.
   */
  lemma ClientRefused(s: State, op: Op, b: Block, e: bool)
    requires TypeOk(s) && (s.cli.FinCheck? || s.cli.Overrun? || (s.cli.Recheck? && s.cli.w == s.link.ring.write))
    ensures var t := ClientStep(s, op, b, e);
            && (s.cli.FinCheck? ==> t.clientFinished == (s.clientFinished || s.finished)
                                    && t.cli == if s.finished || s.io.Input? then Ready else Overrun)
            && (s.cli.Overrun? ==> t.cli == if s.recursing then SeekRun else Recheck(s.link.ring.write))
            && (s.cli.Recheck? ==>
                  if |s.link.ring.Contents()| < |s.link.ring.slots| - 1 then t.cli.CLoad? && t.recursing else t.cli.SeekRun?)
            && t.link == s.link
  {
    ControlOnly(s, op, b, e);
    if s.cli.Recheck? {
      RecheckControl(s, op, e);
      SpacesCountContents(s.link.ring);
    } else {
      RefusedControl(s, op, e);
    }
  }

  lemma SeekRunControl(s: State, op: Op, e: bool)
    requires TypeOk(s) && s.cli.SeekRun?
    ensures ControlStep(s, op, e) == s.(cli := if s.running then AskStop else SeekChild(true, false))
  {
  }

  lemma AskControl(s: State, op: Op, e: bool)
    requires TypeOk(s) && s.cli.AskStop?
    ensures ControlStep(s, op, e) == s.(cli := Observe, stopRequest := true)
  {
  }

  lemma ChildControl(s: State, op: Op, e: bool)
    requires TypeOk(s) && s.cli.SeekChild?
    ensures ControlStep(s, op, e)
         == s.(cli := ResetRead(s.cli.saw, s.cli.was), childFinished := e, clean := s.clean && s.cli.saw)
  {
  }

  lemma RearmControl(s: State, op: Op, e: bool)
    requires TypeOk(s) && s.cli.Rearm?
    ensures ControlStep(s, op, e) == s.(cli := Relaunch, stopRequest := false)
  {
  }

  lemma RelaunchControl(s: State, op: Op, e: bool)
    requires TypeOk(s) && s.cli.Relaunch?
    ensures ControlStep(s, op, e) == s.(cli := Ready, running := true)
  {
  }

  lemma ObserveControl(s: State, op: Op, e: bool)
    requires TypeOk(s) && s.cli.Observe?
    ensures ControlStep(s, op, e) == s.(cli := SeekChild(!s.running, true))
  {
  }

  lemma CommandControl(s: State, op: Op, e: bool)
    requires TypeOk(s) && s.cli.Ready?
    ensures op.Seek? ==> ControlStep(s, op, e) == s.(cli := SeekRun)
    ensures op.Start? ==> ControlStep(s, op, e) == s.(cli := Rearm)
    ensures op.Stop? ==> ControlStep(s, op, e) == s.(stopRequest := true)
  {
  }

  /** The ring and the flags as a reset leaves them. */
  function Cleared(s: State, next: ClientPc): State {
    s.(link := s.link.(ring := s.link.ring.(read := 0, write := 0), put := [], taken := []),
    finished := false, clientFinished := false, recursing := false, cli := next)
  }

  lemma ThreeResets(s: State)
    requires s.cli.ResetRead?
    ensures ResetStep(s).cli.ResetWrite? && ResetStep(ResetStep(s)).cli.ResetFlag?
    ensures ResetStep(ResetStep(ResetStep(s))) == Cleared(s, if s.cli.was then Rearm else Ready)
  {
  }

  lemma ResetOnly(s: State, op: Op, b: Block, e: bool)
    requires TypeOk(s) && Resetting(s.cli)
    ensures ClientStep(s, op, b, e) == ResetStep(s)
  {
  }

  /**
   A seek from where it has looked at the server: the child is placed, the ring emptied, the
   flags cleared, whether or not the server was found stopped.
   */
  lemma SeekResets(o: State, n: nat, s: State, op: Op, b: Block, e: bool)
    requires TypeOk(o) && s == ClientRun(o, op, b, e, n) && s.cli.SeekChild?
    ensures ClientRun(o, op, b, e, n + 4)
         == Cleared(s.(childFinished := e, clean := s.clean && s.cli.saw), if s.cli.was then Rearm else Ready)
  {
    ClientTurn(o, op, b, e, n);
    ControlOnly(s, op, b, e);
    ChildControl(s, op, e);
    var p := ClientRun(o, op, b, e, n + 1);
    ThreeResets(p);
    ClientTurn(o, op, b, e, n + 1);
    ResetOnly(p, op, b, e);
    ClientTurn(o, op, b, e, n + 2);
    ResetOnly(ClientRun(o, op, b, e, n + 2), op, b, e);
    ClientTurn(o, op, b, e, n + 3);
    ResetOnly(ClientRun(o, op, b, e, n + 3), op, b, e);
  }

  lemma SeekStarts(o: State, n: nat, s: State, op: Op, b: Block, e: bool)
    requires TypeOk(o) && s == ClientRun(o, op, b, e, n) && s.cli.SeekRun? && !s.running
    ensures ClientRun(o, op, b, e, n + 1) == s.(cli := SeekChild(true, false))
  {
    ClientTurn(o, op, b, e, n);
    ControlOnly(s, op, b, e);
    SeekRunControl(s, op, e);
  }

  /** A seek with the server stopped, left alone, places the child, empties the ring and clears every flag. */
  lemma ClientSeeks(o: State, n: nat, s: State, op: Op, b: Block, e: bool)
    requires TypeOk(o) && s == ClientRun(o, op, b, e, n) && s.cli.SeekRun? && !s.running
    ensures ClientRun(o, op, b, e, n + 5) == Cleared(s.(childFinished := e), Ready)
  {
    SeekStarts(o, n, s, op, b, e);
    SeekResets(o, n + 1, ClientRun(o, op, b, e, n + 1), op, b, e);
  }

  /** With the server running, a seek first asks it to stop and looks again. */
  lemma SeekAsks(o: State, n: nat, s: State, op: Op, b: Block, e: bool)
    requires TypeOk(o) && s == ClientRun(o, op, b, e, n) && s.cli.SeekRun? && s.running
    ensures ClientRun(o, op, b, e, n + 2) == s.(cli := Observe, stopRequest := true)
  {
    ClientTurn(o, op, b, e, n);
    ControlOnly(s, op, b, e);
    SeekRunControl(s, op, e);
    ClientTurn(o, op, b, e, n + 1);
    var p := ClientRun(o, op, b, e, n + 1);
    ControlOnly(p, op, b, e);
    AskControl(p, op, e);
  }

  lemma ClientStarts(o: State, n: nat, s: State, op: Op, b: Block, e: bool)
    requires TypeOk(o) && s == ClientRun(o, op, b, e, n) && s.cli.Rearm?
    ensures ClientRun(o, op, b, e, n + 2) == s.(cli := Ready, stopRequest := false, running := true)
  {
    ClientTurn(o, op, b, e, n);
    ControlOnly(s, op, b, e);
    RearmControl(s, op, e);
    ClientTurn(o, op, b, e, n + 1);
    var q := ClientRun(o, op, b, e, n + 1);
    ControlOnly(q, op, b, e);
    RelaunchControl(q, op, e);
  }

  /** Having asked, a seek goes on whatever it sees. */
  lemma SeekObserves(o: State, n: nat, s: State, op: Op, b: Block, e: bool)
    requires TypeOk(o) && s == ClientRun(o, op, b, e, n) && s.cli.Observe?
    ensures ClientRun(o, op, b, e, n + 1) == s.(cli := SeekChild(!s.running, true))
  {
    ClientTurn(o, op, b, e, n);
    ControlOnly(s, op, b, e);
    ObserveControl(s, op, e);
  }

  /** A seek that has asked the server to stop starts it again behind its reset. */
  lemma SeekRestarts(o: State, n: nat, s: State, op: Op, b: Block, e: bool)
    requires TypeOk(o) && s == ClientRun(o, op, b, e, n) && s.cli.SeekChild? && s.cli.was
    ensures ClientRun(o, op, b, e, n + 6)
         == Cleared(s.(childFinished := e, clean := s.clean && s.cli.saw), Ready).(stopRequest := false, running := true)
  {
    SeekResets(o, n, s, op, b, e);
    ClientStarts(o, n + 4, ClientRun(o, op, b, e, n + 4), op, b, e);
  }

  /** An idle client told to start the server has started it, with no stop pending, three steps on. */
  lemma StartStarts(o: State, n: nat, s: State, b: Block, e: bool)
    requires TypeOk(o) && s == ClientRun(o, Start, b, e, n) && s.cli.Ready?
    ensures ClientRun(o, Start, b, e, n + 3) == s.(stopRequest := false, running := true)
  {
    StartRearms(o, n, s, b, e);
    ClientStarts(o, n + 1, s.(cli := Rearm), Start, b, e);
  }

  lemma StartRearms(o: State, n: nat, s: State, b: Block, e: bool)
    requires TypeOk(o) && s == ClientRun(o, Start, b, e, n) && s.cli.Ready?
    ensures ClientRun(o, Start, b, e, n + 1) == s.(cli := Rearm)
  {
    ClientTurn(o, Start, b, e, n);
    ControlOnly(s, Start, b, e);
    CommandControl(s, Start, e);
  }

  /** Told to stop it, it leaves a stop pending; told to seek, it begins one. */
  lemma Commands(s: State, b: Block, e: bool)
    requires TypeOk(s) && s.cli.Ready?
    ensures ClientStep(s, Stop, b, e) == s.(stopRequest := true)
    ensures ClientStep(s, Seek, b, e) == s.(cli := SeekRun)
  {
    ControlOnly(s, Stop, b, e);
    CommandControl(s, Stop, e);
    ControlOnly(s, Seek, b, e);
    CommandControl(s, Seek, e);
  }
}
