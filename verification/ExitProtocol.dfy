/**
 How main and the signal watchdog of ecasound/ecasound.cpp leave the process together.

 Both threads and the operating system's signals are one interleaved machine. It starts
 after SIGINT, SIGTERM, SIGPIPE, SIGQUIT and SIGHUP have been blocked and the mask is
 inherited; a section under the state's mutex is one step. `dangling` records whether the
 watchdog ever used the run state after it was freed, `failedCheck` whether one of the two
 DBC_CHECKs on the exit phase ever failed.
 */
module ExitProtocol {

  datatype Phase = PhaseNone | WaitForWatchdog | OneThread | Done

  /** SIGTERM, SIGPIPE and SIGQUIT are treated alike and are all `Other`. */
  datatype Signal = Hup | Int | Other

  datatype MainPc =
    | Creating
    | AwaitingAlive
    | Running
    | Waking
    | Unblocking
    | Joining
    | Joined
    | Destroying
    | Destroyed
    | Returned

  datatype WatchdogPc =
    | Absent
    | Starting
    | SigWait
    | Unblock
    | Request
    | Quit
    | Poll
    | Sleep
    | Leave
    | Exited

  /** `wake` is the SIGHUP main directs at the watchdog, `pending` the process-wide signals. */
  datatype State = State(
    phase: Phase, main: MainPc, wd: WatchdogPc, alive: bool, exitRequest: bool, wake: bool, pending: set<Signal>,
    ignoredInt: bool, freed: bool, killed: bool, dangling: bool, failedCheck: bool)

  datatype Action = MainAct(created: bool) | WatchdogAct(choice: Signal) | Raise(signal: Signal) | Deliver(signal: Signal)

  const INITIAL := State(PhaseNone, Creating, Absent, false, false, false, {}, false, false, false, false, false)

  /** Where main goes from each point; it waits for the watchdog to be alive and, in join, to have exited. */
  function MainNext(s: State): MainPc {
    match s.main
    case Creating => AwaitingAlive
    case AwaitingAlive => if s.alive then Running else AwaitingAlive
    case Running => Waking
    case Waking => Unblocking
    case Unblocking => Joining
    case Joining => if s.wd.Exited? then Joined else Joining
    case Joined => Destroying
    case Destroying => Destroyed
    case Destroyed => Returned
    case Returned => Returned
  }

  /** ecasound.cpp:834-849, 316-342 and 170-189; `created` is whether pthread_create succeeds. */
  function MainStep(s: State, created: bool): State {
    s.(main := MainNext(s),
       wd := if s.main.Creating? && created then Starting else s.wd,
       phase := if s.main.Running? then WaitForWatchdog
                else if s.main.Joined? then OneThread
                else if s.main.Destroyed? then Done
                else s.phase,
       wake := s.wake || s.main.Waking?,
       freed := s.freed || s.main.Destroying?,
       failedCheck := s.failedCheck || (s.main.Destroying? && s.phase != OneThread))
  }

  /** Every watchdog step but the tests of the exit phase goes through the run state. */
  predicate Touches(pc: WatchdogPc) {
    !pc.Absent? && !pc.Poll? && !pc.Leave? && !pc.Exited?
  }

  /** Where the watchdog goes; sigwait returns once the directed SIGHUP or the signal of `choice` is there. */
  function WatchdogNext(s: State, choice: Signal): WatchdogPc {
    match s.wd
    case Absent => Absent
    case Starting => SigWait
    case SigWait => if choice in s.pending || s.wake then Unblock else SigWait
    case Unblock => Request
    case Request => Quit
    case Quit => Poll
    case Poll => if s.phase == WaitForWatchdog then Leave else Sleep
    case Sleep => Poll
    case Leave => Exited
    case Exited => Exited
  }

  /** ecasound.cpp:900-980; sigwait consumes one signal, another pending one or the directed SIGHUP. */
  function WatchdogStep(s: State, choice: Signal): State {
    s.(wd := WatchdogNext(s, choice),
       alive := s.alive || s.wd.Starting?,
       exitRequest := s.exitRequest || s.wd.Request?,
       wake := s.wake && (s.wd.SigWait? ==> choice in s.pending),
       pending := if s.wd.SigWait? then s.pending - {choice} else s.pending,
       dangling := s.dangling || (s.freed && Touches(s.wd)),
       failedCheck := s.failedCheck || (s.wd.Leave? && s.phase != WaitForWatchdog))
  }

  /** Whether some live thread has SIGINT and the like unblocked; SIGHUP never is. */
  predicate Unblocked(s: State) {
    s.wd.Request? || s.wd.Quit? || s.wd.Poll? || s.wd.Sleep? || s.wd.Leave? || s.main.Joining? || PastJoin(s.main)
  }

  /** The signal handler (ecasound.cpp:744-772) in whichever thread it interrupts. */
  function DeliverStep(s: State, signal: Signal): State {
    if signal.Hup? || signal !in s.pending || !Unblocked(s) then s
    else if s.phase == WaitForWatchdog then s.(pending := s.pending - {signal})
    else if signal.Int? && !s.ignoredInt then s.(pending := s.pending - {signal}, ignoredInt := true)
    else s.(pending := s.pending - {signal}, killed := true)
  }

  /** Nothing moves once the handler has called exit(). */
  function Step(s: State, a: Action): State {
    if s.killed then s
    else match a
      case MainAct(created) => MainStep(s, created)
      case WatchdogAct(choice) => WatchdogStep(s, choice)
      case Raise(signal) => s.(pending := s.pending + {signal})
      case Deliver(signal) => DeliverStep(s, signal)
  }

  predicate Next(s: State, a: Action, t: State) {
    t == Step(s, a)
  }

  /** A run from the start: the states it goes through and the action between each two. */
  predicate IsRun(run: seq<State>, acts: seq<Action>) {
    && |run| == |acts| + 1
    && run[0] == INITIAL
    && forall i :: 0 <= i < |acts| ==> Next(run[i], acts[i], run[i + 1])
  }

  // --------------------------------------------------------------- the invariant

  function PhaseOf(pc: MainPc): Phase {
    match pc
    case Creating | AwaitingAlive | Running => PhaseNone
    case Waking | Unblocking | Joining | Joined => WaitForWatchdog
    case Destroying | Destroyed => OneThread
    case Returned => Done
  }

  predicate PastJoin(pc: MainPc) {
    pc.Joined? || pc.Destroying? || pc.Destroyed? || pc.Returned?
  }

  predicate Inv(s: State) {
    && s.phase == PhaseOf(s.main)
    && s.alive == (!s.wd.Absent? && !s.wd.Starting?)
    && (s.main.Creating? ==> s.wd.Absent?)
    && (s.main.Creating? || s.main.AwaitingAlive? || s.alive)
    && (PastJoin(s.main) ==> s.wd.Exited?)
    && (s.wd.Leave? || s.wd.Exited? ==> s.phase != PhaseNone)
    && (s.main.Joining? || s.main.Unblocking? ==> s.wd.SigWait? ==> s.wake)
    && (s.freed <==> s.main.Destroyed? || s.main.Returned?)
    && (s.wd.Quit? || s.wd.Poll? || s.wd.Sleep? || s.wd.Leave? || s.wd.Exited? <==> s.exitRequest)
    && !s.dangling && !s.failedCheck
  }

  lemma MainKeeps(s: State, created: bool)
    requires Inv(s)
    ensures Inv(MainStep(s, created))
  {
  }

  lemma WatchdogKeeps(s: State, choice: Signal)
    requires Inv(s)
    ensures Inv(WatchdogStep(s, choice))
  {
    assert s.freed ==> s.wd.Exited?;
  }

  lemma StepKeeps(s: State, a: Action, t: State)
    requires Inv(s) && Next(s, a, t)
    ensures Inv(t)
  {
    if !s.killed && a.MainAct? {
      MainKeeps(s, a.created);
    } else if !s.killed && a.WatchdogAct? {
      WatchdogKeeps(s, a.choice);
    }
  }

  lemma {:induction false} RunKeeps(run: seq<State>, acts: seq<Action>, k: nat)
    requires IsRun(run, acts) && k < |run|
    ensures Inv(run[k])
  {
    if k > 0 {
      RunKeeps(run, acts, k - 1);
      assert Next(run[k - 1], acts[k - 1], run[k - 1 + 1]);
      StepKeeps(run[k - 1], acts[k - 1], run[k]);
    }
  }

  // -------------------------------------------------------------- over every run

  function Rank(phase: Phase): (r: nat)
    ensures r <= 3
  {
    match phase
    case PhaseNone => 0
    case WaitForWatchdog => 1
    case OneThread => 2
    case Done => 3
  }

  lemma PhaseStep(s: State, a: Action, t: State)
    requires Inv(s) && Next(s, a, t)
    ensures Rank(s.phase) <= Rank(t.phase) <= Rank(s.phase) + 1
    ensures t.phase != s.phase ==> a.MainAct?
  {
  }

  /** In every run the exit phase moves NONE, WAIT_FOR_WD, ONE_THREAD, DONE: never back, never skipping one. */
  lemma {:induction false} PhaseOnlyAdvances(run: seq<State>, acts: seq<Action>, i: nat, j: nat)
    requires IsRun(run, acts) && i <= j < |run|
    ensures Rank(run[i].phase) <= Rank(run[j].phase)
    ensures j == i + 1 ==> Rank(run[j].phase) <= Rank(run[i].phase) + 1
    ensures j == i + 1 && run[j].phase != run[i].phase ==> acts[i].MainAct?
  {
    if i < j {
      PhaseOnlyAdvances(run, acts, i, j - 1);
      RunKeeps(run, acts, j - 1);
      assert Next(run[j - 1], acts[j - 1], run[j - 1 + 1]);
      PhaseStep(run[j - 1], acts[j - 1], run[j]);
    }
  }

  /** What the phases promise: ONE_THREAD comes after the watchdog, which never meets a freed run state. */
  predicate Safe(s: State) {
    && (s.phase == OneThread || s.phase == Done || s.freed ==> s.wd.Exited?)
    && (s.wd.Exited? ==> s.phase != PhaseNone && s.exitRequest)
    && !s.dangling && !s.failedCheck
  }

  lemma InvSafe(s: State)
    requires Inv(s)
    ensures Safe(s)
  {
  }

  /** ONE_THREAD means what it says, the run state outlives the watchdog, and both DBC_CHECKs hold. */
  lemma StateOutlivesWatchdog(run: seq<State>, acts: seq<Action>, k: nat)
    requires IsRun(run, acts) && k < |run|
    ensures Safe(run[k])
  {
    RunKeeps(run, acts, k);
    InvSafe(run[k]);
  }

  lemma StaysBlocked(s: State, a: Action, t: State)
    requires Inv(s) && s.main.AwaitingAlive? && s.wd.Absent? && !s.killed && Next(s, a, t)
    ensures t.main.AwaitingAlive? && t.wd.Absent? && !t.killed
  {
  }

  /** If the watchdog cannot be created, main waits for it forever and the exit phases never begin. */
  lemma {:induction false} CreationFailureBlocks(run: seq<State>, acts: seq<Action>, i: nat, k: nat)
    requires IsRun(run, acts) && i < k < |run|
    requires run[i].main.Creating? && !run[i].killed && acts[i] == MainAct(false)
    ensures run[k].main.AwaitingAlive? && run[k].wd.Absent? && !run[k].killed
  {
    RunKeeps(run, acts, k - 1);
    assert Next(run[k - 1], acts[k - 1], run[k - 1 + 1]);
    if i + 1 < k {
      CreationFailureBlocks(run, acts, i, k - 1);
      StaysBlocked(run[k - 1], acts[k - 1], run[k]);
    }
  }

  /** How far a created watchdog's start has come: it is there, and alive once it has had a turn. */
  predicate Begun(s: State, announced: bool, past: bool) {
    && !s.wd.Absent? && !s.main.Creating?
    && (announced ==> s.alive)
    && (past ==> !s.main.AwaitingAlive?)
  }

  lemma BegunStep(s: State, a: Action, t: State, announced: bool, past: bool)
    requires Inv(s) && Next(s, a, t) && Begun(s, announced, past) && !s.killed
    ensures Begun(t, announced || a.WatchdogAct?, past || (announced && a.MainAct?))
  {
  }

  lemma {:induction false} StaysAlive(run: seq<State>, acts: seq<Action>, j: nat, k: nat)
    requires IsRun(run, acts) && j <= k < |run| && !run[k].killed
    ensures !run[j].killed
    decreases k - j
  {
    if j < k {
      assert Next(run[k - 1], acts[k - 1], run[k - 1 + 1]);
      StaysAlive(run, acts, j, k - 1);
    }
  }

  /** The start that follows a successful creation, up to the k-th state. */
  lemma {:induction false} CreationBegins(run: seq<State>, acts: seq<Action>, i: nat, w: nat, m: nat, k: nat)
    requires IsRun(run, acts) && i < w < m < |acts| && i < k < |run| && k <= m + 1
    requires run[i].main.Creating? && acts[i] == MainAct(true)
    requires acts[w].WatchdogAct? && acts[m].MainAct? && !run[m].killed
    ensures Begun(run[k], k > w, k > m)
    decreases k
  {
    RunKeeps(run, acts, k - 1);
    StaysAlive(run, acts, k - 1, m);
    assert Next(run[k - 1], acts[k - 1], run[k - 1 + 1]);
    if i + 1 < k {
      CreationBegins(run, acts, i, w, m, k - 1);
      BegunStep(run[k - 1], acts[k - 1], run[k], k - 1 > w, k - 1 > m);
    }
  }

  /**
   After one turn of the watchdog and then one of main, in a process still alive, main has got
   past its wait exactly if the watchdog could be created.
   */
  lemma CreationExactly(run: seq<State>, acts: seq<Action>, i: nat, w: nat, m: nat, created: bool)
    requires IsRun(run, acts) && i < w < m < |acts|
    requires run[i].main.Creating? && acts[i] == MainAct(created)
    requires acts[w].WatchdogAct? && acts[m].MainAct? && !run[m].killed
    ensures !run[m + 1].main.Creating? && !run[m + 1].main.AwaitingAlive? <==> created
  {
    if created {
      CreationBegins(run, acts, i, w, m, m + 1);
    } else {
      StaysAlive(run, acts, i, m);
      CreationFailureBlocks(run, acts, i, m + 1);
    }
  }

  // ------------------------------------------------------------ the join completes

  /** Watchdog steps left before it exits, once the exit phase is WAIT_FOR_WD. */
  function StepsLeft(pc: WatchdogPc): nat {
    match pc
    case Absent => 9
    case Starting => 8
    case SigWait => 7
    case Unblock => 6
    case Request => 5
    case Quit => 4
    case Sleep => 3
    case Poll => 2
    case Leave => 1
    case Exited => 0
  }

  /** Main is in join and the watchdog still on its way. */
  predicate Waiting(s: State) {
    s.main.Joining? && !s.killed && !s.wd.Exited?
  }

  /** While main is in join, a turn of the watchdog always brings it nearer its exit. */
  lemma TurnProgress(s: State, choice: Signal)
    requires Inv(s) && Waiting(s)
    ensures var t := WatchdogStep(s, choice);
            t.main.Joining? && !t.killed && StepsLeft(t.wd) < StepsLeft(s.wd) <= 7
  {
    assert s.alive;
  }

  /** And no action of anyone sets it back, moves main out of the join, or ends the process. */
  lemma NothingSetsBack(s: State, a: Action, t: State)
    requires Inv(s) && Waiting(s) && Next(s, a, t)
    ensures t.main.Joining? && !t.killed && StepsLeft(t.wd) <= StepsLeft(s.wd)
  {
    assert s.alive;
  }

  /** How many turns of the watchdog a schedule holds from its i-th action to before its j-th. */
  function Turns(acts: seq<Action>, i: nat, j: nat): (n: nat)
    requires i <= j <= |acts|
  {
    if i == j then 0 else Turns(acts, i, j - 1) + if acts[j - 1].WatchdogAct? then 1 else 0
  }

  /** From the moment main is in join, turns of the watchdog count down to its exit. */
  lemma {:induction false} JoinCountsDown(run: seq<State>, acts: seq<Action>, i: nat, j: nat)
    requires IsRun(run, acts) && i <= j < |run| && Waiting(run[i])
    ensures run[j].wd.Exited? || (Waiting(run[j]) && 1 <= StepsLeft(run[j].wd) <= 7 - Turns(acts, i, j))
  {
    RunKeeps(run, acts, i);
    if i == j {
      TurnProgress(run[i], Hup);
    } else {
      JoinCountsDown(run, acts, i, j - 1);
      RunKeeps(run, acts, j - 1);
      assert Next(run[j - 1], acts[j - 1], run[j - 1 + 1]);
      CountDownStep(run[j - 1], acts[j - 1], run[j]);
    }
  }

  lemma CountDownStep(s: State, a: Action, t: State)
    requires Inv(s) && (s.wd.Exited? || Waiting(s)) && Next(s, a, t)
    ensures s.wd.Exited? ==> t.wd.Exited?
    ensures t.wd.Exited? || (Waiting(t) && StepsLeft(t.wd) + (if a.WatchdogAct? then 1 else 0) <= StepsLeft(s.wd))
  {
    if s.wd.Exited? {
      ExitStays(s, a, t);
    } else {
      NothingSetsBack(s, a, t);
      if a.WatchdogAct? {
        TurnProgress(s, a.choice);
      }
    }
  }

  lemma ExitStays(s: State, a: Action, t: State)
    requires Inv(s) && s.wd.Exited? && Next(s, a, t)
    ensures t.wd.Exited?
  {
  }

  /**
   Main is never stuck in join: whatever happened before (a signal already consumed or not)
   and however signals interleave from then on, seven turns bring the watchdog to its exit.
   */
  lemma JoinCompletes(run: seq<State>, acts: seq<Action>, i: nat, j: nat)
    requires IsRun(run, acts) && i <= j < |run|
    requires run[i].main.Joining? && !run[i].killed && Turns(acts, i, j) >= 7
    ensures run[j].wd.Exited?
  {
    if run[i].wd.Exited? {
      StaysExited(run, acts, i, j);
    } else {
      JoinCountsDown(run, acts, i, j);
    }
  }

  lemma {:induction false} StaysExited(run: seq<State>, acts: seq<Action>, i: nat, j: nat)
    requires IsRun(run, acts) && i <= j < |run| && run[i].wd.Exited?
    ensures run[j].wd.Exited?
  {
    if i < j {
      StaysExited(run, acts, i, j - 1);
      RunKeeps(run, acts, j - 1);
      assert Next(run[j - 1], acts[j - 1], run[j - 1 + 1]);
      ExitStays(run[j - 1], acts[j - 1], run[j]);
    }
  }

  // --------------------------------------------------------------- main gets through

  /** Turns of main left before it returns, if it never has to wait. */
  function MainLeft(pc: MainPc): (n: nat)
    ensures n == 0 <==> pc.Returned?
    ensures n <= 4 <==> pc.Joining? || PastJoin(pc)
    ensures n <= 3 <==> PastJoin(pc)
  {
    match pc
    case Creating => 9
    case AwaitingAlive => 8
    case Running => 7
    case Waking => 6
    case Unblocking => 5
    case Joining => 4
    case Joined => 3
    case Destroying => 2
    case Destroyed => 1
    case Returned => 0
  }

  /** Main waits for the watchdog to be alive or, in join, for its exit. */
  predicate MainWaits(s: State) {
    (s.main.AwaitingAlive? && !s.alive) || (s.main.Joining? && !s.wd.Exited?)
  }

  /** A turn of main takes it one place on, unless it waits or has returned. */
  lemma MainMoves(s: State, created: bool)
    ensures var t := MainStep(s, created);
            MainLeft(t.main) == MainLeft(s.main) - if MainWaits(s) || s.main.Returned? then 0 else 1
  {
  }

  /** Nothing else moves it. */
  lemma OnlyMainMoves(s: State, a: Action, t: State)
    requires Next(s, a, t) && (s.killed || !a.MainAct?)
    ensures t.main == s.main
  {
    if !s.killed {
      match a
      case WatchdogAct(choice) => WatchdogLeavesMain(s, choice);
      case Deliver(signal) => DeliverLeavesMain(s, signal);
      case Raise(signal) =>
      case MainAct(_) =>
    }
  }

  lemma WatchdogLeavesMain(s: State, choice: Signal)
    ensures WatchdogStep(s, choice).main == s.main
  {
  }

  lemma DeliverLeavesMain(s: State, signal: Signal)
    ensures DeliverStep(s, signal).main == s.main
  {
    if signal.Hup? || signal !in s.pending || !Unblocked(s) {
    } else if s.phase == WaitForWatchdog {
    } else if signal.Int? && !s.ignoredInt {
    }
  }

  lemma MainTurn(s: State, a: Action, t: State)
    requires Next(s, a, t) && !s.killed
    ensures MainLeft(t.main) == MainLeft(s.main) - if !a.MainAct? || MainWaits(s) || s.main.Returned? then 0 else 1
  {
    if a.MainAct? {
      MainMoves(s, a.created);
    } else {
      OnlyMainMoves(s, a, t);
    }
  }

  /** How many turns of main a schedule holds from its i-th action to before its j-th. */
  function MainTurns(acts: seq<Action>, i: nat, j: nat): (n: nat)
    requires i <= j <= |acts|
  {
    if i == j then 0 else MainTurns(acts, i, j - 1) + if acts[j - 1].MainAct? then 1 else 0
  }

  /** Once its main loop is over, three turns take main to the join. */
  lemma {:induction false} MainReachesJoin(run: seq<State>, acts: seq<Action>, i: nat, j: nat)
    requires IsRun(run, acts) && i <= j < |run| && run[i].main.Running? && !run[j].killed
    ensures MainLeft(run[j].main) >= 7 - MainTurns(acts, i, j)
    ensures MainLeft(run[j].main) == 7 - MainTurns(acts, i, j) || run[j].main.Joining? || PastJoin(run[j].main)
    ensures MainTurns(acts, i, j) == 3 ==> run[j].main.Joining? && run[j].phase == WaitForWatchdog
    decreases j - i
  {
    RunKeeps(run, acts, j);
    if i < j {
      StaysAlive(run, acts, j - 1, j);
      MainReachesJoin(run, acts, i, j - 1);
      assert Next(run[j - 1], acts[j - 1], run[j - 1 + 1]);
      MainTurn(run[j - 1], acts[j - 1], run[j]);
    }
  }

  /** With the watchdog gone, every turn from the join on takes main one place on. */
  lemma {:induction false} MainFinishes(run: seq<State>, acts: seq<Action>, i: nat, j: nat)
    requires IsRun(run, acts) && i <= j < |run| && run[i].wd.Exited? && !run[j].killed
    requires run[i].main.Joining? || PastJoin(run[i].main)
    ensures var n := MainTurns(acts, i, j);
            MainLeft(run[j].main) == if n <= MainLeft(run[i].main) then MainLeft(run[i].main) - n else 0
    decreases j - i
  {
    if i < j {
      StaysAlive(run, acts, j - 1, j);
      MainFinishes(run, acts, i, j - 1);
      StaysExited(run, acts, i, j - 1);
      assert Next(run[j - 1], acts[j - 1], run[j - 1 + 1]);
      MainTurn(run[j - 1], acts[j - 1], run[j]);
    }
  }

  /** What each place past the join means for the exit phase. */
  lemma PlaceAndPhase(run: seq<State>, acts: seq<Action>, k: nat)
    requires IsRun(run, acts) && k < |run|
    ensures MainLeft(run[k].main) <= 2 ==> run[k].phase == OneThread || run[k].phase == Done
    ensures MainLeft(run[k].main) == 0 <==> run[k].phase == Done
    ensures MainLeft(run[k].main) <= 1 <==> run[k].freed
  {
    RunKeeps(run, acts, k);
  }

  lemma {:induction false} JoinedStays(run: seq<State>, acts: seq<Action>, i: nat, j: nat)
    requires IsRun(run, acts) && i <= j < |run| && !run[j].killed && (run[i].main.Joining? || PastJoin(run[i].main))
    ensures run[j].main.Joining? || PastJoin(run[j].main)
    decreases j - i
  {
    if i < j {
      StaysAlive(run, acts, j - 1, j);
      JoinedStays(run, acts, i, j - 1);
      assert Next(run[j - 1], acts[j - 1], run[j - 1 + 1]);
      MainTurn(run[j - 1], acts[j - 1], run[j]);
    }
  }

  /**
   The way out: in a process that is not cut short, once main is in join and the watchdog has
   had seven turns, main's next turn takes it past the join, its second sets ONE_THREAD, its
   third frees the run state, and after its fourth it has returned and the phase is DONE.
   */
  lemma ExitCompletes(run: seq<State>, acts: seq<Action>, i: nat, j: nat, k: nat)
    requires IsRun(run, acts) && i <= j <= k < |run| && !run[k].killed
    requires run[i].main.Joining? && Turns(acts, i, j) >= 7
    ensures var n := MainTurns(acts, j, k);
            && (n >= 1 ==> PastJoin(run[k].main))
            && (n >= 2 ==> run[k].phase == OneThread || run[k].phase == Done)
            && (n >= 3 ==> run[k].freed)
            && (n >= 4 ==> run[k].main.Returned? && run[k].phase == Done)
  {
    StaysAlive(run, acts, i, k);
    StaysAlive(run, acts, j, k);
    JoinCompletes(run, acts, i, j);
    JoinedStays(run, acts, i, j);
    MainFinishes(run, acts, j, k);
    PlaceAndPhase(run, acts, k);
  }

  // ------------------------------------------------------- a signal asks main to exit

  /** Watchdog turns left before it has asked main to exit. */
  function BeforeRequest(pc: WatchdogPc): nat {
    if pc.Unblock? then 2 else if pc.Request? then 1 else 0
  }

  /** A turn of a waiting watchdog takes the signal it is offered, and that one alone; without it, main's SIGHUP. */
  lemma SignalTaken(run: seq<State>, acts: seq<Action>, i: nat)
    requires IsRun(run, acts) && i < |acts| && !run[i].killed && run[i].wd.SigWait?
    requires acts[i].WatchdogAct?
    ensures acts[i].choice in run[i].pending ==> run[i + 1].wd.Unblock? && run[i + 1].wake == run[i].wake
    ensures acts[i].choice !in run[i].pending ==> (run[i + 1].wd.Unblock? <==> run[i].wake) && !run[i + 1].wake
    ensures run[i + 1].pending == run[i].pending - {acts[i].choice}
  {
    assert Next(run[i], acts[i], run[i + 1]);
    assert run[i + 1] == WatchdogStep(run[i], acts[i].choice);
  }

  lemma RequestStep(s: State, a: Action, t: State)
    requires Inv(s) && Next(s, a, t) && !s.killed && (s.exitRequest || s.wd.Unblock? || s.wd.Request?)
    ensures t.exitRequest || t.wd.Unblock? || t.wd.Request?
    ensures s.exitRequest ==> t.exitRequest
    ensures !s.exitRequest ==>
      t.exitRequest || BeforeRequest(t.wd) == BeforeRequest(s.wd) - if a.WatchdogAct? then 1 else 0
    ensures !s.exitRequest && t.exitRequest ==> a.WatchdogAct? && BeforeRequest(s.wd) == 1
  {
    if a.Deliver? {
      assert t == DeliverStep(s, a.signal);
    } else if a.WatchdogAct? {
      assert t == WatchdogStep(s, a.choice);
    } else if a.MainAct? {
      assert t == MainStep(s, a.created);
    }
  }

  /** Two turns after it has taken a signal the watchdog has asked main to exit, and not before. */
  lemma {:induction false} RequestFollows(run: seq<State>, acts: seq<Action>, i: nat, j: nat)
    requires IsRun(run, acts) && i <= j < |run| && !run[j].killed
    requires run[i].wd.Unblock? && !run[i].exitRequest
    ensures run[j].exitRequest <==> Turns(acts, i, j) >= 2
    ensures !run[j].exitRequest ==> BeforeRequest(run[j].wd) == 2 - Turns(acts, i, j)
    ensures run[j].exitRequest || run[j].wd.Unblock? || run[j].wd.Request?
    decreases j - i
  {
    if i < j {
      StaysAlive(run, acts, j - 1, j);
      RequestFollows(run, acts, i, j - 1);
      RunKeeps(run, acts, j - 1);
      assert Next(run[j - 1], acts[j - 1], run[j - 1 + 1]);
      RequestStep(run[j - 1], acts[j - 1], run[j]);
    }
  }

  /** The watchdog has unblocked the signals and not left, or main is past its own unblocking. */
  predicate Open(s: State) {
    ((s.wd.Request? || s.exitRequest) && !s.wd.Exited?) || MainLeft(s.main) <= 4
  }

  /** A raised signal other than SIGHUP reaches the handler exactly if it is delivered while a thread has it unblocked. */
  lemma HandlerReached(run: seq<State>, acts: seq<Action>, k: nat)
    requires IsRun(run, acts) && k < |acts| && !run[k].killed && acts[k].Deliver?
    ensures run[k + 1].pending
         == if !acts[k].signal.Hup? && Open(run[k]) then run[k].pending - {acts[k].signal} else run[k].pending
    ensures run[k + 1].pending == run[k].pending ==> run[k + 1] == run[k]
  {
    RunKeeps(run, acts, k);
    assert Next(run[k], acts[k], run[k + 1]);
    OpenFlags(run[k]);
    Delivered(run[k], acts[k].signal);
  }

  lemma Delivered(s: State, signal: Signal)
    ensures DeliverStep(s, signal).pending == if !signal.Hup? && Unblocked(s) then s.pending - {signal} else s.pending
    ensures DeliverStep(s, signal).pending == s.pending ==> DeliverStep(s, signal) == s
  {
    if !signal.Hup? && signal in s.pending && Unblocked(s) {
      DeliveredTaken(s, signal);
    } else {
      DeliveredIgnored(s, signal);
      WithoutAbsent(s.pending, signal);
    }
  }

  lemma DeliveredTaken(s: State, signal: Signal)
    requires !signal.Hup? && signal in s.pending && Unblocked(s)
    ensures DeliverStep(s, signal).pending == s.pending - {signal} && signal !in DeliverStep(s, signal).pending
  {
    if s.phase == WaitForWatchdog {
    } else if signal.Int? && !s.ignoredInt {
    }
  }

  lemma DeliveredIgnored(s: State, signal: Signal)
    requires signal.Hup? || signal !in s.pending || !Unblocked(s)
    ensures DeliverStep(s, signal) == s
  {
  }

  lemma WithoutAbsent(signals: set<Signal>, signal: Signal)
    ensures signal !in signals ==> signals - {signal} == signals
  {
  }

  lemma OpenFlags(s: State)
    requires Inv(s)
    ensures Open(s) <==> Unblocked(s)
  {
  }

  // ------------------------------------------------------- runs that are cut short

  /** The handler runs in a living process while the exit phase does not tell it to ignore the signal. */
  predicate Enters(s: State, a: Action) {
    && !s.killed && a.Deliver? && !a.signal.Hup? && a.signal in s.pending && Unblocked(s)
    && s.phase != WaitForWatchdog
  }

  /** How often the first `k` actions of a run enter the handler like that with SIGINT. */
  function Interrupts(run: seq<State>, acts: seq<Action>, k: nat): nat
    requires k <= |acts| && |run| == |acts| + 1
  {
    if k == 0 then 0
    else Interrupts(run, acts, k - 1) + if Enters(run[k - 1], acts[k - 1]) && acts[k - 1].signal.Int? then 1 else 0
  }

  /** And how often with another signal. */
  function Others(run: seq<State>, acts: seq<Action>, k: nat): nat
    requires k <= |acts| && |run| == |acts| + 1
  {
    if k == 0 then 0
    else Others(run, acts, k - 1) + if Enters(run[k - 1], acts[k - 1]) && !acts[k - 1].signal.Int? then 1 else 0
  }

  lemma HandlerKillsExactly(s: State, a: Action, t: State)
    requires Next(s, a, t) && !s.killed
    ensures t.killed <==> Enters(s, a) && (a.signal.Int? ==> s.ignoredInt)
    ensures t.ignoredInt <==> s.ignoredInt || (Enters(s, a) && a.signal.Int?)
  {
    if a.Deliver? {
      assert t == DeliverStep(s, a.signal);
    } else if a.WatchdogAct? {
      assert t == WatchdogStep(s, a.choice);
    }
  }

  /**
   Up to any point of any run the process has been cut short exactly if the handler was
   entered outside WAIT_FOR_WD for a second SIGINT or for any other signal.
   */
  lemma {:induction false} CutShortExactly(run: seq<State>, acts: seq<Action>, k: nat)
    requires IsRun(run, acts) && k < |run|
    ensures run[k].killed <==> Interrupts(run, acts, k) >= 2 || Others(run, acts, k) >= 1
    ensures run[k].ignoredInt <==> Interrupts(run, acts, k) >= 1
  {
    if k > 0 {
      CutShortExactly(run, acts, k - 1);
      var s, a, t := run[k - 1], acts[k - 1], run[k];
      assert Next(s, a, run[k - 1 + 1]);
      if s.killed {
        assert t == s && !Enters(s, a);
      } else {
        HandlerKillsExactly(s, a, t);
      }
    }
  }

  /** Where a process that was cut short stood. */
  predicate CutLate(s: State) {
    if s.phase == PhaseNone then s.wd.Request? || s.wd.Quit? || s.wd.Poll? || s.wd.Sleep?
    else s.phase != WaitForWatchdog
  }

  lemma CutLateStep(s: State, a: Action, t: State)
    requires Inv(s) && Next(s, a, t) && (s.killed ==> CutLate(s)) && t.killed
    ensures CutLate(t)
  {
    if !s.killed {
      HandlerKillsExactly(s, a, t);
    }
  }

  /**
   No run is cut short before the watchdog has taken a first signal and made it a request
   to exit in good order, nor while main is on its way to the join or in it.
   */
  lemma {:induction false} FirstSignalIsOrderly(run: seq<State>, acts: seq<Action>, k: nat)
    requires IsRun(run, acts) && k < |run| && run[k].killed
    ensures CutLate(run[k])
  {
    if k > 0 {
      RunKeeps(run, acts, k - 1);
      assert Next(run[k - 1], acts[k - 1], run[k - 1 + 1]);
      if run[k - 1].killed {
        FirstSignalIsOrderly(run, acts, k - 1);
      }
      CutLateStep(run[k - 1], acts[k - 1], run[k]);
    }
  }
}
