/**
 VALUE_QUEUE_RT_C (kvutils/kvu_value_queue.cpp): a queue whose consumer never waits
 for the lock below a size limit. A pop that finds the lock taken is only counted, and
 a later `front` carries it out.

 The machine interleaves one producer calling `push_back` and one consumer repeating
 is_empty / front / pop_front at every access to the lock, the deque and the counter.
 `pushed` and `consumed` record what went in and what the consumer was handed, `bad`
 whether `front` or `pop_front` was ever applied to an empty deque.
 */
module ValueQueue {

  type Item = (int, real)

  /** size_t arithmetic is modulo this. */
  const SIZE_T := 0x1_0000_0000_0000_0000

  datatype Owner = Free | ByProducer | ByConsumer

  datatype ProducerPc = PIdle | PHolds(item: Item) | PPushed

  datatype ConsumerPc =
    | AskEmpty
    | EmptyBusy
    | EmptyWait
    | EmptyHolds
    | AskFront
    | FrontBusy
    | FrontWait
    | FrontHolds
    | AskPop
    | PopBusy
    | PopHolds

  datatype State = State(
    cmds: seq<Item>, pending: nat, lock: Owner, limit: nat,
    prod: ProducerPc, cons: ConsumerPc, pushed: seq<Item>, consumed: seq<Item>, bad: bool)

  datatype Action = Produce(item: Item) | Consume

  /** `push_back`: take the lock, append, release. The deque cannot outgrow size_t. */
  function ProducerStep(s: State, item: Item): State {
    match s.prod
    case PIdle => if s.lock.Free? then s.(lock := ByProducer, prod := PHolds(item)) else s
    case PHolds(i) =>
      if |s.cmds| + 1 < SIZE_T then s.(cmds := s.cmds + [i], pushed := s.pushed + [i], prod := PPushed) else s
    case PPushed => s.(prod := PIdle, lock := Free)
  }

  /** What `is_empty` answers for the size it saw, with the wrap-around of unsigned subtraction. */
  predicate Answer(size: nat, pending: nat) {
    (size - pending) % SIZE_T == 0
  }

  /** The loop in `front` that carries out counted pops. */
  function PopPending(cmds: seq<Item>, pending: nat): (r: (seq<Item>, nat))
    ensures var k := if pending <= |cmds| then pending else |cmds|;
            r == (cmds[k..], pending - k)
  {
    if pending > 0 && |cmds| > 0 then PopPending(cmds[1..], pending - 1) else (cmds, pending)
  }

  /** `is_empty` without the lock: it waits when there are too many items, else it answers. */
  function EmptyUnlocked(s: State, answer: bool): State {
    if |s.cmds| >= s.limit then s.(cons := EmptyWait) else s.(cons := if answer then AskEmpty else AskFront)
  }

  /** `is_empty` with the lock. */
  function EmptyLocked(s: State, answer: bool): State {
    s.(lock := Free, cons := if answer then AskEmpty else AskFront)
  }

  /** One step of the consumer. */
  function ConsumerStep(s: State): State {
    match s.cons
    case AskEmpty =>
      if s.lock.Free? then s.(lock := ByConsumer, cons := EmptyHolds) else s.(cons := EmptyBusy)
    case EmptyBusy => EmptyUnlocked(s, Answer(0, s.pending))
    case EmptyWait => if s.lock.Free? then s.(lock := ByConsumer, cons := EmptyHolds) else s
    case EmptyHolds => EmptyLocked(s, Answer(|s.cmds|, s.pending))
    case AskFront =>
      if s.lock.Free? then s.(lock := ByConsumer, cons := FrontHolds) else s.(cons := FrontBusy)
    case FrontBusy => s.(cons := if |s.cmds| >= s.limit then FrontWait else AskEmpty)
    case FrontWait => if s.lock.Free? then s.(lock := ByConsumer, cons := FrontHolds) else s
    case FrontHolds =>
      var (cmds, pending) := PopPending(s.cmds, s.pending);
      if cmds == [] then s.(cmds := cmds, pending := pending, bad := true, lock := Free, cons := AskPop)
      else s.(cmds := cmds, pending := pending, consumed := s.consumed + [cmds[0]], lock := Free, cons := AskPop)
    case AskPop =>
      if s.lock.Free? then s.(lock := ByConsumer, cons := PopHolds) else s.(cons := PopBusy)
    case PopBusy => s.(pending := if s.pending != |s.cmds| then s.pending + 1 else s.pending, cons := AskEmpty)
    case PopHolds =>
      if s.cmds == [] then s.(bad := true, lock := Free, cons := AskEmpty)
      else s.(cmds := s.cmds[1..], lock := Free, cons := AskEmpty)
  }

  function Step(s: State, a: Action): State {
    match a
    case Produce(item) => ProducerStep(s, item)
    case Consume => ConsumerStep(s)
  }

  function Init(limit: nat): State {
    State([], 0, Free, limit, PIdle, AskEmpty, [], [], false)
  }

  // --- The invariant ---------------------------------------------------------

  predicate Popping(pc: ConsumerPc) {
    pc.AskPop? || pc.PopBusy? || pc.PopHolds?
  }

  /** Items at the front of the deque that the consumer is already done with. */
  function Done(s: State): nat {
    s.pending + if Popping(s.cons) then 1 else 0
  }

  /** A push is under way, or one has been completed since the item at the front was handed out. */
  predicate Contended(s: State) {
    |s.cmds| >= 2 || (|s.cmds| == 1 && s.prod.PHolds?)
  }

  predicate LockOk(s: State) {
    && (s.lock.ByProducer? <==> !s.prod.PIdle?)
    && (s.lock.ByConsumer? <==> s.cons.EmptyHolds? || s.cons.FrontHolds? || s.cons.PopHolds?)
  }

  predicate Inv(s: State) {
    && LockOk(s) && !s.bad
    && |s.cmds| < SIZE_T
    && Done(s) <= |s.cmds|
    && s.consumed + s.cmds[Done(s)..] == s.pushed
    && s.pending <= 1
    && (s.pending == 1 ==> Contended(s) && !Popping(s.cons))
    && (s.cons.PopBusy? || (s.cons.AskPop? && !s.prod.PIdle?) ==> Contended(s))
    && (s.cons.AskFront? || s.cons.FrontBusy? || s.cons.FrontWait? || s.cons.FrontHolds? ==> |s.cmds| > 0)
  }

  lemma ProducerKeeps(s: State, item: Item)
    requires Inv(s)
    ensures Inv(ProducerStep(s, item))
  {
    if s.prod.PHolds? {
      assert (s.cmds + [s.prod.item])[Done(s)..] == s.cmds[Done(s)..] + [s.prod.item];
    }
  }

  /** Below the wrap-around, the answer is right for the size given. */
  lemma AnswerMeaning(size: nat, pending: nat)
    requires size < SIZE_T && pending <= 1
    ensures Answer(size, pending) <==> size == pending
  {
  }

  lemma FrontKeeps(s: State)
    requires Inv(s) && s.cons.FrontHolds?
    ensures Inv(ConsumerStep(s))
  {
    assert |s.cmds| > s.pending;
    var cmds := s.cmds[s.pending..];
    assert cmds == [cmds[0]] + cmds[1..];
    assert s.consumed + cmds == s.consumed + [cmds[0]] + cmds[1..];
  }

  lemma PopKeeps(s: State)
    requires Inv(s) && Popping(s.cons)
    ensures Inv(ConsumerStep(s))
  {
    if s.cons.PopHolds? { assert s.cmds[1..][0..] == s.cmds[1..]; }
  }

  lemma EmptyKeeps(s: State)
    requires Inv(s)
    requires s.cons.EmptyHolds? || s.cons.EmptyBusy?
    ensures Inv(ConsumerStep(s))
  {
    AnswerMeaning(0, s.pending);
    AnswerMeaning(|s.cmds|, s.pending);
    if s.cons.EmptyHolds? {
      LockedKeeps(s, Answer(|s.cmds|, s.pending));
    } else {
      UnlockedKeeps(s, Answer(0, s.pending));
    }
  }

  lemma LockedKeeps(s: State, answer: bool)
    requires Inv(s) && s.cons.EmptyHolds? && (answer <==> |s.cmds| == s.pending)
    ensures Inv(EmptyLocked(s, answer))
  {
  }

  lemma UnlockedKeeps(s: State, answer: bool)
    requires Inv(s) && s.cons.EmptyBusy? && (answer <==> s.pending == 0)
    ensures Inv(EmptyUnlocked(s, answer))
  {
  }

  lemma AskKeeps(s: State)
    requires Inv(s) && !Popping(s.cons) && !s.cons.FrontHolds? && !s.cons.EmptyHolds? && !s.cons.EmptyBusy?
    ensures Inv(ConsumerStep(s))
  {
  }

  lemma StepKeeps(s: State, a: Action)
    requires Inv(s)
    ensures Inv(Step(s, a))
  {
    if a.Produce? { ProducerKeeps(s, a.item); }
    else if Popping(s.cons) { PopKeeps(s); }
    else if s.cons.FrontHolds? { FrontKeeps(s); }
    else if s.cons.EmptyHolds? || s.cons.EmptyBusy? { EmptyKeeps(s); }
    else { AskKeeps(s); }
  }

  // --- Whole runs ------------------------------------------------------------

  /** The state after a schedule: any interleaving of producer and consumer steps. */
  function Run(limit: nat, acts: seq<Action>): State {
    if acts == [] then Init(limit) else Step(Run(limit, acts[..|acts| - 1]), acts[|acts| - 1])
  }

  lemma {:induction false} RunKeeps(limit: nat, acts: seq<Action>)
    ensures Inv(Run(limit, acts))
  {
    if acts != [] {
      RunKeeps(limit, acts[..|acts| - 1]);
      StepKeeps(Run(limit, acts[..|acts| - 1]), acts[|acts| - 1]);
    }
  }

  /**
   In every interleaving nothing is lost, repeated or reordered: what the consumer was
   handed, followed by the deque without the items it is done with, is what was pushed.
   */
  lemma NothingLost(limit: nat, acts: seq<Action>)
    ensures var s := Run(limit, acts);
            && Done(s) <= |s.cmds| && s.consumed + s.cmds[Done(s)..] == s.pushed
            && s.consumed <= s.pushed
  {
    RunKeeps(limit, acts);
  }

  /** At most one pop is ever outstanding, and then two items are stored once the lock is free. */
  lemma AtMostOnePending(limit: nat, acts: seq<Action>)
    ensures var s := Run(limit, acts);
            s.pending <= 1 && (s.pending == 1 && s.lock.Free? ==> |s.cmds| >= 2)
  {
    RunKeeps(limit, acts);
  }

  /** No schedule makes `front` or `pop_front` touch an empty deque, whatever `is_empty` answered. */
  lemma NeverTouchesEmpty(limit: nat, acts: seq<Action>)
    ensures var s := Run(limit, acts);
            !s.bad && (s.cons.FrontHolds? ==> |s.cmds| > s.pending)
  {
    RunKeeps(limit, acts);
  }

  /**
   What an answer of `is_empty` is worth. Under the lock "empty" means everything pushed was
   handed over. Without it, below the size limit, the wrap-around answers "not empty" exactly
   if a pop is pending; at the limit the consumer waits for the lock. "Not empty" means an
   item is there or the producer is about to add one.
   */
  lemma AnswersMean(limit: nat, acts: seq<Action>)
    ensures var s := Run(limit, acts);
            var t := Step(s, Consume);
            && (s.cons.EmptyHolds? ==> if s.consumed == s.pushed then t.cons.AskEmpty? else t.cons.AskFront?)
            && (s.cons.EmptyBusy? && |s.cmds| >= s.limit ==> t.cons.EmptyWait?)
            && (s.cons.EmptyBusy? && |s.cmds| < s.limit ==> if s.pending == 1 then t.cons.AskFront? else t.cons.AskEmpty?)
            && (s.cons.AskFront? ==> s.consumed < s.pushed || s.prod.PHolds?)
  {
    RunKeeps(limit, acts);
    var s := Run(limit, acts);
    AnswerMeaning(|s.cmds|, s.pending);
    AnswerMeaning(0, s.pending);
  }

  // --- What the calls do -----------------------------------------------------

  /**
   In every interleaving `front` with the lock hands out the item that was pushed next after
   those handed out so far, having carried out every counted pop; then the consumer pops.
   */
  lemma FrontDelivers(limit: nat, acts: seq<Action>)
    requires Run(limit, acts).cons.FrontHolds?
    ensures var s := Run(limit, acts);
            var t := Step(s, Consume);
            && |s.consumed| < |s.pushed| && t.consumed == s.consumed + [s.pushed[|s.consumed|]]
            && t.pending == 0 && t.cmds == s.cmds[s.pending..]
            && t.cons.AskPop? && t.lock.Free? && t.pushed == s.pushed && t.prod == s.prod
  {
    RunKeeps(limit, acts);
    var s := Run(limit, acts);
    assert s.pushed[|s.consumed|] == s.cmds[s.pending..][0];
  }

  /** A pop takes the item handed out off the deque, or counts itself when the lock is taken. */
  lemma PopTakes(limit: nat, acts: seq<Action>)
    ensures var s := Run(limit, acts);
            var t := Step(s, Consume);
            && (s.cons.PopHolds? ==> s.pending == 0 && s.cmds != [] && s.consumed != []
                                     && s.cmds[0] == s.consumed[|s.consumed| - 1]
                                     && t == s.(cmds := s.cmds[1..], lock := Free, cons := AskEmpty))
            && (s.cons.PopBusy? ==> t == s.(pending := 1, cons := AskEmpty))
  {
    RunKeeps(limit, acts);
    HandedOut(limit, acts);
  }

  /** While a pop is to be made, the item handed out last is at the front of the deque. */
  predicate AtFront(s: State) {
    Popping(s.cons) ==> s.pending == 0 && s.cmds != [] && s.consumed != [] && s.cmds[0] == s.consumed[|s.consumed| - 1]
  }

  lemma {:induction false} HandedOut(limit: nat, acts: seq<Action>)
    ensures AtFront(Run(limit, acts))
  {
    if acts != [] {
      var before, a := acts[..|acts| - 1], acts[|acts| - 1];
      HandedOut(limit, before);
      RunKeeps(limit, before);
      HandedOutStep(Run(limit, before), a);
    }
  }

  lemma HandedOutStep(s: State, a: Action)
    requires Inv(s) && AtFront(s)
    ensures AtFront(Step(s, a))
  {
    if a.Consume? && s.cons.FrontHolds? {
      assert s.cmds[s.pending..] != [];
    }
  }

  /** A call that finds the lock free goes on with it, one that does not goes on without or, where it waits, stays. */
  lemma LockTried(limit: nat, acts: seq<Action>)
    ensures var s := Run(limit, acts);
            var t := Step(s, Consume);
            && (s.cons.AskEmpty? || s.cons.EmptyWait? ==> if s.lock.Free? then t.cons.EmptyHolds? else t.cons == if s.cons.AskEmpty? then EmptyBusy else EmptyWait)
            && (s.cons.AskFront? || s.cons.FrontWait? ==> if s.lock.Free? then t.cons.FrontHolds? else t.cons == if s.cons.AskFront? then FrontBusy else FrontWait)
            && (s.cons.AskPop? ==> if s.lock.Free? then t.cons.PopHolds? else t.cons.PopBusy?)
            && (s.cons.FrontBusy? ==> t == s.(cons := if |s.cmds| >= s.limit then FrontWait else AskEmpty))
  {
  }

  /** Producer steps that follow each other on a free lock push the item and give the lock back. */
  lemma PushCompletes(limit: nat, acts: seq<Action>, item: Item)
    requires Run(limit, acts).prod.PIdle? && Run(limit, acts).lock.Free? && |Run(limit, acts).cmds| + 1 < SIZE_T
    ensures var s := Run(limit, acts);
            Run(limit, acts + [Produce(item), Produce(item), Produce(item)])
            == s.(cmds := s.cmds + [item], pushed := s.pushed + [item])
  {
    var p := Produce(item);
    RunSnoc(limit, acts, p);
    RunSnoc(limit, acts + [p], p);
    RunSnoc(limit, acts + [p] + [p], p);
    assert acts + [p, p, p] == acts + [p] + [p] + [p];
  }

  lemma RunSnoc(limit: nat, acts: seq<Action>, a: Action)
    ensures Run(limit, acts + [a]) == Step(Run(limit, acts), a)
  {
    assert (acts + [a])[..|acts + [a]| - 1] == acts;
  }

  // --- The consumer catches up -----------------------------------------------

  /** Consumer steps left before it holds the lock in `front`, at most. */
  function StepsToFront(pc: ConsumerPc): nat {
    match pc
    case FrontHolds => 1
    case AskFront => 2
    case FrontWait => 2
    case EmptyHolds => 3
    case AskEmpty => 4
    case EmptyWait => 4
    case PopHolds => 5
    case PopBusy => 5
    case EmptyBusy => 5
    case FrontBusy => 5
    case AskPop => 6
  }

  function Behind(s: State): int {
    |s.pushed| - |s.consumed|
  }

  function CatchUp(s: State): int {
    7 * Behind(s) + StepsToFront(s.cons)
  }

  /** With the producer idle, every consumer step that is not the last brings it nearer to having everything. */
  lemma ConsumerAdvances(s: State)
    requires Inv(s) && s.prod.PIdle?
    ensures var t := ConsumerStep(s);
            && t.prod.PIdle? && t.pushed == s.pushed
            && (Behind(s) == 0 ==> Behind(t) == 0)
            && (Behind(s) > 0 ==> Behind(t) == 0 || CatchUp(t) < CatchUp(s))
  {
    BehindIs(s);
    if s.cons.EmptyHolds? {
      AnswerMeaning(|s.cmds|, s.pending);
    } else if s.cons.EmptyBusy? {
      AnswerMeaning(0, s.pending);
    }
  }

  lemma BehindIs(s: State)
    requires Inv(s)
    ensures Behind(s) == |s.cmds| - Done(s) >= 0
  {
  }

  function Consumes(n: nat): (acts: seq<Action>)
    ensures |acts| == n
  {
    if n == 0 then [] else Consumes(n - 1) + [Consume]
  }

  lemma {:induction false} Drain(limit: nat, acts: seq<Action>, n: nat)
    requires Run(limit, acts).prod.PIdle?
    ensures var s := Run(limit, acts);
            var t := Run(limit, acts + Consumes(n));
            && t.prod.PIdle? && t.pushed == s.pushed
            && (Behind(t) == 0 || CatchUp(t) <= CatchUp(s) - n)
  {
    if n == 0 {
      assert acts + Consumes(0) == acts;
    } else {
      Drain(limit, acts, n - 1);
      assert acts + Consumes(n) == acts + Consumes(n - 1) + [Consume];
      RunSnoc(limit, acts + Consumes(n - 1), Consume);
      RunKeeps(limit, acts + Consumes(n - 1));
      BehindIs(Run(limit, acts + Consumes(n - 1)));
      ConsumerAdvances(Run(limit, acts + Consumes(n - 1)));
    }
  }

  /** With the producer idle, seven consumer steps for each item outstanding and six more hand everything out. */
  lemma ConsumerCatchesUp(limit: nat, acts: seq<Action>, n: nat)
    requires Run(limit, acts).prod.PIdle? && n >= 7 * Behind(Run(limit, acts)) + 6
    ensures var t := Run(limit, acts + Consumes(n)); t.consumed == t.pushed == Run(limit, acts).pushed
  {
    Drain(limit, acts, n);
    RunKeeps(limit, acts + Consumes(n));
    BehindIs(Run(limit, acts + Consumes(n)));
  }
}
