/** No wake-up of queue.c is lost.  A task about to wait suspends the scheduler and locks the queue;
    interrupts may still send and receive, but only count what they did in the lock, and unlocking
    makes up for it.  Every critical section is one step and interrupts may come between any two. */
module QueueLock {

  /** Where the task that has locked the queue has got to, if one has. */
  datatype Locker = Nobody | Locked | SawEmpty | SawFull | HalfUnlocked

  /** The waiting lists hold tasks most urgent first.  `wokenR` and `wokenS` are the receivers and
      senders taken off them that have not yet looked at the queue again. */
  datatype Queue = Queue(
    messages: nat,
    length: nat,
    txLock: int,
    rxLock: int,
    recvWait: seq<nat>,
    sendWait: seq<nat>,
    wokenR: multiset<nat>,
    wokenS: multiset<nat>,
    locker: Locker)

  const UNLOCKED: int := -1
  const INT8_MAX: int := 127

  /** A signed 8-bit counter goes round. */
  function Incremented(lock: int): int {
    if lock >= INT8_MAX then -128 else lock + 1
  }

  // ---------------------------------------------------------------- taking tasks off the lists

  function WakeReceiver(q: Queue): Queue {
    if q.recvWait == [] then q
    else q.(recvWait := q.recvWait[1..], wokenR := q.wokenR + multiset{q.recvWait[0]})
  }

  function WakeSender(q: Queue): Queue {
    if q.sendWait == [] then q
    else q.(sendWait := q.sendWait[1..], wokenS := q.wokenS + multiset{q.sendWait[0]})
  }

  function WakeReceivers(q: Queue, n: int): Queue
    decreases n
  {
    if n <= 0 || q.recvWait == [] then q else WakeReceivers(WakeReceiver(q), n - 1)
  }

  function WakeSenders(q: Queue, n: int): Queue
    decreases n
  {
    if n <= 0 || q.sendWait == [] then q else WakeSenders(WakeSender(q), n - 1)
  }

  // ---------------------------------------------------------------- critical sections of tasks

  /** The head of the loop of a receiving, peeking or sending task. */
  function TaskReceive(q: Queue, t: nat): Queue {
    var q1 := q.(wokenR := q.wokenR - multiset{t});
    if q.messages > 0 then WakeSender(q1.(messages := q.messages - 1)) else q1
  }

  function TaskPeek(q: Queue, t: nat): Queue {
    var q1 := q.(wokenR := q.wokenR - multiset{t});
    if q.messages > 0 then WakeReceiver(q1) else q1
  }

  function TaskSend(q: Queue, t: nat): Queue {
    var q1 := q.(wokenS := q.wokenS - multiset{t});
    if q.messages < q.length then WakeReceiver(q1.(messages := q.messages + 1)) else q1
  }

  /** An overwrite of a queue of length 1 leaves one message and wakes a receiver. */
  function Overwritten(q: Queue): Queue {
    if q.messages > 0 then q else q.(messages := 1)
  }

  function TaskOverwrite(q: Queue): Queue {
    WakeReceiver(Overwritten(q))
  }

  function Lock(q: Queue): Queue {
    q.(txLock := if q.txLock == UNLOCKED then 0 else q.txLock,
       rxLock := if q.rxLock == UNLOCKED then 0 else q.rxLock, locker := Locked)
  }

  function LookEmpty(q: Queue): Queue {
    if q.messages == 0 then q.(locker := SawEmpty) else q
  }

  function LookFull(q: Queue): Queue {
    if q.messages == q.length then q.(locker := SawFull) else q
  }

  function Inserted(w: seq<nat>, t: nat, i: nat): seq<nat> {
    if i <= |w| then w[..i] + [t] + w[i..] else w + [t]
  }

  /** The locker puts itself on a waiting list, at the place its priority gives it. */
  function PlaceReceiver(q: Queue, t: nat, i: nat): Queue {
    q.(recvWait := Inserted(q.recvWait, t, i), locker := Locked)
  }

  function PlaceSender(q: Queue, t: nat, i: nat): Queue {
    q.(sendWait := Inserted(q.sendWait, t, i), locker := Locked)
  }

  /** The two critical sections of unlocking. */
  function UnlockTx(q: Queue): Queue {
    WakeReceivers(q, q.txLock).(txLock := UNLOCKED, locker := HalfUnlocked)
  }

  function UnlockRx(q: Queue): Queue {
    WakeSenders(q, q.rxLock).(rxLock := UNLOCKED, locker := Nobody)
  }

  // ---------------------------------------------------------------- interrupts

  function IsrSend(q: Queue): Queue {
    if q.messages < q.length then
      var q1 := q.(messages := q.messages + 1);
      if q.txLock == UNLOCKED then WakeReceiver(q1) else q1.(txLock := Incremented(q.txLock))
    else q
  }

  function IsrOverwrite(q: Queue): Queue {
    var q1 := Overwritten(q);
    if q.txLock == UNLOCKED then WakeReceiver(q1) else q1.(txLock := Incremented(q.txLock))
  }

  function IsrReceive(q: Queue): Queue {
    if q.messages > 0 then
      var q1 := q.(messages := q.messages - 1);
      if q.rxLock == UNLOCKED then WakeSender(q1) else q1.(rxLock := Incremented(q.rxLock))
    else q
  }

  /** The tick takes a task whose wait has timed out off its list. */
  function Removed(w: seq<nat>, i: nat): seq<nat> {
    if i < |w| then w[..i] + w[i + 1..] else w
  }

  // ---------------------------------------------------------------- steps

  datatype Step =
    | Receives(t: nat) | Peeks(t: nat) | Sends(t: nat) | Overwrites
    | Locks | LooksEmpty | LooksFull
    | WaitsToReceive(t: nat, place: nat) | WaitsToSend(t: nat, place: nat)
    | UnlocksTx | UnlocksRx
    | InterruptSends | InterruptOverwrites | InterruptReceives
    | ReceiverTimesOut(i: nat) | SenderTimesOut(i: nat)

  /** While the queue is locked the scheduler is suspended, so only the locker and interrupts act.
      The interrupts keep to the bound that the kernel asserts: at most 127 per lock. */
  predicate Possible(q: Queue, s: Step) {
    match s
    case Receives(_) => q.locker == Nobody
    case Peeks(_) => q.locker == Nobody
    case Sends(_) => q.locker == Nobody
    case Overwrites => q.locker == Nobody && q.length == 1
    case Locks => q.locker == Nobody
    case LooksEmpty => q.locker == Locked
    case LooksFull => q.locker == Locked
    case WaitsToReceive(_, _) => q.locker == SawEmpty
    case WaitsToSend(_, _) => q.locker == SawFull
    case UnlocksTx => q.locker == Locked
    case UnlocksRx => q.locker == HalfUnlocked
    case InterruptSends => q.txLock != INT8_MAX
    case InterruptOverwrites => q.length == 1 && q.txLock != INT8_MAX
    case InterruptReceives => q.rxLock != INT8_MAX
    case _ => true
  }

  function Apply(q: Queue, s: Step): Queue {
    match s
    case Receives(t) => TaskReceive(q, t)
    case Peeks(t) => TaskPeek(q, t)
    case Sends(t) => TaskSend(q, t)
    case Overwrites => TaskOverwrite(q)
    case Locks => Lock(q)
    case LooksEmpty => LookEmpty(q)
    case LooksFull => LookFull(q)
    case WaitsToReceive(t, i) => PlaceReceiver(q, t, i)
    case WaitsToSend(t, i) => PlaceSender(q, t, i)
    case UnlocksTx => UnlockTx(q)
    case UnlocksRx => UnlockRx(q)
    case InterruptSends => IsrSend(q)
    case InterruptOverwrites => IsrOverwrite(q)
    case InterruptReceives => IsrReceive(q)
    case ReceiverTimesOut(i) => q.(recvWait := Removed(q.recvWait, i))
    case SenderTimesOut(i) => q.(sendWait := Removed(q.sendWait, i))
  }

  // ---------------------------------------------------------------- the invariant

  /** What a lock stands for: messages not yet announced. */
  function Owed(lock: int): nat {
    if lock > 0 then lock else 0
  }

  /** While a receiver waits, every message is announced to a receiver on its way, or owed. */
  predicate ReceiversServed(q: Queue) {
    q.recvWait != [] ==> q.messages <= |q.wokenR| + Owed(q.txLock)
  }

  /** While a sender waits, every free space is. */
  predicate SendersServed(q: Queue) {
    q.sendWait != [] ==> q.length - q.messages <= |q.wokenS| + Owed(q.rxLock)
  }

  /** A locker that saw the queue empty is owed all there is now; one that saw it full, all space. */
  predicate LockerServed(q: Queue) {
    && (q.locker == SawEmpty ==> q.messages <= Owed(q.txLock))
    && (q.locker == SawFull ==> q.length - q.messages <= Owed(q.rxLock))
  }

  predicate LocksFit(q: Queue) {
    && -1 <= q.txLock <= INT8_MAX && -1 <= q.rxLock <= INT8_MAX && q.messages <= q.length
    && (q.txLock == UNLOCKED <==> q.locker == Nobody || q.locker == HalfUnlocked)
    && (q.rxLock == UNLOCKED <==> q.locker == Nobody)
  }

  predicate Inv(q: Queue) {
    ReceiversServed(q) && SendersServed(q) && LockerServed(q) && LocksFit(q)
  }

  // ---------------------------------------------------------------- every step keeps it

  /** Unlocking turns what is owed into tasks woken, as far as there are tasks. */
  lemma {:induction false} WakeReceiversMeans(q: Queue, n: int)
    ensures var q' := WakeReceivers(q, n);
            && q' == q.(recvWait := q'.recvWait, wokenR := q'.wokenR)
            && |q'.wokenR| >= |q.wokenR|
            && (q'.recvWait == [] || |q'.wokenR| == |q.wokenR| + Owed(n))
            && (q.recvWait == [] ==> q'.recvWait == [])
    decreases n
  {
    if n > 0 && q.recvWait != [] {
      WakeReceiversMeans(WakeReceiver(q), n - 1);
    }
  }

  lemma {:induction false} WakeSendersMeans(q: Queue, n: int)
    ensures var q' := WakeSenders(q, n);
            && q' == q.(sendWait := q'.sendWait, wokenS := q'.wokenS)
            && |q'.wokenS| >= |q.wokenS|
            && (q'.sendWait == [] || |q'.wokenS| == |q.wokenS| + Owed(n))
            && (q.sendWait == [] ==> q'.sendWait == [])
    decreases n
  {
    if n > 0 && q.sendWait != [] {
      WakeSendersMeans(WakeSender(q), n - 1);
    }
  }

  lemma TaskStepsKeep(q: Queue, t: nat)
    requires Inv(q) && q.locker == Nobody
    ensures Inv(TaskReceive(q, t)) && Inv(TaskSend(q, t))
  {
  }

  lemma PeekKeeps(q: Queue, t: nat)
    requires Inv(q) && q.locker == Nobody
    ensures Inv(TaskPeek(q, t))
  {
  }

  lemma InterruptsKeep(q: Queue)
    requires Inv(q)
    ensures q.txLock != INT8_MAX ==> Inv(IsrSend(q))
    ensures q.rxLock != INT8_MAX ==> Inv(IsrReceive(q))
  {
  }

  lemma OverwritesKeep(q: Queue)
    requires Inv(q) && q.length == 1
    ensures q.locker == Nobody ==> Inv(TaskOverwrite(q))
    ensures q.txLock != INT8_MAX ==> Inv(IsrOverwrite(q))
  {
  }

  lemma LockerKeeps(q: Queue, t: nat, i: nat)
    requires Inv(q)
    ensures q.locker == Nobody ==> Inv(Lock(q))
    ensures q.locker == Locked ==> Inv(LookEmpty(q)) && Inv(LookFull(q))
    ensures q.locker == SawEmpty ==> Inv(PlaceReceiver(q, t, i))
    ensures q.locker == SawFull ==> Inv(PlaceSender(q, t, i))
  {
  }

  lemma UnlockKeeps(q: Queue)
    requires Inv(q)
    ensures q.locker == Locked ==> Inv(UnlockTx(q))
    ensures q.locker == HalfUnlocked ==> Inv(UnlockRx(q))
  {
    WakeReceiversMeans(q, q.txLock);
    WakeSendersMeans(q, q.rxLock);
    hide WakeReceivers, WakeSenders;
  }

  lemma StepKeeps(q: Queue, s: Step)
    requires Inv(q) && Possible(q, s)
    ensures Inv(Apply(q, s)) && Apply(q, s).length == q.length
  {
    hide TaskReceive, TaskPeek, TaskSend, TaskOverwrite, IsrSend, IsrOverwrite, IsrReceive, UnlockTx, UnlockRx;
    match s
    case Receives(t) => TaskStepsKeep(q, t); LengthKept(q, t);
    case Peeks(t) => PeekKeeps(q, t); LengthKept(q, t);
    case Sends(t) => TaskStepsKeep(q, t); LengthKept(q, t);
    case Overwrites => OverwritesKeep(q); LengthKeptOnce(q);
    case Locks => LockerKeeps(q, 0, 0);
    case LooksEmpty => LockerKeeps(q, 0, 0);
    case LooksFull => LockerKeeps(q, 0, 0);
    case WaitsToReceive(t, i) => LockerKeeps(q, t, i);
    case WaitsToSend(t, i) => LockerKeeps(q, t, i);
    case UnlocksTx => UnlockKeeps(q); LengthKeptUnlocking(q);
    case UnlocksRx => UnlockKeeps(q); LengthKeptUnlocking(q);
    case InterruptSends => InterruptsKeep(q); LengthKeptOnce(q);
    case InterruptOverwrites => OverwritesKeep(q); LengthKeptOnce(q);
    case InterruptReceives => InterruptsKeep(q); LengthKeptOnce(q);
    case ReceiverTimesOut(i) =>
    case SenderTimesOut(i) =>
  }

  lemma LengthKept(q: Queue, t: nat)
    ensures TaskReceive(q, t).length == q.length && TaskPeek(q, t).length == q.length
    ensures TaskSend(q, t).length == q.length
  {
  }

  lemma LengthKeptOnce(q: Queue)
    ensures TaskOverwrite(q).length == q.length && IsrOverwrite(q).length == q.length
    ensures IsrSend(q).length == q.length && IsrReceive(q).length == q.length
  {
  }

  lemma LengthKeptUnlocking(q: Queue)
    ensures UnlockTx(q).length == q.length && UnlockRx(q).length == q.length
  {
    hide WakeReceivers, WakeSenders;
    WakeReceiversMeans(q, q.txLock);
    WakeSendersMeans(q, q.rxLock);
  }

  // ---------------------------------------------------------------- whole runs

  predicate PossibleRun(q: Queue, ss: seq<Step>)
    decreases |ss|
  {
    ss == [] || (Possible(q, ss[0]) && PossibleRun(Apply(q, ss[0]), ss[1..]))
  }

  function Run(q: Queue, ss: seq<Step>): Queue
    decreases |ss|
  {
    if ss == [] then q else Run(Apply(q, ss[0]), ss[1..])
  }

  function NewQueue(length: nat): Queue {
    Queue(0, length, UNLOCKED, UNLOCKED, [], [], multiset{}, multiset{}, Nobody)
  }

  lemma {:induction false} RunKeeps(q: Queue, ss: seq<Step>)
    requires Inv(q) && PossibleRun(q, ss)
    ensures Inv(Run(q, ss)) && Run(q, ss).length == q.length
    decreases |ss|
  {
    hide Inv, Possible, Apply;
    if ss != [] {
      StepKeeps(q, ss[0]);
      RunKeeps(Apply(q, ss[0]), ss[1..]);
    }
  }

  /** In every reachable state in which the queue is unlocked, if a receiver waits then there are no
      more messages than receivers woken and on their way, and if a sender waits then there is no more
      space than senders on theirs. */
  lemma NoLostWakeUp(length: nat, ss: seq<Step>)
    requires PossibleRun(NewQueue(length), ss)
    ensures var q := Run(NewQueue(length), ss);
            && (q.txLock == UNLOCKED && q.recvWait != [] ==> q.messages <= |q.wokenR|)
            && (q.rxLock == UNLOCKED && q.sendWait != [] ==> length - q.messages <= |q.wokenS|)
  {
    RunKeeps(NewQueue(length), ss);
    hide Run;
  }

  /** So with nobody on the way, a task waits only for what is not there. */
  lemma QuietMeansEmpty(length: nat, ss: seq<Step>)
    requires PossibleRun(NewQueue(length), ss)
    ensures var q := Run(NewQueue(length), ss);
            && (q.txLock == UNLOCKED && q.recvWait != [] && q.wokenR == multiset{} ==> q.messages == 0)
            && (q.rxLock == UNLOCKED && q.sendWait != [] && q.wokenS == multiset{} ==> q.messages == length)
  {
    NoLostWakeUp(length, ss);
    RunKeeps(NewQueue(length), ss);
    hide Run;
  }

  // ---------------------------------------------------------------- the bound is needed

  /** One more send by an interrupt while the queue is locked leaves every message announced or owed
      exactly if the 8-bit counter does not go round, nobody waits, or enough receivers are already on
      their way; one more receive does the same for free spaces. */
  lemma InterruptAtTheBound(q: Queue)
    requires Inv(q) && q.locker != Nobody
    ensures q.txLock != UNLOCKED && q.messages < q.length ==>
              (ReceiversServed(IsrSend(q))
               <==> q.txLock != INT8_MAX || q.recvWait == [] || q.messages + 1 <= |q.wokenR|)
    ensures q.messages > 0 ==>
              (SendersServed(IsrReceive(q))
               <==> q.rxLock != INT8_MAX || q.sendWait == [] || q.length - q.messages + 1 <= |q.wokenS|)
  {
    InterruptsKeep(q);
  }

  function IsrSends(q: Queue, n: nat): Queue {
    if n == 0 then q else IsrSend(IsrSends(q, n - 1))
  }

  function IsrReceives(q: Queue, n: nat): Queue {
    if n == 0 then q else IsrReceive(IsrReceives(q, n - 1))
  }

  function Least(a: nat, b: nat): nat {
    if a <= b then a else b
  }

  /** What a count of 0 comes to after `x` sends: it goes round once, to the value that stands for an
      unlocked queue, and stays there. */
  function CountAfter(x: nat): int {
    if x <= INT8_MAX then x else if x <= 255 then x - 256 else UNLOCKED
  }

  /** How many of those sends find the count at that value and wake a receiver themselves. */
  function FoundUnlocked(x: nat): nat {
    if x <= 255 then 0 else x - 255
  }

  lemma FromOneOn(w: seq<nat>, k: nat)
    ensures k < |w| ==> w[k..] != [] && w[k..][1..] == w[k + 1..]
  {
  }

  lemma {:induction false} IsrSendsCount(q: Queue, n: nat)
    requires 0 <= q.txLock <= INT8_MAX && q.messages + n <= q.length
    ensures var q' := IsrSends(q, n);
            && q'.messages == q.messages + n && q'.txLock == CountAfter(q.txLock + n) && q'.length == q.length
  {
    if n > 0 {
      IsrSendsCount(q, n - 1);
    }
  }

  lemma {:induction false} IsrSendsWake(q: Queue, n: nat)
    requires 0 <= q.txLock <= INT8_MAX && q.messages + n <= q.length
    ensures var q', k := IsrSends(q, n), Least(FoundUnlocked(q.txLock + n), |q.recvWait|);
            q'.recvWait == q.recvWait[k..] && |q'.wokenR| == |q.wokenR| + k
  {
    hide IsrSend, IsrSends;
    IsrSendsUnrolled(q, n);
    if n > 0 {
      IsrSendsCount(q, n - 1);
      IsrSendsWake(q, n - 1);
      OneSendWakes(IsrSends(q, n - 1));
      FromOneOn(q.recvWait, Least(FoundUnlocked(q.txLock + n - 1), |q.recvWait|));
    }
  }

  lemma IsrSendsUnrolled(q: Queue, n: nat)
    ensures IsrSends(q, n) == if n == 0 then q else IsrSend(IsrSends(q, n - 1))
  {
  }

  lemma OneSendWakes(q: Queue)
    ensures var q' := IsrSend(q);
            if q.messages < q.length && q.txLock == UNLOCKED && q.recvWait != []
            then q'.recvWait == q.recvWait[1..] && |q'.wokenR| == |q.wokenR| + 1
            else q'.recvWait == q.recvWait && q'.wokenR == q.wokenR
  {
  }

  lemma {:induction false} IsrReceivesCount(q: Queue, n: nat)
    requires 0 <= q.rxLock <= INT8_MAX && n <= q.messages
    ensures var q' := IsrReceives(q, n);
            && q'.messages == q.messages - n && q'.rxLock == CountAfter(q.rxLock + n) && q'.length == q.length
  {
    if n > 0 {
      IsrReceivesCount(q, n - 1);
    }
  }

  lemma {:induction false} IsrReceivesWake(q: Queue, n: nat)
    requires 0 <= q.rxLock <= INT8_MAX && n <= q.messages
    ensures var q', k := IsrReceives(q, n), Least(FoundUnlocked(q.rxLock + n), |q.sendWait|);
            q'.sendWait == q.sendWait[k..] && |q'.wokenS| == |q.wokenS| + k
  {
    hide IsrReceive, IsrReceives;
    IsrReceivesUnrolled(q, n);
    if n > 0 {
      IsrReceivesCount(q, n - 1);
      IsrReceivesWake(q, n - 1);
      OneReceiveWakes(IsrReceives(q, n - 1));
      FromOneOn(q.sendWait, Least(FoundUnlocked(q.rxLock + n - 1), |q.sendWait|));
    }
  }

  lemma IsrReceivesUnrolled(q: Queue, n: nat)
    ensures IsrReceives(q, n) == if n == 0 then q else IsrReceive(IsrReceives(q, n - 1))
  {
  }

  lemma OneReceiveWakes(q: Queue)
    ensures var q' := IsrReceive(q);
            if q.messages > 0 && q.rxLock == UNLOCKED && q.sendWait != []
            then q'.sendWait == q.sendWait[1..] && |q'.wokenS| == |q.wokenS| + 1
            else q'.sendWait == q.sendWait && q'.wokenS == q.wokenS
  {
  }

  lemma {:induction false} WakeReceiversCounts(q: Queue, n: int)
    ensures var q', k := WakeReceivers(q, n), Least(Owed(n), |q.recvWait|);
            && q' == q.(recvWait := q.recvWait[k..], wokenR := q'.wokenR)
            && |q'.wokenR| == |q.wokenR| + k
    decreases n
  {
    if n > 0 && q.recvWait != [] {
      WakeReceiversCounts(WakeReceiver(q), n - 1);
    }
  }

  lemma {:induction false} WakeSendersCounts(q: Queue, n: int)
    ensures var q', k := WakeSenders(q, n), Least(Owed(n), |q.sendWait|);
            && q' == q.(sendWait := q.sendWait[k..], wokenS := q'.wokenS)
            && |q'.wokenS| == |q.wokenS| + k
    decreases n
  {
    if n > 0 && q.sendWait != [] {
      WakeSendersCounts(WakeSender(q), n - 1);
    }
  }

  lemma ReceiversAfterUnlocking(q: Queue)
    ensures var q', k := UnlockRx(UnlockTx(q)), Least(Owed(q.txLock), |q.recvWait|);
            && q'.recvWait == q.recvWait[k..] && |q'.wokenR| == |q.wokenR| + k && q'.messages == q.messages
            && q'.locker == Nobody
  {
    hide WakeReceivers, WakeSenders;
    WakeReceiversCounts(q, q.txLock);
    WakeSendersCounts(UnlockTx(q), UnlockTx(q).rxLock);
  }

  lemma SendersAfterUnlocking(q: Queue)
    ensures var q', k := UnlockRx(UnlockTx(q)), Least(Owed(q.rxLock), |q.sendWait|);
            && q'.sendWait == q.sendWait[k..] && |q'.wokenS| == |q.wokenS| + k && q'.messages == q.messages
            && q'.length == q.length
  {
    hide WakeReceivers, WakeSenders;
    WakeReceiversCounts(q, q.txLock);
    WakeSendersCounts(UnlockTx(q), UnlockTx(q).rxLock);
  }

  /** Any number of sends by interrupts during one lock.  Once the queue is unlocked no wake-up has
      been lost if and only if the counter did not go round, or the sends that found it gone round to
      "unlocked" have woken everybody, or receivers enough for all messages are on their way. */
  lemma SendsInOneLock(q: Queue, n: nat)
    requires Inv(q) && q.locker == Locked && q.messages + n <= q.length
    ensures var q' := UnlockRx(UnlockTx(IsrSends(q, n)));
            var k := FoundUnlocked(q.txLock + n);
            (q'.recvWait != [] ==> q'.messages <= |q'.wokenR|) <==>
            q.txLock + n <= INT8_MAX || |q.recvWait| <= k || q.messages + n <= |q.wokenR| + k
  {
    IsrSendsCount(q, n);
    IsrSendsWake(q, n);
    ReceiversAfterUnlocking(IsrSends(q, n));
    hide UnlockRx, UnlockTx, IsrSends;
  }

  /** And any number of receives. */
  lemma ReceivesInOneLock(q: Queue, n: nat)
    requires Inv(q) && q.locker == Locked && n <= q.messages
    ensures var q' := UnlockRx(UnlockTx(IsrReceives(q, n)));
            var k, free := FoundUnlocked(q.rxLock + n), q.length - q.messages + n;
            (q'.sendWait != [] ==> q'.length - q'.messages <= |q'.wokenS|) <==>
            q.rxLock + n <= INT8_MAX || |q.sendWait| <= k || free <= |q.wokenS| + k
  {
    IsrReceivesCount(q, n);
    IsrReceivesWake(q, n);
    SendersAfterUnlocking(IsrReceives(q, n));
    hide UnlockRx, UnlockTx, IsrReceives;
  }

  /** With the queue empty when it is locked and nobody on the way: `n` sends lose a wake-up exactly if
      they are more than 127 and more receivers wait than there are sends past the 255th. */
  lemma WakeUpLostExactly(length: nat, waiters: seq<nat>, n: nat)
    requires n <= length
    ensures var q := Lock(NewQueue(length)).(recvWait := waiters);
            var q' := UnlockRx(UnlockTx(IsrSends(q, n)));
            (q'.recvWait != [] ==> q'.messages <= |q'.wokenR|) <==>
            n <= INT8_MAX || |waiters| <= FoundUnlocked(n)
  {
    SendsInOneLock(Lock(NewQueue(length)).(recvWait := waiters), n);
    hide UnlockRx, UnlockTx, IsrSends;
  }

  /** Without assertions compiled in, 128 sends during one lock leave a receiver waiting in front of
      128 messages, with nobody woken. */
  lemma WakeUpLostBeyondTheBound(t: nat)
    ensures var waiting := PlaceReceiver(LookEmpty(Lock(NewQueue(200))), t, 0);
            var q := UnlockRx(UnlockTx(IsrSends(waiting, 128)));
            q.locker == Nobody && q.recvWait == [t] && q.messages == 128 && q.wokenR == multiset{}
  {
    var waiting := PlaceReceiver(LookEmpty(Lock(NewQueue(200))), t, 0);
    assert waiting == Queue(0, 200, 0, 0, [t], [], multiset{}, multiset{}, Locked);
    IsrSendsCount(waiting, 128);
    IsrSendsWake(waiting, 128);
    ReceiversAfterUnlocking(IsrSends(waiting, 128));
    hide IsrSends, UnlockRx, UnlockTx;
  }

  // ---------------------------------------------------------------- in place

  /** The lock counts and the loops that unlock a queue. */
  class LockedQueue {
    var messagesWaiting: nat
    const length: nat
    var txLock: int
    var rxLock: int
    var tasksWaitingToReceive: seq<nat>
    var tasksWaitingToSend: seq<nat>
    ghost var wokenReceivers: multiset<nat>
    ghost var wokenSenders: multiset<nat>
    ghost var locker: Locker

    ghost function View(): Queue
      reads this
    {
      Queue(messagesWaiting, length, txLock, rxLock, tasksWaitingToReceive, tasksWaitingToSend,
            wokenReceivers, wokenSenders, locker)
    }

    constructor (length: nat)
      ensures View() == NewQueue(length)
    {
      this.length := length;
      messagesWaiting, txLock, rxLock := 0, UNLOCKED, UNLOCKED;
      tasksWaitingToReceive, tasksWaitingToSend := [], [];
      wokenReceivers, wokenSenders, locker := multiset{}, multiset{}, Nobody;
    }

    method RemoveReceiver()
      requires tasksWaitingToReceive != []
      modifies this`tasksWaitingToReceive, this`wokenReceivers
      ensures View() == WakeReceiver(old(View()))
    {
      wokenReceivers := wokenReceivers + multiset{tasksWaitingToReceive[0]};
      tasksWaitingToReceive := tasksWaitingToReceive[1..];
    }

    method RemoveSender()
      requires tasksWaitingToSend != []
      modifies this`tasksWaitingToSend, this`wokenSenders
      ensures View() == WakeSender(old(View()))
    {
      wokenSenders := wokenSenders + multiset{tasksWaitingToSend[0]};
      tasksWaitingToSend := tasksWaitingToSend[1..];
    }

    method LockQueue()
      modifies this`txLock, this`rxLock, this`locker
      ensures View() == Lock(old(View()))
    {
      if rxLock == UNLOCKED {
        rxLock := 0;
      }
      if txLock == UNLOCKED {
        txLock := 0;
      }
      locker := Locked;
    }

    /** The first critical section of unlocking. */
    method UnlockTxPart()
      modifies this
      ensures View() == UnlockTx(old(View()))
    {
      ghost var q := View();
      var lock := txLock;
      while lock > 0
        invariant WakeReceivers(View(), lock) == WakeReceivers(q, q.txLock)
      {
        if tasksWaitingToReceive != [] {
          RemoveReceiver();
        } else {
          break;
        }
        lock := lock - 1;
      }
      assert View() == WakeReceivers(q, q.txLock);
      txLock := UNLOCKED;
      locker := HalfUnlocked;
    }

    /** The second. */
    method UnlockRxPart()
      modifies this
      ensures View() == UnlockRx(old(View()))
    {
      ghost var q := View();
      var lock := rxLock;
      while lock > 0
        invariant WakeSenders(View(), lock) == WakeSenders(q, q.rxLock)
      {
        if tasksWaitingToSend != [] {
          RemoveSender();
          lock := lock - 1;
        } else {
          break;
        }
      }
      assert View() == WakeSenders(q, q.rxLock);
      rxLock := UNLOCKED;
      locker := Nobody;
    }

    /** A send from an interrupt, as far as the counts and lists are concerned. */
    method SendFromISR(overwrite: bool) returns (sent: bool)
      requires overwrite ==> length == 1
      modifies this
      ensures View() == if overwrite then IsrOverwrite(old(View())) else IsrSend(old(View()))
      ensures sent <==> old(messagesWaiting) < length || overwrite
    {
      sent := false;
      if messagesWaiting < length || overwrite {
        var lock := txLock;
        if !(overwrite && messagesWaiting > 0) {
          messagesWaiting := messagesWaiting + 1;
        }
        if lock == UNLOCKED {
          if tasksWaitingToReceive != [] {
            RemoveReceiver();
          }
        } else {
          txLock := Incremented(lock);
        }
        sent := true;
      }
    }

    method ReceiveFromISR() returns (received: bool)
      modifies this
      ensures View() == IsrReceive(old(View()))
      ensures received <==> old(messagesWaiting) > 0
    {
      received := false;
      if messagesWaiting > 0 {
        var lock := rxLock;
        messagesWaiting := messagesWaiting - 1;
        if lock == UNLOCKED {
          if tasksWaitingToSend != [] {
            RemoveSender();
          }
        } else {
          rxLock := Incremented(lock);
        }
        received := true;
      }
    }

    /** The head of the loop of a receiving task; only what it leaves behind if there is a message. */
    method ReceiveOrLeave(ghost t: nat) returns (received: bool)
      modifies this
      ensures View() == TaskReceive(old(View()), t)
      ensures received <==> old(messagesWaiting) > 0
    {
      wokenReceivers := wokenReceivers - multiset{t};
      received := false;
      if messagesWaiting > 0 {
        messagesWaiting := messagesWaiting - 1;
        if tasksWaitingToSend != [] {
          RemoveSender();
        }
        received := true;
      }
    }

    method SendOrLeave(ghost t: nat) returns (sent: bool)
      modifies this
      ensures View() == TaskSend(old(View()), t)
      ensures sent <==> old(messagesWaiting) < length
    {
      wokenSenders := wokenSenders - multiset{t};
      sent := false;
      if messagesWaiting < length {
        messagesWaiting := messagesWaiting + 1;
        if tasksWaitingToReceive != [] {
          RemoveReceiver();
        }
        sent := true;
      }
    }
  }
}
