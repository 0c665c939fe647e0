/** The books of a queue: nobody who waits is forgotten, nobody is woken twice, and no message appears or
    disappears, in any step and so over any run. */
module QueueBooks {
  import opened QueueLock

  // ---------------------------------------------------------------- joining a waiting list

  /** `w'` is `w` with `t` at the place asked for, the end at the furthest, and the others in order. */
  predicate Joined(w: seq<nat>, w': seq<nat>, t: nat, i: nat) {
    var k := Least(i, |w|);
    |w'| == |w| + 1 && w'[k] == t && w'[..k] == w[..k] && w'[k + 1..] == w[k..]
  }

  lemma InsertedJoins(w: seq<nat>, t: nat, i: nat)
    ensures Joined(w, Inserted(w, t, i), t, i)
    ensures multiset(Inserted(w, t, i)) == multiset(w) + multiset{t}
  {
    if i <= |w| {
      assert w == w[..i] + w[i..];
    }
  }

  /** A task that blocks is on its list, at the place its priority gives it, and on no other. */
  lemma PlacedMeans(q: Queue, t: nat, i: nat)
    ensures var q' := PlaceReceiver(q, t, i);
            && Joined(q.recvWait, q'.recvWait, t, i) && multiset(q'.recvWait) == multiset(q.recvWait) + multiset{t}
            && q'.sendWait == q.sendWait && q'.messages == q.messages
    ensures var q' := PlaceSender(q, t, i);
            && Joined(q.sendWait, q'.sendWait, t, i) && multiset(q'.sendWait) == multiset(q.sendWait) + multiset{t}
            && q'.recvWait == q.recvWait && q'.messages == q.messages
  {
    hide Inserted, Joined;
    InsertedJoins(q.recvWait, t, i);
    InsertedJoins(q.sendWait, t, i);
  }

  /** The locker decides to wait exactly if it finds the queue empty, or full. */
  lemma LookMeans(q: Queue)
    requires q.locker == Locked
    ensures LookEmpty(q).locker == SawEmpty <==> q.messages == 0
    ensures LookFull(q).locker == SawFull <==> q.messages == q.length
  {
  }

  // ---------------------------------------------------------------- the waiting tasks

  /** The receivers on the list or on their way, and the senders. */
  function Receivers(q: Queue): multiset<nat> {
    multiset(q.recvWait) + q.wokenR
  }

  function Senders(q: Queue): multiset<nat> {
    multiset(q.sendWait) + q.wokenS
  }

  /** Who joins them in a step: the task that blocks. */
  function Joins(q: Queue, s: Step): multiset<nat> {
    match s
    case WaitsToReceive(t, _) => multiset{t}
    case WaitsToSend(t, _) => multiset{t}
    case _ => multiset{}
  }

  /** Who leaves them: a task on its way that looks at the queue again, or one whose wait times out. */
  function Leaves(q: Queue, s: Step): multiset<nat> {
    match s
    case Receives(t) => if t in q.wokenR then multiset{t} else multiset{}
    case Peeks(t) => if t in q.wokenR then multiset{t} else multiset{}
    case Sends(t) => if t in q.wokenS then multiset{t} else multiset{}
    case ReceiverTimesOut(i) => if i < |q.recvWait| then multiset{q.recvWait[i]} else multiset{}
    case SenderTimesOut(i) => if i < |q.sendWait| then multiset{q.sendWait[i]} else multiset{}
    case _ => multiset{}
  }

  predicate OfReceivers(s: Step) {
    s.WaitsToReceive? || s.Receives? || s.Peeks? || s.ReceiverTimesOut?
  }

  predicate OfSenders(s: Step) {
    s.WaitsToSend? || s.Sends? || s.SenderTimesOut?
  }

  lemma WakeReceiverKeeps(q: Queue)
    ensures Receivers(WakeReceiver(q)) == Receivers(q) && Senders(WakeReceiver(q)) == Senders(q)
  {
    if q.recvWait != [] {
      assert q.recvWait == [q.recvWait[0]] + q.recvWait[1..];
    }
  }

  lemma WakeSenderKeeps(q: Queue)
    ensures Senders(WakeSender(q)) == Senders(q) && Receivers(WakeSender(q)) == Receivers(q)
  {
    if q.sendWait != [] {
      assert q.sendWait == [q.sendWait[0]] + q.sendWait[1..];
    }
  }

  lemma {:induction false} WakeReceiversKeep(q: Queue, n: int)
    ensures Receivers(WakeReceivers(q, n)) == Receivers(q) && Senders(WakeReceivers(q, n)) == Senders(q)
    decreases n
  {
    if n > 0 && q.recvWait != [] {
      WakeReceiverKeeps(q);
      WakeReceiversKeep(WakeReceiver(q), n - 1);
      hide Receivers, Senders, WakeReceiver;
    }
  }

  lemma {:induction false} WakeSendersKeep(q: Queue, n: int)
    ensures Senders(WakeSenders(q, n)) == Senders(q) && Receivers(WakeSenders(q, n)) == Receivers(q)
    decreases n
  {
    if n > 0 && q.sendWait != [] {
      WakeSenderKeeps(q);
      WakeSendersKeep(WakeSender(q), n - 1);
      hide Receivers, Senders, WakeSender;
    }
  }

  lemma RemovedIs(w: seq<nat>, i: nat)
    ensures i < |w| ==> multiset(Removed(w, i)) == multiset(w) - multiset{w[i]}
    ensures i >= |w| ==> Removed(w, i) == w
  {
    if i < |w| {
      assert w == w[..i] + [w[i]] + w[i + 1..];
    }
  }

  lemma RejoinedAfter(q: Queue, t: nat)
    ensures Receivers(q.(wokenR := q.wokenR - multiset{t}))
         == Receivers(q) - (if t in q.wokenR then multiset{t} else multiset{})
    ensures Senders(q.(wokenS := q.wokenS - multiset{t}))
         == Senders(q) - (if t in q.wokenS then multiset{t} else multiset{})
  {
  }

  /** Only the waiting lists and those on their way matter. */
  lemma SameBooks(q: Queue, q': Queue)
    ensures q'.recvWait == q.recvWait && q'.wokenR == q.wokenR ==> Receivers(q') == Receivers(q)
    ensures q'.sendWait == q.sendWait && q'.wokenS == q.wokenS ==> Senders(q') == Senders(q)
  {
  }

  /** What the steps that are tasks' first critical sections do to the two. */
  lemma ReceiveBooks(q: Queue, t: nat)
    ensures Receivers(TaskReceive(q, t)) == Receivers(q) - Leaves(q, Receives(t))
    ensures Senders(TaskReceive(q, t)) == Senders(q)
  {
    hide Receivers, Senders, WakeSender;
    var r := q.(wokenR := q.wokenR - multiset{t});
    RejoinedAfter(q, t);
    SameBooks(q, r);
    if q.messages > 0 {
      var r1 := r.(messages := q.messages - 1);
      SameBooks(r, r1);
      WakeSenderKeeps(r1);
    }
  }

  lemma PeekBooks(q: Queue, t: nat)
    ensures Receivers(TaskPeek(q, t)) == Receivers(q) - Leaves(q, Peeks(t)) && Senders(TaskPeek(q, t)) == Senders(q)
  {
    hide Receivers, Senders, WakeReceiver;
    var r := q.(wokenR := q.wokenR - multiset{t});
    RejoinedAfter(q, t);
    SameBooks(q, r);
    WakeReceiverKeeps(r);
  }

  lemma SendBooks(q: Queue, t: nat)
    ensures Senders(TaskSend(q, t)) == Senders(q) - Leaves(q, Sends(t)) && Receivers(TaskSend(q, t)) == Receivers(q)
  {
    hide Receivers, Senders, WakeReceiver;
    var s := q.(wokenS := q.wokenS - multiset{t});
    RejoinedAfter(q, t);
    SameBooks(q, s);
    if q.messages < q.length {
      var s1 := s.(messages := q.messages + 1);
      SameBooks(s, s1);
      WakeReceiverKeeps(s1);
    }
  }

  lemma OverwriteBooks(q: Queue)
    ensures Receivers(TaskOverwrite(q)) == Receivers(q) && Senders(TaskOverwrite(q)) == Senders(q)
    ensures Receivers(IsrOverwrite(q)) == Receivers(q) && Senders(IsrOverwrite(q)) == Senders(q)
  {
    hide Receivers, Senders, WakeReceiver;
    var q1 := Overwritten(q);
    SameBooks(q, q1);
    WakeReceiverKeeps(q1);
    SameBooks(q1, q1.(txLock := Incremented(q.txLock)));
  }

  lemma InterruptBooks(q: Queue)
    ensures Receivers(IsrSend(q)) == Receivers(q) && Senders(IsrSend(q)) == Senders(q)
    ensures Receivers(IsrReceive(q)) == Receivers(q) && Senders(IsrReceive(q)) == Senders(q)
  {
    hide Receivers, Senders, WakeReceiver, WakeSender;
    var q1 := q.(messages := q.messages + 1);
    SameBooks(q, q1);
    WakeReceiverKeeps(q1);
    SameBooks(q1, q1.(txLock := Incremented(q.txLock)));
    if q.messages > 0 {
      var q2 := q.(messages := q.messages - 1);
      SameBooks(q, q2);
      WakeSenderKeeps(q2);
      SameBooks(q2, q2.(rxLock := Incremented(q.rxLock)));
    }
  }

  lemma UnlockBooks(q: Queue)
    ensures Receivers(UnlockTx(q)) == Receivers(q) && Senders(UnlockTx(q)) == Senders(q)
    ensures Receivers(UnlockRx(q)) == Receivers(q) && Senders(UnlockRx(q)) == Senders(q)
  {
    hide WakeReceivers, WakeSenders;
    WakeReceiversKeep(q, q.txLock);
    WakeSendersKeep(q, q.rxLock);
  }

  lemma LockBooks(q: Queue)
    ensures Receivers(Lock(q)) == Receivers(q) && Senders(Lock(q)) == Senders(q)
    ensures Receivers(LookEmpty(q)) == Receivers(q) && Senders(LookEmpty(q)) == Senders(q)
    ensures Receivers(LookFull(q)) == Receivers(q) && Senders(LookFull(q)) == Senders(q)
  {
    hide Receivers, Senders;
    SameBooks(q, Lock(q));
    SameBooks(q, LookEmpty(q));
    SameBooks(q, LookFull(q));
  }

  lemma WaitBooks(q: Queue, t: nat, i: nat)
    ensures Receivers(PlaceReceiver(q, t, i)) == Receivers(q) + multiset{t}
    ensures Senders(PlaceReceiver(q, t, i)) == Senders(q)
    ensures Senders(PlaceSender(q, t, i)) == Senders(q) + multiset{t}
    ensures Receivers(PlaceSender(q, t, i)) == Receivers(q)
  {
    hide Inserted;
    InsertedJoins(q.recvWait, t, i);
    InsertedJoins(q.sendWait, t, i);
    hide Joined;
  }

  lemma ReceiverTimeOutBooks(q: Queue, i: nat)
    ensures var q' := q.(recvWait := Removed(q.recvWait, i));
            Receivers(q') == Receivers(q) - Leaves(q, ReceiverTimesOut(i)) && Senders(q') == Senders(q)
  {
    hide Removed;
    RemovedIs(q.recvWait, i);
    if i < |q.recvWait| {
      LessOne(multiset(q.recvWait), q.wokenR, q.recvWait[i]);
    }
  }

  lemma SenderTimeOutBooks(q: Queue, i: nat)
    ensures var q' := q.(sendWait := Removed(q.sendWait, i));
            Senders(q') == Senders(q) - Leaves(q, SenderTimesOut(i)) && Receivers(q') == Receivers(q)
  {
    hide Removed;
    RemovedIs(q.sendWait, i);
    if i < |q.sendWait| {
      LessOne(multiset(q.sendWait), q.wokenS, q.sendWait[i]);
    }
  }

  lemma LessOne(a: multiset<nat>, b: multiset<nat>, t: nat)
    requires t in a
    ensures (a - multiset{t}) + b == (a + b) - multiset{t}
  {
  }

  /** Every step accounts for every waiting task: the receivers on the list or on their way are those there
      were, with the one that blocks and without the one that looks again or times out ... */
  lemma StepReceivers(q: Queue, s: Step)
    ensures Receivers(Apply(q, s))
         == if OfReceivers(s) then Receivers(q) - Leaves(q, s) + Joins(q, s) else Receivers(q)
  {
    hide TaskReceive, TaskPeek, TaskSend, TaskOverwrite, IsrSend, IsrOverwrite, IsrReceive, UnlockTx, UnlockRx;
    hide PlaceReceiver, PlaceSender, Removed, Receivers, Senders, Leaves;
    hide Lock, LookEmpty, LookFull;
    match s
    case Receives(t) => ReceiveBooks(q, t);
    case Peeks(t) => PeekBooks(q, t);
    case Sends(t) => SendBooks(q, t);
    case Overwrites => OverwriteBooks(q);
    case Locks => LockBooks(q);
    case LooksEmpty => LockBooks(q);
    case LooksFull => LockBooks(q);
    case WaitsToReceive(t, i) => WaitBooks(q, t, i); NobodyLeaves(q, s);
    case WaitsToSend(t, i) => WaitBooks(q, t, i);
    case UnlocksTx => UnlockBooks(q);
    case UnlocksRx => UnlockBooks(q);
    case InterruptSends => InterruptBooks(q);
    case InterruptOverwrites => OverwriteBooks(q);
    case InterruptReceives => InterruptBooks(q);
    case ReceiverTimesOut(i) => ReceiverTimeOutBooks(q, i);
    case SenderTimesOut(i) => SenderTimeOutBooks(q, i);
  }

  /** ... and so the senders. */
  lemma StepSenders(q: Queue, s: Step)
    ensures Senders(Apply(q, s))
         == if OfSenders(s) then Senders(q) - Leaves(q, s) + Joins(q, s) else Senders(q)
  {
    hide TaskReceive, TaskPeek, TaskSend, TaskOverwrite, IsrSend, IsrOverwrite, IsrReceive, UnlockTx, UnlockRx;
    hide PlaceReceiver, PlaceSender, Removed, Receivers, Senders, Leaves;
    hide Lock, LookEmpty, LookFull;
    match s
    case Receives(t) => ReceiveBooks(q, t);
    case Peeks(t) => PeekBooks(q, t);
    case Sends(t) => SendBooks(q, t);
    case Overwrites => OverwriteBooks(q);
    case Locks => LockBooks(q);
    case LooksEmpty => LockBooks(q);
    case LooksFull => LockBooks(q);
    case WaitsToReceive(t, i) => WaitBooks(q, t, i);
    case WaitsToSend(t, i) => WaitBooks(q, t, i); NobodyLeaves(q, s);
    case UnlocksTx => UnlockBooks(q);
    case UnlocksRx => UnlockBooks(q);
    case InterruptSends => InterruptBooks(q);
    case InterruptOverwrites => OverwriteBooks(q);
    case InterruptReceives => InterruptBooks(q);
    case ReceiverTimesOut(i) => ReceiverTimeOutBooks(q, i);
    case SenderTimesOut(i) => SenderTimeOutBooks(q, i);
  }

  lemma NobodyLeaves(q: Queue, s: Step)
    ensures s.WaitsToReceive? || s.WaitsToSend? ==> Leaves(q, s) == multiset{}
  {
  }

  // ---------------------------------------------------------------- whole runs

  /** No step of the run is `t` looking at the queue again, or its wait timing out. */
  predicate KeepsWaiting(q: Queue, ss: seq<Step>, t: nat)
    decreases |ss|
  {
    ss == [] || (t !in Leaves(q, ss[0]) && KeepsWaiting(Apply(q, ss[0]), ss[1..], t))
  }

  lemma {:induction false} StaysOnBooks(q: Queue, ss: seq<Step>, t: nat)
    requires KeepsWaiting(q, ss, t)
    ensures t in Receivers(q) ==> t in Receivers(Run(q, ss))
    ensures t in Senders(q) ==> t in Senders(Run(q, ss))
    decreases |ss|
  {
    hide Apply, Leaves, Receivers, Senders;
    if ss != [] {
      StepReceivers(q, ss[0]);
      StepSenders(q, ss[0]);
      StaysOnBooks(Apply(q, ss[0]), ss[1..], t);
    }
  }

  /** A task that has blocked is, in every state of any run in which it does not look again and its wait
      does not time out, on its list or on its way. */
  lemma NobodyForgotten(q: Queue, t: nat, i: nat, ss: seq<Step>)
    ensures var q1 := PlaceReceiver(q, t, i);
            KeepsWaiting(q1, ss, t) ==> t in Run(q1, ss).recvWait || t in Run(q1, ss).wokenR
    ensures var q1 := PlaceSender(q, t, i);
            KeepsWaiting(q1, ss, t) ==> t in Run(q1, ss).sendWait || t in Run(q1, ss).wokenS
  {
    var r, s := PlaceReceiver(q, t, i), PlaceSender(q, t, i);
    PlacedMeans(q, t, i);
    if KeepsWaiting(r, ss, t) {
      StaysOnBooks(r, ss, t);
    }
    if KeepsWaiting(s, ss, t) {
      StaysOnBooks(s, ss, t);
    }
    hide PlaceReceiver, PlaceSender, Run, KeepsWaiting;
  }

  // ---------------------------------------------------------------- the messages

  /** A message is posted: by a send that finds room, by an overwrite that finds nothing to replace. */
  predicate Posts(q: Queue, s: Step) {
    || ((s.Sends? || s.InterruptSends?) && q.messages < q.length)
    || ((s.Overwrites? || s.InterruptOverwrites?) && q.messages == 0)
  }

  /** A message is taken: by a receive that finds one; a peek takes none. */
  predicate Takes(q: Queue, s: Step) {
    (s.Receives? || s.InterruptReceives?) && q.messages > 0
  }

  lemma StepMessages(q: Queue, s: Step)
    ensures Apply(q, s).messages
         == q.messages + (if Posts(q, s) then 1 else 0) - (if Takes(q, s) then 1 else 0)
  {
    hide WakeReceivers, WakeSenders;
    WakeReceiversMeans(q, q.txLock);
    WakeSendersMeans(q, q.rxLock);
  }

  function Posted(q: Queue, ss: seq<Step>): nat
    decreases |ss|
  {
    if ss == [] then 0 else (if Posts(q, ss[0]) then 1 else 0) + Posted(Apply(q, ss[0]), ss[1..])
  }

  function Taken(q: Queue, ss: seq<Step>): nat
    decreases |ss|
  {
    if ss == [] then 0 else (if Takes(q, ss[0]) then 1 else 0) + Taken(Apply(q, ss[0]), ss[1..])
  }

  /** Over any run the messages in the queue are those there were and those posted, less those taken. */
  lemma {:induction false} MessagesConserved(q: Queue, ss: seq<Step>)
    ensures Run(q, ss).messages + Taken(q, ss) == q.messages + Posted(q, ss)
    decreases |ss|
  {
    hide Apply, Posts, Takes;
    if ss != [] {
      StepMessages(q, ss[0]);
      MessagesConserved(Apply(q, ss[0]), ss[1..]);
    }
  }

  // ---------------------------------------------------------------- who is woken

  /** Whenever a message is posted while the queue is unlocked, or one is peeked at, the most urgent
      receiver is woken if there is one; and whenever one is taken, the most urgent sender. */
  lemma MostUrgentWoken(q: Queue, t: nat)
    ensures q.messages < q.length && q.recvWait != [] ==>
              var q' := TaskSend(q, t);
              q'.recvWait == q.recvWait[1..] && q'.wokenR == q.wokenR + multiset{q.recvWait[0]}
    ensures q.messages < q.length && q.recvWait != [] && q.txLock == UNLOCKED ==>
              var q' := IsrSend(q);
              q'.recvWait == q.recvWait[1..] && q'.wokenR == q.wokenR + multiset{q.recvWait[0]}
    ensures q.messages > 0 && q.recvWait != [] ==>
              var q' := TaskPeek(q, t);
              q'.recvWait == q.recvWait[1..] && q.recvWait[0] in q'.wokenR
    ensures q.messages > 0 && q.sendWait != [] ==>
              var q' := TaskReceive(q, t);
              q'.sendWait == q.sendWait[1..] && q'.wokenS == q.wokenS + multiset{q.sendWait[0]}
    ensures q.messages > 0 && q.sendWait != [] && q.rxLock == UNLOCKED ==>
              var q' := IsrReceive(q);
              q'.sendWait == q.sendWait[1..] && q'.wokenS == q.wokenS + multiset{q.sendWait[0]}
  {
  }
}
