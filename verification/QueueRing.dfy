/** The storage of queue.c's queues: a ring with the position to write next and the position last
    read, behaving as a bounded double-ended queue. */
module QueueRing {

  /** `readFrom` is where the last item was read; the next is one further on. */
  datatype Storage<T> = Storage(slots: seq<T>, writeTo: nat, readFrom: nat, count: nat)

  datatype Position = SendToBack | SendToFront | Overwrite

  predicate Fits<T>(q: Storage<T>) {
    q.writeTo < |q.slots| && q.readFrom < |q.slots| && q.count <= |q.slots|
  }

  /** One slot further, and one back, around the ring. */
  function Next(p: nat, length: nat): nat {
    if p + 1 >= length then 0 else p + 1
  }

  function Previous(p: nat, length: nat): nat {
    if p == 0 then (if length == 0 then 0 else length - 1) else p - 1
  }

  /** `k` slots further. */
  function Along(p: nat, k: nat, length: nat): nat {
    if p + k >= length then (if p + k >= 2 * length then 0 else p + k - length) else p + k
  }

  // ---------------------------------------------------------------- the source's operations

  /** Copy an item in; an overwrite replaces the item there is, if any. */
  function CopyIn<T>(q: Storage<T>, x: T, at: Position): (r: Storage<T>)
    requires Fits(q)
  {
    var n := |q.slots|;
    match at
    case SendToBack => Storage(q.slots[q.writeTo := x], Next(q.writeTo, n), q.readFrom, q.count + 1)
    case SendToFront => Storage(q.slots[q.readFrom := x], q.writeTo, Previous(q.readFrom, n), q.count + 1)
    case Overwrite =>
      var left := if q.count > 0 then q.count - 1 else q.count;
      Storage(q.slots[q.readFrom := x], q.writeTo, Previous(q.readFrom, n), left + 1)
  }

  /** The item copied out, and the position then last read. */
  function CopyOut<T>(q: Storage<T>): (T, nat)
    requires Fits(q)
  {
    var p := Next(q.readFrom, |q.slots|);
    (q.slots[p], p)
  }

  datatype Request<T> = Send(item: T, at: Position) | Receive | Peek

  datatype Answer<T> = Sent | Full | Got(item: T) | Empty

  /** A request that does not wait, from a task or from an interrupt. */
  function Serve<T>(q: Storage<T>, r: Request<T>): (Storage<T>, Answer<T>)
    requires Fits(q)
  {
    match r
    case Send(x, at) =>
      if q.count < |q.slots| || at == Overwrite then (CopyIn(q, x, at), Sent) else (q, Full)
    case Receive =>
      if q.count > 0 then (q.(readFrom := CopyOut(q).1, count := q.count - 1), Got(CopyOut(q).0)) else (q, Empty)
    case Peek =>
      if q.count > 0 then (q, Got(CopyOut(q).0)) else (q, Empty)
  }

  // ---------------------------------------------------------------- the specification

  /** The same request of a sequence that holds at most `limit` items. */
  function ServeDeque<T>(s: seq<T>, limit: nat, r: Request<T>): (seq<T>, Answer<T>) {
    match r
    case Send(x, SendToBack) => if |s| < limit then (s + [x], Sent) else (s, Full)
    case Send(x, SendToFront) => if |s| < limit then ([x] + s, Sent) else (s, Full)
    case Send(x, Overwrite) => (if s == [] then [x] else [x] + s[1..], Sent)
    case Receive => if s == [] then (s, Empty) else (s[1..], Got(s[0]))
    case Peek => if s == [] then (s, Empty) else (s, Got(s[0]))
  }

  /** The `k` items from slot `p` on. */
  function From<T>(slots: seq<T>, p: nat, k: nat): (s: seq<T>)
    requires p < |slots|
    ensures |s| == k
    decreases k
  {
    if k == 0 then [] else [slots[p]] + From(slots, Next(p, |slots|), k - 1)
  }

  function Contents<T>(q: Storage<T>): seq<T>
    requires Fits(q)
  {
    From(q.slots, Next(q.readFrom, |q.slots|), q.count)
  }

  /** The write position is just past the last item. */
  predicate Inv<T>(q: Storage<T>) {
    Fits(q) && q.writeTo == Along(Next(q.readFrom, |q.slots|), q.count, |q.slots|)
  }

  // ---------------------------------------------------------------- refinement

  lemma {:induction false} FromAppend<T>(slots: seq<T>, p: nat, k: nat)
    requires p < |slots| && k < |slots|
    ensures From(slots, p, k + 1) == From(slots, p, k) + [slots[Along(p, k, |slots|)]]
    decreases k
  {
    if k > 0 {
      FromAppend(slots, Next(p, |slots|), k - 1);
      assert Along(Next(p, |slots|), k - 1, |slots|) == Along(p, k, |slots|);
      var h, t := [slots[p]], From(slots, Next(p, |slots|), k - 1);
      assert (h + t) + [slots[Along(p, k, |slots|)]] == h + (t + [slots[Along(p, k, |slots|)]]);
    }
  }

  /** Writing a slot that is not among the items changes none of them. */
  lemma {:induction false} FromKept<T>(slots: seq<T>, p: nat, k: nat, i: nat, x: T)
    requires p < |slots| && i < |slots| && k <= |slots|
    requires forall j :: 0 <= j < k ==> Along(p, j, |slots|) != i
    ensures From(slots[i := x], p, k) == From(slots, p, k)
    decreases k
  {
    if k > 0 {
      assert Along(p, 0, |slots|) == p;
      forall j | 0 <= j < k - 1 ensures Along(Next(p, |slots|), j, |slots|) != i {
        assert Along(Next(p, |slots|), j, |slots|) == Along(p, j + 1, |slots|);
      }
      FromKept(slots, Next(p, |slots|), k - 1, i, x);
    }
  }

  lemma BackRefines<T>(q: Storage<T>, x: T)
    requires Inv(q) && q.count < |q.slots|
    ensures Inv(CopyIn(q, x, SendToBack))
    ensures Contents(CopyIn(q, x, SendToBack)) == Contents(q) + [x]
  {
    var n, p := |q.slots|, Next(q.readFrom, |q.slots|);
    forall j | 0 <= j < q.count ensures Along(p, j, n) != q.writeTo {}
    FromKept(q.slots, p, q.count, q.writeTo, x);
    FromAppend(q.slots[q.writeTo := x], p, q.count);
  }

  lemma FrontRefines<T>(q: Storage<T>, x: T)
    requires Inv(q) && q.count < |q.slots|
    ensures Inv(CopyIn(q, x, SendToFront))
    ensures Contents(CopyIn(q, x, SendToFront)) == [x] + Contents(q)
  {
    var n, p := |q.slots|, Next(q.readFrom, |q.slots|);
    assert Next(Previous(q.readFrom, n), n) == q.readFrom;
    forall j | 0 <= j < q.count ensures Along(p, j, n) != q.readFrom {}
    FromKept(q.slots, p, q.count, q.readFrom, x);
  }

  lemma OverwriteRefines<T>(q: Storage<T>, x: T)
    requires Inv(q) && |q.slots| == 1
    ensures Inv(CopyIn(q, x, Overwrite)) && Contents(CopyIn(q, x, Overwrite)) == [x]
  {
    var r := CopyIn(q, x, Overwrite);
    assert r == Storage([x], 0, 0, 1);
    assert From([x], 0, 1) == [x] + From([x], 0, 0);
  }

  /** Overwriting is only allowed on queues of length 1. */
  predicate Allowed<T>(q: Storage<T>, r: Request<T>) {
    r.Send? && r.at == Overwrite ==> |q.slots| == 1
  }

  /** Every request of the ring is that request of a bounded double-ended queue. */
  lemma ServeRefines<T>(q: Storage<T>, r: Request<T>)
    requires Inv(q) && Allowed(q, r)
    ensures var (q', a) := Serve(q, r);
            && Inv(q') && |q'.slots| == |q.slots|
            && (Contents(q'), a) == ServeDeque(Contents(q), |q.slots|, r)
  {
    match r
    case Send(x, SendToBack) => if q.count < |q.slots| { BackRefines(q, x); }
    case Send(x, SendToFront) => if q.count < |q.slots| { FrontRefines(q, x); }
    case Send(x, Overwrite) => OverwriteRefines(q, x);
    case Receive =>
    case Peek =>
  }

  // ---------------------------------------------------------------- whole runs

  predicate AllAllowed<T>(q: Storage<T>, rs: seq<Request<T>>) {
    rs == [] || (Allowed(q, rs[0]) && AllAllowed(q, rs[1..]))
  }

  function Answers<T>(q: Storage<T>, rs: seq<Request<T>>): seq<Answer<T>>
    requires Inv(q) && AllAllowed(q, rs)
    decreases |rs|
  {
    if rs == [] then []
    else
      ServeRefines(q, rs[0]);
      SameLengthAllowed(q, Serve(q, rs[0]).0, rs[1..]);
      [Serve(q, rs[0]).1] + Answers(Serve(q, rs[0]).0, rs[1..])
  }

  lemma {:induction false} SameLengthAllowed<T>(q: Storage<T>, q': Storage<T>, rs: seq<Request<T>>)
    requires AllAllowed(q, rs) && |q'.slots| == |q.slots|
    ensures AllAllowed(q', rs)
  {
    if rs != [] {
      SameLengthAllowed(q, q', rs[1..]);
    }
  }

  function DequeAnswers<T>(s: seq<T>, limit: nat, rs: seq<Request<T>>): seq<Answer<T>>
    decreases |rs|
  {
    if rs == [] then []
    else [ServeDeque(s, limit, rs[0]).1] + DequeAnswers(ServeDeque(s, limit, rs[0]).0, limit, rs[1..])
  }

  /** Over any sequence of requests the ring answers as the double-ended queue does. */
  lemma {:induction false} RunRefines<T>(q: Storage<T>, rs: seq<Request<T>>)
    requires Inv(q) && AllAllowed(q, rs)
    ensures Answers(q, rs) == DequeAnswers(Contents(q), |q.slots|, rs)
    decreases |rs|
  {
    if rs != [] {
      ServeRefines(q, rs[0]);
      SameLengthAllowed(q, Serve(q, rs[0]).0, rs[1..]);
      hide Serve, ServeDeque, Contents, Inv;
      RunRefines(Serve(q, rs[0]).0, rs[1..]);
    }
  }

  // ---------------------------------------------------------------- in place

  class QueueStorage<T> {
    const storage: array<T>
    var writeTo: nat
    var readFrom: nat
    var messagesWaiting: nat

    ghost function View(): Storage<T>
      reads this, storage
    {
      Storage(storage[..], writeTo, readFrom, messagesWaiting)
    }

    /** A new or reset queue reads next what it writes first. */
    constructor (length: nat, blank: T)
      requires length > 0
      ensures Inv(View()) && Contents(View()) == [] && storage.Length == length && fresh(storage)
    {
      storage := new T[length](_ => blank);
      writeTo, readFrom, messagesWaiting := 0, length - 1, 0;
    }

    method Reset()
      requires storage.Length > 0
      modifies this
      ensures Inv(View()) && Contents(View()) == []
    {
      messagesWaiting := 0;
      writeTo := 0;
      readFrom := storage.Length - 1;
    }

    method CopyDataToQueue(item: T, position: Position)
      requires Fits(View())
      modifies this, storage
      ensures View() == CopyIn(old(View()), item, position)
    {
      var waiting := messagesWaiting;
      if position == SendToBack {
        storage[writeTo] := item;
        writeTo := writeTo + 1;
        if writeTo >= storage.Length {
          writeTo := 0;
        }
      } else {
        storage[readFrom] := item;
        if readFrom == 0 {
          readFrom := storage.Length - 1;
        } else {
          readFrom := readFrom - 1;
        }
        if position == Overwrite {
          if waiting > 0 {
            waiting := waiting - 1;
          }
        }
      }
      messagesWaiting := waiting + 1;
    }

    method CopyDataFromQueue() returns (item: T)
      requires Fits(View())
      modifies this`readFrom
      ensures (item, readFrom) == CopyOut(old(View()))
    {
      readFrom := readFrom + 1;
      if readFrom >= storage.Length {
        readFrom := 0;
      }
      item := storage[readFrom];
    }

    /** The forms that do not wait, as used by interrupts. */
    method TrySend(item: T, position: Position) returns (answer: Answer<T>)
      requires Fits(View())
      modifies this, storage
      ensures (View(), answer) == Serve(old(View()), Send(item, position))
    {
      if messagesWaiting < storage.Length || position == Overwrite {
        CopyDataToQueue(item, position);
        answer := Sent;
      } else {
        answer := Full;
      }
    }

    method TryReceive() returns (answer: Answer<T>)
      requires Fits(View())
      modifies this
      ensures (View(), answer) == Serve(old(View()), Receive)
    {
      if messagesWaiting > 0 {
        var item := CopyDataFromQueue();
        messagesWaiting := messagesWaiting - 1;
        answer := Got(item);
      } else {
        answer := Empty;
      }
    }

    method TryPeek() returns (answer: Answer<T>)
      requires Fits(View())
      modifies this
      ensures (View(), answer) == Serve(old(View()), Peek)
    {
      if messagesWaiting > 0 {
        var originalReadPosition := readFrom;
        var item := CopyDataFromQueue();
        readFrom := originalReadPosition;
        answer := Got(item);
      } else {
        answer := Empty;
      }
    }
  }
}
