/** Stream and message buffers in the form stream_buffer.c has them: a byte array with head and tail
    updated in place, copied to and from in at most two pieces. */
module StreamStorage {
  import opened QueueRing
  import opened StreamBuffers

  // ---------------------------------------------------------------- what a call does to the contents

  function Shorter(a: nat, b: nat): nat {
    if a < b then a else b
  }

  /** The contents after a send of `data` with room for `space` bytes, and the number of bytes sent. */
  function AfterSend(contents: seq<Byte>, space: nat, data: Message, isMessage: bool): (seq<Byte>, nat) {
    if isMessage then
      if space >= |data| + LENGTH_BYTES && data != [] then (contents + Frame(data), |data|) else (contents, 0)
    else (contents + data[..Shorter(|data|, space)], Shorter(|data|, space))
  }

  /** The contents after a receive by a caller with room for `room` bytes, and the bytes received. */
  function AfterReceive(contents: seq<Byte>, room: nat, isMessage: bool): (seq<Byte>, seq<Byte>) {
    if isMessage then
      if |contents| > LENGTH_BYTES then
        var n := DecodeLength(contents[..4]);
        var count := Shorter(if n > room then 0 else n, |contents| - 4);
        if count == 0 then (contents, []) else (contents[4 + count..], contents[4..4 + count])
      else (contents, [])
    else (contents[Shorter(room, |contents|)..], contents[..Shorter(room, |contents|)])
  }

  lemma NothingSent(contents: seq<Byte>, space: nat, data: Message, isMessage: bool)
    requires AfterSend(contents, space, data, isMessage).1 == 0
    ensures AfterSend(contents, space, data, isMessage) == (contents, 0)
  {
    assert contents + data[..0] == contents;
  }

  /** A receive skips the length of a message and takes so many bytes, or none. */
  lemma ReceiveCases(contents: seq<Byte>, room: nat, isMessage: bool, skipped: nat, count: nat)
    requires skipped == (if isMessage then 4 else 0) && skipped <= |contents| && (isMessage ==> |contents| > 4)
    requires count == Shorter(if !isMessage || DecodeLength(contents[..4]) <= room
                              then (if isMessage then DecodeLength(contents[..4]) else room) else 0,
                              |contents| - skipped)
    ensures AfterReceive(contents, room, isMessage)
         == if count == 0 then (contents, []) else (contents[skipped..][count..], contents[skipped..][..count])
  {
    hide DecodeLength;
    var rest := contents[skipped..];
    assert rest[count..] == contents[skipped + count..] && rest[..count] == contents[skipped..skipped + count];
    assert !isMessage ==> rest == contents && contents[0..] == contents && contents[..0] == [];
    assert contents[0..count] == contents[..count];
  }

  /** A message sent to an empty buffer is received whole if there is room for it, and otherwise
      stays as it is. */
  lemma MessageRoundTrip(m: Message, space: nat, room: nat)
    requires m != [] && space >= |m| + LENGTH_BYTES
    ensures var contents := AfterSend([], space, m, true).0;
            AfterReceive(contents, room, true) == if |m| <= room then ([], m) else (contents, [])
  {
    hide LengthField, DecodeLength;
    FieldIsFour(|m|);
    LengthRoundTrip(|m|);
    var c := AfterSend([], space, m, true).0;
    assert c == Frame(m);
    assert c[..4] == LengthField(|m|) && c[4..4 + |m|] == m && c[4 + |m|..] == [];
  }

  /** A message is appended whole if it is not empty and its length and bytes fit, or not at all. */
  lemma MessageSendMeans(ms: seq<Message>, m: Message, space: nat)
    ensures AfterSend(Frames(ms), space, m, true)
         == if m != [] && |m| + 4 <= space then (Frames(ms + [m]), |m|) else (Frames(ms), 0)
  {
    FramesAppend(ms, m);
  }

  /** A receive takes exactly the oldest message if the caller has room for it, and otherwise nothing. */
  lemma MessageReceiveMeans(m: Message, ms: seq<Message>, room: nat)
    requires m != []
    ensures var contents := Frames([m] + ms);
            AfterReceive(contents, room, true) == if |m| <= room then (Frames(ms), m) else (contents, [])
  {
    hide LengthField, DecodeLength;
    FieldIsFour(|m|);
    LengthRoundTrip(|m|);
    assert ([m] + ms)[1..] == ms;
    var f, rest := LengthField(|m|), Frames(ms);
    var contents := Frames([m] + ms);
    assert contents == f + m + rest;
    assert contents[..4] == f && contents[4..4 + |m|] == m && contents[4 + |m|..] == rest;
  }

  /** Of a stream as much is sent as there is data and room for, and not a byte less. */
  lemma StreamSendMeans(contents: seq<Byte>, space: nat, data: Message)
    ensures var (contents', sent) := AfterSend(contents, space, data, false);
            && sent <= |data| && sent <= space && (sent == |data| || sent == space)
            && contents' == contents + data[..sent]
  {
  }

  /** And as much is received as there are bytes and room for, in order. */
  lemma StreamReceiveMeans(contents: seq<Byte>, room: nat)
    ensures var (left, data) := AfterReceive(contents, room, false);
            data + left == contents && |data| <= room && (|data| == room || left == [])
  {
  }

  // ---------------------------------------------------------------- the ring after a write

  /** Exactly the `|data|` slots from `p` on are written. */
  ghost predicate Written(before: seq<Byte>, after: seq<Byte>, p: nat, data: seq<Byte>)
    requires p < |before|
  {
    && |after| == |before|
    && (forall k :: 0 <= k < |data| ==> Along(p, k, |before|) < |before| && after[Along(p, k, |before|)] == data[k])
    && (forall i :: 0 <= i < |before| && !InRun(p, |data|, |before|, i) ==> after[i] == before[i])
  }

  /** Slot `i` is one of the `n` from `p` on. */
  predicate InRun(p: nat, n: nat, length: nat, i: nat) {
    p <= i < p + n || p <= i + length < p + n
  }

  lemma {:induction false} WrittenIsFrom(before: seq<Byte>, after: seq<Byte>, p: nat, data: seq<Byte>)
    requires p < |before| && |after| == |before| && |data| <= |before|
    requires forall k :: 0 <= k < |data| ==> Along(p, k, |before|) < |before| && after[Along(p, k, |before|)] == data[k]
    ensures From(after, p, |data|) == data
    decreases |data|
  {
    if data != [] {
      assert after[Along(p, 0, |before|)] == data[0];
      var q := Next(p, |before|);
      forall k | 0 <= k < |data| - 1
        ensures Along(q, k, |before|) < |before| && after[Along(q, k, |before|)] == data[1..][k] {
        assert Along(q, k, |before|) == Along(p, k + 1, |before|);
        assert after[Along(p, k + 1, |before|)] == data[k + 1];
      }
      WrittenIsFrom(before, after, q, data[1..]);
    }
  }

  lemma {:induction false} UnwrittenIsFrom(before: seq<Byte>, after: seq<Byte>, tail: nat, n: nat)
    requires tail < |before| && |after| == |before| && n <= |before|
    requires forall k :: 0 <= k < n ==>
               (Along(tail, k, |before|) < |before|
                && after[Along(tail, k, |before|)] == before[Along(tail, k, |before|)])
    ensures From(after, tail, n) == From(before, tail, n)
    decreases n
  {
    if n > 0 {
      assert after[Along(tail, 0, |before|)] == before[Along(tail, 0, |before|)];
      var q := Next(tail, |before|);
      forall k | 0 <= k < n - 1
        ensures Along(q, k, |before|) < |before|
             && after[Along(q, k, |before|)] == before[Along(q, k, |before|)] {
        assert Along(q, k, |before|) == Along(tail, k + 1, |before|);
        assert after[Along(tail, k + 1, |before|)] == before[Along(tail, k + 1, |before|)];
      }
      UnwrittenIsFrom(before, after, q, n - 1);
    }
  }

  /** Bytes written behind the `used` unread ones leave those as they are ... */
  lemma UnreadKept(before: seq<Byte>, after: seq<Byte>, tail: nat, used: nat, data: seq<Byte>)
    requires tail < |before| && used + |data| < |before|
    requires Written(before, after, Along(tail, used, |before|), data)
    ensures From(after, tail, used) == From(before, tail, used)
  {
    var length := |before|;
    var p := Along(tail, used, length);
    forall k | 0 <= k < used
      ensures Along(tail, k, length) < length && after[Along(tail, k, length)] == before[Along(tail, k, length)] {
      assert !InRun(p, |data|, length, Along(tail, k, length));
    }
    UnwrittenIsFrom(before, after, tail, used);
  }

  /** ... and join them when the head is moved. */
  lemma WriteAppends(before: seq<Byte>, after: seq<Byte>, tail: nat, used: nat, data: seq<Byte>)
    requires tail < |before| && used + |data| < |before|
    requires Written(before, after, Along(tail, used, |before|), data)
    ensures From(after, tail, used + |data|) == From(before, tail, used) + data
  {
    UnreadKept(before, after, tail, used, data);
    WrittenIsFrom(before, after, Along(tail, used, |before|), data);
    FromSplit(after, tail, used, |data|);
    hide From;
  }

  lemma HeadIsAlong(length: nat, head: nat, tail: nat)
    requires head < length && tail < length
    ensures head == Along(tail, BytesInBuffer(length, head, tail), length)
  {
  }

  /** A length and then a message, written from the head on, become unread when the head is moved. */
  lemma MessageAppends(before: seq<Byte>, between: seq<Byte>, after: seq<Byte>, head: nat, tail: nat, m: Message)
    requires head < |before| && tail < |before| && |between| == |before|
    requires var used := BytesInBuffer(|before|, head, tail);
             used + 4 + |m| < |before| && head == Along(tail, used, |before|)
    requires Written(before, between, head, LengthField(|m|))
    requires Along(head, 4, |before|) < |before| && Written(between, after, Along(head, 4, |before|), m)
    ensures var head', used := Along(Along(head, 4, |before|), |m|, |before|), BytesInBuffer(|before|, head, tail);
            && head' < |before| && BytesInBuffer(|before|, head', tail) == used + |Frame(m)|
            && From(after, tail, used + |Frame(m)|) == From(before, tail, used) + Frame(m)
  {
    FieldIsFour(|m|);
    hide Written, From, BytesInBuffer, LengthField;
    var used := BytesInBuffer(|before|, head, tail);
    WrittenTogether(before, between, after, head, LengthField(|m|), m);
    WriteAppends(before, after, tail, used, Frame(m));
    HeadMoved(|before|, head, tail, |Frame(m)|);
    AlongTwice(|before|, head, 4, |m|);
  }

  // ---------------------------------------------------------------- in place

  class StreamBuffer {
    const buffer: array<Byte>
    const isMessageBuffer: bool
    var head: nat
    var tail: nat

    ghost predicate Valid()
      reads this
    {
      head < buffer.Length && tail < buffer.Length
    }

    ghost function Contents(): seq<Byte>
      requires Valid()
      reads this, buffer
    {
      From(buffer[..], tail, Used())
    }

    ghost function Used(): (n: nat)
      requires Valid()
      reads this
      ensures n < buffer.Length
    {
      BytesInBuffer(buffer.Length, head, tail)
    }

    constructor (length: nat, isMessageBuffer: bool)
      requires length > 0
      ensures Valid() && Contents() == [] && fresh(buffer) && buffer.Length == length
      ensures this.isMessageBuffer == isMessageBuffer
    {
      buffer := new Byte[length](_ => 0);
      this.isMessageBuffer := isMessageBuffer;
      head, tail := 0, 0;
    }

    method GetBytesInBuffer() returns (count: nat)
      requires Valid()
      ensures count == Used()
    {
      count := buffer.Length + head;
      count := count - tail;
      if count >= buffer.Length {
        count := count - buffer.Length;
      }
    }

    method GetSpacesAvailable() returns (space: nat)
      requires Valid()
      ensures space == buffer.Length - 1 - Used()
    {
      space := buffer.Length + tail;
      space := space - head;
      space := space - 1;
      if space >= buffer.Length {
        space := space - buffer.Length;
      }
    }

    /** Copy bytes to consecutive slots. */
    method CopyIn(data: seq<Byte>, start: nat)
      requires start + |data| <= buffer.Length
      modifies buffer
      ensures forall i :: 0 <= i < |data| ==> buffer[start + i] == data[i]
      ensures forall i :: 0 <= i < buffer.Length && !(start <= i < start + |data|) ==> buffer[i] == old(buffer[i])
    {
      var k := 0;
      while k < |data|
        invariant 0 <= k <= |data|
        invariant forall i :: 0 <= i < k ==> buffer[start + i] == data[i]
        invariant forall i :: 0 <= i < buffer.Length && !(start <= i < start + k) ==> buffer[i] == old(buffer[i])
      {
        buffer[start + k] := data[k];
        k := k + 1;
      }
    }

    /** Write from slot `at` on, in two pieces if the end is in the way; the head is not moved. */
    method WriteBytesToBuffer(data: seq<Byte>, at: nat) returns (next: nat)
      requires at < buffer.Length && 0 < |data| < buffer.Length
      modifies buffer
      ensures Written(old(buffer[..]), buffer[..], at, data)
      ensures next == Along(at, |data|, buffer.Length)
    {
      var firstLength := Shorter(buffer.Length - at, |data|);
      CopyIn(data[..firstLength], at);
      ghost var middle := buffer[..];
      if |data| > firstLength {
        CopyIn(data[firstLength..], 0);
      }
      TwoPieces(old(buffer[..]), middle, buffer[..], at, data, firstLength);
      next := at + |data|;
      if next >= buffer.Length {
        next := next - buffer.Length;
      }
    }

    /** Read from slot `at` on, likewise; the tail is not moved. */
    method ReadBytesFromBuffer(count: nat, at: nat) returns (data: seq<Byte>, next: nat)
      requires at < buffer.Length && 0 < count < buffer.Length
      ensures data == From(buffer[..], at, count) && next == Along(at, count, buffer.Length)
    {
      var firstLength := Shorter(buffer.Length - at, count);
      data := buffer[at..at + firstLength];
      if count > firstLength {
        data := data + buffer[..count - firstLength];
      }
      ReadInPieces(buffer[..], at, count, data);
      next := at + count;
      if next >= buffer.Length {
        next := next - buffer.Length;
      }
    }

    /** `space` is the room found before; all of a message is written, or as much of a stream as fits. */
    method WriteMessageToBuffer(data: Message, space: nat) returns (sent: nat)
      requires Valid() && space == buffer.Length - 1 - Used()
      modifies this`head, buffer
      ensures Valid()
      ensures (Contents(), sent) == AfterSend(old(Contents()), space, data, isMessageBuffer)
    {
      hide Written, From, BytesInBuffer, LengthField;
      HeadIsAlong(buffer.Length, head, tail);
      ghost var before, used, contents := buffer[..], Used(), Contents();
      SizesAddUp(buffer.Length, head, tail);
      FieldIsFour(|data|);
      var nextHead := head;
      sent := |data|;
      if isMessageBuffer {
        if space >= |data| + LENGTH_BYTES {
          nextHead := WriteBytesToBuffer(LengthField(|data|), nextHead);
        } else {
          sent := 0;
        }
      } else {
        sent := Shorter(|data|, space);
      }
      ghost var withLength := buffer[..];
      if sent != 0 {
        nextHead := WriteBytesToBuffer(data[..sent], nextHead);
        assert data[..|data|] == data;
        if isMessageBuffer {
          MessageAppends(before, withLength, buffer[..], head, tail, data);
        } else {
          WriteAppends(before, buffer[..], tail, used, data[..sent]);
          HeadMoved(buffer.Length, head, tail, sent);
        }
        head := nextHead;
      } else {
        if isMessageBuffer && space >= |data| + LENGTH_BYTES {
          UnreadKept(before, buffer[..], tail, used, LengthField(|data|));
        }
        NothingSent(contents, space, data, isMessageBuffer);
      }
    }

    /** The part of a receive that reads; `available` is the number of bytes found before. */
    method ReadMessageFromBuffer(room: nat, available: nat) returns (data: seq<Byte>)
      requires Valid() && available == Used() && (isMessageBuffer ==> available > LENGTH_BYTES)
      modifies this`tail
      ensures Valid()
      ensures (Contents(), data) == AfterReceive(old(Contents()), room, isMessageBuffer)
    {
      hide From, BytesInBuffer, DecodeLength;
      ghost var contents := Contents();
      var nextTail, left, nextMessageLength := tail, available, room;
      if isMessageBuffer {
        var field;
        field, nextTail := ReadBytesFromBuffer(LENGTH_BYTES, nextTail);
        SplitContents(buffer[..], tail, available, LENGTH_BYTES);
        nextMessageLength := DecodeLength(field);
        left := left - LENGTH_BYTES;
        if nextMessageLength > room {
          nextMessageLength := 0;
        }
      }
      var count := Shorter(nextMessageLength, left);
      data := [];
      ReceiveCases(contents, room, isMessageBuffer, available - left, count);
      if count != 0 {
        ghost var skipped := available - left;
        SizesAddUp(buffer.Length, head, tail);
        SplitContents(buffer[..], tail, available, skipped);
        SplitContents(buffer[..], Along(tail, skipped, buffer.Length), left, count);
        AlongTwice(buffer.Length, tail, skipped, count);
        AlongNone(buffer.Length, tail);
        TailMoved(buffer.Length, head, tail, skipped + count);
        data, nextTail := ReadBytesFromBuffer(count, nextTail);
        tail := nextTail;
      }
    }

    method Send(data: Message) returns (sent: nat)
      requires Valid()
      modifies this`head, buffer
      ensures Valid()
      ensures (Contents(), sent) == AfterSend(old(Contents()), buffer.Length - 1 - old(Used()), data, isMessageBuffer)
    {
      hide From, BytesInBuffer;
      var space := GetSpacesAvailable();
      sent := WriteMessageToBuffer(data, space);
    }

    method Receive(room: nat) returns (data: seq<Byte>)
      requires Valid()
      modifies this`tail
      ensures Valid()
      ensures (Contents(), data) == AfterReceive(old(Contents()), room, isMessageBuffer)
    {
      hide From, BytesInBuffer, DecodeLength;
      var toStoreLength := if isMessageBuffer then LENGTH_BYTES else 0;
      var available := GetBytesInBuffer();
      data := [];
      if available > toStoreLength {
        data := ReadMessageFromBuffer(room, available);
      }
    }
  }

  // ---------------------------------------------------------------- two pieces make one run

  lemma TwoPieces(before: seq<Byte>, middle: seq<Byte>, after: seq<Byte>, at: nat, data: seq<Byte>, first: nat)
    requires at < |before| && |data| < |before| && |middle| == |before| == |after|
    requires first == Shorter(|before| - at, |data|)
    requires forall i :: 0 <= i < first ==> middle[at + i] == data[..first][i]
    requires forall i :: 0 <= i < |before| && !(at <= i < at + first) ==> middle[i] == before[i]
    requires forall i :: 0 <= i < |data| - first ==> after[0 + i] == data[first..][i]
    requires forall i :: 0 <= i < |before| && !(0 <= i < 0 + (|data| - first)) ==> after[i] == middle[i]
    ensures Written(before, after, at, data)
  {
    forall k | 0 <= k < |data|
      ensures Along(at, k, |before|) < |before| && after[Along(at, k, |before|)] == data[k] {
      if k < first {
        assert after[at + k] == middle[at + k] == data[..first][k];
      } else {
        assert after[0 + (k - first)] == data[first..][k - first];
      }
    }
  }

  lemma ReadInPieces(b: seq<Byte>, at: nat, count: nat, data: seq<Byte>)
    requires at < |b| && count < |b|
    requires data == if at + count <= |b| then b[at..at + count] else b[at..] + b[..at + count - |b|]
    ensures data == From(b, at, count)
  {
    forall k | 0 <= k < count ensures Along(at, k, |b|) < |b| && b[Along(at, k, |b|)] == data[k] {}
    WrittenIsFrom(b, b, at, data);
  }

  lemma WrittenTogether(before: seq<Byte>, middle: seq<Byte>, after: seq<Byte>, at: nat, x: seq<Byte>, y: seq<Byte>)
    requires at < |before| && |x| + |y| < |before|
    requires Written(before, middle, at, x) && Written(middle, after, Along(at, |x|, |before|), y)
    ensures Written(before, after, at, x + y)
  {
    var n, q := |before|, Along(at, |x|, |before|);
    forall k | 0 <= k < |x + y| ensures Along(at, k, n) < n && after[Along(at, k, n)] == (x + y)[k] {
      if k < |x| {
        assert !InRun(q, |y|, n, Along(at, k, n));
      } else {
        assert Along(q, k - |x|, n) == Along(at, k, n);
        assert after[Along(q, k - |x|, n)] == y[k - |x|];
      }
    }
    forall i | 0 <= i < n && !InRun(at, |x + y|, n, i) ensures after[i] == before[i] {
      assert !InRun(at, |x|, n, i) && !InRun(q, |y|, n, i);
    }
  }

  lemma HeadMoved(length: nat, head: nat, tail: nat, n: nat)
    requires head < length && tail < length && BytesInBuffer(length, head, tail) + n < length
    ensures Along(head, n, length) < length
    ensures BytesInBuffer(length, Along(head, n, length), tail) == BytesInBuffer(length, head, tail) + n
  {
  }

  lemma AlongTwice(length: nat, p: nat, a: nat, b: nat)
    requires p < length && a + b < length
    ensures Along(Along(p, a, length), b, length) == Along(p, a + b, length)
  {
  }

  lemma AlongNone(length: nat, p: nat)
    requires p < length
    ensures Along(p, 0, length) == p
  {
  }

  /** The first `k` of `n` bytes, and the rest. */
  lemma SplitContents(b: seq<Byte>, p: nat, n: nat, k: nat)
    requires p < |b| && k <= n < |b|
    ensures From(b, p, n)[..k] == From(b, p, k) && Along(p, k, |b|) < |b|
    ensures From(b, p, n)[k..] == From(b, Along(p, k, |b|), n - k)
  {
    FromSplit(b, p, k, n - k);
    hide From;
  }
}
