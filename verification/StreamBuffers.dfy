/** Stream and message buffers: a ring of bytes between one writer and one reader that run
    concurrently.  Bytes are copied one at a time; what the other side sees changes only when the head
    or the tail is stored. */
module StreamBuffers {
  import opened Words
  import opened QueueRing

  type Byte = b: int | 0 <= b < 256

  // ---------------------------------------------------------------- sizes

  /** The distance from the tail to the head, as the source computes it. */
  function BytesInBuffer(length: nat, head: nat, tail: nat): int {
    var count := length + head - tail;
    if count >= length then count - length else count
  }

  /** The room there is, one byte less than the length at most. */
  function SpacesAvailable(length: nat, head: nat, tail: nat): int {
    var space := length + tail - head - 1;
    if space >= length then space - length else space
  }

  /** Neither computation goes below zero, and together the two make the length less one. */
  lemma SizesAddUp(length: nat, head: nat, tail: nat)
    requires head < length && tail < length
    ensures 0 <= BytesInBuffer(length, head, tail) < length
    ensures SpacesAvailable(length, head, tail) == length - 1 - BytesInBuffer(length, head, tail)
    ensures Along(tail, BytesInBuffer(length, head, tail), length) == head
  {
  }

  // ---------------------------------------------------------------- the concurrent state

  /** What the writer is copying in, and how much of it; what the reader has copied out, of how much. */
  datatype Writer = Still | Writing(data: seq<Byte>, done: nat)
  datatype Reader = Quiet | Reading(got: seq<Byte>, want: nat)

  /** `sent` are the bytes that have been published by a store of the head, `taken` those given back
      by a store of the tail. */
  datatype Pipe = Pipe(buffer: seq<Byte>, head: nat, tail: nat, writer: Writer, reader: Reader,
                       sent: seq<Byte>, taken: seq<Byte>)

  predicate Fits(p: Pipe) {
    p.head < |p.buffer| && p.tail < |p.buffer|
  }

  function Available(p: Pipe): (n: nat)
    requires Fits(p)
    ensures n < |p.buffer|
  {
    BytesInBuffer(|p.buffer|, p.head, p.tail)
  }

  function Space(p: Pipe): (n: nat)
    requires Fits(p)
  {
    SpacesAvailable(|p.buffer|, p.head, p.tail)
  }

  /** The bytes between tail and head. */
  function Unread(p: Pipe): (s: seq<Byte>)
    requires Fits(p)
    ensures |s| == Available(p)
  {
    From(p.buffer, p.tail, Available(p))
  }

  // ---------------------------------------------------------------- steps

  datatype Step =
    | StartsWrite(data: seq<Byte>) | WritesByte | StoresHead | DropsWrite
    | StartsRead(n: nat) | ReadsOn(n: nat) | ReadsByte | StoresTail | DropsRead

  /** A write is begun for no more than there was room, a read for no more than there were bytes; the
      other side can only have made more since. */
  predicate Possible(p: Pipe, s: Step)
    requires Fits(p)
  {
    match s
    case StartsWrite(data) => p.writer == Still && data != [] && |data| <= Space(p)
    case WritesByte => p.writer.Writing? && p.writer.done < |p.writer.data|
    case StoresHead => p.writer.Writing? && p.writer.done == |p.writer.data|
    case DropsWrite => p.writer.Writing?
    case StartsRead(n) => p.reader == Quiet && n <= Available(p)
    case ReadsOn(n) => p.reader.Reading? && p.reader.want + n <= Available(p)
    case ReadsByte => p.reader.Reading? && |p.reader.got| < p.reader.want
    case StoresTail => p.reader.Reading? && |p.reader.got| == p.reader.want
    case DropsRead => p.reader.Reading?
  }

  function Apply(p: Pipe, s: Step): Pipe
    requires Fits(p) && Possible(p, s)
  {
    var length := |p.buffer|;
    match s
    case StartsWrite(data) => p.(writer := Writing(data, 0))
    case WritesByte =>
      p.(buffer := p.buffer[Along(p.head, p.writer.done, length) := p.writer.data[p.writer.done]],
         writer := p.writer.(done := p.writer.done + 1))
    case StoresHead =>
      p.(head := Along(p.head, |p.writer.data|, length), sent := p.sent + p.writer.data, writer := Still)
    case DropsWrite => p.(writer := Still)
    case StartsRead(n) => p.(reader := Reading([], n))
    case ReadsOn(n) => p.(reader := p.reader.(want := p.reader.want + n))
    case ReadsByte =>
      p.(reader := p.reader.(got := p.reader.got + [p.buffer[Along(p.tail, |p.reader.got|, length)]]))
    case StoresTail =>
      p.(tail := Along(p.tail, p.reader.want, length), taken := p.taken + p.reader.got, reader := Quiet)
    case DropsRead => p.(reader := Quiet)
  }

  // ---------------------------------------------------------------- the invariant

  /** What the writer has copied so far lies behind the head, in room that is free. */
  predicate WriterOk(p: Pipe)
    requires Fits(p)
  {
    p.writer.Writing? ==>
      && p.writer.done <= |p.writer.data| <= Space(p)
      && From(p.buffer, p.head, p.writer.done) == p.writer.data[..p.writer.done]
  }

  /** What the reader has copied so far are the first of the unread bytes. */
  predicate ReaderOk(p: Pipe)
    requires Fits(p)
  {
    p.reader.Reading? ==>
      && |p.reader.got| <= p.reader.want <= Available(p)
      && p.reader.got == Unread(p)[..|p.reader.got|]
  }

  predicate Inv(p: Pipe) {
    Fits(p) && WriterOk(p) && ReaderOk(p) && p.sent == p.taken + Unread(p)
  }

  // ---------------------------------------------------------------- runs of the ring

  lemma {:induction false} FromSplit<T>(slots: seq<T>, p: nat, j: nat, k: nat)
    requires p < |slots| && j < |slots|
    ensures From(slots, p, j + k) == From(slots, p, j) + From(slots, Along(p, j, |slots|), k)
    decreases j
  {
    if j > 0 {
      FromSplit(slots, Next(p, |slots|), j - 1, k);
      assert Along(Next(p, |slots|), j - 1, |slots|) == Along(p, j, |slots|);
    }
  }

  lemma {:induction false} FromAt<T>(slots: seq<T>, p: nat, k: nat, i: nat)
    requires p < |slots| && i < k <= |slots|
    ensures From(slots, p, k)[i] == slots[Along(p, i, |slots|)]
    decreases k
  {
    if i > 0 {
      FromAt(slots, Next(p, |slots|), k - 1, i - 1);
      assert Along(Next(p, |slots|), i - 1, |slots|) == Along(p, i, |slots|);
    }
  }

  /** The writer's slots are not the reader's. */
  lemma SlotsApart(length: nat, head: nat, tail: nat, i: nat, j: nat)
    requires head < length && tail < length
    requires i < SpacesAvailable(length, head, tail) && j < BytesInBuffer(length, head, tail)
    ensures Along(head, i, length) != Along(tail, j, length)
  {
  }

  lemma SlotsDistinct(length: nat, p: nat, i: nat, j: nat)
    requires p < length && i < j < length
    ensures Along(p, i, length) != Along(p, j, length)
  {
  }

  /** The writer never overwrites an unread byte. */
  lemma UnreadUntouched(p: Pipe)
    requires Inv(p) && Possible(p, WritesByte)
    ensures Unread(Apply(p, WritesByte)) == Unread(p)
  {
    var length, i := |p.buffer|, Along(p.head, p.writer.done, |p.buffer|);
    forall j | 0 <= j < Available(p) ensures Along(p.tail, j, length) != i {
      SlotsApart(length, p.head, p.tail, p.writer.done, j);
    }
    FromKept(p.buffer, p.tail, Available(p), i, p.writer.data[p.writer.done]);
  }

  lemma WriteByteKeeps(p: Pipe)
    requires Inv(p) && Possible(p, WritesByte)
    ensures Inv(Apply(p, WritesByte))
  {
    var length, d := |p.buffer|, p.writer.done;
    var i, x := Along(p.head, d, length), p.writer.data[d];
    UnreadUntouched(p);
    forall j | 0 <= j < d ensures Along(p.head, j, length) != i { SlotsDistinct(length, p.head, j, d); }
    FromKept(p.buffer, p.head, d, i, x);
    FromAppend(p.buffer[i := x], p.head, d);
    hide From;
  }

  lemma StoreHeadKeeps(p: Pipe)
    requires Inv(p) && Possible(p, StoresHead)
    ensures Inv(Apply(p, StoresHead)) && Unread(Apply(p, StoresHead)) == Unread(p) + p.writer.data
  {
    var n := |p.writer.data|;
    SizesAddUp(|p.buffer|, p.head, p.tail);
    SizesAddUp(|p.buffer|, Along(p.head, n, |p.buffer|), p.tail);
    FromSplit(p.buffer, p.tail, Available(p), n);
    assert p.writer.data[..n] == p.writer.data;
    hide From;
  }

  lemma TailMoved(length: nat, head: nat, tail: nat, n: nat)
    requires head < length && tail < length && n <= BytesInBuffer(length, head, tail)
    ensures var tail' := Along(tail, n, length);
            && tail' < length && BytesInBuffer(length, head, tail') == BytesInBuffer(length, head, tail) - n
            && SpacesAvailable(length, head, tail') == SpacesAvailable(length, head, tail) + n
  {
  }

  lemma StoreTailKeeps(p: Pipe)
    requires Inv(p) && Possible(p, StoresTail)
    ensures Inv(Apply(p, StoresTail))
    ensures p.reader.got == Unread(p)[..p.reader.want]
    ensures Unread(Apply(p, StoresTail)) == Unread(p)[p.reader.want..]
  {
    var n := p.reader.want;
    TailMoved(|p.buffer|, p.head, p.tail, n);
    FromSplit(p.buffer, p.tail, n, Available(p) - n);
    hide From, BytesInBuffer, SpacesAvailable, Along;
    assert Unread(Apply(p, StoresTail)) == Unread(p)[n..];
    hide Unread;
    MovedOver(p.taken, Unread(p), n);
  }

  lemma MovedOver<T>(a: seq<T>, b: seq<T>, n: nat)
    requires n <= |b|
    ensures a + b == (a + b[..n]) + b[n..]
  {
  }

  lemma ReadByteKeeps(p: Pipe)
    requires Inv(p) && Possible(p, ReadsByte)
    ensures Inv(Apply(p, ReadsByte))
  {
    var k := |p.reader.got|;
    FromAt(p.buffer, p.tail, Available(p), k);
    assert Unread(p)[..k + 1] == Unread(p)[..k] + [Unread(p)[k]];
    hide From;
  }

  /** What each step leaves of the unread bytes. */
  function UnreadAfter(p: Pipe, s: Step): seq<Byte>
    requires Fits(p) && Possible(p, s)
  {
    match s
    case StoresHead => Unread(p) + p.writer.data
    case StoresTail => if p.reader.want <= Available(p) then Unread(p)[p.reader.want..] else []
    case _ => Unread(p)
  }

  lemma StepKeeps(p: Pipe, s: Step)
    requires Inv(p) && Possible(p, s)
    ensures Inv(Apply(p, s)) && Unread(Apply(p, s)) == UnreadAfter(p, s)
    ensures |Apply(p, s).buffer| == |p.buffer|
  {
    hide From;
    match s
    case StartsWrite(data) => EmptyFrom(p.buffer, p.head);
    case WritesByte => WriteByteKeeps(p); UnreadUntouched(p);
    case StoresHead => StoreHeadKeeps(p);
    case DropsWrite =>
    case StartsRead(n) =>
    case ReadsOn(n) =>
    case ReadsByte => ReadByteKeeps(p);
    case StoresTail => StoreTailKeeps(p);
    case DropsRead =>
  }

  lemma EmptyFrom<T>(slots: seq<T>, p: nat)
    requires p < |slots|
    ensures From(slots, p, 0) == []
  {
  }

  // ---------------------------------------------------------------- whole runs, as a stream

  predicate PossibleRun(p: Pipe, ss: seq<Step>)
    decreases |ss|
  {
    ss == [] || (Fits(p) && Possible(p, ss[0]) && PossibleRun(Apply(p, ss[0]), ss[1..]))
  }

  function Run(p: Pipe, ss: seq<Step>): Pipe
    requires PossibleRun(p, ss)
    decreases |ss|
  {
    if ss == [] then p else Run(Apply(p, ss[0]), ss[1..])
  }

  lemma {:induction false} RunKeeps(p: Pipe, ss: seq<Step>)
    requires Inv(p) && PossibleRun(p, ss)
    ensures Inv(Run(p, ss))
    decreases |ss|
  {
    if ss != [] {
      hide Inv, Possible, Apply;
      InvFits(p);
      StepKeeps(p, ss[0]);
      RunKeeps(Apply(p, ss[0]), ss[1..]);
    }
  }

  lemma InvFits(p: Pipe)
    requires Inv(p)
    ensures Fits(p)
  {
  }

  function NewPipe(buffer: seq<Byte>): Pipe {
    Pipe(buffer, 0, 0, Still, Quiet, [], [])
  }

  /** However writer and reader interleave, the bytes received are a prefix of the bytes sent, and what
      is missing is what lies unread in the buffer. */
  lemma ReceivedIsPrefix(buffer: seq<Byte>, ss: seq<Step>)
    requires buffer != [] && PossibleRun(NewPipe(buffer), ss)
    ensures var p := Run(NewPipe(buffer), ss);
            && Fits(p) && p.taken <= p.sent && p.sent == p.taken + Unread(p)
  {
    assert Unread(NewPipe(buffer)) == [];
    RunKeeps(NewPipe(buffer), ss);
    hide Run;
  }

  // ---------------------------------------------------------------- messages

  const LENGTH_BYTES: nat := 4

  type Message = m: seq<Byte> | |m| < 0x1_0000_0000

  /** The length of a message as it is stored. */
  function LengthField(n: Word): seq<Byte> {
    BytesAssemble(n);
    [ByteOf(n, 0), ByteOf(n, 1), ByteOf(n, 2), ByteOf(n, 3)]
  }

  function DecodeLength(b: seq<Byte>): nat
    requires |b| == 4
  {
    Assembled(b[0], b[1], b[2], b[3])
  }

  lemma LengthRoundTrip(n: Word)
    ensures DecodeLength(LengthField(n)) == n
  {
    BytesAssemble(n);
    hide ByteOf;
  }

  function Frame(m: Message): seq<Byte> {
    LengthField(|m|) + m
  }

  function Frames(ms: seq<Message>): seq<Byte> {
    if ms == [] then [] else Frame(ms[0]) + Frames(ms[1..])
  }

  lemma {:induction false} FramesAppend(ms: seq<Message>, m: Message)
    ensures Frames(ms + [m]) == Frames(ms) + Frame(m)
  {
    if ms == [] {
      assert ms + [m] == [m] && [m][1..] == [];
      assert Frames([m]) == Frame(m) + [];
    } else {
      FramesAppend(ms[1..], m);
      assert (ms + [m])[1..] == ms[1..] + [m];
    }
  }

  /** The concurrent state of a message buffer: messages published and not yet taken, messages
      delivered, and how much room the reader's caller gave and how many bytes there were. */
  datatype Mailbox = Mailbox(pipe: Pipe, sending: Message, queue: seq<Message>, delivered: seq<Message>,
                             room: nat, seen: nat, header: bool)

  datatype MailStep =
    | BeginsSend(m: Message) | CopiesIn | Publishes | PublishesNothing
    | BeginsReceive(room: nat) | CopiesOut | ReadsLength | Takes

  /** A message is written only if it fits as a whole, and read only if more than a length is there.
      Of an empty message the length is written but the head not stored. */
  predicate MailPossible(b: Mailbox, s: MailStep)
    requires Fits(b.pipe)
  {
    var p := b.pipe;
    match s
    case BeginsSend(m) => p.writer == Still && |Frame(m)| <= Space(p)
    case CopiesIn => Possible(p, WritesByte)
    case Publishes => b.sending != [] && Possible(p, StoresHead)
    case PublishesNothing => b.sending == [] && Possible(p, StoresHead)
    case BeginsReceive(_) => p.reader == Quiet && Available(p) > LENGTH_BYTES
    case CopiesOut => Possible(p, ReadsByte)
    case ReadsLength => p.reader.Reading? && b.header && |p.reader.got| == LENGTH_BYTES == p.reader.want
    case Takes => !b.header && Possible(p, StoresTail)
  }

  function Min(a: nat, b: nat): nat {
    if a < b then a else b
  }

  /** The number of bytes of the message to read: none if the caller's buffer is too small. */
  function Wanted(b: Mailbox): nat
    requires b.pipe.reader.Reading? && |b.pipe.reader.got| == 4
  {
    var n := DecodeLength(b.pipe.reader.got);
    Min(if n > b.room then 0 else n, if b.seen < 4 then 0 else b.seen - 4)
  }

  /** The steps of the pipe that the steps of a message buffer are made of. */
  function PipeStep(b: Mailbox, s: MailStep): Step
    requires Fits(b.pipe) && MailPossible(b, s)
  {
    match s
    case BeginsSend(m) => StartsWrite(Frame(m))
    case CopiesIn => WritesByte
    case Publishes => StoresHead
    case PublishesNothing => DropsWrite
    case BeginsReceive(_) => StartsRead(LENGTH_BYTES)
    case CopiesOut => ReadsByte
    case ReadsLength => if Wanted(b) == 0 then DropsRead else ReadsOn(Wanted(b))
    case Takes => StoresTail
  }

  function MailApply(b: Mailbox, s: MailStep): Mailbox
    requires Fits(b.pipe) && MailPossible(b, s) && Possible(b.pipe, PipeStep(b, s))
  {
    var b1 := b.(pipe := Apply(b.pipe, PipeStep(b, s)));
    match s
    case BeginsSend(m) => b1.(sending := m)
    case Publishes => b1.(queue := b.queue + [b.sending])
    case BeginsReceive(room) => b1.(room := room, seen := Available(b.pipe), header := true)
    case ReadsLength => b1.(header := false)
    case Takes =>
      b1.(queue := if b.queue == [] then [] else b.queue[1..],
          delivered := b.delivered + [if |b.pipe.reader.got| < 4 then [] else Body(b.pipe.reader.got)])
    case _ => b1
  }

  function Body(got: seq<Byte>): Message
    requires |got| >= 4
  {
    if |got| < 0x1_0000_0004 then got[4..] else []
  }

  /** The unread bytes are the frames of the queued messages, and a reader past the length is reading
      the first of them, for which the caller gave room. */
  ghost predicate MailInv(b: Mailbox) {
    && Inv(b.pipe) && Unread(b.pipe) == Frames(b.queue)
    && (forall i :: 0 <= i < |b.queue| ==> b.queue[i] != [])
    && (b.pipe.writer.Writing? ==> b.pipe.writer.data == Frame(b.sending))
    && (b.pipe.reader.Reading? ==>
          && b.queue != [] && |Frame(b.queue[0])| <= b.seen
          && b.pipe.reader.want == (if b.header then 4 else |Frame(b.queue[0])|)
          && (!b.header ==> |b.queue[0]| <= b.room))
  }

  // ---------------------------------------------------------------- messages are whole

  /** If anything is unread, a whole message is; it begins with its length. */
  lemma FirstFrame(ms: seq<Message>)
    requires ms != []
    ensures |Frames(ms)| >= |Frame(ms[0])| && Frames(ms)[..|Frame(ms[0])|] == Frame(ms[0])
    ensures Frames(ms)[|Frame(ms[0])|..] == Frames(ms[1..])
    ensures Frames(ms)[..4] == LengthField(|ms[0]|)
    ensures Frame(ms[0])[4..] == ms[0]
  {
    hide LengthField;
    FieldIsFour(|ms[0]|);
  }

  lemma FieldIsFour(n: Word)
    ensures |LengthField(n)| == 4
  {
  }

  /** The length read is that of the first message queued. */
  lemma LengthRead(b: Mailbox)
    requires MailInv(b) && Fits(b.pipe) && MailPossible(b, ReadsLength)
    ensures b.queue != [] && DecodeLength(b.pipe.reader.got) == |b.queue[0]|
    ensures Wanted(b) == if |b.queue[0]| > b.room then 0 else |b.queue[0]|
  {
    hide LengthField, DecodeLength, Frame;
    FirstFrame(b.queue);
    FieldIsFour(|b.queue[0]|);
    LengthRoundTrip(|b.queue[0]|);
    FrameSize(b.queue[0]);
    hide Frames;
    assert b.pipe.reader.got == Unread(b.pipe)[..4];
  }

  lemma FrameSize(m: Message)
    ensures |Frame(m)| == 4 + |m|
  {
  }

  lemma {:induction false} FramesEmpty(ms: seq<Message>)
    ensures ms == [] ==> Frames(ms) == []
  {
  }

  lemma MailStepPossible(b: Mailbox, s: MailStep)
    requires MailInv(b) && Fits(b.pipe) && MailPossible(b, s)
    ensures Possible(b.pipe, PipeStep(b, s))
  {
    hide Frames, Unread;
    match s
    case BeginsSend(m) => FrameSize(m);
    case ReadsLength =>
      LengthRead(b);
      FirstFrame(b.queue);
      FrameSize(b.queue[0]);
      UnreadLength(b.pipe);
      hide Wanted, Frame;
    case _ =>
  }

  lemma UnreadLength(p: Pipe)
    requires Fits(p)
    ensures |Unread(p)| == Available(p)
  {
  }

  // ---------------------------------------------------------------- every step keeps it

  lemma FramesPrefix(ms: seq<Message>, m: Message)
    requires ms != []
    ensures (ms + [m])[0] == ms[0]
  {
  }

  lemma SendStepsKeep(b: Mailbox, s: MailStep)
    requires MailInv(b) && Fits(b.pipe) && MailPossible(b, s) && Possible(b.pipe, PipeStep(b, s))
    requires s.BeginsSend? || s.CopiesIn? || s.Publishes? || s.PublishesNothing?
    ensures MailInv(MailApply(b, s))
  {
    hide Frames, Frame, Unread, Inv, Wanted;
    StepKeeps(b.pipe, PipeStep(b, s));
    FramesAppend(b.queue, b.sending);
    if b.queue != [] { FramesPrefix(b.queue, b.sending); }
  }

  lemma ReceiveStartKeeps(b: Mailbox, room: nat)
    requires MailInv(b) && Fits(b.pipe) && MailPossible(b, BeginsReceive(room))
    requires Possible(b.pipe, PipeStep(b, BeginsReceive(room)))
    ensures MailInv(MailApply(b, BeginsReceive(room)))
  {
    hide Frames, Frame, Unread, Inv;
    StepKeeps(b.pipe, StartsRead(LENGTH_BYTES));
    UnreadLength(b.pipe);
    FramesEmpty(b.queue);
    if b.queue != [] { FirstFrame(b.queue); }
  }

  lemma CopyKeeps(b: Mailbox)
    requires MailInv(b) && Fits(b.pipe) && MailPossible(b, CopiesOut)
    ensures MailInv(MailApply(b, CopiesOut))
  {
    hide Frames, Frame, Unread, Inv;
    StepKeeps(b.pipe, ReadsByte);
  }

  lemma LengthKeeps(b: Mailbox)
    requires MailInv(b) && Fits(b.pipe) && MailPossible(b, ReadsLength)
    requires Possible(b.pipe, PipeStep(b, ReadsLength))
    ensures MailInv(MailApply(b, ReadsLength))
  {
    hide Frames, Unread, Inv;
    StepKeeps(b.pipe, PipeStep(b, ReadsLength));
    LengthRead(b);
    FrameSize(b.queue[0]);
    hide Frame, Wanted;
  }

  /** What is taken is the oldest message, whole. */
  lemma TakeKeeps(b: Mailbox)
    requires MailInv(b) && Fits(b.pipe) && MailPossible(b, Takes)
    ensures MailInv(MailApply(b, Takes))
    ensures b.queue != [] && MailApply(b, Takes).delivered == b.delivered + [b.queue[0]]
    ensures MailApply(b, Takes).queue == b.queue[1..]
  {
    hide Frames, Unread, Inv;
    StepKeeps(b.pipe, StoresTail);
    FirstFrame(b.queue);
    FrameSize(b.queue[0]);
    UnreadLength(b.pipe);
    InvReader(b.pipe);
    hide Frame;
    assert b.pipe.reader.got == Unread(b.pipe)[..|b.pipe.reader.got|];
  }

  lemma InvReader(p: Pipe)
    requires Inv(p)
    ensures ReaderOk(p)
  {
  }

  lemma MailKeeps(b: Mailbox, s: MailStep)
    requires MailInv(b) && Fits(b.pipe) && MailPossible(b, s)
    ensures Possible(b.pipe, PipeStep(b, s)) && MailInv(MailApply(b, s))
    ensures var b' := MailApply(b, s);
            b'.delivered + b'.queue == b.delivered + b.queue + (if s == Publishes then [b.sending] else [])
  {
    hide MailInv, Inv, Unread, Frames;
    MailStepPossible(b, s);
    match s
    case BeginsReceive(room) => ReceiveStartKeeps(b, room);
    case CopiesOut => CopyKeeps(b);
    case ReadsLength => LengthKeeps(b);
    case Takes => TakeKeeps(b); hide MailApply;
    case _ => SendStepsKeep(b, s);
  }

  // ---------------------------------------------------------------- whole runs, as messages

  ghost predicate MailRunPossible(b: Mailbox, ss: seq<MailStep>)
    requires MailInv(b)
    decreases |ss|
  {
    ss == [] ||
    (InvFits(b.pipe); MailPossible(b, ss[0]) && (MailKeeps(b, ss[0]); MailRunPossible(MailApply(b, ss[0]), ss[1..])))
  }

  ghost function MailRun(b: Mailbox, ss: seq<MailStep>): Mailbox
    requires MailInv(b) && MailRunPossible(b, ss)
    decreases |ss|
  {
    if ss == [] then b
    else
      InvFits(b.pipe);
      MailKeeps(b, ss[0]);
      MailRun(MailApply(b, ss[0]), ss[1..])
  }

  /** The messages published during a run, in order. */
  ghost function Published(b: Mailbox, ss: seq<MailStep>): seq<Message>
    requires MailInv(b) && MailRunPossible(b, ss)
    decreases |ss|
  {
    if ss == [] then []
    else
      InvFits(b.pipe);
      MailKeeps(b, ss[0]);
      (if ss[0] == Publishes then [b.sending] else []) + Published(MailApply(b, ss[0]), ss[1..])
  }

  lemma {:induction false} MailRunKeeps(b: Mailbox, ss: seq<MailStep>)
    requires MailInv(b) && MailRunPossible(b, ss)
    ensures var b' := MailRun(b, ss);
            && MailInv(b') && b'.delivered + b'.queue == b.delivered + b.queue + Published(b, ss)
    decreases |ss|
  {
    hide MailInv, MailPossible, MailApply;
    if ss != [] {
      MailFits(b);
      MailKeeps(b, ss[0]);
      MailRunKeeps(MailApply(b, ss[0]), ss[1..]);
    }
  }

  lemma MailFits(b: Mailbox)
    requires MailInv(b)
    ensures Inv(b.pipe) && Fits(b.pipe)
  {
    InvFits(b.pipe);
  }

  function NewMailbox(buffer: seq<Byte>): Mailbox {
    Mailbox(NewPipe(buffer), [], [], [], 0, 0, false)
  }

  lemma NewMailboxIsGood(buffer: seq<Byte>)
    requires buffer != []
    ensures MailInv(NewMailbox(buffer))
  {
    assert Unread(NewPipe(buffer)) == [];
  }

  /** From a new buffer on, however writer and reader interleave, the messages delivered and those
      still queued are, in order, the messages published. */
  lemma MessagesArriveInOrder(buffer: seq<Byte>, ss: seq<MailStep>)
    requires buffer != [] && (NewMailboxIsGood(buffer); MailRunPossible(NewMailbox(buffer), ss))
    ensures (NewMailboxIsGood(buffer);
             var b := MailRun(NewMailbox(buffer), ss);
             MailInv(b) && b.delivered + b.queue == Published(NewMailbox(buffer), ss))
  {
    hide MailInv, MailRun, Published, MailRunPossible;
    NewMailboxIsGood(buffer);
    MailRunKeeps(NewMailbox(buffer), ss);
  }

  /** A receive with too little room takes nothing; any other, once it has read the length, delivers
      exactly the oldest unread message. */
  lemma ReceiveMeans(b: Mailbox)
    requires MailInv(b) && Fits(b.pipe) && MailPossible(b, ReadsLength)
    requires Possible(b.pipe, PipeStep(b, ReadsLength))
    ensures var b' := MailApply(b, ReadsLength);
            && b.queue != [] && b'.queue == b.queue && b'.delivered == b.delivered
            && Unread(b'.pipe) == Unread(b.pipe)
            && (b'.pipe.reader == Quiet <==> |b.queue[0]| > b.room)
            && (b'.pipe.reader.Reading? ==> b'.pipe.reader.want == 4 + |b.queue[0]|)
  {
    hide Frames, Unread, Inv;
    LengthRead(b);
    StepKeeps(b.pipe, PipeStep(b, ReadsLength));
    hide Wanted, Frame;
  }
}
