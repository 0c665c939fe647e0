/** Whole transfers over a stream buffer's ring: a write of so many bytes, copied one by one and then
    published, makes exactly them readable; a read takes exactly the oldest. */
module StreamTransfers {
  import opened StreamBuffers

  function Repeated(s: Step, n: nat): seq<Step> {
    if n == 0 then [] else [s] + Repeated(s, n - 1)
  }

  lemma OneStep(p: Pipe, s: Step, ss: seq<Step>)
    requires Fits(p) && Possible(p, s) && PossibleRun(Apply(p, s), ss)
    ensures PossibleRun(p, [s] + ss) && Run(p, [s] + ss) == Run(Apply(p, s), ss)
  {
    assert ([s] + ss)[0] == s && ([s] + ss)[1..] == ss;
    hide Possible, Apply;
  }

  // ---------------------------------------------------------------- writing

  /** The steps of a writer that has copied all but `n` bytes. */
  function RestOfWrite(n: nat): seq<Step> {
    Repeated(WritesByte, n) + [StoresHead]
  }

  /** A write that is under way can be finished; then its bytes are readable, behind those that were. */
  lemma {:induction false} WriteFinishes(p: Pipe)
    requires Inv(p) && p.writer.Writing? && p.writer.done <= |p.writer.data|
    ensures var ss := RestOfWrite(|p.writer.data| - p.writer.done);
            && PossibleRun(p, ss) && Inv(Run(p, ss)) && Run(p, ss).writer == Still
            && Unread(Run(p, ss)) == Unread(p) + p.writer.data && Run(p, ss).sent == p.sent + p.writer.data
            && Run(p, ss).reader == p.reader && Run(p, ss).taken == p.taken
    decreases |p.writer.data| - p.writer.done
  {
    hide Inv, Unread;
    InvFits(p);
    var n := |p.writer.data| - p.writer.done;
    if n == 0 {
      StepKeeps(p, StoresHead);
      StoredHead(p);
      OneStep(p, StoresHead, []);
      assert RestOfWrite(0) == [StoresHead] + [];
    } else {
      StepKeeps(p, WritesByte);
      var p1 := Apply(p, WritesByte);
      WrittenByte(p);
      hide Apply;
      WriteFinishes(p1);
      OneStep(p, WritesByte, RestOfWrite(n - 1));
      assert RestOfWrite(n) == [WritesByte] + RestOfWrite(n - 1);
    }
  }

  lemma StoredHead(p: Pipe)
    requires Fits(p) && Possible(p, StoresHead)
    ensures var p' := Apply(p, StoresHead);
            && p'.writer == Still && p'.sent == p.sent + p.writer.data && p'.reader == p.reader && p'.taken == p.taken
            && PossibleRun(p', []) && Run(p', []) == p'
  {
  }

  lemma WrittenByte(p: Pipe)
    requires Fits(p) && Possible(p, WritesByte)
    ensures var p' := Apply(p, WritesByte);
            && p'.writer == Writing(p.writer.data, p.writer.done + 1) && p'.sent == p.sent
            && p'.reader == p.reader && p'.taken == p.taken
  {
  }

  /** From a writer at rest with enough room. */
  lemma WholeWrite(p: Pipe, data: seq<Byte>)
    requires Inv(p) && p.writer == Still && data != [] && |data| <= Space(p)
    ensures var ss := [StartsWrite(data)] + RestOfWrite(|data|);
            && PossibleRun(p, ss) && Inv(Run(p, ss)) && Run(p, ss).writer == Still
            && Unread(Run(p, ss)) == Unread(p) + data && Run(p, ss).sent == p.sent + data
            && Run(p, ss).reader == p.reader && Run(p, ss).taken == p.taken
  {
    InvFits(p);
    StepKeeps(p, StartsWrite(data));
    var p1 := Apply(p, StartsWrite(data));
    StartedWrite(p, data);
    hide Inv, Unread, Apply, RestOfWrite, PossibleRun, Run;
    WriteFinishes(p1);
    OneStep(p, StartsWrite(data), RestOfWrite(|data|));
  }

  lemma StartedWrite(p: Pipe, data: seq<Byte>)
    requires Fits(p) && Possible(p, StartsWrite(data))
    ensures Apply(p, StartsWrite(data)) == p.(writer := Writing(data, 0))
  {
  }

  // ---------------------------------------------------------------- reading

  function RestOfRead(n: nat): seq<Step> {
    Repeated(ReadsByte, n) + [StoresTail]
  }

  /** A read that is under way can be finished; then exactly the bytes wanted, the oldest, have been taken. */
  lemma {:induction false} ReadFinishes(p: Pipe)
    requires Inv(p) && p.reader.Reading? && |p.reader.got| <= p.reader.want <= Available(p)
    ensures var ss, n := RestOfRead(p.reader.want - |p.reader.got|), p.reader.want;
            && PossibleRun(p, ss) && Inv(Run(p, ss)) && Run(p, ss).reader == Quiet
            && Run(p, ss).taken == p.taken + Unread(p)[..n] && Unread(Run(p, ss)) == Unread(p)[n..]
            && Run(p, ss).writer == p.writer && Run(p, ss).sent == p.sent
    decreases p.reader.want - |p.reader.got|
  {
    hide Inv;
    InvFits(p);
    var n := p.reader.want - |p.reader.got|;
    if n == 0 {
      StepKeeps(p, StoresTail);
      StoreTailKeeps(p);
      StoredTail(p);
      OneStep(p, StoresTail, []);
      assert RestOfRead(0) == [StoresTail] + [];
    } else {
      StepKeeps(p, ReadsByte);
      var p1 := Apply(p, ReadsByte);
      ReadByte(p);
      InvFits(p1);
      hide Apply;
      ReadFinishes(p1);
      OneStep(p, ReadsByte, RestOfRead(n - 1));
      assert RestOfRead(n) == [ReadsByte] + RestOfRead(n - 1);
    }
  }

  lemma StoredTail(p: Pipe)
    requires Fits(p) && Possible(p, StoresTail)
    ensures var p' := Apply(p, StoresTail);
            && p'.reader == Quiet && p'.taken == p.taken + p.reader.got && p'.writer == p.writer && p'.sent == p.sent
            && PossibleRun(p', []) && Run(p', []) == p'
  {
  }

  lemma ReadByte(p: Pipe)
    requires Fits(p) && Possible(p, ReadsByte)
    ensures var p' := Apply(p, ReadsByte);
            && p'.reader.Reading? && p'.reader.want == p.reader.want && |p'.reader.got| == |p.reader.got| + 1
            && p'.taken == p.taken && p'.writer == p.writer && p'.sent == p.sent
            && Fits(p') && Available(p') == Available(p)
  {
  }

  /** From a reader at rest, for as many bytes as there are. */
  lemma WholeRead(p: Pipe, n: nat)
    requires Inv(p) && p.reader == Quiet && n <= Available(p)
    ensures var ss := [StartsRead(n)] + RestOfRead(n);
            && PossibleRun(p, ss) && Inv(Run(p, ss)) && Run(p, ss).reader == Quiet
            && Run(p, ss).taken == p.taken + Unread(p)[..n] && Unread(Run(p, ss)) == Unread(p)[n..]
            && Run(p, ss).writer == p.writer && Run(p, ss).sent == p.sent
  {
    InvFits(p);
    StepKeeps(p, StartsRead(n));
    var p1 := Apply(p, StartsRead(n));
    StartedRead(p, n);
    hide Inv, Unread, Apply, RestOfRead, PossibleRun, Run;
    ReadFinishes(p1);
    OneStep(p, StartsRead(n), RestOfRead(n));
  }

  lemma StartedRead(p: Pipe, n: nat)
    requires Fits(p) && Possible(p, StartsRead(n))
    ensures var p' := Apply(p, StartsRead(n));
            p' == p.(reader := Reading([], n)) && Fits(p') && Available(p') == Available(p)
  {
  }
}
