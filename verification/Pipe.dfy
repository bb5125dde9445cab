/**
 Pipes (kernel/pipe.c): a 512-byte ring indexed by free-running 32-bit counters, and the
 protocol by which any number of readers and writers sleep on it.

 `PipeVal` is the pipe as the code keeps it, counters wrapping at 2^32.  The class runs the
 byte loops on the real buffer; PipeMachine interleaves processes, one step per stretch of code
 between acquiring and giving up a lock.
 */
module Pipe {
  import opened Numbers

  const PIPESIZE: nat := 512

  datatype PipeVal = PipeVal(data: seq<int>, nread: nat, nwrite: nat, readopen: bool, writeopen: bool)

  predicate Full(v: PipeVal) {
    v.nwrite == (v.nread + PIPESIZE) % U32
  }

  predicate Empty(v: PipeVal) {
    v.nread == v.nwrite
  }

  function Put(v: PipeVal, x: int): (r: PipeVal)
    requires |v.data| == PIPESIZE
  {
    v.(data := v.data[v.nwrite % PIPESIZE := x], nwrite := (v.nwrite + 1) % U32)
  }

  /** One end closed: the writing end or the reading end. */
  function Shut(v: PipeVal, writable: bool): (r: PipeVal) {
    if writable then v.(writeopen := false) else v.(readopen := false)
  }

  /** Both ends closed: pipeclose has given the pipe's page back. */
  predicate Released(v: PipeVal) {
    !v.readopen && !v.writeopen
  }

  function Advance(v: PipeVal): (r: PipeVal) {
    v.(nread := (v.nread + 1) % U32)
  }

  /** The copy loop of pipewrite from byte `i` on, up to the end of `src` or a full pipe. */
  function Fill(v: PipeVal, src: seq<int>, i: nat): (r: (PipeVal, nat))
    requires |v.data| == PIPESIZE && i <= |src|
    ensures i <= r.1 <= |src| && |r.0.data| == PIPESIZE
    decreases |src| - i
  {
    if i == |src| || Full(v) then (v, i) else Fill(Put(v, src[i]), src, i + 1)
  }

  /** The copy loop of piperead: up to `n` bytes, or until the pipe is empty. */
  function Drain(v: PipeVal, n: nat): (r: (PipeVal, seq<int>))
    requires |v.data| == PIPESIZE
    ensures |r.0.data| == PIPESIZE
    decreases n
  {
    if n == 0 || Empty(v) then (v, [])
    else
      var rest := Drain(Advance(v), n - 1);
      (rest.0, [v.data[v.nread % PIPESIZE]] + rest.1)
  }

  // ---------- the byte stream ----------

  /** The pipe stands for the stream: all bytes `enq` ever put in, of which `deq` were taken out. */
  ghost predicate Good(v: PipeVal, enq: seq<int>, deq: seq<int>) {
    && |v.data| == PIPESIZE
    && deq <= enq && |enq| <= |deq| + PIPESIZE
    && v.nwrite == |enq| % U32
    && v.nread == |deq| % U32
    && forall k :: |deq| <= k < |enq| ==> v.data[k % PIPESIZE] == enq[k]
  }

  function Occupancy(v: PipeVal): (n: nat) {
    (v.nwrite - v.nread) % U32
  }

  /** The bytes in the ring, oldest first, computed from the counters alone. */
  function Buffered(v: PipeVal): (s: seq<int>)
    requires |v.data| == PIPESIZE
  {
    seq(Occupancy(v), j requires 0 <= j => v.data[(v.nread + j) % PIPESIZE])
  }

  lemma ModWrap(a: nat)
    ensures (a % U32 + 1) % U32 == (a + 1) % U32
    ensures (a % U32 + PIPESIZE) % U32 == (a + PIPESIZE) % U32
    ensures (a % U32) % PIPESIZE == a % PIPESIZE
  {
    assert a == U32 * (a / U32) + a % U32;
    ModStep(a % U32, a / U32);
    IndexWrap(a, 0);
  }

  lemma ModStep(r: nat, q: nat)
    requires r < U32
    ensures (r + 1) % U32 == (U32 * q + r + 1) % U32
    ensures (r + PIPESIZE) % U32 == (U32 * q + r + PIPESIZE) % U32
  {
  }

  lemma ModApart(a: nat, b: nat)
    requires a <= b <= a + PIPESIZE
    ensures (b % U32 - a % U32) % U32 == b - a
    ensures b % U32 == (a + PIPESIZE) % U32 <==> b == a + PIPESIZE
    ensures b % U32 == a % U32 <==> b == a
  {
  }

  lemma SlotsApart(a: nat, b: nat)
    requires a < b < a + PIPESIZE
    ensures a % PIPESIZE != b % PIPESIZE
  {
  }

  lemma IndexWrap(a: nat, j: nat)
    ensures (a % U32 + j) % PIPESIZE == (a + j) % PIPESIZE
  {
    assert a % U32 == a - U32 * (a / U32);
    assert (a % U32 + j) == (a + j) - PIPESIZE * (0x80_0000 * (a / U32));
    ModMultiple(a % U32 + j, 0x80_0000 * (a / U32));
  }

  lemma {:induction false} ModMultiple(x: nat, m: nat)
    ensures (x + PIPESIZE * m) % PIPESIZE == x % PIPESIZE
    decreases m
  {
    if m > 0 {
      ModMultiple(x, m - 1);
      assert x + PIPESIZE * m == x + PIPESIZE * (m - 1) + PIPESIZE;
    }
  }

  /**
   Wrap-around is invisible: although both counters are kept modulo 2^32, the tests for a full
   and an empty pipe are exact, and bytes read followed by bytes buffered are the bytes written.
   */
  lemma StreamIntact(v: PipeVal, enq: seq<int>, deq: seq<int>)
    requires Good(v, enq, deq)
    ensures deq + Buffered(v) == enq
    ensures Occupancy(v) == |enq| - |deq| <= PIPESIZE
    ensures Full(v) <==> |enq| == |deq| + PIPESIZE
    ensures Empty(v) <==> enq == deq
  {
    ModApart(|deq|, |enq|);
    ModWrap(|deq|);
    forall j | 0 <= j < |enq| - |deq|
      ensures Buffered(v)[j] == enq[|deq| + j]
    {
      IndexWrap(|deq|, j);
    }
    assert enq == deq + enq[|deq|..];
  }

  lemma EmptyExact(v: PipeVal, enq: seq<int>, deq: seq<int>)
    requires Good(v, enq, deq)
    ensures Empty(v) <==> |enq| == |deq|
  {
    StreamIntact(v, enq, deq);
  }

  lemma Regroup(a: seq<int>, x: int, b: seq<int>)
    ensures a + [x] + b == a + ([x] + b)
  {
  }

  lemma PutGood(v: PipeVal, enq: seq<int>, deq: seq<int>, x: int)
    requires Good(v, enq, deq) && !Full(v)
    ensures Good(Put(v, x), enq + [x], deq)
  {
    StreamIntact(v, enq, deq);
    ModWrap(|enq|);
    forall k | |deq| <= k < |enq|
      ensures k % PIPESIZE != |enq| % PIPESIZE
    {
      SlotsApart(k, |enq|);
    }
  }

  lemma AdvanceGood(v: PipeVal, enq: seq<int>, deq: seq<int>)
    requires Good(v, enq, deq) && !Empty(v)
    ensures Good(Advance(v), enq, deq + [v.data[v.nread % PIPESIZE]])
  {
    StreamIntact(v, enq, deq);
    ModWrap(|deq|);
    assert enq[..|deq| + 1] == deq + [enq[|deq|]];
  }

  /** A writer's stretch appends the bytes it took, in order, and stops at the end or at a full pipe. */
  lemma {:induction false} FillGood(v: PipeVal, enq: seq<int>, deq: seq<int>, src: seq<int>, i: nat)
    requires Good(v, enq, deq) && i <= |src|
    ensures var (w, j) := Fill(v, src, i);
            && Good(w, enq + src[i..j], deq)
            && (j == |src| || Full(w))
            && w.readopen == v.readopen && w.writeopen == v.writeopen
            && j - i == if |src| - i <= PIPESIZE - (|enq| - |deq|) then |src| - i else PIPESIZE - (|enq| - |deq|)
    decreases |src| - i
  {
    StreamIntact(v, enq, deq);
    if i == |src| || Full(v) {
      assert enq + src[i..i] == enq;
    } else {
      PutGood(v, enq, deq, src[i]);
      FillGood(Put(v, src[i]), enq + [src[i]], deq, src, i + 1);
      var j := Fill(v, src, i).1;
      assert enq + [src[i]] + src[i + 1..j] == enq + src[i..j];
    }
  }

  /** A reader's stretch takes the oldest bytes, as many as asked for or as there are. */
  lemma {:induction false} DrainGood(v: PipeVal, enq: seq<int>, deq: seq<int>, n: nat)
    requires Good(v, enq, deq)
    ensures var (w, out) := Drain(v, n);
            && Good(w, enq, deq + out)
            && w.readopen == v.readopen && w.writeopen == v.writeopen
            && |out| == if n <= |enq| - |deq| then n else |enq| - |deq|
    decreases n
  {
    EmptyExact(v, enq, deq);
    if n == 0 || Empty(v) {
      assert deq + Drain(v, n).1 == deq;
    } else {
      var x := v.data[v.nread % PIPESIZE];
      AdvanceGood(v, enq, deq);
      DrainGood(Advance(v), enq, deq + [x], n - 1);
      Regroup(deq, x, Drain(Advance(v), n - 1).1);
    }
  }

  // ---------- the loops on the real buffer ----------

  class Pipe {
    const data: array<int>
    var nread: nat
    var nwrite: nat
    var readopen: bool
    var writeopen: bool

    ghost function Value(): (v: PipeVal)
      reads this, data
    {
      PipeVal(data[..], nread, nwrite, readopen, writeopen)
    }

    /** The pipe part of pipealloc. */
    constructor ()
      ensures data.Length == PIPESIZE && fresh(data)
      ensures readopen && writeopen && Good(Value(), [], [])
    {
      data := new int[PIPESIZE](_ => 0);
      nread, nwrite, readopen, writeopen := 0, 0, true, true;
    }

    /** pipewrite between two sleeps; returns the index of the first byte not yet written. */
    method WriteStretch(src: seq<int>, start: nat) returns (i: nat)
      requires data.Length == PIPESIZE && start <= |src|
      modifies data, this`nwrite
      ensures (Value(), i) == Fill(old(Value()), src, start)
    {
      i := start;
      while i < |src| && nwrite != (nread + PIPESIZE) % U32
        invariant start <= i <= |src|
        invariant Fill(Value(), src, i) == Fill(old(Value()), src, start)
        decreases |src| - i
      {
        ghost var v := Value();
        data[nwrite % PIPESIZE] := src[i];
        nwrite := (nwrite + 1) % U32;
        assert Value() == Put(v, src[i]);
        i := i + 1;
      }
    }

    /** The copy loop of piperead. */
    method ReadStretch(n: nat) returns (out: seq<int>)
      requires data.Length == PIPESIZE
      modifies this`nread
      ensures (Value(), out) == Drain(old(Value()), n)
    {
      out := [];
      var i := 0;
      assert out + Drain(Value(), n).1 == Drain(Value(), n).1;
      while i < n
        invariant 0 <= i <= n
        invariant var r := Drain(Value(), n - i); (r.0, out + r.1) == Drain(old(Value()), n)
      {
        if nread == nwrite {
          break;
        }
        ghost var v, before := Value(), out;
        out := out + [data[nread % PIPESIZE]];
        nread := (nread + 1) % U32;
        assert Value() == Advance(v);
        ghost var x := v.data[v.nread % PIPESIZE];
        assert before + ([x] + Drain(Value(), n - i - 1).1) == out + Drain(Value(), n - i - 1).1;
        i := i + 1;
      }
      assert out + [] == out;
    }

    /** pipeclose: mark one end closed; `freed` says the pipe's page is given back. */
    method Close(writable: bool) returns (freed: bool)
      modifies this`readopen, this`writeopen
      ensures Value() == Shut(old(Value()), writable) && (freed <==> Released(Value()))
      ensures forall enq, deq :: Good(old(Value()), enq, deq) ==> Good(Value(), enq, deq)
    {
      if writable {
        writeopen := false;
      } else {
        readopen := false;
      }
      freed := !readopen && !writeopen;
    }
  }
}
