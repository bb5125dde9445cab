/**
 What the calls on a pipe have written and read, seen from outside.  An observer notes the arguments of the calls,
 which bytes went into the pipe during a step of which call, and what the calls have returned.  It
 looks at the bytes and the returned values only, not at how far a process believes it has come.
 */
module PipeCalls {
  import opened Numbers
  import opened Pipe
  import opened PipeMachine

  /** A call of pipewrite: its bytes and, once it has returned, its result. */
  datatype Call = Call(src: seq<int>, res: Result)

  /**
   `tags` holds for each byte written the number of its call, `of` the last write call of each process,
   `asked` the bytes its last read call asks for, and `got` all that read calls have returned.
   */
  datatype Watch = Watch(calls: seq<Call>, tags: seq<nat>, of: seq<nat>, asked: seq<nat>, got: seq<int>)

  /** One step, from the state `s` to the state `s'`. */
  ghost function Note(w: Watch, s: State, s': State, t: Step): (w': Watch)
    requires |w.of| == |w.asked| == |s.procs| == |s'.procs|
    ensures |w'.of| == |w'.asked| == |s.procs|
  {
    match t
    case StartWrite(p, src) =>
      if p < |w.of| then w.(calls := w.calls + [Call(src, None)], of := w.of[p := |w.calls|]) else w
    case StartRead(p, n) => if p < |w.asked| then w.(asked := w.asked[p := n]) else w
    case RunWriter(p, _) =>
      if p < |w.of| && w.of[p] < |w.calls| then
        var c := w.of[p];
        w.(tags := w.tags + seq(Max(|s'.enq|, |s.enq|) - |s.enq|, _ => c),
           calls := if s'.procs[p].pc.Idle? then w.calls[c := w.calls[c].(res := s'.procs[p].ret)] else w.calls)
      else w
    case RunReader(p, _) =>
      if p < |s.procs| && s'.procs[p].pc.Idle? && s'.procs[p].ret.Got? then w.(got := w.got + s'.procs[p].ret.bytes)
      else w
    case _ => w
  }

  lemma SameProcs(s: State, t: Step)
    requires Enabled(s, t)
    ensures |Do(s, t).procs| == |s.procs|
  {
  }

  /** The observer after the run `ts`. */
  ghost function Watched(w: Watch, s: State, ts: seq<Step>): (w': Watch)
    requires Legal(s, ts) && |w.of| == |w.asked| == |s.procs|
    decreases |ts|
  {
    if ts == [] then w
    else
      SameProcs(s, ts[0]);
      Watched(Note(w, s, Do(s, ts[0]), ts[0]), Do(s, ts[0]), ts[1..])
  }

  ghost function Start(s: State): (w: Watch)
    ensures |w.of| == |w.asked| == |s.procs|
  {
    Watch([], [], seq(|s.procs|, _ => 0), seq(|s.procs|, _ => 0), [])
  }

  /** The bytes of call `c` among those written, in order. */
  ghost function Bytes(enq: seq<int>, tags: seq<nat>, c: nat): (bs: seq<int>)
    requires |enq| == |tags|
    decreases |enq|
  {
    if enq == [] then []
    else
      var n := |enq| - 1;
      Bytes(enq[..n], tags[..n], c) + if tags[n] == c then [enq[n]] else []
  }

  lemma {:induction false} BytesMore(enq: seq<int>, tags: seq<nat>, out: seq<int>, c: nat, d: nat)
    requires |enq| == |tags|
    ensures var tags' := tags + seq(|out|, _ => c);
            Bytes(enq + out, tags', d) == Bytes(enq, tags, d) + if c == d then out else []
    decreases |out|
  {
    var tags' := tags + seq(|out|, _ => c);
    if out == [] {
      assert enq + out == enq && tags' == tags;
    } else {
      var k := |out| - 1;
      BytesMore(enq, tags, out[..k], c, d);
      assert (enq + out)[..|enq| + k] == enq + out[..k];
      assert tags'[..|enq| + k] == tags + seq(k, _ => c);
      assert out == out[..k] + [out[k]];
    }
  }

  lemma {:induction false} BytesNone(enq: seq<int>, tags: seq<nat>, c: nat)
    requires |enq| == |tags| && forall k :: 0 <= k < |tags| ==> tags[k] < c
    ensures Bytes(enq, tags, c) == []
    decreases |enq|
  {
    if enq != [] {
      BytesNone(enq[..|enq| - 1], tags[..|enq| - 1], c);
    }
  }

  // ---------- what each step does ----------

  /** A stretch of pipewrite that continues the bytes `src` at byte `i`. */
  ghost predicate WriteLaw(s: State, s': State, p: nat, src: seq<int>, i: nat, late: bool)
    requires p < |s.procs| && i <= |src| && Occupancy(s.pipe) <= PIPESIZE == |s.pipe.data| == |s'.pipe.data|
  {
    var x, j := s.procs[p], i + Min(|src| - i, PIPESIZE - Occupancy(s.pipe));
    var gives := j < |src| && (!s.pipe.readopen || x.killed);
    && s' == s.(pipe := s'.pipe, enq := s.enq + src[i..j], procs := s'.procs)
    && Buffered(s'.pipe) == Buffered(s.pipe) + src[i..j]
    && s'.pipe.readopen == s.pipe.readopen && s'.pipe.writeopen == s.pipe.writeopen
    && s'.procs == (if gives then s.procs else WakeAll(s.procs, true))[p :=
         if j == |src| then x.(pc := Idle, ret := Wrote(|src|))
         else if gives then x.(pc := Idle, ret := Failed)
         else x.(pc := WaitW(src, j), killed := late)]
  }

  /** A stretch of piperead that asks for `n` bytes. */
  ghost predicate ReadLaw(s: State, s': State, p: nat, n: nat, late: bool)
    requires p < |s.procs| && |s.pipe.data| == PIPESIZE == |s'.pipe.data|
  {
    var x, b := s.procs[p], Buffered(s.pipe);
    var m := Min(n, |b|);
    if b == [] && s.pipe.writeopen then
      s' == s.(procs := s.procs[p := if x.killed then x.(pc := Idle, ret := Failed)
                                     else x.(pc := WaitR(n), killed := late)])
    else
      && s' == s.(pipe := s'.pipe, deq := s.deq + b[..m],
                  procs := WakeAll(s.procs, false)[p := x.(pc := Idle, ret := Got(b[..m]))])
      && Buffered(s'.pipe) == b[m..]
      && s'.pipe.readopen == s.pipe.readopen && s'.pipe.writeopen == s.pipe.writeopen
  }

  /** What a fill does to the bytes in the pipe. */
  lemma FillLaw(v: PipeVal, enq: seq<int>, deq: seq<int>, src: seq<int>, i: nat)
    requires Good(v, enq, deq) && i <= |src|
    ensures Occupancy(v) <= PIPESIZE
    ensures var (v', j) := Fill(v, src, i);
            && j == i + Min(|src| - i, PIPESIZE - Occupancy(v))
            && |v'.data| == PIPESIZE && Buffered(v') == Buffered(v) + src[i..j]
            && v'.readopen == v.readopen && v'.writeopen == v.writeopen
  {
    var (v', j) := Fill(v, src, i);
    StreamIntact(v, enq, deq);
    FillGood(v, enq, deq, src, i);
    StreamIntact(v', enq + src[i..j], deq);
    Longer(deq, Buffered(v), Buffered(v'), src[i..j]);
  }

  lemma WriteObeys(s: State, p: nat, late: bool)
    requires Inv(s) && Enabled(s, RunWriter(p, late))
    ensures Occupancy(s.pipe) <= PIPESIZE && |DoWrite(s, p, late).pipe.data| == PIPESIZE
    ensures WriteLaw(s, DoWrite(s, p, late), p, s.procs[p].pc.src, s.procs[p].pc.i, late)
  {
    FillLaw(s.pipe, s.enq, s.deq, s.procs[p].pc.src, s.procs[p].pc.i);
  }

  lemma Longer(deq: seq<int>, b: seq<int>, b': seq<int>, out: seq<int>)
    requires deq + b' == deq + b + out
    ensures b' == b + out
  {
    assert b' == (deq + b')[|deq|..];
    assert b + out == (deq + b + out)[|deq|..];
  }

  lemma ReadObeys(s: State, p: nat, late: bool)
    requires Inv(s) && Enabled(s, RunReader(p, late))
    ensures |DoRead(s, p, late).pipe.data| == PIPESIZE
    ensures ReadLaw(s, DoRead(s, p, late), p, s.procs[p].pc.n, late)
  {
    var n := s.procs[p].pc.n;
    var (v, out) := Drain(s.pipe, n);
    StreamIntact(s.pipe, s.enq, s.deq);
    DrainGood(s.pipe, s.enq, s.deq, n);
    StreamIntact(v, s.enq, s.deq + out);
    Oldest(s.deq, Buffered(s.pipe), out, Buffered(v));
  }

  lemma Oldest(deq: seq<int>, b: seq<int>, out: seq<int>, b': seq<int>)
    requires deq + out + b' == deq + b
    ensures out == b[..|out|] && b' == b[|out|..]
  {
    assert b == (deq + b)[|deq|..] == (deq + out + b')[|deq|..] == out + b';
  }

  // ---------- what every run keeps ----------

  /** The bytes of call `c` are a beginning of what it was to write, all of it once it has returned. */
  ghost predicate CallOk(enq: seq<int>, tags: seq<nat>, c: nat, x: Call)
    requires |enq| == |tags|
  {
    match x.res
    case None => true
    case Wrote(n) => n == |x.src| && Bytes(enq, tags, c) == x.src
    case Failed => Bytes(enq, tags, c) < x.src
    case Got(_) => false
  }

  /** A process inside a call is where its call is. */
  ghost predicate ProcAt(s: State, w: Watch, p: nat)
    requires |w.tags| == |s.enq| && |w.of| == |w.asked| == |s.procs| && p < |s.procs|
  {
    && (IsReader(s.procs[p].pc) ==> s.procs[p].pc.n == w.asked[p])
    && (IsWriter(s.procs[p].pc) ==> InCall(s, w, p, s.procs[p].pc.src, s.procs[p].pc.i))
  }

  ghost predicate InCall(s: State, w: Watch, p: nat, src: seq<int>, i: nat)
    requires |w.tags| == |s.enq| && |w.of| == |s.procs| && p < |s.procs|
  {
    && w.of[p] < |w.calls| && w.calls[w.of[p]] == Call(src, None)
    && i <= |src| && Bytes(s.enq, w.tags, w.of[p]) == src[..i]
  }

  ghost predicate Ledger(s: State, w: Watch) {
    && |w.tags| == |s.enq| && |w.of| == |w.asked| == |s.procs| && w.got == s.deq
    && (forall k :: 0 <= k < |w.tags| ==> w.tags[k] < |w.calls|)
    && (forall c :: 0 <= c < |w.calls| ==> CallOk(s.enq, w.tags, c, w.calls[c]))
    && (forall p :: 0 <= p < |s.procs| ==> ProcAt(s, w, p))
    && Apart(s, w)
  }

  /** No two processes are inside the same call. */
  ghost predicate Apart(s: State, w: Watch)
    requires |w.of| == |s.procs|
  {
    forall p, q :: 0 <= p < q < |s.procs| && IsWriter(s.procs[p].pc) && IsWriter(s.procs[q].pc) ==> w.of[p] != w.of[q]
  }

  lemma WriteNotes(s: State, w: Watch, p: nat, late: bool)
    requires Inv(s) && Ledger(s, w) && Enabled(s, RunWriter(p, late))
    ensures var s' := DoWrite(s, p, late); |s'.procs| == |s.procs| && Ledger(s', Note(w, s, s', RunWriter(p, late)))
  {
    WriteObeys(s, p, late);
    var s' := DoWrite(s, p, late);
    var src, i, c := s.procs[p].pc.src, s.procs[p].pc.i, w.of[p];
    var j := i + Min(|src| - i, PIPESIZE - Occupancy(s.pipe));
    assert ProcAt(s, w, p);
    NotesOf(s, s', w, p, late, src, i, j);
  }

  lemma NotesOf(s: State, s': State, w: Watch, p: nat, late: bool, src: seq<int>, i: nat, j: nat)
    requires Ledger(s, w) && p < |s.procs| == |s'.procs| && IsWriter(s.procs[p].pc) && InCall(s, w, p, src, i)
    requires i <= j <= |src| && s'.enq == s.enq + src[i..j] && s'.deq == s.deq
    requires forall q :: 0 <= q < |s.procs| && q != p ==> SameCall(s.procs[q].pc, s'.procs[q].pc)
    requires s'.procs[p].pc == WaitW(src, j)
             || (s'.procs[p].pc.Idle? && s'.procs[p].ret == if j == |src| then Wrote(j) else Failed)
    ensures Ledger(s', Note(w, s, s', RunWriter(p, late)))
  {
    var w', c, out := Note(w, s, s', RunWriter(p, late)), w.of[p], src[i..j];
    assert w'.tags == w.tags + seq(|out|, _ => c);
    BytesMore(s.enq, w.tags, out, c, c);
    assert src[..i] + out == src[..j];
    forall d | 0 <= d < |w'.calls| ensures CallOk(s'.enq, w'.tags, d, w'.calls[d]) {
      BytesMore(s.enq, w.tags, out, c, d);
      assert CallOk(s.enq, w.tags, d, w.calls[d]);
    }
    forall q | 0 <= q < |s'.procs| ensures ProcAt(s', w', q) {
      if q != p {
        assert ProcAt(s, w, q);
        BytesMore(s.enq, w.tags, out, c, w.of[q]);
      }
    }
  }

  /** The process stays in its call, or outside of all. */
  ghost predicate SameCall(a: Pc, b: Pc) {
    && IsReader(b) == IsReader(a) && (IsReader(a) ==> b.n == a.n)
    && IsWriter(b) == IsWriter(a) && (IsWriter(a) ==> b.src == a.src && b.i == a.i)
  }

  /** Steps that write nothing and return from no write. */
  lemma QuietNotes(s: State, s': State, w: Watch, w': Watch)
    requires Ledger(s, w) && |s'.procs| == |s.procs| && s'.enq == s.enq && w'.got == s'.deq
    requires w' == w.(got := w'.got)
    requires forall q :: 0 <= q < |s.procs| ==>
               SameCall(s.procs[q].pc, s'.procs[q].pc) || !(IsReader(s'.procs[q].pc) || IsWriter(s'.procs[q].pc))
    ensures Ledger(s', w')
  {
    forall q | 0 <= q < |s'.procs| ensures ProcAt(s', w', q) {
      assert ProcAt(s, w, q);
    }
  }

  lemma StartWriteNotes(s: State, w: Watch, p: nat, src: seq<int>)
    requires Ledger(s, w) && Enabled(s, StartWrite(p, src))
    ensures var t := StartWrite(p, src); Ledger(Do(s, t), Note(w, s, Do(s, t), t))
  {
    var s' := Do(s, StartWrite(p, src));
    var w' := Note(w, s, s', StartWrite(p, src));
    BytesNone(s.enq, w.tags, |w.calls|);
    forall c | 0 <= c < |w'.calls| ensures CallOk(s'.enq, w'.tags, c, w'.calls[c]) {
      assert c < |w.calls| ==> CallOk(s.enq, w.tags, c, w.calls[c]);
    }
    forall q | 0 <= q < |s'.procs| ensures ProcAt(s', w', q) {
      assert ProcAt(s, w, q);
      assert src[..0] == [];
    }
    forall q | 0 <= q < |s'.procs| && q != p && IsWriter(s'.procs[q].pc) ensures w'.of[q] != w'.of[p] {
      assert ProcAt(s, w, q);
    }
  }

  lemma StartReadNotes(s: State, w: Watch, p: nat, n: nat)
    requires Ledger(s, w) && Enabled(s, StartRead(p, n))
    ensures var t := StartRead(p, n); Ledger(Do(s, t), Note(w, s, Do(s, t), t))
  {
    var s' := Do(s, StartRead(p, n));
    var w' := Note(w, s, s', StartRead(p, n));
    forall q | 0 <= q < |s'.procs| ensures ProcAt(s', w', q) {
      assert ProcAt(s, w, q);
    }
  }

  lemma ReadNotes(s: State, w: Watch, p: nat, late: bool)
    requires Inv(s) && Ledger(s, w) && Enabled(s, RunReader(p, late))
    ensures var s' := DoRead(s, p, late); |s'.procs| == |s.procs| && Ledger(s', Note(w, s, s', RunReader(p, late)))
  {
    ReadObeys(s, p, late);
    var s' := DoRead(s, p, late);
    QuietNotes(s, s', w, Note(w, s, s', RunReader(p, late)));
  }

  lemma OtherNotes(s: State, w: Watch, t: Step)
    requires Ledger(s, w) && Enabled(s, t) && (t.Dup? || t.Close? || t.RunClose? || t.Kill?)
    ensures |Do(s, t).procs| == |s.procs| && Ledger(Do(s, t), w)
  {
    QuietNotes(s, Do(s, t), w, w);
  }

  lemma StepNotes(s: State, w: Watch, t: Step)
    requires Inv(s) && Ledger(s, w) && Enabled(s, t)
    ensures |Do(s, t).procs| == |s.procs| && Ledger(Do(s, t), Note(w, s, Do(s, t), t))
  {
    match t
    case StartWrite(p, src) => StartWriteNotes(s, w, p, src);
    case StartRead(p, n) => StartReadNotes(s, w, p, n);
    case RunWriter(p, late) => WriteNotes(s, w, p, late);
    case RunReader(p, late) => ReadNotes(s, w, p, late);
    case _ => OtherNotes(s, w, t);
  }

  lemma {:induction false} RunNotes(s: State, w: Watch, ts: seq<Step>)
    requires Inv(s) && Ledger(s, w) && Legal(s, ts)
    ensures Inv(Exec(s, ts)) && Ledger(Exec(s, ts), Watched(w, s, ts))
    decreases |ts|
  {
    if ts != [] {
      StepNotes(s, w, ts[0]);
      StepKeeps(s, ts[0]);
      RunNotes(Do(s, ts[0]), Note(w, s, Do(s, ts[0]), ts[0]), ts[1..]);
    }
  }

  /**
   In every run of any readers and writers: a process inside pipewrite has put exactly the bytes before its
   position into the pipe, once and in order; a call that has returned n has put in all of its n
   bytes, and one that has returned -1 only a beginning; and what the reads have returned, one
   after the other, together with what is in the pipe, is what was written.
   */
  lemma CallsAreWritten(s0: State, ts: seq<Step>)
    requires Init(s0) && Legal(s0, ts)
    ensures var s, w := Exec(s0, ts), Watched(Start(s0), s0, ts);
            && Ledger(s, w) && |s.pipe.data| == PIPESIZE
            && w.got + Buffered(s.pipe) == s.enq
  {
    InitKeeps(s0);
    RunNotes(s0, Start(s0), ts);
    StreamIntact(Exec(s0, ts).pipe, Exec(s0, ts).enq, Exec(s0, ts).deq);
  }

  /** After every run the next stretch of a writer continues its call where its bytes end. */
  lemma WriteContinues(s0: State, ts: seq<Step>, p: nat, late: bool)
    requires Init(s0) && Legal(s0, ts) && Enabled(Exec(s0, ts), RunWriter(p, late))
    ensures var s, w := Exec(s0, ts), Watched(Start(s0), s0, ts);
            && Ledger(s, w) && w.of[p] < |w.calls| && Occupancy(s.pipe) <= PIPESIZE
            && var s', src, i := Do(s, RunWriter(p, late)), w.calls[w.of[p]].src, |Bytes(s.enq, w.tags, w.of[p])|;
               i <= |src| && |s'.pipe.data| == PIPESIZE && WriteLaw(s, s', p, src, i, late)
  {
    CallsAreWritten(s0, ts);
    InitKeeps(s0);
    RunNotes(s0, Start(s0), ts);
    WriteObeys(Exec(s0, ts), p, late);
    assert ProcAt(Exec(s0, ts), Watched(Start(s0), s0, ts), p);
  }

  /** After every run the next stretch of a reader returns the oldest bytes, as many as its call asks for. */
  lemma ReadReturns(s0: State, ts: seq<Step>, p: nat, late: bool)
    requires Init(s0) && Legal(s0, ts) && Enabled(Exec(s0, ts), RunReader(p, late))
    ensures var s, w := Exec(s0, ts), Watched(Start(s0), s0, ts);
            && Ledger(s, w)
            && var s' := Do(s, RunReader(p, late));
               |s'.pipe.data| == PIPESIZE && ReadLaw(s, s', p, w.asked[p], late)
  {
    CallsAreWritten(s0, ts);
    InitKeeps(s0);
    RunNotes(s0, Start(s0), ts);
    ReadObeys(Exec(s0, ts), p, late);
    assert ProcAt(Exec(s0, ts), Watched(Start(s0), s0, ts), p);
  }
}
