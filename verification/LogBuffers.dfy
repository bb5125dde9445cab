/**
 How many buffers the log keeps busy.  A logged block is pinned in the cache (kernel/log.c, log_write) until it is
 installed, a process inside log_write holds the block it is about to log, and commit needs one buffer more for
 a log slot.
 */
module LogBuffers {
  import opened Numbers
  import opened Blocks
  import opened LogDisk
  import opened LogMachine

  /** Processes between the test and the append of log_write. */
  ghost function CountPassed(ps: seq<Proc>): (n: nat) {
    if ps == [] then 0 else (if ps[0].InOp? && ps[0].pending.Passed? then 1 else 0) + CountPassed(ps[1..])
  }

  lemma {:induction false} PassedUpdate(ps: seq<Proc>, p: nat, x: Proc)
    requires p < |ps|
    ensures CountPassed(ps[p := x]) == CountPassed(ps) - CountPassed([ps[p]]) + CountPassed([x])
    ensures CountPassed([ps[p]]) <= CountPassed(ps)
    decreases |ps|
  {
    if p == 0 {
      assert ps[p := x][1..] == ps[1..];
    } else {
      assert ps[p := x][1..] == ps[1..][p - 1 := x];
      PassedUpdate(ps[1..], p - 1, x);
    }
  }

  lemma {:induction false} PassedBound(ps: seq<Proc>)
    ensures CountPassed(ps) <= CountOps(ps)
  {
    if ps != [] {
      PassedBound(ps[1..]);
    }
  }

  lemma PendingsTail(ps: seq<Proc>)
    requires ps != []
    ensures Pendings(ps) == Pendings(ps[1..]) + if ps[0].InOp? && ps[0].pending.Passed? then {ps[0].pending.b} else {}
  {
    var t := ps[1..];
    forall b | b in Pendings(ps)
      ensures b in Pendings(t) || (ps[0].InOp? && ps[0].pending.Passed? && ps[0].pending.b == b)
    {
      var p :| 0 <= p < |ps| && ps[p].InOp? && ps[p].pending.Passed? && ps[p].pending.b == b;
      if p > 0 {
        assert t[p - 1] == ps[p];
      }
    }
    forall b | b in Pendings(t) ensures b in Pendings(ps) {
      var p :| 0 <= p < |t| && t[p].InOp? && t[p].pending.Passed? && t[p].pending.b == b;
      assert ps[p + 1] == t[p];
    }
  }

  lemma {:induction false} PendingsSize(ps: seq<Proc>)
    ensures |Pendings(ps)| <= CountPassed(ps)
  {
    if ps == [] {
      assert Pendings(ps) == {};
    } else {
      PendingsTail(ps);
      PendingsSize(ps[1..]);
    }
  }

  /** Every block held for an append is covered by the budget of the operation that holds it. */
  lemma {:induction false} PendingsReserved(l: Layout, lh: seq<nat>, ps: seq<Proc>)
    requires forall p :: 0 <= p < |ps| && ps[p].InOp? ==> ps[p].used <= MAXOPBLOCKS && PendingOk(l, lh, ps[p])
    ensures |Pendings(ps) - Elements(lh)| <= Unused(ps)
  {
    if ps == [] {
      assert Pendings(ps) == {};
    } else {
      PendingsTail(ps);
      PendingsReserved(l, lh, ps[1..]);
      var rest, x := Pendings(ps[1..]) - Elements(lh), ps[0];
      if x.InOp? && x.pending.Passed? && x.pending.b !in lh {
        assert Pendings(ps) - Elements(lh) == rest + {x.pending.b};
      } else {
        assert Pendings(ps) - Elements(lh) == rest;
      }
    }
  }

  /** The busy buffers are within the reservation, and within what is logged and held. */
  lemma BusyBound(l: Layout, s: State)
    requires Counted(l, s)
    ensures |Busy(s)| <= |s.lh| + Unused(s.procs) <= LOGSIZE
    ensures |s.lh| <= |Busy(s)| <= |s.lh| + CountPassed(s.procs)
  {
    ElementsSize(s.lh);
    PendingsReserved(l, s.lh, s.procs);
    PendingsSize(s.procs);
    assert Busy(s) == Elements(s.lh) + (Pendings(s.procs) - Elements(s.lh));
    SubsetSize(Elements(s.lh), Busy(s));
    SubsetSize(Pendings(s.procs) - Elements(s.lh), Pendings(s.procs));
  }

  // ---------- what every run keeps ----------

  /** The longest log: three processes may pass the size test on the same count. */
  function Longest(l: Layout): (n: nat) {
    if l.nlog < 2 then 0 else l.nlog + 1
  }

  ghost predicate Cached(l: Layout, s: State) {
    |Busy(s)| <= s.nbuf && CountOps(s.procs) <= 3 && |s.lh| + CountPassed(s.procs) <= Longest(l)
  }

  /** A process stays outside the gap of log_write. */
  lemma PendingsSame(ps: seq<Proc>, p: nat, x: Proc)
    requires p < |ps| && (ps[p].InOp? ==> ps[p].pending.Nothing?) && (x.InOp? ==> x.pending.Nothing?)
    ensures Pendings(ps[p := x]) == Pendings(ps) && CountPassed(ps[p := x]) == CountPassed(ps)
  {
    PassedUpdate(ps, p, x);
    var ps' := ps[p := x];
    forall b | b in Pendings(ps) ensures b in Pendings(ps') {
      var q :| 0 <= q < |ps| && ps[q].InOp? && ps[q].pending.Passed? && ps[q].pending.b == b;
      assert ps'[q] == ps[q];
    }
    forall b | b in Pendings(ps') ensures b in Pendings(ps) {
      var q :| 0 <= q < |ps'| && ps'[q].InOp? && ps'[q].pending.Passed? && ps'[q].pending.b == b;
      assert ps'[q] == ps[q];
    }
  }

  /** A process enters the gap with block `b`, or leaves it. */
  lemma PendingsMove(ps: seq<Proc>, ps': seq<Proc>, p: nat, b: nat)
    requires p < |ps| == |ps'| && ps' == ps[p := ps'[p]]
    requires ps[p].InOp? && ps[p].pending.Nothing?
    requires ps'[p].InOp? && ps'[p].pending.Passed? && ps'[p].pending.b == b
    ensures Pendings(ps') == Pendings(ps) + {b} && CountPassed(ps') == CountPassed(ps) + 1
  {
    PassedUpdate(ps, p, ps'[p]);
    forall c | c in Pendings(ps) ensures c in Pendings(ps') {
      var q :| 0 <= q < |ps| && ps[q].InOp? && ps[q].pending.Passed? && ps[q].pending.b == c;
      assert ps'[q] == ps[q];
    }
    forall c | c in Pendings(ps') ensures c in Pendings(ps) + {b} {
      var q :| 0 <= q < |ps'| && ps'[q].InOp? && ps'[q].pending.Passed? && ps'[q].pending.b == c;
      if q != p {
        assert ps'[q] == ps[q];
      }
    }
    assert ps'[p].pending.b in Pendings(ps');
  }

  lemma TestCached(l: Layout, s: State, p: nat, b: nat, data: Block)
    requires Cached(l, s) && CanTest(l, s, p, b)
    ensures Cached(l, DoTest(l, s, p, b, data))
  {
    if !DoTest(l, s, p, b, data).phase.Panicked? {
      Held(l, s, s.procs[p := InOp(s.procs[p].op, s.procs[p].used, Passed(b, data))], p, b);
    }
  }

  lemma Held(l: Layout, s: State, ps: seq<Proc>, p: nat, b: nat)
    requires Cached(l, s) && !NoRoomFor(s, b) && |s.lh| + 2 <= l.nlog
    requires p < |s.procs| == |ps| && ps == s.procs[p := ps[p]]
    requires s.procs[p].InOp? && s.procs[p].pending.Nothing?
    requires ps[p].InOp? && ps[p].pending.Passed? && ps[p].pending.b == b
    ensures |Elements(s.lh) + Pendings(ps)| <= s.nbuf && CountOps(ps) <= 3 && |s.lh| + CountPassed(ps) <= Longest(l)
  {
    PendingsMove(s.procs, ps, p, b);
    assert Elements(s.lh) + Pendings(ps) == Busy(s) + {b};
    SumsUpdate(s.procs, p, ps[p]);
    PassedBound(ps);
  }

  lemma AppendCached(l: Layout, s: State, p: nat)
    requires Cached(l, s) && CanAppend(s, p)
    ensures Cached(l, DoAppend(s, p))
  {
    var s', b := DoAppend(s, p), s.procs[p].pending.b;
    Logged(s.lh, s'.lh, s.procs, s'.procs, p, b);
  }

  /** The block a process held is logged: it keeps its buffer. */
  lemma Logged(lh: seq<nat>, lh': seq<nat>, ps: seq<Proc>, ps': seq<Proc>, p: nat, b: nat)
    requires p < |ps| == |ps'| && ps' == ps[p := ps'[p]] && ps'[p].InOp? && ps'[p].pending.Nothing?
    requires ps[p].InOp? && ps[p].pending.Passed? && ps[p].pending.b == b
    requires lh' == if b in lh then lh else lh + [b]
    ensures Elements(lh') + Pendings(ps') == Elements(lh) + Pendings(ps)
    ensures CountOps(ps') == CountOps(ps) && |lh'| + CountPassed(ps') <= |lh| + CountPassed(ps)
  {
    assert ps'[p := ps[p]] == ps;
    PendingsMove(ps', ps, p, b);
    SumsUpdate(ps, p, ps'[p]);
    assert Elements(lh') == Elements(lh) + {b};
  }

  lemma EndCached(l: Layout, s: State, p: nat)
    requires Counted(l, s) && Cached(l, s) && CanEnd(s, p)
    ensures Cached(l, DoEnd(s, p))
  {
    EndCounted(l, s, p);
    PendingsSame(s.procs, p, Idle);
    PendingsSame(s.procs, p, Committer);
    SumsUpdate(s.procs, p, Idle);
    SumsUpdate(s.procs, p, Committer);
  }

  lemma {:induction false} NobodyBusy(ps: seq<Proc>)
    requires forall p :: 0 <= p < |ps| ==> !ps[p].InOp?
    ensures Pendings(ps) == {} && CountPassed(ps) == 0 && CountOps(ps) == 0
  {
    if ps != [] {
      NobodyBusy(ps[1..]);
    }
  }

  lemma StepCached(l: Layout, s: State, t: Step)
    requires Counted(l, s) && Cached(l, s) && Enabled(l, s, t)
    ensures Cached(l, Do(l, s, t))
  {
    match t
    case Begin(p) =>
      BeginCounted(l, s, p);
      PendingsSame(s.procs, p, InOp(s.nextOp, 0, Nothing));
      SumsUpdate(s.procs, p, InOp(s.nextOp, 0, Nothing));
      assert (s.outstanding + 1) * MAXOPBLOCKS <= LOGSIZE;
    case Test(p, b, data) => TestCached(l, s, p, b, data);
    case Append(p) => AppendCached(l, s, p);
    case End(p) => EndCached(l, s, p);
    case CommitDone =>
      NoActive(l, s);
      NobodyBusy(DoCommitDone(s).procs);
    case Crash => NobodyBusy(DoCrash(s).procs);
    case CommitWrite =>
    case RecoverWrite =>
    case RecoverDone =>
  }

  lemma {:induction false} RunCached(l: Layout, s: State, ts: seq<Step>)
    requires Counted(l, s) && Cached(l, s) && Legal(l, s, ts)
    ensures Counted(l, Exec(l, s, ts)) && Cached(l, Exec(l, s, ts))
    decreases |ts|
  {
    if ts != [] {
      StepCounted(l, s, ts[0]);
      StepCached(l, s, ts[0]);
      RunCached(l, Do(l, s, ts[0]), ts[1..]);
    }
  }

  lemma BootCached(l: Layout, s0: State, ts: seq<Step>)
    requires Init(l, s0) && Legal(l, s0, ts)
    ensures Counted(l, Exec(l, s0, ts)) && Cached(l, Exec(l, s0, ts)) && Exec(l, s0, ts).nbuf == s0.nbuf
  {
    InitKeeps(l, s0);
    NobodyBusy(s0.procs);
    assert Busy(s0) == {};
    RunCached(l, s0, ts);
    SameBuffers(l, s0, ts);
  }

  lemma {:induction false} SameBuffers(l: Layout, s: State, ts: seq<Step>)
    requires Legal(l, s, ts)
    ensures Exec(l, s, ts).nbuf == s.nbuf
    decreases |ts|
  {
    if ts != [] {
      SameBuffers(l, Do(l, s, ts[0]), ts[1..]);
    }
  }

  // ---------- who finds a buffer ----------

  lemma OneMoreReserved(l: Layout, lh: seq<nat>, ps: seq<Proc>, p: nat, b: nat)
    requires forall q :: 0 <= q < |ps| && ps[q].InOp? ==> ps[q].used <= MAXOPBLOCKS && PendingOk(l, lh, ps[q])
    requires p < |ps| && ps[p].InOp? && ps[p].pending.Nothing? && ps[p].used < MAXOPBLOCKS
    requires l.IsHome(b) && b !in lh && b !in Pendings(ps)
    ensures |Elements(lh) + Pendings(ps)| + 1 <= |lh| + Unused(ps)
  {
    var x := ps[p].(pending := Passed(b, Zeroes()));
    var ps' := ps[p := x];
    PendingsMove(ps, ps', p, b);
    SumsUpdate(ps, p, x);
    PendingsReserved(l, lh, ps');
    ElementsSize(lh);
    var new' := Pendings(ps') - Elements(lh);
    assert Elements(lh) + Pendings(ps) + {b} == Elements(lh) + new';
  }

  /** A cache of LOGSIZE buffers always has one for the block that an operation reads to log it. */
  lemma ReadFindsBuffer(l: Layout, s: State, p: nat, b: nat)
    requires Counted(l, s) && CanTest(l, s, p, b) && s.nbuf >= LOGSIZE
    ensures !NoRoomFor(s, b)
  {
    if b !in Busy(s) {
      OneMoreReserved(l, s.lh, s.procs, p, b);
    }
  }

  /** The caches that are large enough for every log. */
  ghost predicate Ample(l: Layout, nbuf: nat) {
    l.nlog == 1 || nbuf >= LOGSIZE + 1 || nbuf >= l.nlog + 2
  }

  /** In a cache that is large enough, no step meets "no buffers". */
  lemma StepFindsBuffers(l: Layout, s: State, t: Step)
    requires l.nlog >= 1 && s.nbuf >= 2 && Ample(l, s.nbuf)
    requires Counted(l, s) && Cached(l, s) && Enabled(l, s, t) && s.phase != Panicked(NoBuffers)
    ensures Do(l, s, t).phase != Panicked(NoBuffers)
  {
    BusyBound(l, s);
  }
}
