/**
 One call of the file system as one operation of the log: begin_op, a log_write for each block the call
 changes, end_op.  The commit that follows is made by calls, in the sense of Durability.
 */
module Transactions {
  import opened Numbers
  import opened Blocks
  import opened LogDisk
  import opened LogMachine
  import opened LogBuffers
  import opened Ownership
  import opened InodeTable
  import opened Durability

  /** The blocks of the first `k` writes, each once, in the order in which they are first written. */
  ghost function Firsts(ws: seq<Write>, k: nat): (bs: seq<nat>)
    requires k <= |ws|
    decreases k
  {
    if k == 0 then []
    else
      var bs := Firsts(ws, k - 1);
      if ws[k - 1].blockno in bs then bs else bs + [ws[k - 1].blockno]
  }

  /** The blocks that the writes `ws` touch. */
  ghost function Touched(ws: seq<Write>): (bs: set<nat>) {
    set k | 0 <= k < |ws| :: ws[k].blockno
  }

  lemma {:induction false} FirstsAre(ws: seq<Write>, k: nat)
    requires k <= |ws|
    ensures Distinct(Firsts(ws, k)) && Elements(Firsts(ws, k)) == Touched(ws[..k])
    decreases k
  {
    if k == 0 {
      assert Touched(ws[..0]) == {};
    } else {
      FirstsAre(ws, k - 1);
      TouchedSnoc(ws, k - 1);
      ElementsSnoc(Firsts(ws, k - 1), ws[k - 1].blockno);
    }
  }

  lemma ElementsSnoc(bs: seq<nat>, b: nat)
    ensures Elements(bs + [b]) == Elements(bs) + {b}
    ensures Distinct(bs) && b !in bs ==> Distinct(bs + [b])
  {
  }

  lemma TouchedSnoc(ws: seq<Write>, k: nat)
    requires k < |ws|
    ensures Touched(ws[..k + 1]) == Touched(ws[..k]) + {ws[k].blockno}
  {
    var a, b := ws[..k], ws[..k + 1];
    assert forall i :: 0 <= i < k ==> a[i] == b[i];
    assert b[k] == ws[k];
  }

  lemma FirstsTouched(ws: seq<Write>)
    ensures Elements(Firsts(ws, |ws|)) == Touched(ws) && |Firsts(ws, |ws|)| == |Touched(ws)|
  {
    FirstsAre(ws, |ws|);
    ElementsSize(Firsts(ws, |ws|));
    assert ws[..|ws|] == ws;
  }

  lemma {:induction false} FirstsGrow(ws: seq<Write>, k: nat, n: nat)
    requires k <= n <= |ws|
    ensures |Firsts(ws, k)| <= |Firsts(ws, n)|
    decreases n
  {
    if k < n {
      FirstsGrow(ws, k, n - 1);
    }
  }

  /**
   The writes of a call, in order and with repetitions: of home blocks, no more of them than one operation
   may log, and each finding room in the log region and the cache.
   */
  ghost predicate Writable(l: Layout, s: State, ws: seq<Write>) {
    && |Touched(ws)| <= MAXOPBLOCKS && |Touched(ws)| < s.nbuf
    && (forall k :: 0 <= k < |ws| ==> l.IsHome(ws[k].blockno) && ws[k].blockno < |s.view|)
    && (forall k :: 0 <= k < |ws| ==> |Firsts(ws, k)| + 2 <= l.nlog)
  }

  /** Nothing is logged and nobody is in an operation. */
  ghost predicate AtRest(s: State, p: nat) {
    && s.phase.Serving? && s.lh == [] && s.outstanding == 0 && !s.committing && p < |s.procs|
    && forall q :: 0 <= q < |s.procs| ==> s.procs[q].Idle?
  }

  /** The disk after the first `k` writes. */
  ghost function Put(view: Disk, ws: seq<Write>, k: nat): (r: Disk)
    requires k <= |ws| && forall i :: 0 <= i < |ws| ==> ws[i].blockno < |view|
    ensures |r| == |view|
    decreases k
  {
    if k == 0 then view else Put(view, ws, k - 1)[ws[k - 1].blockno := ws[k - 1].data]
  }

  ghost function Writes(op: nat, ws: seq<Write>, k: nat): (es: seq<Event>)
    requires k <= |ws|
    ensures |es| == k && forall i :: 0 <= i < k ==> es[i] == Event(op, ws[i].blockno, ws[i].data)
    decreases k
  {
    if k == 0 then [] else Writes(op, ws, k - 1) + [Event(op, ws[k - 1].blockno, ws[k - 1].data)]
  }

  /** The state after begin_op and `k` calls of log_write, the last of them up to its size test if `x` says so. */
  ghost function Half(s: State, p: nat, ws: seq<Write>, k: nat, x: Pending): (s': State)
    requires p < |s.procs| && k <= |ws| && forall i :: 0 <= i < |ws| ==> ws[i].blockno < |s.view|
  {
    s.(outstanding := 1, procs := s.procs[p := InOp(s.nextOp, |Firsts(ws, k)|, x)], nextOp := s.nextOp + 1,
       lh := Firsts(ws, k), view := Put(s.view, ws, k), hist := s.hist + Writes(s.nextOp, ws, k))
  }

  lemma HalfBusy(s: State, p: nat, ws: seq<Write>, k: nat)
    requires AtRest(s, p) && k <= |ws| && forall i :: 0 <= i < |ws| ==> ws[i].blockno < |s.view|
    ensures |Busy(Half(s, p, ws, k, Nothing))| <= |Firsts(ws, k)|
  {
    var h := Half(s, p, ws, k, Nothing);
    assert Pendings(h.procs) == {};
    ElementsSize(Firsts(ws, k));
    assert Busy(h) == Elements(Firsts(ws, k));
  }

  lemma HalfTest(l: Layout, s: State, p: nat, ws: seq<Write>, k: nat)
    requires AtRest(s, p) && Writable(l, s, ws) && k < |ws|
    ensures var h, b, data := Half(s, p, ws, k, Nothing), ws[k].blockno, ws[k].data;
            CanTest(l, h, p, b) && DoTest(l, h, p, b, data) == Half(s, p, ws, k, Passed(b, data))
  {
    HalfBusy(s, p, ws, k);
    FirstsTouched(ws);
    FirstsGrow(ws, k, |ws|);
    FirstsGrow(ws, k + 1, |ws|);
    var h := Half(s, p, ws, k, Nothing);
    var x := InOp(s.nextOp, |Firsts(ws, k)|, Passed(ws[k].blockno, ws[k].data));
    assert h.procs[p := x] == s.procs[p := x];
  }

  lemma HalfAppend(s: State, p: nat, ws: seq<Write>, k: nat)
    requires AtRest(s, p) && k < |ws| && forall i :: 0 <= i < |ws| ==> ws[i].blockno < |s.view|
    ensures var h := Half(s, p, ws, k, Passed(ws[k].blockno, ws[k].data));
            CanAppend(h, p) && DoAppend(h, p) == Half(s, p, ws, k + 1, Nothing)
  {
    var h := Half(s, p, ws, k, Passed(ws[k].blockno, ws[k].data));
    var x := InOp(s.nextOp, |Firsts(ws, k + 1)|, Nothing);
    assert h.procs[p := x] == s.procs[p := x];
    assert h.hist + [Event(s.nextOp, ws[k].blockno, ws[k].data)] == s.hist + Writes(s.nextOp, ws, k + 1);
  }

  /** Outside commits there is nothing to show. */
  lemma {:induction false} ServesExtend(l: Layout, sb: Super, s: State, ts: seq<Step>, t: Step)
    requires Legal(l, s, ts) && ServesCalls(l, sb, s, ts) && Enabled(l, Exec(l, s, ts), t)
    requires MadeByCalls(l, sb, Do(l, Exec(l, s, ts), t))
    ensures Legal(l, s, ts + [t]) && ServesCalls(l, sb, s, ts + [t])
    ensures Exec(l, s, ts + [t]) == Do(l, Exec(l, s, ts), t)
    decreases |ts|
  {
    RunExtend(l, s, ts, t);
    if ts == [] {
      assert ts + [t] == [t] && [t][1..] == [];
    } else {
      ServesExtend(l, sb, Do(l, s, ts[0]), ts[1..], t);
      assert (ts + [t])[1..] == ts[1..] + [t];
    }
  }

  lemma {:induction false} WritesRun(l: Layout, sb: Super, s: State, p: nat, ws: seq<Write>, k: nat)
    returns (ts: seq<Step>)
    requires AtRest(s, p) && Writable(l, s, ws) && k <= |ws|
    ensures Legal(l, s, ts) && ServesCalls(l, sb, s, ts) && Exec(l, s, ts) == Half(s, p, ws, k, Nothing)
  {
    if k == 0 {
      ServesExtend(l, sb, s, [], Begin(p));
      ts := [] + [Begin(p)];
      assert s.hist + [] == s.hist;
    } else {
      ts := WritesRun(l, sb, s, p, ws, k - 1);
      ts := WriteRound(l, sb, s, ts, p, ws, k - 1);
    }
  }

  lemma WriteRound(l: Layout, sb: Super, s: State, ts: seq<Step>, p: nat, ws: seq<Write>, k: nat)
    returns (ts': seq<Step>)
    requires AtRest(s, p) && Writable(l, s, ws) && k < |ws|
    requires Legal(l, s, ts) && ServesCalls(l, sb, s, ts) && Exec(l, s, ts) == Half(s, p, ws, k, Nothing)
    ensures Legal(l, s, ts') && ServesCalls(l, sb, s, ts') && Exec(l, s, ts') == Half(s, p, ws, k + 1, Nothing)
  {
    HalfTest(l, s, p, ws, k);
    HalfAppend(s, p, ws, k);
    var t := Test(p, ws[k].blockno, ws[k].data);
    ServesExtend(l, sb, s, ts, t);
    ServesExtend(l, sb, s, ts + [t], Append(p));
    ts' := ts + [t] + [Append(p)];
  }

  /** The writes leave the contents of `d` in every block they touch. */
  ghost predicate Leaves(ws: seq<Write>, d: Disk) {
    && (forall k :: 0 <= k < |ws| ==> ws[k].blockno < |d|)
    && forall b :: b in Touched(ws) ==> Put(d, ws, |ws|)[b] == d[b]
  }

  /** The last of the first `n` writes that touches block `b`. */
  lemma {:induction false} LastPut(ws: seq<Write>, d: Disk, n: nat, b: nat) returns (k: nat)
    requires n <= |ws| && (forall i :: 0 <= i < |ws| ==> ws[i].blockno < |d|)
    requires b in Firsts(ws, n)
    ensures k < n && ws[k].blockno == b && ws[k].data == Put(d, ws, n)[b]
    ensures forall i :: k < i < n ==> ws[i].blockno != b
    decreases n
  {
    if ws[n - 1].blockno == b {
      k := n - 1;
    } else {
      k := LastPut(ws, d, n - 1, b);
    }
  }

  /** The writes log exactly the blocks they touch, in the end with their contents in `d`. */
  lemma WritesLogged(op: nat, ws: seq<Write>, d: Disk)
    requires Leaves(ws, d)
    ensures LoggedAs(Writes(op, ws, |ws|), d, Touched(ws))
  {
    var es := Writes(op, ws, |ws|);
    forall k | 0 <= k < |es| ensures es[k].block in Touched(ws) {
      assert es[k].block == ws[k].blockno;
    }
    forall b | b in Touched(ws) && b < |d| ensures exists k :: LastWrite(es, d, b, k) {
      FirstsTouched(ws);
      var k := LastPut(ws, d, |ws|, b);
      assert LastWrite(es, d, b, k);
    }
  }

  /**
   Any call of the file system that stays within the budget can be run as one operation, whatever the order of
   its writes and however often it writes a block: the run serves calls, and what it is about to
   commit is that call.
   */
  lemma CallRun(l: Layout, sb: Super, s: State, p: nat, d: Disk, ws: seq<Write>) returns (ts: seq<Step>)
    requires LogMachine.Inv(l, s) && AtRest(s, p) && Writable(l, s, ws) && Leaves(ws, d)
    requires Call(sb, Durable(l, s), d, Touched(ws))
    ensures Legal(l, s, ts) && ServesCalls(l, sb, s, ts)
    ensures var s' := Exec(l, s, ts);
            && s'.phase.Committing? && s'.phase.done == 0 && s'.durable == s.durable == |s.hist|
            && s'.hist == s.hist + Writes(s.nextOp, ws, |ws|) && LogMachine.Inv(l, s')
            && s'.view == Put(s.view, ws, |ws|) && Elements(s'.lh) == Touched(ws)
  {
    CommitBegins(l, s);
    ts := WritesRun(l, sb, s, p, ws, |ws|);
    var s' := EndMade(l, sb, s, p, ws, d);
    ServesExtend(l, sb, s, ts, End(p));
    ts := ts + [End(p)];
    FirstsTouched(ws);
    RunKeeps(l, s, ts);
  }

  lemma OneCall(sb: Super, d0: Disk, d: Disk, op: nat, ws: seq<Write>, es: seq<Event>)
    requires Leaves(ws, d) && es == Writes(op, ws, |ws|)
    requires Call(sb, d0, d, Touched(ws))
    ensures exists cs :: Calls(sb, d0, cs) && Events(cs) == es
  {
    WritesLogged(op, ws, d);
    var cs := [Made(d, Touched(ws), es)];
    assert cs[1..] == [] && Calls(sb, d, cs[1..]) && Events(cs[1..]) == [] && es + [] == es;
    assert Calls(sb, d0, cs) && Events(cs) == es;
  }

  lemma EndCommits(l: Layout, s: State, p: nat, ws: seq<Write>) returns (s': State)
    requires AtRest(s, p) && Writable(l, s, ws)
    ensures CanEnd(Half(s, p, ws, |ws|, Nothing), p) && s' == DoEnd(Half(s, p, ws, |ws|, Nothing), p)
    ensures s'.phase.Committing? && s'.phase.done == 0 && s'.durable == s.durable && s'.base == s.base
    ensures s'.hist == s.hist + Writes(s.nextOp, ws, |ws|)
    ensures s'.view == Put(s.view, ws, |ws|) && s'.lh == Firsts(ws, |ws|)
  {
    FirstsTouched(ws);
    s' := DoEnd(Half(s, p, ws, |ws|, Nothing), p);
  }

  lemma EndMade(l: Layout, sb: Super, s: State, p: nat, ws: seq<Write>, d: Disk) returns (s': State)
    requires AtRest(s, p) && Writable(l, s, ws) && s.durable == |s.hist| && |s.base| == l.size && Leaves(ws, d)
    requires Call(sb, Durable(l, s), d, Touched(ws))
    ensures CanEnd(Half(s, p, ws, |ws|, Nothing), p) && s' == DoEnd(Half(s, p, ws, |ws|, Nothing), p)
    ensures MadeByCalls(l, sb, s') && s'.phase.Committing? && s'.phase.done == 0 && s'.durable == s.durable
    ensures s'.hist == s.hist + Writes(s.nextOp, ws, |ws|)
    ensures s'.view == Put(s.view, ws, |ws|) && s'.lh == Firsts(ws, |ws|)
  {
    s' := EndCommits(l, s, p, ws);
    var es := Writes(s.nextOp, ws, |ws|);
    assert s'.hist[s'.durable..] == es && s'.hist[..s'.durable] == s.hist[..s.durable];
    SameDurable(l, s, s');
    OneCall(sb, Durable(l, s), d, s.nextOp, ws, es);
  }
}
