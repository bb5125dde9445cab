/** What several modules count with: the 32-bit range, minimum and maximum, and sizes of finite sets. */
module Numbers {

  const U32: nat := 0x1_0000_0000

  function Max(a: nat, b: nat): (m: nat) {
    if a >= b then a else b
  }

  function Min(a: nat, b: nat): (m: nat) {
    if a <= b then a else b
  }

  /** The `n` numbers from `lo` on. */
  ghost function Range(lo: nat, n: nat): (r: set<nat>)
    ensures |r| == n && forall b :: b in r <==> lo <= b < lo + n
  {
    if n == 0 then {} else Range(lo, n - 1) + {lo + n - 1}
  }

  ghost function Elements(bs: seq<nat>): (e: set<nat>)
    ensures forall b :: b in e <==> b in bs
  {
    set b | b in bs
  }

  ghost predicate Distinct(bs: seq<nat>) {
    forall i, j :: 0 <= i < j < |bs| ==> bs[i] != bs[j]
  }

  lemma {:induction false} ElementsSize(bs: seq<nat>)
    ensures |Elements(bs)| <= |bs|
    ensures Distinct(bs) ==> |Elements(bs)| == |bs|
  {
    if bs == [] {
      assert Elements(bs) == {};
    } else {
      var n := |bs| - 1;
      ElementsSize(bs[..n]);
      assert bs == bs[..n] + [bs[n]];
      assert Elements(bs) == Elements(bs[..n]) + {bs[n]};
    }
  }

  lemma SubsetSize<T>(a: set<T>, b: set<T>)
    requires a <= b
    ensures |a| <= |b|
  {
    assert b == a + (b - a);
  }
}
