/** Port vectors: the fixed-width bitmaps of the bridge and the bit searches used on them. */
module Ports {

  const MAX_PORTS: nat := 256

  type Pidx = p: nat | p < MAX_PORTS
  type PortVec = set<Pidx>

  /** The port that stands for the bridge device itself. */
  const HOST: Pidx := 0

  predicate IsPort(p: int) {
    0 <= p < MAX_PORTS
  }

  /** A vector with every bit set. */
  function Fill(): (v: PortVec)
    ensures forall p: Pidx :: p in v
  {
    set p: Pidx | 0 <= p < MAX_PORTS && IsPort(p)
  }

  /** The lowest set bit that is not below `lo`, or MAX_PORTS when there is none. */
  function FirstFrom(v: PortVec, lo: nat): (r: nat)
    ensures r <= MAX_PORTS
    ensures r < MAX_PORTS ==> lo <= r && r in v
    ensures forall p: Pidx :: p in v && lo <= p ==> r <= p
    decreases MAX_PORTS - lo, v
  {
    if lo >= MAX_PORTS then MAX_PORTS
    else if lo in v then lo
    else FirstFrom(v, lo + 1)
  }

  /** The lowest clear bit, or MAX_PORTS when all bits are set. */
  function FirstZero(v: PortVec): (r: nat)
    ensures r <= MAX_PORTS
    ensures r < MAX_PORTS ==> r !in v
    ensures forall p: Pidx :: p !in v ==> r <= p
  {
    var clear := Fill() - v;
    assert forall p: Pidx :: p !in v ==> p in clear;
    FirstFrom(clear, 0)
  }

  /** The set bits in [lo, hi), ascending. */
  function Between(v: PortVec, lo: nat, hi: nat): (s: seq<Pidx>)
    requires hi <= MAX_PORTS
    ensures forall p: Pidx :: p in s <==> p in v && lo <= p < hi
    ensures forall i, j :: 0 <= i < j < |s| ==> s[i] < s[j]
    decreases hi, v
  {
    if hi <= lo then []
    else
      var rest := Between(v, lo, hi - 1);
      assert forall i :: 0 <= i < |rest| ==> rest[i] in rest;
      if hi - 1 in v then rest + [hi - 1] else rest
  }

  /** Clear bits do not contribute to a range. */
  lemma {:induction false} BetweenGap(v: PortVec, lo: nat, mid: nat, hi: nat)
    requires mid <= hi <= MAX_PORTS
    requires forall p: Pidx :: p in v && lo <= p && mid <= p ==> hi <= p
    ensures Between(v, lo, hi) == Between(v, lo, mid)
  {
    if mid < hi {
      BetweenGap(v, lo, mid, hi - 1);
    }
  }

  /** A range ends with the last set bit before the next one. */
  lemma BetweenNext(v: PortVec, lo: nat, p: Pidx)
    requires lo <= p && p in v
    ensures Between(v, lo, FirstFrom(v, p + 1)) == Between(v, lo, p) + [p]
  {
    BetweenGap(v, lo, p + 1, FirstFrom(v, p + 1));
  }

  /** The range before the first set bit is empty. */
  lemma BetweenFirst(v: PortVec, lo: nat)
    ensures Between(v, lo, FirstFrom(v, lo)) == []
  {
    if lo < MAX_PORTS {
      BetweenGap(v, lo, lo, FirstFrom(v, lo));
    }
  }

  /** Going through `v` one comes past no bit of `w` unseen. */
  lemma NextWithin(v: PortVec, w: PortVec, lo: nat, p: Pidx)
    requires p in v && lo <= p <= FirstFrom(v * w, lo)
    ensures p in w ==> FirstFrom(v * w, lo) == p
    ensures p !in w ==> FirstFrom(v, p + 1) <= FirstFrom(v * w, lo)
  {
    var stop := FirstFrom(v * w, lo);
    if p in w {
      assert p in v * w;
    } else if stop < MAX_PORTS {
      assert stop in v;
    }
  }

  /** A range lists as many ports as it has set bits: here, all of them. */
  lemma BetweenCount(v: PortVec, lo: nat, hi: nat)
    requires hi <= MAX_PORTS
    requires forall p: Pidx :: p in v ==> lo <= p < hi
    ensures |Between(v, lo, hi)| == |v|
  {
    AscendingCount(Between(v, lo, hi), v);
  }

  lemma {:induction false} AscendingCount(s: seq<Pidx>, v: PortVec)
    requires forall i, j :: 0 <= i < j < |s| ==> s[i] < s[j]
    requires forall p: Pidx :: p in s <==> p in v
    ensures |s| == |v|
  {
    if s == [] {
      assert v == {};
    } else {
      var n := |s| - 1;
      assert forall p: Pidx :: p in s[..n] <==> p in v - {s[n]};
      AscendingCount(s[..n], v - {s[n]});
      assert s[n] in v;
    }
  }

  /** A range depends only on the bits inside it. */
  lemma {:induction false} BetweenSame(v: PortVec, w: PortVec, lo: nat, hi: nat)
    requires hi <= MAX_PORTS
    requires forall p: Pidx :: lo <= p < hi ==> (p in v <==> p in w)
    ensures Between(v, lo, hi) == Between(w, lo, hi)
    decreases hi, v
  {
    if lo < hi {
      BetweenSame(v, w, lo, hi - 1);
    }
  }

  /** A vector with one bit is that bit. */
  lemma SingleBit(v: PortVec, p: Pidx)
    requires |v| == 1 && p in v
    ensures v == {p}
  {
    assert |v - {p}| == 0;
    assert v == (v - {p}) + {p};
  }
}
