/** Handing one buffer to every port of a vector. */
module Delivery {
  import opened Ports

  /** `ports` received a buffer, in this order; `clones` were made; `freed` buffers were dropped. */
  datatype Delivery = Delivery(ports: seq<Pidx>, clones: nat, freed: nat)

  /** `lost` are the ports for which cloning fails. The original goes out last, to the lowest port. */
  function Delivered(vec: PortVec, lost: PortVec): Delivery {
    var first := FirstFrom(vec, 0);
    if first == MAX_PORTS then Delivery([], 0, 1)
    else
      var stop := FirstFrom(vec * lost, first + 1);
      var copies := Between(vec, first + 1, stop);
      if stop == MAX_PORTS then Delivery(copies + [first], |copies|, 0)
      else Delivery(copies, |copies|, 1)
  }

  predicate IsLowest(v: PortVec, p: Pidx) {
    p in v && forall q :: q in v ==> p <= q
  }

  /** No port of the vector above the lowest one loses its clone. */
  predicate AllCloned(vec: PortVec, lost: PortVec) {
    forall p, q :: p in vec && q in vec && q < p ==> p !in lost
  }

  /** Every buffer is accounted for, and no port gets two. */
  lemma BuffersConserved(vec: PortVec, lost: PortVec)
    ensures var d := Delivered(vec, lost);
            && |d.ports| + d.freed == 1 + d.clones
            && (forall i, j :: 0 <= i < j < |d.ports| ==> d.ports[i] != d.ports[j])
            && (forall p :: p in d.ports ==> p in vec)
            && (vec == {} ==> d == Delivery([], 0, 1))
  {
    var first := FirstFrom(vec, 0);
    if first < MAX_PORTS {
      var stop := FirstFrom(vec * lost, first + 1);
      var copies := Between(vec, first + 1, stop);
      forall i | 0 <= i < |copies| ensures first < copies[i] {
        assert copies[i] in copies;
      }
    }
  }

  lemma CopiesAboveFirst(vec: PortVec, first: Pidx)
    requires IsLowest(vec, first)
    ensures |Between(vec, first + 1, MAX_PORTS)| == |vec| - 1
    ensures forall p: Pidx :: p in vec <==> p == first || p in Between(vec, first + 1, MAX_PORTS)
  {
    var rest := vec - {first};
    BetweenSame(vec, rest, first + 1, MAX_PORTS);
    BetweenCount(rest, first + 1, MAX_PORTS);
  }

  lemma LowestIsFirst(vec: PortVec)
    requires vec != {}
    ensures FirstFrom(vec, 0) < MAX_PORTS && IsLowest(vec, FirstFrom(vec, 0))
  {
    var p: Pidx :| p in vec;
    assert FirstFrom(vec, 0) <= p;
  }

  /** Without a lost clone, exactly the ports of the vector get a buffer, the lowest one the original,
      using one clone less than there are ports. */
  lemma DeliveredToAll(vec: PortVec, lost: PortVec)
    requires vec != {} && AllCloned(vec, lost)
    ensures var d := Delivered(vec, lost);
            && (forall p: Pidx :: p in d.ports <==> p in vec)
            && |d.ports| == |vec| && d.clones == |vec| - 1 && d.freed == 0
            && IsLowest(vec, d.ports[|d.ports| - 1])
  {
    LowestIsFirst(vec);
    var first := FirstFrom(vec, 0);
    CopiesAboveFirst(vec, first);
    var copies := Between(vec, first + 1, MAX_PORTS);
    assert FirstFrom(vec * lost, first + 1) == MAX_PORTS;
    assert Delivered(vec, lost) == Delivery(copies + [first], |copies|, 0);
    forall p: Pidx ensures p in copies + [first] <==> p in vec {
    }
  }

  /** When a clone is lost, exactly the ports strictly between the lowest port and the first loss
      were served, and the original is freed once. */
  lemma DeliveredUpToLoss(vec: PortVec, lost: PortVec, first: Pidx, k: Pidx)
    requires IsLowest(vec, first) && first < k
    requires k in vec && k in lost
    requires forall p :: p in vec && p in lost && first < p ==> k <= p
    ensures var d := Delivered(vec, lost);
            && (forall p: Pidx :: p in d.ports <==> p in vec && first < p < k)
            && d.clones == |d.ports| && d.freed == 1
  {
    assert FirstFrom(vec, 0) == first;
    assert k in vec * lost;
    assert FirstFrom(vec * lost, first + 1) == k;
  }
}
