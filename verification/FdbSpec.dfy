/** The forwarding database as a value: learning, lookup, flushing and ageing. */
module FdbSpec {
  import opened Ports
  import opened Frames

  datatype Proto = Dynamic | External | User

  datatype Entry = Entry(vec: PortVec, proto: Proto, tstamp: nat)

  type Table = map<FdbAddr, Entry>

  /** Time is either unbounded, or a counter that wraps at 2 * half and is compared as signed. */
  datatype Clock = Unbounded | Wrapping(half: nat)

  function Stamp(c: Clock, now: nat): nat {
    if c.Wrapping? && c.half > 0 then now % (2 * c.half) else now
  }

  /** time_is_before_jiffies(t): the difference to the counter, read as signed, is negative. */
  predicate TimeIsBefore(c: Clock, t: int, now: nat) {
    if c.Wrapping? && c.half > 0
    then (t - Stamp(c, now)) % (2 * c.half) >= c.half
    else t < now
  }

  predicate IsOld(c: Clock, e: Entry, now: nat, timeout: nat) {
    e.proto == Dynamic && TimeIsBefore(c, e.tstamp + timeout, now)
  }

  // ---------- learning ----------

  function Refreshed(c: Clock, e: Entry, pidx: Pidx, now: nat): Entry {
    Entry(if pidx in e.vec then e.vec else {pidx}, Dynamic, Stamp(c, now))
  }

  /** `alloc` says whether a new node could be allocated and inserted. */
  function Learned(c: Clock, t: Table, key: FdbAddr, pidx: Pidx, now: nat, alloc: bool): Table {
    if key in t then
      if t[key].proto != Dynamic then t
      else t[key := Refreshed(c, t[key], pidx, now)]
    else if alloc then t[key := Entry({pidx}, Dynamic, Stamp(c, now))]
    else t
  }

  function LearnedFrom(c: Clock, t: Table, vid: Vid, src: Mac, pidx: Pidx, now: nat, alloc: bool): Table {
    if IsValidEther(src) then Learned(c, t, MacAddr(vid, src), pidx, now, alloc) else t
  }

  // ---------- flushing ----------

  /** `pidx`, `vid` and `proto` are meaningful only under their `per_` switch. */
  datatype FlushOp = FlushOp(perPort: bool, pidx: Pidx, perVlan: bool, vid: Vid,
                             perProto: bool, proto: Proto, onlyOld: bool)

  const FLUSH_ALL := FlushOp(false, 0, false, 0, false, Dynamic, false)
  const FLUSH_AGED := FlushOp(false, 0, false, 0, true, Dynamic, true)

  predicate Matches(c: Clock, op: FlushOp, k: FdbAddr, e: Entry, now: nat, timeout: nat) {
    && (op.perPort ==> op.pidx in e.vec)
    && (op.perVlan ==> k.vid == op.vid)
    && (op.perProto ==> e.proto == op.proto)
    && (op.perProto && op.proto == Dynamic && op.onlyOld ==> IsOld(c, e, now, timeout))
  }

  function Flushed(c: Clock, t: Table, op: FlushOp, now: nat, timeout: nat): Table {
    map k | k in t && !Matches(c, op, k, t[k], now, timeout) :: t[k]
  }

  /** A flush that only came past some of the keys. */
  function FlushedAmong(c: Clock, t: Table, op: FlushOp, keys: set<FdbAddr>, now: nat, timeout: nat): Table {
    map k | k in t && !(k in keys && Matches(c, op, k, t[k], now, timeout)) :: t[k]
  }

  lemma FlushOneMore(c: Clock, t: Table, op: FlushOp, keys: set<FdbAddr>, key: FdbAddr, now: nat, timeout: nat)
    ensures var t' := FlushedAmong(c, t, op, keys, now, timeout);
            FlushedAmong(c, t, op, keys + {key}, now, timeout)
            == if key in t' && Matches(c, op, key, t'[key], now, timeout) then t' - {key} else t'
  {
  }

  function Aged(c: Clock, t: Table, now: nat, timeout: nat): Table {
    Flushed(c, t, FLUSH_AGED, now, timeout)
  }

  /** At a fixed time flushing twice is flushing once, and the order of two flushes does not matter. */
  lemma FlushIdempotentAndCommutes(c: Clock, t: Table, op: FlushOp, op': FlushOp, now: nat, timeout: nat)
    ensures Flushed(c, Flushed(c, t, op, now, timeout), op, now, timeout) == Flushed(c, t, op, now, timeout)
    ensures Flushed(c, Flushed(c, t, op, now, timeout), op', now, timeout)
         == Flushed(c, Flushed(c, t, op', now, timeout), op, now, timeout)
  {
  }

  /** `onlyOld` is consulted only when dynamic entries are flushed by protocol. */
  lemma OldNeedsDynamicProto(c: Clock, t: Table, op: FlushOp, now: nat, timeout: nat)
    ensures !(op.perProto && op.proto == Dynamic)
        ==> Flushed(c, t, op, now, timeout) == Flushed(c, t, op.(onlyOld := !op.onlyOld), now, timeout)
  {
  }

  /** A flush with no switch set empties the table. */
  lemma FlushAllEmpties(c: Clock, t: Table, now: nat, timeout: nat)
    ensures Flushed(c, t, FLUSH_ALL, now, timeout) == map[]
  {
  }

  // ---------- lookup ----------

  datatype Flood = Flood(mc: PortVec, bc: PortVec, uc: PortVec)

  function FloodFilter(flood: Flood, dst: Mac): PortVec {
    if IsMulticast(dst) then
      if IsBroadcast(dst) then flood.bc else flood.mc
    else flood.uc
  }

  function EgressFilter(c: Clock, t: Table, key: FdbAddr, flood: Flood, dst: Mac, now: nat, timeout: nat): PortVec {
    if key in t && !IsOld(c, t[key], now, timeout) then t[key].vec
    else FloodFilter(flood, dst)
  }

  // ---------- the shape of a learned table ----------

  /** A dynamic entry for a station's address, that is a nonzero one with an even first octet, with one port. */
  predicate ShapedEntry(k: FdbAddr, e: Entry) {
    k.MacAddr? && k.mac != 0 && FirstOctet(k.mac) % 2 == 0 && e.proto == Dynamic && |e.vec| == 1
  }

  ghost predicate Shape(t: Table) {
    forall k :: k in t ==> ShapedEntry(k, t[k])
  }

  lemma LearnKeepsShape(c: Clock, t: Table, vid: Vid, src: Mac, pidx: Pidx, now: nat, alloc: bool)
    requires Shape(t)
    ensures Shape(LearnedFrom(c, t, vid, src, pidx, now, alloc))
  {
    assert |{pidx}| == 1;
  }

  lemma FlushKeepsShape(c: Clock, t: Table, op: FlushOp, now: nat, timeout: nat)
    requires Shape(t)
    ensures Shape(Flushed(c, t, op, now, timeout))
  {
  }

  /** In a shaped table a source is learnt exactly if its address is a station's, and there is memory or it
      is in the table already; that leaves it on exactly the ingress port and nothing else changed. */
  lemma LearnedEntry(c: Clock, t: Table, vid: Vid, src: Mac, pidx: Pidx, now: nat, alloc: bool)
    requires Shape(t)
    ensures LearnedFrom(c, t, vid, src, pidx, now, alloc)
         == if src != 0 && FirstOctet(src) % 2 == 0 && (alloc || MacAddr(vid, src) in t)
            then t[MacAddr(vid, src) := Entry({pidx}, Dynamic, Stamp(c, now))] else t
  {
    var key := MacAddr(vid, src);
    if key in t && pidx in t[key].vec {
      SingleBit(t[key].vec, pidx);
    }
  }

  /** With a shaped table a unicast frame goes to the one port of its destination's live entry or floods,
      and every group-addressed frame uses its flood vector. */
  lemma ShapedEgress(c: Clock, t: Table, vid: Vid, dst: Mac, l3: L3, flood: Flood, now: nat, timeout: nat)
    requires Shape(t)
    ensures var filter := EgressFilter(c, t, LookupKey(vid, dst, l3), flood, dst, now, timeout);
            var known := MacAddr(vid, dst) in t && !IsOld(c, t[MacAddr(vid, dst)], now, timeout);
            && (FirstOctet(dst) % 2 == 1 ==> filter == if dst == 0xFFFF_FFFF_FFFF then flood.bc else flood.mc)
            && (FirstOctet(dst) % 2 == 0 && known ==> filter == t[MacAddr(vid, dst)].vec && |filter| == 1)
            && (FirstOctet(dst) % 2 == 0 && !known ==> filter == flood.uc)
  {
  }

  /** The entry looked up for a group, in any table: by network address where the frame shows one. */
  lemma GroupLookup(c: Clock, t: Table, vid: Vid, dst: Mac, l3: L3, flood: Flood, now: nat, timeout: nat, e: Entry)
    requires FirstOctet(dst) % 2 == 1 && !IsOld(c, e, now, timeout)
    ensures l3.IsIp4? ==>
              var t' := t[Ip4Addr(vid, l3.daddr4) := e];
              EgressFilter(c, t', LookupKey(vid, dst, l3), flood, dst, now, timeout) == e.vec
    ensures l3.IsIp6? ==>
              var t' := t[Ip6Addr(vid, l3.daddr6) := e];
              EgressFilter(c, t', LookupKey(vid, dst, l3), flood, dst, now, timeout) == e.vec
    ensures l3.IsOther? ==>
              EgressFilter(c, t[MacAddr(vid, dst) := e], LookupKey(vid, dst, l3), flood, dst, now, timeout) == e.vec
  {
  }

  /** An entry that is not dynamic is never changed by learning, never ages, and always serves lookups. */
  lemma StaticEntriesStay(c: Clock, t: Table, key: FdbAddr, vid: Vid, src: Mac, pidx: Pidx, now: nat, timeout: nat,
                          alloc: bool, flood: Flood, dst: Mac)
    requires key in t && t[key].proto != Dynamic
    ensures var t' := LearnedFrom(c, t, vid, src, pidx, now, alloc); key in t' && t'[key] == t[key]
    ensures var t' := Aged(c, t, now, timeout); key in t' && t'[key] == t[key]
    ensures EgressFilter(c, t, key, flood, dst, now, timeout) == t[key].vec
  {
  }

  /** A flush takes exactly what meets every criterion switched on; whether an entry is old is asked only
      when dynamic entries are flushed by protocol. Nothing that stays is changed. */
  lemma FlushExactly(t: Table, op: FlushOp, now: nat, timeout: nat, k: FdbAddr)
    ensures var t' := Flushed(Unbounded, t, op, now, timeout);
            && (k in t' ==> k in t && t'[k] == t[k])
            && (k in t ==>
                 (k !in t' <==>
                   && (!op.perPort || op.pidx in t[k].vec)
                   && (!op.perVlan || k.vid == op.vid)
                   && (!op.perProto || t[k].proto == op.proto)
                   && (!(op.perProto && op.proto == Dynamic && op.onlyOld) || t[k].tstamp + timeout < now)))
  {
  }

  /** An ageing run takes exactly the dynamic entries past their time. */
  lemma AgedExactly(t: Table, now: nat, timeout: nat, k: FdbAddr)
    requires k in t
    ensures k in Aged(Unbounded, t, now, timeout) <==> !(t[k].proto == Dynamic && t[k].tstamp + timeout < now)
  {
    FlushExactly(t, FLUSH_AGED, now, timeout, k);
  }

  // ---------- entries that still count ----------

  /** The entries a lookup in unbounded time would use. */
  function Live(t: Table, now: nat, timeout: nat): Table {
    map k | k in t && !IsOld(Unbounded, t[k], now, timeout) :: t[k]
  }

  /** An entry that lingers: expired, but not collected yet. */
  predicate Lingers(t: Table, key: FdbAddr, now: nat, timeout: nat) {
    key in t && IsOld(Unbounded, t[key], now, timeout)
  }

  /** Relearning an expired station gives the same entry as learning it afresh, exactly if there is memory
      to learn it afresh or it does not linger: refreshing takes no memory. */
  lemma LiveLearn(t: Table, vid: Vid, src: Mac, pidx: Pidx, now: nat, timeout: nat, alloc: bool)
    requires Shape(t)
    ensures Live(LearnedFrom(Unbounded, t, vid, src, pidx, now, alloc), now, timeout)
         == LearnedFrom(Unbounded, Live(t, now, timeout), vid, src, pidx, now, alloc)
        <==> alloc || !IsValidEther(src) || !Lingers(t, MacAddr(vid, src), now, timeout)
  {
    var key := MacAddr(vid, src);
    var learned := LearnedFrom(Unbounded, t, vid, src, pidx, now, alloc);
    if IsValidEther(src) && (alloc || key in t) {
      LearnedEntry(Unbounded, t, vid, src, pidx, now, alloc);
      assert Shape(Live(t, now, timeout));
      assert key in Live(learned, now, timeout);
      if alloc || key in Live(t, now, timeout) {
        LearnedEntry(Unbounded, Live(t, now, timeout), vid, src, pidx, now, alloc);
      }
    }
  }

  /** Lookup cannot tell an expired entry from a missing one. */
  lemma LiveEgress(t: Table, key: FdbAddr, flood: Flood, dst: Mac, now: nat, timeout: nat)
    ensures EgressFilter(Unbounded, t, key, flood, dst, now, timeout)
         == EgressFilter(Unbounded, Live(t, now, timeout), key, flood, dst, now, timeout)
  {
  }

  // ---------- one VLAN's part of the table ----------

  function Restrict(t: Table, vid: Vid): Table {
    map k | k in t && k.vid == vid :: t[k]
  }

  lemma RestrictLookup(t: Table, v: Vid, key: FdbAddr)
    requires key.vid == v
    ensures key in t <==> key in Restrict(t, v)
    ensures key in t ==> t[key] == Restrict(t, v)[key]
  {
  }

  lemma RestrictLearn(c: Clock, t: Table, v: Vid, vid: Vid, src: Mac, pidx: Pidx, now: nat, alloc: bool)
    ensures Restrict(LearnedFrom(c, t, vid, src, pidx, now, alloc), v)
         == if vid == v then LearnedFrom(c, Restrict(t, v), vid, src, pidx, now, alloc) else Restrict(t, v)
  {
  }

  lemma RestrictFlush(c: Clock, t: Table, v: Vid, op: FlushOp, now: nat, timeout: nat)
    ensures Restrict(Flushed(c, t, op, now, timeout), v) == Flushed(c, Restrict(t, v), op, now, timeout)
  {
  }

  // ---------- wrapping time ----------

  /** The same table as the wrapping clock would have stamped it. */
  function Wrapped(t: Table, half: nat): Table {
    map k | k in t :: t[k].(tstamp := Stamp(Wrapping(half), t[k].tstamp))
  }

  /** No entry was stamped in the future or more than `age` ago. */
  ghost predicate Recent(t: Table, now: nat, age: nat) {
    forall k :: k in t ==> t[k].tstamp <= now <= t[k].tstamp + age
  }

  lemma MulBound(d: int, m: int)
    requires m > 0
    ensures d >= 1 ==> d * m >= m
    ensures d <= -1 ==> d * m <= -m
  {
    if d >= 1 {
      assert (d - 1) * m >= 0;
    } else if d <= -1 {
      assert (-1 - d) * m >= 0;
    }
  }

  /** Residues are unique. */
  lemma ModUnique(x: int, q: int, r: int, m: int)
    requires m > 0 && x == q * m + r && 0 <= r < m
    ensures x % m == r
  {
    var d := x / m - q;
    assert x == (x / m) * m + x % m;
    assert d * m == r - x % m;
    MulBound(d, m);
  }

  /** Up to a whole revolution past expiry, the wrapped signed comparison agrees with the comparison in
      unbounded time exactly while no more than half a revolution has passed since expiry. */
  lemma WrapAgrees(half: nat, tstamp: nat, timeout: nat, now: nat)
    requires half > 0 && timeout < half
    requires tstamp <= now <= tstamp + timeout + 2 * half
    ensures (TimeIsBefore(Wrapping(half), Stamp(Wrapping(half), tstamp) + timeout, now)
             <==> TimeIsBefore(Unbounded, tstamp + timeout, now))
        <==> now <= tstamp + timeout + half
  {
    var m := 2 * half;
    var diff := tstamp % m + timeout - now % m;
    var q := now / m - tstamp / m;
    assert tstamp == tstamp / m * m + tstamp % m;
    assert now == now / m * m + now % m;
    assert q * m == now / m * m - tstamp / m * m;
    assert diff == q * m + (tstamp + timeout - now);
    if tstamp + timeout < now {
      assert (q - 1) * m == q * m - m;
      ModUnique(diff, q - 1, tstamp + timeout - now + m, m);
    } else {
      ModUnique(diff, q, tstamp + timeout - now, m);
    }
  }

  lemma WrapOld(half: nat, e: Entry, now: nat, timeout: nat)
    requires half > 0 && timeout < half && e.tstamp <= now <= e.tstamp + timeout + half
    ensures IsOld(Wrapping(half), e.(tstamp := Stamp(Wrapping(half), e.tstamp)), now, timeout)
        <==> IsOld(Unbounded, e, now, timeout)
  {
    WrapAgrees(half, e.tstamp, timeout, now);
  }

  lemma WrapFlush(half: nat, t: Table, op: FlushOp, now: nat, timeout: nat)
    requires half > 0 && timeout < half && Recent(t, now, timeout + half)
    ensures Flushed(Wrapping(half), Wrapped(t, half), op, now, timeout)
         == Wrapped(Flushed(Unbounded, t, op, now, timeout), half)
  {
    forall k | k in t
      ensures Matches(Wrapping(half), op, k, Wrapped(t, half)[k], now, timeout)
          <==> Matches(Unbounded, op, k, t[k], now, timeout)
    {
      WrapOld(half, t[k], now, timeout);
    }
  }

  lemma WrapLearn(half: nat, t: Table, vid: Vid, src: Mac, pidx: Pidx, now: nat, alloc: bool)
    ensures LearnedFrom(Wrapping(half), Wrapped(t, half), vid, src, pidx, now, alloc)
         == Wrapped(LearnedFrom(Unbounded, t, vid, src, pidx, now, alloc), half)
  {
  }

  lemma WrapEgress(half: nat, t: Table, key: FdbAddr, flood: Flood, dst: Mac, now: nat, timeout: nat)
    requires half > 0 && timeout < half && Recent(t, now, timeout + half)
    ensures EgressFilter(Wrapping(half), Wrapped(t, half), key, flood, dst, now, timeout)
         == EgressFilter(Unbounded, t, key, flood, dst, now, timeout)
  {
    if key in t {
      WrapOld(half, t[key], now, timeout);
    }
  }
}
