/** The bridge without a forwarding database: every forwarding decision as a function of the past. */
module History {
  import opened Option
  import opened Ports
  import opened Frames
  import opened FdbSpec
  import opened Config
  import opened ConfigProofs
  import opened Delivery
  import opened Pipeline
  import opened Runs
  import opened Ageing

  /** What of the past matters: a station was heard, or entries were purged, by a flush or by age. */
  datatype Past =
    | Heard(key: FdbAddr, pidx: Pidx, at: nat)
    | Purged(op: FlushOp, at: nat)

  datatype Station = Station(pidx: Pidx, at: nat)

  /** The event ends what was known of the station. */
  predicate Supersedes(p: Past, key: FdbAddr, st: Station, timeout: nat) {
    match p
    case Heard(k, _, _) => k == key
    case Purged(op, at) => Matches(Unbounded, op, key, Entry({st.pidx}, Dynamic, st.at), at, timeout)
  }

  /** Where and when the station was last heard, unless it was flushed since. */
  function LastHeard(past: seq<Past>, key: FdbAddr, timeout: nat): Option<Station> {
    if past == [] then None
    else
      var last := past[|past| - 1];
      var before := LastHeard(past[..|past| - 1], key, timeout);
      if last.Heard? then
        if last.key == key then Some(Station(last.pidx, last.at)) else before
      else if before.Some? && Supersedes(last, key, before.value, timeout) then None
      else before
  }

  /** Entry i of the past is the last time the station was heard, and no flush took it since. */
  ghost predicate LastHeardAt(past: seq<Past>, i: nat, key: FdbAddr, st: Station, timeout: nat) {
    && i < |past| && past[i] == Heard(key, st.pidx, st.at)
    && forall j :: i < j < |past| ==> !Supersedes(past[j], key, st, timeout)
  }

  /** LastHeard is the last hearing of the station that was not flushed since. */
  lemma {:induction false} LastHeardMeaning(past: seq<Past>, key: FdbAddr, st: Station, timeout: nat)
    ensures LastHeard(past, key, timeout) == Some(st) <==> exists i: nat :: LastHeardAt(past, i, key, st, timeout)
  {
    if past != [] {
      var n := |past| - 1;
      var before := past[..n];
      LastHeardMeaning(before, key, st, timeout);
      if LastHeard(past, key, timeout) == Some(st) {
        if past[n].Heard? && past[n].key == key {
          assert LastHeardAt(past, n, key, st, timeout);
        } else {
          var i: nat :| LastHeardAt(before, i, key, st, timeout);
          assert LastHeardAt(past, i, key, st, timeout);
        }
      }
      if i: nat :| LastHeardAt(past, i, key, st, timeout) {
        if i < n {
          assert !Supersedes(past[n], key, st, timeout);
          assert LastHeardAt(before, i, key, st, timeout);
        }
      }
    }
  }

  /** The egress filter by the past alone. */
  function EgressByPast(past: seq<Past>, key: FdbAddr, flood: Flood, dst: Mac, now: nat, timeout: nat): PortVec {
    match LastHeard(past, key, timeout)
    case Some(st) => if now <= st.at + timeout then {st.pidx} else FloodFilter(flood, dst)
    case None => FloodFilter(flood, dst)
  }

  /** A station is remembered if there is memory for it, or if it is known already. */
  function Remember(cfg: Cfg, past: seq<Past>, a: Arrival, now: nat, timeout: nat): seq<Past>
    requires Basic(cfg) && Resolved(cfg, a)
  {
    var key := MacAddr(VidOf(cfg, a), a.frame.src);
    if Learns(cfg, a) && IsValidEther(a.frame.src) && (a.alloc || LastHeard(past, key, timeout).Some?)
    then past + [Heard(key, a.pidx, now)]
    else past
  }

  /** What the bridge promises for a frame on an initialised port, stated without a table: an accepted
      frame goes to the members of its VLAN except the ingress port; a known station narrows that to
      one port, anything else to the VLAN's flood vector. */
  function Promised(cfg: Cfg, past: seq<Past>, a: Arrival, now: nat, timeout: nat): Out
    requires Basic(cfg) && Resolved(cfg, a)
  {
    var vid := VidOf(cfg, a);
    var ing := VlanIngress(cfg, a.pidx, a.frame);
    if !ing.allow then Out(vid, [], 0, 1, false)
    else
      var vlan := cfg.vlans[vid];
      var key := LookupKey(vid, a.frame.dst, SeenL3(ing.frame));
      var filter := EgressByPast(Remember(cfg, past, a, now, timeout), key, vlan.flood, a.frame.dst, now, timeout);
      var d := Delivered((filter * vlan.members) - {a.pidx}, a.lost);
      Out(vid, SentTo(d.ports, cfg.ports[a.pidx].filtering, vlan.tagged, ing.frame), d.clones, d.freed, false)
  }

  function PastAfter(cfg: Cfg, past: seq<Past>, ev: Event, now: nat, timeout: nat): seq<Past>
    requires Basic(cfg) && (ev.Arrive? ==> Resolved(cfg, ev.a))
  {
    match ev
    case Arrive(a) => Remember(cfg, past, a, now, timeout)
    case AgeRun => past + [Purged(FLUSH_AGED, now)]
    case Flush(op) => past + [Purged(op, now)]
    case _ => past
  }

  function TimeAfter(ev: Event, now: nat): nat {
    if ev.Tick? then now + ev.ticks else now
  }

  /** The fate of every frame on a bridge that keeps the past instead of a table. */
  ghost function PromisedTrace(s: Setup, past: seq<Past>, now: nat, timeout: nat, evs: seq<Event>): seq<Out>
    requires Feasible(s, evs)
    decreases |evs|
  {
    if evs == [] then []
    else
      var ev := evs[0];
      var outs := if ev.Arrive? then [Promised(s.cfg, past, ev.a, now, timeout)] else [];
      outs + PromisedTrace(NextSetup(s, ev), PastAfter(s.cfg, past, ev, now, timeout),
                           TimeAfter(ev, now), timeout, evs[1..])
  }

  // ---------- the table is a cache of the past ----------

  ghost predicate Recalls(t: Table, past: seq<Past>, key: FdbAddr, timeout: nat) {
    match LastHeard(past, key, timeout)
    case Some(st) => key in t && t[key] == Entry({st.pidx}, Dynamic, st.at)
    case None => key !in t
  }

  ghost predicate IsCache(t: Table, past: seq<Past>, timeout: nat) {
    Shape(t) && forall key :: Recalls(t, past, key, timeout)
  }

  lemma LearnKeepsCache(cfg: Cfg, t: Table, past: seq<Past>, a: Arrival, now: nat, timeout: nat)
    requires Basic(cfg) && Resolved(cfg, a)
    requires IsCache(t, past, timeout)
    ensures IsCache(TableAfter(Unbounded, cfg, t, a, now), Remember(cfg, past, a, now, timeout), timeout)
  {
    if Learns(cfg, a) && IsValidEther(a.frame.src) {
      var vid := VidOf(cfg, a);
      LearnedEntry(Unbounded, t, vid, a.frame.src, a.pidx, now, a.alloc);
      LearnKeepsShape(Unbounded, t, vid, a.frame.src, a.pidx, now, a.alloc);
      var t', past' := TableAfter(Unbounded, cfg, t, a, now), Remember(cfg, past, a, now, timeout);
      assert Recalls(t, past, MacAddr(vid, a.frame.src), timeout);
      assert past' == past || past'[..|past'| - 1] == past;
      forall key ensures Recalls(t', past', key, timeout) {
        assert Recalls(t, past, key, timeout);
      }
    }
  }

  lemma PurgeKeepsCache(t: Table, past: seq<Past>, op: FlushOp, now: nat, timeout: nat)
    requires IsCache(t, past, timeout)
    ensures IsCache(Flushed(Unbounded, t, op, now, timeout), past + [Purged(op, now)], timeout)
  {
    FlushKeepsShape(Unbounded, t, op, now, timeout);
    var t', past' := Flushed(Unbounded, t, op, now, timeout), past + [Purged(op, now)];
    assert past'[..|past'| - 1] == past;
    forall key ensures Recalls(t', past', key, timeout) {
      assert Recalls(t, past, key, timeout);
    }
  }

  /** A lookup in the cache is a look into the past. */
  lemma CachedFrame(cfg: Cfg, t: Table, past: seq<Past>, a: Arrival, now: nat, timeout: nat)
    requires CfgInv(cfg) && a.pidx in cfg.busy && Resolved(cfg, a)
    requires IsCache(t, past, timeout)
    ensures Forwarded(Unbounded, cfg, t, a, now, timeout) == Promised(cfg, past, a, now, timeout)
  {
    assert SlotOk(cfg, a.pidx);
    LearnKeepsCache(cfg, t, past, a, now, timeout);
    var ing := VlanIngress(cfg, a.pidx, a.frame);
    if ing.allow {
      var vlan := cfg.vlans[ing.vlan.value];
      var key := LookupKey(ing.vlan.value, a.frame.dst, SeenL3(ing.frame));
      var t', past' := TableAfter(Unbounded, cfg, t, a, now), Remember(cfg, past, a, now, timeout);
      assert Recalls(t', past', key, timeout);
      var filter := EgressByPast(past', key, vlan.flood, a.frame.dst, now, timeout);
      assert filter == EgressFilter(Unbounded, t', key, vlan.flood, a.frame.dst, now, timeout);
      assert ing.vec * filter == (filter * vlan.members) - {a.pidx};
    }
  }

  lemma CacheStep(s: Sys, past: seq<Past>, ev: Event)
    requires Inv(s.setup) && Enabled(s.setup, ev) && IsCache(s.table, past, s.timeout)
    ensures var next := Step(Unbounded, s, ev);
            Inv(next.setup) && IsCache(next.table, PastAfter(s.setup.cfg, past, ev, s.now, s.timeout), s.timeout)
    ensures ev.Arrive? ==> OutOf(Unbounded, s, ev) == [Promised(s.setup.cfg, past, ev.a, s.now, s.timeout)]
  {
    match ev
    case Arrive(a) =>
      CachedFrame(s.setup.cfg, s.table, past, a, s.now, s.timeout);
      LearnKeepsCache(s.setup.cfg, s.table, past, a, s.now, s.timeout);
    case AgeRun => PurgeKeepsCache(s.table, past, FLUSH_AGED, s.now, s.timeout);
    case Flush(op) => PurgeKeepsCache(s.table, past, op, s.now, s.timeout);
    case Command(cmd) => ExecuteKeepsInv(s.setup, cmd);
    case Tick(_) =>
  }

  /** The bridge refines the machine that keeps the past: over every run, whatever fails in it, every
      frame meets exactly the fate that machine promises. */
  lemma {:induction false} RefinesHistory(s: Sys, past: seq<Past>, evs: seq<Event>)
    requires Inv(s.setup) && Feasible(s.setup, evs) && IsCache(s.table, past, s.timeout)
    ensures Trace(Unbounded, s, evs) == PromisedTrace(s.setup, past, s.now, s.timeout, evs)
    decreases |evs|
  {
    if evs != [] {
      var ev := evs[0];
      CacheStep(s, past, ev);
      RefinesHistory(Step(Unbounded, s, ev), PastAfter(s.setup.cfg, past, ev, s.now, s.timeout), evs[1..]);
    }
  }

  /** A bridge with an empty database starts as a cache of no past. */
  lemma EmptyIsCache(timeout: nat)
    ensures IsCache(map[], [], timeout)
  {
  }

  // ---------- the past without the ageing worker ----------

  /** A station is heard again too late, and without memory to learn it afresh: what comes of it depends
      on whether the worker has been there. */
  ghost predicate HeardTooLate(cfg: Cfg, past: seq<Past>, a: Arrival, now: nat, timeout: nat)
    requires Basic(cfg) && Resolved(cfg, a)
  {
    var last := LastHeard(past, MacAddr(VidOf(cfg, a), a.frame.src), timeout);
    !a.alloc && Learns(cfg, a) && IsValidEther(a.frame.src) && last.Some? && last.value.at + timeout < now
  }

  ghost predicate NoneHeardTooLate(s: Setup, past: seq<Past>, now: nat, timeout: nat, evs: seq<Event>)
    requires Feasible(s, evs)
    decreases |evs|
  {
    evs == [] ||
      ((evs[0].Arrive? ==> !HeardTooLate(s.cfg, past, evs[0].a, now, timeout))
       && NoneHeardTooLate(NextSetup(s, evs[0]), PastAfter(s.cfg, past, evs[0], now, timeout),
                           TimeAfter(evs[0], now), timeout, evs[1..]))
  }

  lemma {:induction false} RevivalByPast(s: Sys, past: seq<Past>, evs: seq<Event>)
    requires Inv(s.setup) && Feasible(s.setup, evs) && IsCache(s.table, past, s.timeout)
    ensures NoRevival(s, evs) <==> NoneHeardTooLate(s.setup, past, s.now, s.timeout, evs)
    decreases |evs|
  {
    if evs != [] {
      var ev := evs[0];
      if ev.Arrive? {
        assert Recalls(s.table, past, MacAddr(VidOf(s.setup.cfg, ev.a), ev.a.frame.src), s.timeout);
      }
      CacheStep(s, past, ev);
      RevivalByPast(Step(Unbounded, s, ev), PastAfter(s.setup.cfg, past, ev, s.now, s.timeout), evs[1..]);
    }
  }

  /** As long as no station is heard too late, the machine that knows of no worker promises the same. */
  lemma PromiseNeedsNoWorker(s: Sys, past: seq<Past>, evs: seq<Event>)
    requires Inv(s.setup) && Feasible(s.setup, evs) && IsCache(s.table, past, s.timeout)
    ensures var kept := WithoutAgeing(evs);
            && Feasible(s.setup, kept)
            && (NoneHeardTooLate(s.setup, past, s.now, s.timeout, kept) ==>
                 Trace(Unbounded, s, evs) == PromisedTrace(s.setup, past, s.now, s.timeout, kept))
  {
    var kept := WithoutAgeing(evs);
    WithoutAgeingIsFeasible(s.setup, evs);
    if NoneHeardTooLate(s.setup, past, s.now, s.timeout, kept) {
      RevivalByPast(s, past, kept);
      AgeingIsInvisible(s, s, evs);
      RefinesHistory(s, past, kept);
    }
  }

  /** A frame addressed to its own learnable source goes nowhere, unless the source is new and there is no
      memory for it: then the frame is flooded like any to an unknown station. */
  lemma ToOneselfGoesNowhere(cfg: Cfg, past: seq<Past>, a: Arrival, now: nat, timeout: nat)
    requires CfgInv(cfg) && a.pidx in cfg.busy && Resolved(cfg, a)
    requires Learns(cfg, a) && IsValidEther(a.frame.src) && a.frame.dst == a.frame.src
    ensures var ing, vlan := VlanIngress(cfg, a.pidx, a.frame), cfg.vlans[VidOf(cfg, a)];
            var d := Delivered((vlan.flood.uc * vlan.members) - {a.pidx}, a.lost);
            Promised(cfg, past, a, now, timeout)
            == if !ing.allow || a.alloc || LastHeard(past, MacAddr(VidOf(cfg, a), a.frame.src), timeout).Some?
               then Out(VidOf(cfg, a), [], 0, 1, false)
               else Out(VidOf(cfg, a), SentTo(d.ports, cfg.ports[a.pidx].filtering, vlan.tagged, ing.frame),
                        d.clones, d.freed, false)
  {
    var past' := Remember(cfg, past, a, now, timeout);
    var key := MacAddr(VidOf(cfg, a), a.frame.src);
    var ing := VlanIngress(cfg, a.pidx, a.frame);
    var vlan := cfg.vlans[VidOf(cfg, a)];
    if a.alloc || LastHeard(past, key, timeout).Some? {
      assert LastHeard(past', key, timeout) == Some(Station(a.pidx, now));
      assert ({a.pidx} * vlan.members) - {a.pidx} == {};
      BuffersConserved({}, a.lost);
    } else {
      assert past' == past;
    }
  }
}
