/** The bridge on a clock that wraps, kept honest by the ageing worker. */
module WrappingRuns {
  import opened Frames
  import opened FdbSpec
  import opened Config
  import opened Pipeline
  import opened Runs
  import opened Ageing
  import opened History

  /** At most `gap` ticks pass between one run of the worker and the next; `since` have passed already. */
  predicate Timely(evs: seq<Event>, since: nat, gap: nat) {
    since <= gap && (evs == [] ||
      match evs[0]
      case Tick(d) => Timely(evs[1..], since + d, gap)
      case AgeRun => Timely(evs[1..], 0, gap)
      case _ => Timely(evs[1..], since, gap))
  }

  ghost function WrapSys(s: Sys, half: nat): Sys {
    s.(table := Wrapped(s.table, half))
  }

  /** No entry is older than the timeout plus the time since the worker last ran. */
  ghost predicate Young(s: Sys, since: nat) {
    Shape(s.table) && Recent(s.table, s.now, s.timeout + since)
  }

  lemma StepKeepsYoung(s: Sys, ev: Event, since: nat)
    requires Young(s, since) && Basic(s.setup.cfg) && Enabled(s.setup, ev)
    ensures Young(Step(Unbounded, s, ev), if ev.Tick? then since + ev.ticks else if ev.AgeRun? then 0 else since)
  {
    match ev
    case Arrive(a) =>
      if Learns(s.setup.cfg, a) {
        LearnKeepsShape(Unbounded, s.table, VidOf(s.setup.cfg, a), a.frame.src, a.pidx, s.now, a.alloc);
      }
    case _ =>
  }

  lemma WrapStep(s: Sys, ev: Event, half: nat)
    requires Basic(s.setup.cfg) && Enabled(s.setup, ev)
    requires half > 0 && s.timeout < half && Recent(s.table, s.now, s.timeout + half)
    ensures Step(Wrapping(half), WrapSys(s, half), ev) == WrapSys(Step(Unbounded, s, ev), half)
    ensures OutOf(Wrapping(half), WrapSys(s, half), ev) == OutOf(Unbounded, s, ev)
  {
    match ev
    case Arrive(a) =>
      var cfg := s.setup.cfg;
      if Learns(cfg, a) {
        WrapLearn(half, s.table, VidOf(cfg, a), a.frame.src, a.pidx, s.now, a.alloc);
      }
      var ing := VlanIngress(cfg, a.pidx, a.frame);
      var key := LookupKey(ing.vlan.value, a.frame.dst, SeenL3(ing.frame));
      WrapEgress(half, TableAfter(Unbounded, cfg, s.table, a, s.now), key,
                 cfg.vlans[ing.vlan.value].flood, a.frame.dst, s.now, s.timeout);
    case AgeRun => WrapFlush(half, s.table, FLUSH_AGED, s.now, s.timeout);
    case Flush(op) => WrapFlush(half, s.table, op, s.now, s.timeout);
    case _ =>
  }

  /** With a timely worker every reachable entry is at most timeout + gap old, and a bridge
      whose clock wraps does exactly what one with unbounded time does. */
  lemma {:induction false} WrappingIsInvisible(s: Sys, evs: seq<Event>, since: nat, gap: nat, half: nat)
    requires Feasible(s.setup, evs) && Timely(evs, since, gap) && Young(s, since)
    requires half > 0 && s.timeout < half && gap <= half
    ensures Run(Wrapping(half), WrapSys(s, half), evs) == WrapSys(Run(Unbounded, s, evs), half)
    ensures Trace(Wrapping(half), WrapSys(s, half), evs) == Trace(Unbounded, s, evs)
    ensures Young(Run(Unbounded, s, evs), gap)
    decreases |evs|
  {
    if evs != [] {
      var ev := evs[0];
      WrapStep(s, ev, half);
      StepKeepsYoung(s, ev, since);
      var later := if ev.Tick? then since + ev.ticks else if ev.AgeRun? then 0 else since;
      WrappingIsInvisible(Step(Unbounded, s, ev), evs[1..], later, gap, half);
    }
  }

  /** The whole bridge: started empty, on a wrapping clock with a timely worker, it treats every frame of
      every run as the past alone, in unbounded time, says it should; as long as no station is heard too
      late, that past need not know of the worker. */
  lemma BridgeKeepsItsPromise(s: Sys, evs: seq<Event>, gap: nat, half: nat)
    requires Inv(s.setup) && s.table == map[] && Feasible(s.setup, evs)
    requires Timely(evs, 0, gap) && half > 0 && s.timeout < half && gap <= half
    ensures Trace(Wrapping(half), s, evs) == PromisedTrace(s.setup, [], s.now, s.timeout, evs)
    ensures var kept := WithoutAgeing(evs);
            && Feasible(s.setup, kept)
            && (NoneHeardTooLate(s.setup, [], s.now, s.timeout, kept) ==>
                 Trace(Wrapping(half), s, evs) == PromisedTrace(s.setup, [], s.now, s.timeout, kept))
  {
    assert WrapSys(s, half) == s;
    WrappingIsInvisible(s, evs, 0, gap, half);
    EmptyIsCache(s.timeout);
    RefinesHistory(s, [], evs);
    PromiseNeedsNoWorker(s, [], evs);
  }
}
