/** Whole runs of the bridge: frames, passing time, ageing, flushes and configuration commands in any order. */
module Runs {
  import opened Option
  import opened Ports
  import opened Frames
  import opened FdbSpec
  import opened Config
  import opened ConfigProofs
  import opened Pipeline

  datatype Event =
    | Arrive(a: Arrival)
    | Tick(ticks: nat)
    | AgeRun
    | Flush(op: FlushOp)
    | Command(cmd: Cmd)

  datatype Sys = Sys(setup: Setup, table: Table, now: nat, timeout: nat)

  /** A frame arrives on a busy port and must resolve to a VLAN; commands meet their callers' duties. */
  ghost predicate Enabled(s: Setup, ev: Event)
    requires Basic(s.cfg)
  {
    match ev
    case Arrive(a) => a.pidx in s.cfg.busy && Resolved(s.cfg, a)
    case Command(cmd) => Admissible(s, cmd)
    case _ => true
  }

  ghost function NextSetup(s: Setup, ev: Event): Setup
    requires Basic(s.cfg) && Enabled(s, ev)
  {
    if ev.Command? then Execute(s, ev.cmd) else s
  }

  ghost predicate Feasible(s: Setup, evs: seq<Event>)
    decreases |evs|
  {
    Basic(s.cfg) && (evs == [] || (Enabled(s, evs[0]) && Feasible(NextSetup(s, evs[0]), evs[1..])))
  }

  ghost function Step(c: Clock, s: Sys, ev: Event): Sys
    requires Basic(s.setup.cfg) && Enabled(s.setup, ev)
  {
    match ev
    case Arrive(a) => s.(table := TableAfter(c, s.setup.cfg, s.table, a, s.now))
    case Tick(d) => s.(now := s.now + d)
    case AgeRun => s.(table := Aged(c, s.table, s.now, s.timeout))
    case Flush(op) => s.(table := Flushed(c, s.table, op, s.now, s.timeout))
    case Command(cmd) => s.(setup := Execute(s.setup, cmd))
  }

  ghost function Run(c: Clock, s: Sys, evs: seq<Event>): Sys
    requires Feasible(s.setup, evs)
    decreases |evs|
  {
    if evs == [] then s else Run(c, Step(c, s, evs[0]), evs[1..])
  }

  ghost function OutOf(c: Clock, s: Sys, ev: Event): seq<Out>
    requires Basic(s.setup.cfg) && Enabled(s.setup, ev)
  {
    if ev.Arrive? then [Forwarded(c, s.setup.cfg, s.table, ev.a, s.now, s.timeout)] else []
  }

  /** What became of every frame of a run, in order. */
  ghost function Trace(c: Clock, s: Sys, evs: seq<Event>): seq<Out>
    requires Feasible(s.setup, evs)
    decreases |evs|
  {
    if evs == [] then [] else OutOf(c, s, evs[0]) + Trace(c, Step(c, s, evs[0]), evs[1..])
  }

  // ---------- what every reachable state satisfies ----------

  lemma {:induction false} RunKeepsInv(c: Clock, s: Sys, evs: seq<Event>)
    requires Feasible(s.setup, evs) && Inv(s.setup) && Shape(s.table)
    ensures Inv(Run(c, s, evs).setup) && Shape(Run(c, s, evs).table)
    decreases |evs|
  {
    if evs != [] {
      match evs[0] {
        case Arrive(a) =>
          if Learns(s.setup.cfg, a) {
            LearnKeepsShape(c, s.table, VidOf(s.setup.cfg, a), a.frame.src, a.pidx, s.now, a.alloc);
          }
        case Command(cmd) => ExecuteKeepsInv(s.setup, cmd);
        case _ =>
      }
      RunKeepsInv(c, Step(c, s, evs[0]), evs[1..]);
    }
  }

  /** Isolation, conservation of buffers and the single-port shape, in every reachable state. */
  lemma ReachableIsolation(c: Clock, s: Sys, evs: seq<Event>, a: Arrival)
    requires Feasible(s.setup, evs) && Inv(s.setup) && Shape(s.table)
    requires Basic(Run(c, s, evs).setup.cfg) && Enabled(Run(c, s, evs).setup, Arrive(a))
    ensures var r := Run(c, s, evs);
            var cfg, out := r.setup.cfg, Forwarded(c, r.setup.cfg, r.table, a, r.now, r.timeout);
            && out.vid == RequestedVid(cfg, a.pidx, a.frame)
            && (forall x :: x in out.sent ==> x.port in cfg.vlans[out.vid].members && x.port != a.pidx)
            && (cfg.ports[a.pidx].filtering && out.sent != [] ==> a.pidx in cfg.vlans[out.vid].members)
            && |out.sent| + out.freed == 1 + out.clones
            && Shape(r.table)
  {
    RunKeepsInv(c, s, evs);
    var r := Run(c, s, evs);
    Isolation(c, r.setup.cfg, r.table, a, r.now, r.timeout);
  }

  function OthersOf(ev: Event, dev: DevId): (int, int) {
    if ev.Command? then OthersDelta(ev.cmd, dev) else (0, 0)
  }

  /** What the rest of the system did to a device's counts over a run. */
  function OthersTotal(evs: seq<Event>, dev: DevId): (int, int) {
    if evs == [] then (0, 0)
    else
      var head, rest := OthersOf(evs[0], dev), OthersTotal(evs[1..], dev);
      (head.0 + rest.0, head.1 + rest.1)
  }

  lemma StepKeepsDevice(c: Clock, s: Sys, ev: Event, dev: DevId)
    requires Inv(s.setup) && Enabled(s.setup, ev) && dev in s.setup.net
    ensures var next, delta := Step(c, s, ev).setup, OthersOf(ev, dev);
            && Inv(next) && dev in next.net
            && WithoutBridge(next, dev) == Used(WithoutBridge(s.setup, dev), delta.0, delta.1)
  {
    if ev.Command? {
      ExecuteKeepsInv(s.setup, ev.cmd);
      ExecuteKeepsDevices(s.setup, ev.cmd, dev);
    }
  }

  lemma UsedTwice(d: NetDev, d': NetDev, p: int, a: int, q: int, b: int)
    requires d' == Used(d, p, a)
    ensures Used(d', q, b) == Used(d, p + q, a + b)
  {
  }

  /** Over every run each device is, but for what being enslaved adds, as the rest of the system makes it. */
  lemma {:induction false} DevicesOverRuns(c: Clock, s: Sys, evs: seq<Event>, dev: DevId)
    requires Feasible(s.setup, evs) && Inv(s.setup) && dev in s.setup.net
    ensures var r, total := Run(c, s, evs).setup, OthersTotal(evs, dev);
            && Basic(r.cfg) && dev in r.net
            && WithoutBridge(r, dev) == Used(WithoutBridge(s.setup, dev), total.0, total.1)
    decreases |evs|
  {
    if evs != [] {
      var next, head, rest := Step(c, s, evs[0]), OthersOf(evs[0], dev), OthersTotal(evs[1..], dev);
      StepKeepsDevice(c, s, evs[0], dev);
      DevicesOverRuns(c, next, evs[1..], dev);
      UsedTwice(WithoutBridge(s.setup, dev), WithoutBridge(next.setup, dev), head.0, head.1, rest.0, rest.1);
    }
  }

  lemma {:induction false} RunKeepsSetup(c: Clock, s: Sys, evs: seq<Event>)
    requires Feasible(s.setup, evs) && Inv(s.setup)
    ensures Inv(Run(c, s, evs).setup)
    decreases |evs|
  {
    if evs != [] {
      if evs[0].Command? {
        ExecuteKeepsInv(s.setup, evs[0].cmd);
      }
      RunKeepsSetup(c, Step(c, s, evs[0]), evs[1..]);
    }
  }

  lemma {:induction false} RunKeepsDevices(c: Clock, s: Sys, evs: seq<Event>)
    requires Feasible(s.setup, evs)
    ensures Run(c, s, evs).setup.net.Keys == s.setup.net.Keys
    decreases |evs|
  {
    if evs != [] {
      RunKeepsDevices(c, Step(c, s, evs[0]), evs[1..]);
    }
  }

  /** So over every run the bridge's part in a device's counts is one exactly while it is enslaved. */
  lemma CountsOverRuns(c: Clock, s: Sys, evs: seq<Event>, dev: DevId, promisc: int, allmulti: int)
    requires Feasible(s.setup, evs) && Inv(s.setup) && dev in s.setup.net
    requires CountsAre(s.setup, dev, promisc, allmulti)
    ensures var r, (p, a) := Run(c, s, evs), OthersTotal(evs, dev);
            Basic(r.setup.cfg) && dev in r.setup.net && CountsAre(r.setup, dev, promisc + p, allmulti + a)
  {
    DevicesOverRuns(c, s, evs, dev);
  }

  predicate NeverDeletes(evs: seq<Event>, dev: DevId) {
    forall i :: 0 <= i < |evs| ==> evs[i] != Command(CmdPortDel(dev))
  }

  lemma {:induction false} StaysEnslaved(c: Clock, s: Sys, evs: seq<Event>, dev: DevId)
    requires Feasible(s.setup, evs) && Inv(s.setup) && dev in s.setup.net
    requires Enslaved(s.setup.cfg, dev) && NeverDeletes(evs, dev)
    ensures Basic(Run(c, s, evs).setup.cfg) && Enslaved(Run(c, s, evs).setup.cfg, dev)
    decreases |evs|
  {
    if evs != [] {
      StepKeepsDevice(c, s, evs[0], dev);
      if evs[0].Command? {
        if evs[0].cmd.CmdPortAdd? {
          AddedOnlyOnce(s.setup, dev, evs[0].cmd.faults);
        }
        OthersStayEnslaved(s.setup, evs[0].cmd, dev);
      }
      StaysEnslaved(c, Step(c, s, evs[0]), evs[1..], dev);
    }
  }

  /** Once added, and for as long as it is not deleted, a device is refused with EBUSY; once deleted it may
      be added again. */
  lemma RefusedUntilDeleted(c: Clock, s: Sys, dev: DevId, f: Faults, evs: seq<Event>, g: Faults)
    requires Inv(s.setup) && dev in s.setup.net && AddPort(s.setup, dev, f).1.Success?
    requires Feasible(AddPort(s.setup, dev, f).0, evs) && NeverDeletes(evs, dev)
    ensures var r := Run(c, s.(setup := AddPort(s.setup, dev, f).0), evs).setup;
            && Basic(r.cfg) && dev in r.net
            && AddPort(r, dev, g) == (r, Failure(EBUSY))
            && Admissible(r, CmdPortDel(dev)) && Bridgeable(DelPort(r, dev).net[dev])
  {
    var s' := s.(setup := AddPort(s.setup, dev, f).0);
    AddedPortIsFound(s.setup, dev, f);
    AddPortKeepsInv(s.setup, dev, f);
    AddedOnlyOnce(s.setup, dev, f);
    StaysEnslaved(c, s', evs, dev);
    DevicesOverRuns(c, s', evs, dev);
    RunKeepsSetup(c, s', evs);
    var r := Run(c, s', evs).setup;
    var i: Pidx :| i != HOST && Occupies(r.cfg, i, dev);
    assert NetOk(r.cfg, r.net, i);
  }

  // ---------- VLANs do not interfere ----------

  /** The run without the frames of other VLANs. */
  ghost function WithoutOthers(s: Setup, evs: seq<Event>, v: Vid): seq<Event>
    requires Feasible(s, evs)
    decreases |evs|
  {
    if evs == [] then []
    else
      var rest := WithoutOthers(NextSetup(s, evs[0]), evs[1..], v);
      if evs[0].Arrive? && VidOf(s.cfg, evs[0].a) != v then rest else [evs[0]] + rest
  }

  function OfVlan(outs: seq<Out>, v: Vid): seq<Out> {
    if outs == [] then []
    else (if outs[0].vid == v then [outs[0]] else []) + OfVlan(outs[1..], v)
  }

  /** Two systems that differ only in what their tables know about other VLANs. */
  ghost predicate AgreeOn(s: Sys, s': Sys, v: Vid) {
    s' == s.(table := s'.table) && Restrict(s.table, v) == Restrict(s'.table, v)
  }

  lemma SameFrameAgrees(c: Clock, s: Sys, s': Sys, a: Arrival, v: Vid)
    requires AgreeOn(s, s', v) && Basic(s.setup.cfg) && Enabled(s.setup, Arrive(a))
    requires VidOf(s.setup.cfg, a) == v
    ensures AgreeOn(Step(c, s, Arrive(a)), Step(c, s', Arrive(a)), v)
  {
    if Learns(s.setup.cfg, a) {
      RestrictLearn(c, s.table, v, v, a.frame.src, a.pidx, s.now, a.alloc);
      RestrictLearn(c, s'.table, v, v, a.frame.src, a.pidx, s.now, a.alloc);
    }
  }

  lemma SameFrameSameOut(c: Clock, s: Sys, s': Sys, a: Arrival, v: Vid)
    requires AgreeOn(s, s', v) && Basic(s.setup.cfg) && Enabled(s.setup, Arrive(a))
    requires VidOf(s.setup.cfg, a) == v
    ensures OutOf(c, s, Arrive(a)) == OutOf(c, s', Arrive(a))
    ensures AgreeOn(Step(c, s, Arrive(a)), Step(c, s', Arrive(a)), v)
  {
    SameFrameAgrees(c, s, s', a, v);
    var t, t' := Step(c, s, Arrive(a)).table, Step(c, s', Arrive(a)).table;
    var key := LookupKey(v, a.frame.dst, SeenL3(VlanIngress(s.setup.cfg, a.pidx, a.frame).frame));
    RestrictLookup(t, v, key);
    RestrictLookup(t', v, key);
  }

  lemma OtherEventAgrees(c: Clock, s: Sys, s': Sys, ev: Event, v: Vid)
    requires AgreeOn(s, s', v) && Basic(s.setup.cfg) && Enabled(s.setup, ev) && !ev.Arrive?
    ensures AgreeOn(Step(c, s, ev), Step(c, s', ev), v)
  {
    match ev
    case AgeRun =>
      RestrictFlush(c, s.table, v, FLUSH_AGED, s.now, s.timeout);
      RestrictFlush(c, s'.table, v, FLUSH_AGED, s.now, s.timeout);
    case Flush(op) =>
      RestrictFlush(c, s.table, v, op, s.now, s.timeout);
      RestrictFlush(c, s'.table, v, op, s.now, s.timeout);
    case _ =>
  }

  lemma OtherFrameAgrees(c: Clock, s: Sys, s': Sys, a: Arrival, v: Vid)
    requires AgreeOn(s, s', v) && Basic(s.setup.cfg) && Enabled(s.setup, Arrive(a))
    requires VidOf(s.setup.cfg, a) != v
    ensures AgreeOn(Step(c, s, Arrive(a)), s', v)
    ensures OfVlan(OutOf(c, s, Arrive(a)), v) == []
  {
    if Learns(s.setup.cfg, a) {
      RestrictLearn(c, s.table, v, VidOf(s.setup.cfg, a), a.frame.src, a.pidx, s.now, a.alloc);
    }
  }

  lemma {:induction false} OfVlanAppend(xs: seq<Out>, ys: seq<Out>, v: Vid)
    ensures OfVlan(xs + ys, v) == OfVlan(xs, v) + OfVlan(ys, v)
  {
    if xs == [] {
      assert xs + ys == ys;
    } else {
      var rest := xs[1..] + ys;
      OfVlanAppend(xs[1..], ys, v);
      assert xs + ys == [xs[0]] + rest;
      OfVlanCons(xs[0], rest, v);
      OfVlanCons(xs[0], xs[1..], v);
      assert xs == [xs[0]] + xs[1..];
    }
  }

  lemma OfVlanCons(x: Out, xs: seq<Out>, v: Vid)
    ensures OfVlan([x] + xs, v) == (if x.vid == v then [x] else []) + OfVlan(xs, v)
  {
    assert ([x] + xs)[1..] == xs;
  }

  lemma TraceOfVlan(c: Clock, s: Sys, evs: seq<Event>, v: Vid)
    requires Feasible(s.setup, evs) && evs != []
    ensures OfVlan(Trace(c, s, evs), v)
         == OfVlan(OutOf(c, s, evs[0]), v) + OfVlan(Trace(c, Step(c, s, evs[0]), evs[1..]), v)
  {
    OfVlanAppend(OutOf(c, s, evs[0]), Trace(c, Step(c, s, evs[0]), evs[1..]), v);
  }

  lemma TraceCons(c: Clock, s: Sys, ev: Event, rest: seq<Event>)
    requires Basic(s.setup.cfg) && Enabled(s.setup, ev) && Feasible(NextSetup(s.setup, ev), rest)
    ensures Feasible(s.setup, [ev] + rest)
    ensures Trace(c, s, [ev] + rest) == OutOf(c, s, ev) + Trace(c, Step(c, s, ev), rest)
    ensures Run(c, s, [ev] + rest) == Run(c, Step(c, s, ev), rest)
  {
    assert ([ev] + rest)[1..] == rest;
  }

  /** Deleting every frame of other VLANs from a run changes nothing for the frames of VLAN v,
      whatever else happens, including failed allocations and clones. */
  lemma {:induction false} NonInterference(c: Clock, s: Sys, s': Sys, evs: seq<Event>, v: Vid)
    requires AgreeOn(s, s', v) && Feasible(s.setup, evs)
    ensures Feasible(s.setup, WithoutOthers(s.setup, evs, v))
    ensures OfVlan(Trace(c, s, evs), v) == Trace(c, s', WithoutOthers(s.setup, evs, v))
    decreases |evs|
  {
    if evs != [] {
      var ev := evs[0];
      var next := Step(c, s, ev);
      TraceOfVlan(c, s, evs, v);
      if ev.Arrive? && VidOf(s.setup.cfg, ev.a) != v {
        OtherFrameAgrees(c, s, s', ev.a, v);
        NonInterference(c, next, s', evs[1..], v);
      } else {
        if ev.Arrive? {
          SameFrameSameOut(c, s, s', ev.a, v);
        } else {
          OtherEventAgrees(c, s, s', ev, v);
        }
        NonInterference(c, next, Step(c, s', ev), evs[1..], v);
        TraceCons(c, s', ev, WithoutOthers(next.setup, evs[1..], v));
      }
    }
  }
}
