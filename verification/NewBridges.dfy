/** What holds of every run of a bridge since it was created, down to what frames do. */
module NewBridges {
  import opened Option
  import opened Ports
  import opened Frames
  import opened FdbSpec
  import opened Config
  import opened ConfigProofs
  import opened Delivery
  import opened Pipeline
  import opened Runs
  import opened Commands

  /** Every VLAN learns and floods to every port. */
  ghost predicate AllOpen(cfg: Cfg) {
    forall v :: v in cfg.vlans ==> OpenVlan(cfg.vlans[v])
  }

  /** A new bridge: the host is its only port and the only, untagged, member of its only VLAN. */
  lemma NewBridgeExactly(bridge: DevId)
    ensures var cfg := NewCfg(bridge);
            && cfg.bridge == bridge && cfg.busy == {HOST} && cfg.vlans.Keys == {0} && AllOpen(cfg)
            && cfg.vlans[0].members == {HOST} && cfg.vlans[0].tagged == {}
            && cfg.ports[HOST] == PortCfg(Some(bridge), HOST, false, true, false, Some(0), Fill() - {HOST}, 0)
  {
  }

  lemma ExecuteKeepsOpen(s: Setup, cmd: Cmd)
    requires Basic(s.cfg) && Admissible(s, cmd) && AllOpen(s.cfg)
    ensures AllOpen(Execute(s, cmd).cfg)
  {
  }

  /** The bridge after a run since its creation. */
  ghost function After(c: Clock, bridge: DevId, net: Net, now: nat, timeout: nat, evs: seq<Event>): Sys
    requires Feasible(Setup(NewCfg(bridge), net), evs)
  {
    Run(c, Sys(Setup(NewCfg(bridge), net), map[], now, timeout), evs)
  }

  lemma {:induction false} RunKeepsOpen(c: Clock, s: Sys, evs: seq<Event>)
    requires Feasible(s.setup, evs) && AllOpen(s.setup.cfg)
    ensures AllOpen(Run(c, s, evs).setup.cfg)
    decreases |evs|
  {
    if evs != [] {
      if evs[0].Command? {
        ExecuteKeepsOpen(s.setup, evs[0].cmd);
      }
      RunKeepsOpen(c, Step(c, s, evs[0]), evs[1..]);
    }
  }

  lemma AfterIsSound(c: Clock, bridge: DevId, net: Net, now: nat, timeout: nat, evs: seq<Event>)
    requires Unrelated(bridge, net) && Feasible(Setup(NewCfg(bridge), net), evs)
    ensures var r := After(c, bridge, net, now, timeout, evs);
            Inv(r.setup) && Shape(r.table) && AllOpen(r.setup.cfg)
  {
    NewCfgInv(bridge, net);
    NewBridgeExactly(bridge);
    var s := Sys(Setup(NewCfg(bridge), net), map[], now, timeout);
    RunKeepsInv(c, s, evs);
    RunKeepsOpen(c, s, evs);
  }

  /** At any time since the bridge was created, every frame on a port that comes from a station and belongs
      to a VLAN, accepted or not, teaches the bridge that station, if it is known or there is memory. */
  lemma EveryStationIsLearnt(c: Clock, bridge: DevId, net: Net, now: nat, timeout: nat, evs: seq<Event>, a: Arrival)
    requires Unrelated(bridge, net) && Feasible(Setup(NewCfg(bridge), net), evs)
    requires var r := After(c, bridge, net, now, timeout, evs); Basic(r.setup.cfg) && Enabled(r.setup, Arrive(a))
    ensures var r := After(c, bridge, net, now, timeout, evs);
            var key := MacAddr(VlanIngress(r.setup.cfg, a.pidx, a.frame).vlan.value, a.frame.src);
            Step(c, r, Arrive(a)).table
            == if a.frame.src != 0 && FirstOctet(a.frame.src) % 2 == 0 && (a.alloc || key in r.table)
               then r.table[key := Entry({a.pidx}, Dynamic, Stamp(c, r.now))] else r.table
  {
    AfterIsSound(c, bridge, net, now, timeout, evs);
    var r := After(c, bridge, net, now, timeout, evs);
    assert SlotOk(r.setup.cfg, a.pidx);
    LearnedEntry(c, r.table, VidOf(r.setup.cfg, a), a.frame.src, a.pidx, r.now, a.alloc);
  }

  /** The frame is for a group, or for a station the table does not know or no longer believes in. */
  ghost predicate ToBeFlooded(c: Clock, r: Sys, vid: Vid, f: Frame) {
    || FirstOctet(f.dst) % 2 == 1
    || (f.dst != f.src
        && (MacAddr(vid, f.dst) in r.table ==> IsOld(c, r.table[MacAddr(vid, f.dst)], r.now, r.timeout)))
  }

  lemma FloodedVec(c: Clock, r: Sys, a: Arrival)
    requires Inv(r.setup) && Shape(r.table) && AllOpen(r.setup.cfg) && Enabled(r.setup, Arrive(a))
    requires VlanIngress(r.setup.cfg, a.pidx, a.frame).allow && ToBeFlooded(c, r, VidOf(r.setup.cfg, a), a.frame)
    ensures var cfg := r.setup.cfg;
            EgressVec(c, cfg, TableAfter(c, cfg, r.table, a, r.now), a, r.now, r.timeout)
            == cfg.vlans[VidOf(cfg, a)].members - {a.pidx}
  {
    var cfg, vid := r.setup.cfg, VidOf(r.setup.cfg, a);
    assert SlotOk(cfg, a.pidx);
    var ing := VlanIngress(cfg, a.pidx, a.frame);
    var t := TableAfter(c, cfg, r.table, a, r.now);
    AcceptedMayReachMembers(cfg, a.pidx, a.frame);
    LearnedEntry(c, r.table, vid, a.frame.src, a.pidx, r.now, a.alloc);
    LearnKeepsShape(c, r.table, vid, a.frame.src, a.pidx, r.now, a.alloc);
    ShapedEgress(c, t, vid, a.frame.dst, SeenL3(ing.frame), cfg.vlans[vid].flood, r.now, r.timeout);
    var flood := cfg.vlans[vid].flood;
    assert OpenVlan(cfg.vlans[vid]);
    assert ing.vec * flood.bc == ing.vec && ing.vec * flood.mc == ing.vec && ing.vec * flood.uc == ing.vec;
  }

  /** Exactly the ports of the vector are sent the frame, each once, with one clone less than ports; without
      any the frame is freed. */
  ghost predicate Serves(out: Out, vec: PortVec) {
    && (forall p: Pidx :: (exists i :: 0 <= i < |out.sent| && out.sent[i].port == p) <==> p in vec)
    && |out.sent| == |vec|
    && out.freed == (if vec == {} then 1 else 0)
    && out.clones == (if vec == {} then 0 else |vec| - 1)
  }

  lemma SentEverywhere(c: Clock, cfg: Cfg, t: Table, a: Arrival, now: nat, timeout: nat, vec: PortVec)
    requires Basic(cfg) && Resolved(cfg, a) && VlanIngress(cfg, a.pidx, a.frame).allow && !cfg.ports[a.pidx].ctrl
    requires a.lost == {} && EgressVec(c, cfg, TableAfter(c, cfg, t, a, now), a, now, timeout) == vec
    ensures Serves(Forwarded(c, cfg, t, a, now, timeout), vec)
  {
    if vec == {} {
      BuffersConserved(vec, a.lost);
    } else {
      DeliveredToAll(vec, a.lost);
    }
    var ports, sent := Delivered(vec, a.lost).ports, Forwarded(c, cfg, t, a, now, timeout).sent;
    forall p: Pidx ensures (exists i :: 0 <= i < |sent| && sent[i].port == p) <==> p in vec {
      if p in ports {
        var i :| 0 <= i < |ports| && ports[i] == p;
        assert sent[i].port == p;
      }
      if i :| 0 <= i < |sent| && sent[i].port == p {
        assert ports[i] in ports;
      }
    }
  }

  lemma FloodedFrame(c: Clock, r: Sys, a: Arrival)
    requires Inv(r.setup) && Shape(r.table) && AllOpen(r.setup.cfg) && Enabled(r.setup, Arrive(a)) && a.lost == {}
    requires VlanIngress(r.setup.cfg, a.pidx, a.frame).allow && ToBeFlooded(c, r, VidOf(r.setup.cfg, a), a.frame)
    ensures Serves(Forwarded(c, r.setup.cfg, r.table, a, r.now, r.timeout),
                   r.setup.cfg.vlans[VidOf(r.setup.cfg, a)].members - {a.pidx})
  {
    assert SlotOk(r.setup.cfg, a.pidx);
    FloodedVec(c, r, a);
    SentEverywhere(c, r.setup.cfg, r.table, a, r.now, r.timeout,
                   r.setup.cfg.vlans[VidOf(r.setup.cfg, a)].members - {a.pidx});
  }

  /** At any time since the bridge was created, a frame accepted into a VLAN for a group or an unknown
      station goes, as long as no clone is lost, to exactly the VLAN's members other than where it came in. */
  lemma UnknownIsFlooded(c: Clock, bridge: DevId, net: Net, now: nat, timeout: nat, evs: seq<Event>, a: Arrival)
    requires Unrelated(bridge, net) && Feasible(Setup(NewCfg(bridge), net), evs)
    requires var r := After(c, bridge, net, now, timeout, evs);
             && Basic(r.setup.cfg) && Enabled(r.setup, Arrive(a)) && a.lost == {}
             && VlanIngress(r.setup.cfg, a.pidx, a.frame).allow && ToBeFlooded(c, r, VidOf(r.setup.cfg, a), a.frame)
    ensures var r := After(c, bridge, net, now, timeout, evs);
            Serves(Forwarded(c, r.setup.cfg, r.table, a, r.now, r.timeout),
                   r.setup.cfg.vlans[VidOf(r.setup.cfg, a)].members - {a.pidx})
  {
    AfterIsSound(c, bridge, net, now, timeout, evs);
    FloodedFrame(c, After(c, bridge, net, now, timeout, evs), a);
  }

  /** The bridge with its first device, in slot 1. */
  ghost predicate FirstAdded(s: Setup, bridge: DevId, dev: DevId) {
    && Inv(s) && AllOpen(s.cfg) && 1 in s.cfg.busy && s.cfg.vlans[0].members - {1} == {HOST}
    && s.cfg.ports[1] == PortCfg(Some(dev), 1, false, true, false, Some(0), Fill() - {1}, 0)
  }

  lemma FirstIsAdded(bridge: DevId, net: Net, dev: DevId, f: Faults)
    requires Unrelated(bridge, net) && dev in net && AddPort(Setup(NewCfg(bridge), net), dev, f).1.Success?
    ensures FirstAdded(AddPort(Setup(NewCfg(bridge), net), dev, f).0, bridge, dev)
  {
    var s := Setup(NewCfg(bridge), net);
    var s' := AddPort(s, dev, f).0;
    NewBridgeExactly(bridge);
    NewCfgInv(bridge, net);
    AddPortExactly(s, dev, f);
    assert (1 as Pidx) !in s.cfg.busy;
    AddPortKeepsInv(s, dev, f);
    ExecuteKeepsOpen(s, CmdPortAdd(dev, f));
    forall j: Pidx ensures j in s'.cfg.vlans[0].members - {1} <==> j == HOST {
      assert IsMember(s'.cfg, 0, j) <==> j == 1 || IsMember(s.cfg, 0, j);
    }
  }

  /** The first frame of the first device of a new bridge, a broadcast: the host alone gets it, as it is,
      and the device's station is known. */
  lemma FirstBroadcast(c: Clock, s: Setup, bridge: DevId, dev: DevId, frame: Frame, now: nat, timeout: nat)
    requires FirstAdded(s, bridge, dev)
    requires frame.dst == 0xFFFF_FFFF_FFFF && frame.src != 0 && FirstOctet(frame.src) % 2 == 0
    ensures var a := Arrival(1, frame, true, {});
            && Resolved(s.cfg, a)
            && Forwarded(c, s.cfg, map[], a, now, timeout) == Out(0, [Sent(HOST, Keep)], 0, 0, false)
            && TableAfter(c, s.cfg, map[], a, now) == map[MacAddr(0, frame.src) := Entry({1}, Dynamic, Stamp(c, now))]
  {
    var a := Arrival(1, frame, true, {});
    FloodedVec(c, Sys(s, map[], now, timeout), a);
    LearnedEntry(c, map[], 0, frame.src, 1, now, true);
    DeliveredToAll({HOST}, {});
    assert |{HOST}| == 1;
    assert Delivered({HOST}, {}).ports[0] == HOST;
  }
}
