/** The bridge object under any sequence of calls from the kernel. */
module Driver {
  import opened Option
  import opened Ports
  import opened Frames
  import opened FdbSpec
  import opened Config
  import opened ConfigProofs
  import opened Pipeline
  import opened Runs
  import opened Ageing
  import opened History
  import opened WrappingRuns
  import opened Vlans
  import opened Buffers
  import opened NetDevices
  import opened ForwardingDb
  import opened Bridges
  import Forwarding

  /** The whole bridge object as one value. */
  ghost function SysOf(b: Bridge, now: nat): Sys
    reads b, b.ports, b.vlans, b.vlans.index.Values, b.net, b.fdb, b.fdb.nodes.Values
  {
    Sys(b.View(), b.fdb.View(), now, b.fdb.ageingTimeout)
  }

  method PerformOthers(b: Bridge, cmd: Cmd)
    requires b.Valid() && cmd.Others? && Admissible(b.View(), cmd)
    modifies b.net
    ensures b.Valid() && b.View() == Execute(old(b.View()), cmd)
  {
    OthersKeepInv(b.View(), cmd);
    UseDevice(b, cmd.dev, cmd.promisc, cmd.allmulti);
  }

  /** The device is the bridge's neighbour, not part of it. */
  method UseDevice(b: Bridge, dev: DevId, promisc: int, allmulti: int)
    requires b.Linked() && b.fdb.Valid() && dev in b.net.devs
    modifies b.net
    ensures b.Linked() && b.fdb.Valid()
    ensures b.View() == old(b.View()).(net := old(b.View()).net[dev := Used(old(b.View()).net[dev], promisc, allmulti)])
  {
    b.net.OthersUse(dev, promisc, allmulti);
    CfgStands(b);
  }

  method PerformPortCommand(b: Bridge, cmd: Cmd)
    requires b.Valid() && Admissible(b.View(), cmd)
    requires cmd.CmdPortAdd? || cmd.CmdPortDel? || cmd.CmdPortSet? || cmd.Others?
    modifies b`busy, b.ports, b.vlans.index.Values, b.net
    ensures b.Valid() && b.View() == Execute(old(b.View()), cmd)
  {
    match cmd
    case CmdPortAdd(dev, f) => var _ := b.PortAdd(dev, f);
    case CmdPortDel(dev) => b.PortDel(dev);
    case CmdPortSet(dev, pvid) => var _ := b.PortSet(dev, pvid);
    case Others(_, _, _) => PerformOthers(b, cmd);
  }

  method PerformVlanCommand(b: Bridge, cmd: Cmd)
    requires b.Valid() && Admissible(b.View(), cmd)
    requires cmd.CmdVlanAdd? || cmd.CmdVlanDel? || cmd.CmdAttach? || cmd.CmdDetach?
    modifies b.ports, b.vlans, b.vlans.index.Values
    ensures b.Valid() && b.View() == Execute(old(b.View()), cmd)
    ensures forall v :: v in b.vlans.index.Values ==> v in old(b.vlans.index.Values) || fresh(v)
  {
    match cmd
    case CmdVlanAdd(vid, alloc) => var _ := b.VlanAdd(vid, alloc);
    case CmdVlanDel(vid) => var _ := b.VlanDel(vid);
    case CmdAttach(vid, dev, tagged) => var _ := b.Attach(vid, dev, tagged);
    case CmdDetach(vid, dev) => b.Detach(vid, dev);
  }

  method PerformCommand(b: Bridge, cmd: Cmd)
    requires b.Valid() && Admissible(b.View(), cmd)
    modifies b`busy, b.ports, b.vlans, b.vlans.index.Values, b.net
    ensures b.Valid() && b.View() == Execute(old(b.View()), cmd)
    ensures forall v :: v in b.vlans.index.Values ==> v in old(b.vlans.index.Values) || fresh(v)
  {
    if cmd.CmdVlanAdd? || cmd.CmdVlanDel? || cmd.CmdAttach? || cmd.CmdDetach? {
      PerformVlanCommand(b, cmd);
    } else {
      PerformPortCommand(b, cmd);
    }
  }

  /** Configuration does not touch the forwarding database. */
  method Configure(b: Bridge, cmd: Cmd)
    requires b.Valid() && Admissible(b.View(), cmd)
    modifies b`busy, b.ports, b.vlans, b.vlans.index.Values, b.net
    ensures b.Valid() && b.View() == Execute(old(b.View()), cmd) && b.fdb.View() == old(b.fdb.View())
    ensures forall v :: v in b.vlans.index.Values ==> v in old(b.vlans.index.Values) || fresh(v)
  {
    PerformCommand(b, cmd);
    SameNodesSameView(b.fdb);
  }

  /** A frame comes in from the host or from the device of its slot. */
  method ReceiveFrame(b: Bridge, a: Arrival, now: nat) returns (out: Out)
    requires b.Valid() && Enabled(b.View(), Arrive(a))
    modifies b.fdb`nodes, b.fdb.nodes.Values
    ensures forall n :: n in b.fdb.nodes.Values ==> n in old(b.fdb.nodes.Values) || fresh(n)
    ensures b.Valid() && b.View() == old(b.View())
    ensures out == Forwarded(b.fdb.clock, b.CfgView(), old(b.fdb.View()), a, now, b.fdb.ageingTimeout)
    ensures b.fdb.View() == TableAfter(b.fdb.clock, b.CfgView(), old(b.fdb.View()), a, now)
  {
    var skb := NewBuffer(b, a.frame);
    out := ReceiveBuffer(b, skb, a, now);
  }

  method ReceiveBuffer(b: Bridge, skb: SkBuff, a: Arrival, now: nat) returns (out: Out)
    requires b.Valid() && Enabled(b.View(), Arrive(a)) && skb.frame == a.frame
    modifies skb, b.fdb`nodes, b.fdb.nodes.Values
    ensures forall n :: n in b.fdb.nodes.Values ==> n in old(b.fdb.nodes.Values) || fresh(n)
    ensures b.Valid() && b.View() == old(b.View())
    ensures out == Forwarded(b.fdb.clock, b.CfgView(), old(b.fdb.View()), a, now, b.fdb.ageingTimeout)
    ensures b.fdb.View() == TableAfter(b.fdb.clock, b.CfgView(), old(b.fdb.View()), a, now)
  {
    if a.pidx == HOST {
      out := Forwarding.StartXmit(b, skb, now, a.alloc, a.lost);
    } else {
      DeviceAt(b, b.View(), a.pidx);
      var consumed;
      consumed, out := Forwarding.RxHandler(b, b.ports[a.pidx].dev.value, skb, now, a.alloc, a.lost);
    }
  }

  /** A busy slot other than the host's is where its device's frames come in. */
  lemma DeviceAt(b: Bridge, s: Setup, i: Pidx)
    requires b.Valid() && s == b.View() && i in s.cfg.busy && i != HOST
    ensures var dev := b.ports[i].dev;
            dev.Some? && Enslaved(s.cfg, dev.value) && PortFind(s.cfg, dev.value) == Some(i)
  {
    assert s.cfg.ports[i] == PortValue(b.ports[i]);
    assert SlotOk(s.cfg, i);
    var dev := b.ports[i].dev.value;
    assert Occupies(s.cfg, i, dev);
    PortFindInverts(s, i, dev);
  }

  method NewBuffer(b: Bridge, frame: Frame) returns (skb: SkBuff)
    requires b.Valid()
    ensures fresh(skb) && skb.frame == frame
    ensures b.Valid() && b.View() == old(b.View()) && b.fdb.View() == old(b.fdb.View())
  {
    skb := new SkBuff(frame);
  }

  method FlushTable(b: Bridge, op: FlushOp, now: nat)
    requires b.Valid()
    modifies b.fdb`nodes
    ensures b.fdb.nodes.Values <= old(b.fdb.nodes.Values)
    ensures b.Valid() && b.View() == old(b.View())
    ensures b.fdb.View() == Flushed(b.fdb.clock, old(b.fdb.View()), op, now, b.fdb.ageingTimeout)
  {
    b.fdb.FlushAll(op, now);
    CfgStands(b);
  }

  method AgeTable(b: Bridge, now: nat)
    requires b.Valid()
    modifies b.fdb`nodes
    ensures b.fdb.nodes.Values <= old(b.fdb.nodes.Values)
    ensures b.Valid() && b.View() == old(b.View())
    ensures b.fdb.View() == Aged(b.fdb.clock, old(b.fdb.View()), now, b.fdb.ageingTimeout)
  {
    var _ := b.fdb.AgeAll(now);
    CfgStands(b);
  }

  /** One call from the kernel is one step of the run machine. */
  method Perform(b: Bridge, ev: Event, now: nat) returns (outs: seq<Out>, later: nat)
    requires b.Valid() && Enabled(b.View(), ev)
    modifies b`busy, b.ports, b.vlans, b.vlans.index.Values, b.net, b.fdb`nodes, b.fdb.nodes.Values
    ensures forall v :: v in b.vlans.index.Values ==> v in old(b.vlans.index.Values) || fresh(v)
    ensures forall n :: n in b.fdb.nodes.Values ==> n in old(b.fdb.nodes.Values) || fresh(n)
    ensures b.Valid()
    ensures SysOf(b, later) == Step(b.fdb.clock, old(SysOf(b, now)), ev)
    ensures outs == OutOf(b.fdb.clock, old(SysOf(b, now)), ev)
  {
    outs, later := [], now;
    match ev
    case Arrive(a) =>
      var out := ReceiveFrame(b, a, now);
      outs := [out];
    case Tick(d) => later := now + d;
    case AgeRun => AgeTable(b, now);
    case Flush(op) => FlushTable(b, op, now);
    case Command(cmd) => Configure(b, cmd);
  }

  /** Any calls in any order: the object does exactly what the run machine does. */
  method Drive(b: Bridge, evs: seq<Event>, now: nat) returns (outs: seq<Out>, later: nat)
    requires b.Valid() && Feasible(b.View(), evs)
    modifies b`busy, b.ports, b.vlans, b.vlans.index.Values, b.net, b.fdb`nodes, b.fdb.nodes.Values
    ensures b.Valid() && SysOf(b, later) == Run(b.fdb.clock, old(SysOf(b, now)), evs)
    ensures outs == Trace(b.fdb.clock, old(SysOf(b, now)), evs)
    decreases |evs|
  {
    if evs == [] {
      return [], now;
    }
    var first, rest;
    first, later := Perform(b, evs[0], now);
    rest, later := Drive(b, evs[1..], later);
    outs := first + rest;
  }

  /** The devices as the rest of the system alone would have made them. */
  function LeftToOthers(net: Net, evs: seq<Event>): Net {
    map d | d in net :: Used(net[d], OthersTotal(evs, d).0, OthersTotal(evs, d).1)
  }

  /** A bridge that started without devices leaves none of its marks on any. */
  lemma NothingRemains(c: Clock, s: Sys, evs: seq<Event>)
    requires Feasible(s.setup, evs) && Inv(s.setup) && Shape(s.table)
    requires forall d :: d in s.setup.net ==> !Enslaved(s.setup.cfg, d)
    ensures Basic(Run(c, s, evs).setup.cfg)
    ensures TornBelow(Run(c, s, evs).setup, MAX_PORTS).net == LeftToOthers(s.setup.net, evs)
  {
    var r := Run(c, s, evs).setup;
    RunKeepsInv(c, s, evs);
    TornDown(r);
    RunKeepsDevices(c, s, evs);
    forall d | d in s.setup.net ensures WithoutBridge(r, d) == LeftToOthers(s.setup.net, evs)[d] {
      DevicesOverRuns(c, s, evs, d);
    }
  }

  method Unlink(b: Bridge, now: nat)
    requires b.Valid()
    modifies b`busy, b.ports, b.net, b.fdb`nodes
    ensures b.Valid() && b.View() == TornBelow(old(b.View()), MAX_PORTS) && b.fdb.View() == map[]
  {
    var walk := b.fdb.Walk();
    CfgStands(b);
    b.Dellink(now, walk);
  }

  /** A bridge from its first frame to its removal. */
  method DriveAndUnlink(b: Bridge, evs: seq<Event>, now: nat) returns (outs: seq<Out>)
    requires b.Valid() && Feasible(b.View(), evs)
    modifies b`busy, b.ports, b.vlans, b.vlans.index.Values, b.net, b.fdb`nodes, b.fdb.nodes.Values
    ensures outs == Trace(b.fdb.clock, old(SysOf(b, now)), evs)
    ensures Basic(Run(b.fdb.clock, old(SysOf(b, now)), evs).setup.cfg)
    ensures b.View() == TornBelow(Run(b.fdb.clock, old(SysOf(b, now)), evs).setup, MAX_PORTS)
  {
    var later;
    outs, later := Drive(b, evs, now);
    Unlink(b, later);
  }

  /** The life of a bridge. On a wrapping clock and with a timely worker it treats every frame of every run
      as the past alone, in unbounded time, says it should, and as long as no station is heard too late
      that past need not know of the worker. In the end every device is what the rest of the system
      made of it. */
  method DriveNewBridge(dev: DevId, net: Devices, hash: Vid -> Bucket, half: nat, timeout: nat, gap: nat,
                        evs: seq<Event>, now: nat) returns (outs: seq<Out>)
    requires Unrelated(dev, net.devs)
    requires Feasible(Setup(NewCfg(dev), net.devs), evs)
    requires Timely(evs, 0, gap) && half > 0 && timeout < half && gap <= half
    modifies net
    ensures outs == PromisedTrace(Setup(NewCfg(dev), old(net.devs)), [], now, timeout, evs)
    ensures var kept, s := WithoutAgeing(evs), Setup(NewCfg(dev), old(net.devs));
            && Feasible(s, kept)
            && (NoneHeardTooLate(s, [], now, timeout, kept) ==> outs == PromisedTrace(s, [], now, timeout, kept))
    ensures net.devs == LeftToOthers(old(net.devs), evs)
  {
    ghost var s := Sys(Setup(NewCfg(dev), net.devs), map[], now, timeout);
    NewCfgInv(dev, net.devs);
    BridgeKeepsItsPromise(s, evs, gap, half);
    NoDevices(dev, net.devs);
    NothingRemains(Wrapping(half), s, evs);
    outs := DriveAway(dev, net, hash, Wrapping(half), timeout, evs, now);
  }

  lemma NoDevices(dev: DevId, net: Net)
    ensures forall d :: !Enslaved(NewCfg(dev), d)
  {
  }

  method DriveAway(dev: DevId, net: Devices, hash: Vid -> Bucket, clock: Clock, timeout: nat, evs: seq<Event>, now: nat)
    returns (outs: seq<Out>)
    requires Unrelated(dev, net.devs)
    requires Feasible(Setup(NewCfg(dev), net.devs), evs)
    modifies net
    ensures var s := Sys(Setup(NewCfg(dev), old(net.devs)), map[], now, timeout);
            && outs == Trace(clock, s, evs)
            && Basic(Run(clock, s, evs).setup.cfg)
            && net.devs == TornBelow(Run(clock, s, evs).setup, MAX_PORTS).net
  {
    var b := new Bridge(dev, net, hash, clock, timeout);
    outs := DriveAndUnlink(b, evs, now);
  }
}
