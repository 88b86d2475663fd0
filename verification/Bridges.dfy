/** The bridge object: port slots, VLAN table and forwarding database, changed in place. */
module Bridges {
  import opened Option
  import opened Ports
  import opened Frames
  import opened FdbSpec
  import opened Config
  import opened ConfigProofs
  import opened Vlans
  import opened Buffers
  import opened NetDevices
  import opened ForwardingDb

  datatype Port = Port(dev: Option<DevId>, cb: Cb, pvid: Vid)

  const NO_PORT := Port(None, ZERO_CB, 0)

  function PortValue(p: Port): PortCfg {
    PortCfg(p.dev, p.cb.pidx, p.cb.vlanFiltering, p.cb.saLearning, p.cb.ctrl,
            if p.cb.vlan == null then None else Some(p.cb.vlan.vid), p.cb.vec, p.pvid)
  }

  function PortValues(ps: seq<Port>): (s: seq<PortCfg>)
    ensures |s| == |ps| && forall i :: 0 <= i < |ps| ==> s[i] == PortValue(ps[i])
  {
    seq(|ps|, i requires 0 <= i < |ps| => PortValue(ps[i]))
  }

  lemma PortValuesUpdate(ps: seq<Port>, i: nat, p: Port)
    requires i < |ps|
    ensures PortValues(ps[i := p]) == PortValues(ps)[i := PortValue(p)]
  {
  }

  lemma UninitAfterInit(cfg: Cfg, pidx: Pidx, dev: DevId)
    requires Basic(cfg) && pidx !in cfg.busy
    ensures var cfg1 := Config.PortInit(cfg, pidx, dev);
            cfg1.(busy := cfg1.busy - {pidx}, ports := cfg1.ports[pidx := ZERO_PORT]) == Uninit(cfg, pidx)
  {
  }

  lemma RepointedByPorts(cfg: Cfg, cfg': Cfg, vid: Vid, target: Option<Vid>)
    requires Basic(cfg) && Basic(cfg') && cfg'.busy == cfg.busy && cfg'.ports == cfg.ports
    ensures Repointed(cfg, vid, target) == Repointed(cfg', vid, target)
  {
  }

  /** After the caches were cleared no port points to the VLAN. */
  lemma NoCacheLeft(cfg: Cfg, cfg': Cfg, vid: Vid)
    requires CfgInv(cfg) && cfg' == cfg.(ports := Repointed(cfg, vid, None))
    ensures forall i: Pidx :: cfg'.ports[i].cached != Some(vid)
  {
    forall i: Pidx ensures cfg'.ports[i].cached != Some(vid) {
      assert SlotOk(cfg, i);
    }
  }

  lemma TearOnePort(s: Setup, n: Pidx)
    requires Inv(s) && n in s.cfg.busy && n != HOST
    ensures s.cfg.ports[n].dev.Some? && TornBelow(s, n).cfg.ports[n] == s.cfg.ports[n]
    ensures var dev, t := s.cfg.ports[n].dev.value, TornBelow(s, n);
            Admissible(t, CmdPortDel(dev)) && DelPort(t, dev) == TornBelow(s, n + 1)
  {
    assert SlotOk(s.cfg, n);
    TearOne(s, n, s.cfg.ports[n].dev.value);
  }

  /** The walk goes on to the next slot that was busy at first. */
  lemma TearToNext(s: Setup, n: nat)
    requires Inv(s) && n <= MAX_PORTS
    ensures var m := FirstFrom(TornBelow(s, n).cfg.busy, n);
            (m < MAX_PORTS ==> m in s.cfg.busy) && TornBelow(s, n) == TornBelow(s, m)
  {
    var m := FirstFrom(TornBelow(s, n).cfg.busy, n);
    forall i: Pidx | i in s.cfg.busy && n <= i ensures m <= i {
      assert i in TornBelow(s, n).cfg.busy;
    }
    if n <= m {
      TearGap(s, n, m);
    }
  }

  lemma TearNothing(s: Setup)
    requires Inv(s)
    ensures TornBelow(s, 0) == s
  {
    assert TornBelow(s, 0).cfg.busy == s.cfg.busy;
    assert TornBelow(s, 0).cfg.ports == s.cfg.ports;
    assert TornBelow(s, 0).net == s.net;
  }

  class Bridge {
    const dev: DevId
    const ports: array<Port>
    var busy: PortVec
    const vlans: VlanTable
    const fdb: Fdb
    const net: Devices

    ghost predicate PointerOk(v: Vlan?)
      reads vlans
    {
      v != null ==> v.vid in vlans.index && vlans.index[v.vid] == v
    }

    /** The objects fit together, and cached VLAN pointers point into the table. */
    ghost predicate Linked()
      reads this, ports, vlans
    {
      && ports.Length == MAX_PORTS && vlans.Valid() && 0 in vlans.index
      && forall i: Pidx :: PointerOk(ports[i].cb.vlan)
    }

    ghost function CfgView(): Cfg
      reads this, ports, vlans, vlans.index.Values
    {
      Cfg(dev, busy, PortValues(ports[..]), vlans.View())
    }

    ghost function View(): Setup
      reads this, ports, vlans, vlans.index.Values, net
    {
      Setup(CfgView(), net.devs)
    }

    ghost predicate Valid()
      reads this, ports, vlans, vlans.index.Values, net, fdb
    {
      Linked() && Inv(View()) && fdb.Valid()
    }

    /** A new bridge, with VLAN 0, an empty database and the bridge device as its first port. */
    constructor (dev: DevId, net: Devices, hash: Vid -> Bucket, clock: Clock, timeout: nat)
      requires Unrelated(dev, net.devs)
      ensures Valid()
      ensures View() == Setup(NewCfg(dev), net.devs)
      ensures fdb.View() == map[] && fdb.clock == clock && fdb.ageingTimeout == timeout
      ensures this.net == net && fresh(ports) && fresh(vlans) && fresh(fdb) && fdb.nodes == map[]
      ensures forall v :: v in vlans.index.Values ==> fresh(v)
    {
      this.dev := dev;
      this.net := net;
      this.busy := {};
      this.ports := new Port[MAX_PORTS](_ => NO_PORT);
      this.vlans := new VlanTable(hash);
      this.fdb := new Fdb(clock, timeout);
      new;
      Start();
      NewCfgInv(dev, net.devs);
    }

    method Start()
      requires ports.Length == MAX_PORTS && vlans.Valid() && vlans.index == map[] && busy == {}
      requires forall i: Pidx :: ports[i] == NO_PORT
      modifies this`busy, ports, vlans
      ensures Linked() && CfgView() == NewCfg(dev)
      ensures forall v :: v in vlans.index.Values ==> fresh(v)
    {
      var _, _ := vlans.New(0, true);
      assert CfgView() == EmptyCfg(dev) by {
        assert PortValues(ports[..]) == EmptyCfg(dev).ports;
        assert vlans.View() == map[0 := NewVlan()];
      }
      PortInit(HOST, dev);
    }

    // ---------- single reads and writes ----------

    method FindVlan(vid: Vid) returns (vlan: Vlan?)
      requires Linked()
      ensures Linked() && CfgView() == old(CfgView())
      ensures vlan == if vid in vlans.index then vlans.index[vid] else null
    {
      ghost var read;
      vlan, read := vlans.Find(vid);
    }

    method MembersOf(vlan: Vlan) returns (members: PortVec)
      requires Linked() && PointerOk(vlan)
      ensures Linked() && CfgView() == old(CfgView())
      ensures vlan.vid in CfgView().vlans && members == CfgView().vlans[vlan.vid].members
    {
      members := vlan.members;
    }

    /** A VLAN of the table seen through a pointer is the VLAN seen through the view. */
    lemma VlanInView(vlan: Vlan)
      requires Linked() && PointerOk(vlan)
      ensures vlan.vid in CfgView().vlans && CfgView().vlans[vlan.vid] == vlan.Value()
    {
    }

    method WritePort(pidx: Pidx, p: Port)
      requires Linked() && PointerOk(p.cb.vlan)
      modifies ports
      ensures Linked() && ports[..] == old(ports[..])[pidx := p]
      ensures CfgView() == old(CfgView()).(ports := old(CfgView()).ports[pidx := PortValue(p)])
    {
      PortValuesUpdate(ports[..], pidx, p);
      ports[pidx] := p;
      assert ports[..] == old(ports[..])[pidx := p];
    }

    method MarkBusy(pidx: Pidx, mark: bool)
      requires Linked()
      modifies this`busy
      ensures Linked()
      ensures CfgView() == old(CfgView()).(busy := if mark then old(busy) + {pidx} else old(busy) - {pidx})
    {
      busy := if mark then busy + {pidx} else busy - {pidx};
      assert vlans.View() == old(vlans.View());
    }

    method AddMember(vlan: Vlan, pidx: Pidx, tagged: bool)
      requires Linked() && vlan.vid in vlans.index && vlans.index[vlan.vid] == vlan
      modifies vlan
      ensures Linked()
      ensures var vs := old(CfgView()).vlans;
              CfgView() == old(CfgView()).(vlans := vs[vlan.vid := Attached(vs[vlan.vid], pidx, tagged)])
    {
      vlan.PortAdd(pidx, tagged);
      assert vlans.View() == old(vlans.View())[vlan.vid := vlan.Value()];
    }

    method DelMember(vlan: Vlan, pidx: Pidx)
      requires Linked() && vlan.vid in vlans.index && vlans.index[vlan.vid] == vlan
      modifies vlan
      ensures Linked()
      ensures var vs := old(CfgView()).vlans;
              CfgView() == old(CfgView()).(vlans := vs[vlan.vid := Detached(vs[vlan.vid], pidx)])
    {
      vlan.PortDel(pidx);
      assert vlans.View() == old(vlans.View())[vlan.vid := vlan.Value()];
    }

    // ---------- port slots ----------

    method PortInit(pidx: Pidx, dev: DevId)
      requires Linked()
      modifies this`busy, ports, vlans.index.Values
      ensures Linked()
      ensures CfgView() == Config.PortInit(old(CfgView()), pidx, dev)
    {
      ghost var cfg := CfgView();
      var vlan0 := FindVlan(0);
      var p := ports[pidx];
      var p' := p.(dev := Some(dev),
                   cb := p.cb.(pidx := pidx, saLearning := true, vec := Fill() - {pidx}, vlan := vlan0));
      assert PortValue(p') == InitPort(cfg.ports[pidx], pidx, dev);
      WritePort(pidx, p');
      AddMember(vlan0, pidx, false);
      MarkBusy(pidx, true);
    }

    /** Gives the slot back; its contents are cleared once no frame in flight refers to them. */
    method PortCleanup(pidx: Pidx)
      requires Linked()
      modifies this`busy, ports
      ensures Linked()
      ensures CfgView() == old(CfgView()).(busy := old(busy) - {pidx}, ports := old(CfgView()).ports[pidx := ZERO_PORT])
    {
      MarkBusy(pidx, false);
      WritePort(pidx, NO_PORT);
    }

    method PortAddAllowed(dev: DevId) returns (refusal: Option<Errno>)
      requires dev in net.devs
      ensures refusal == AddRefusal(net.devs, dev)
      ensures var d := net.devs[dev];
              && (refusal.None? <==> Bridgeable(d))
              && (refusal == Some(EINVAL) <==> d.loopback || !d.ethernet)
              && (refusal == Some(EBUSY) <==> !d.loopback && d.ethernet && (d.dsa || d.master.Some?))
    {
      var d := net.devs[dev];
      if d.loopback {
        return Some(EINVAL);
      }
      if !d.ethernet {
        return Some(EINVAL);
      }
      if d.dsa {
        return Some(EBUSY);
      }
      if d.master.Some? {
        return Some(EBUSY);
      }
      if d.dontBridge {
        return Some(EOPNOTSUPP);
      }
      return None;
    }

    /** Takes the four kernel resources in turn, giving back what it has when one is refused. */
    method AcquireDevice(dev: DevId, pidx: Pidx, f: Faults) returns (ok: bool)
      requires dev in net.devs && AddRefusal(net.devs, dev).None?
      modifies net
      ensures ok <==> !KernelRefuses(this.dev, old(net.devs), dev, f)
      ensures net.devs == if ok then old(net.devs)[dev := Joined(old(net.devs)[dev], this.dev, pidx)] else old(net.devs)
    {
      ghost var all := net.devs;
      ghost var linked := all[dev].(master := Some(this.dev));
      ok := net.UpperLink(dev, this.dev, f.link);
      if ok {
        ok := net.SetPromiscuity(dev, 1, f.promisc);
        if ok {
          assert net.devs == all[dev := linked.(promisc := linked.promisc + 1)];
          ok := net.SetAllmulti(dev, 1, f.allmulti);
          if ok {
            assert net.devs == all[dev := linked.(promisc := linked.promisc + 1, allmulti := linked.allmulti + 1)];
            ok := net.RegisterRx(dev, BridgeRx(this.dev, pidx), f.rx);
            if ok {
              net.MarkBridgePort(dev, true);
              return;
            }
            var _ := net.SetAllmulti(dev, -1, false);
          }
          assert net.devs == all[dev := linked.(promisc := linked.promisc + 1)];
          var _ := net.SetPromiscuity(dev, -1, false);
        }
        assert net.devs == all[dev := linked];
        net.UpperUnlink(dev);
      }
    }

    method PortAdd(dev: DevId, f: Faults) returns (status: Status)
      requires Valid() && dev in net.devs
      modifies this`busy, ports, vlans.index.Values, net
      ensures Valid()
      ensures (View(), status) == AddPort(old(View()), dev, f)
    {
      AddPortKeepsInv(View(), dev, f);
      status := AddSlot(dev, f);
    }

    method AddSlot(dev: DevId, f: Faults) returns (status: Status)
      requires Linked() && dev in net.devs
      modifies this`busy, ports, vlans.index.Values, net
      ensures Linked()
      ensures (View(), status) == AddPort(old(View()), dev, f)
    {
      var refusal := PortAddAllowed(dev);
      if refusal.Some? {
        return Failure(refusal.value);
      }
      var pidx := FirstZero(busy);
      if pidx == MAX_PORTS {
        return Failure(EBUSY);
      }
      var ok := TakeSlot(pidx, dev, f);
      status := if ok then Success else Failure(KERNEL);
    }

    method TakeSlot(pidx: Pidx, dev: DevId, f: Faults) returns (ok: bool)
      requires Linked() && dev in net.devs && AddRefusal(net.devs, dev).None? && pidx !in busy
      modifies this`busy, ports, vlans.index.Values, net
      ensures Linked()
      ensures ok <==> !KernelRefuses(this.dev, old(net.devs), dev, f)
      ensures net.devs == if ok then old(net.devs)[dev := Joined(old(net.devs)[dev], this.dev, pidx)] else old(net.devs)
      ensures CfgView() == if ok then Config.PortInit(old(CfgView()), pidx, dev) else Uninit(old(CfgView()), pidx)
    {
      ghost var cfg := CfgView();
      PortInit(pidx, dev);
      ok := AcquireDevice(dev, pidx, f);
      assert CfgView() == Config.PortInit(cfg, pidx, dev);
      if !ok {
        PortCleanup(pidx);
        UninitAfterInit(cfg, pidx, dev);
      }
    }

    method PortDel(dev: DevId)
      requires Valid() && Admissible(View(), CmdPortDel(dev))
      modifies this`busy, ports, net
      ensures Valid() && fdb.View() == old(fdb.View())
      ensures View() == DelPort(old(View()), dev)
    {
      DelPortKeepsInv(View(), dev);
      DelSlot(dev);
    }

    method DelSlot(dev: DevId)
      requires Linked() && fdb.Valid() && dev in net.devs && net.devs[dev].rx.BridgeRx?
      modifies this`busy, ports, net
      ensures Linked() && fdb.Valid() && fdb.View() == old(fdb.View())
      ensures View() == DelPort(old(View()), dev)
    {
      var pidx := net.devs[dev].rx.pidx;
      ReleaseDevice(dev);
      CfgStands(this);
      PortCleanup(pidx);
    }

    method ReleaseDevice(dev: DevId)
      requires dev in net.devs
      modifies net
      ensures net.devs == old(net.devs)[dev := Released(old(net.devs)[dev])]
    {
      net.MarkBridgePort(dev, false);
      net.UnregisterRx(dev);
      var _ := net.SetAllmulti(dev, -1, false);
      var _ := net.SetPromiscuity(dev, -1, false);
      net.UpperUnlink(dev);
    }

    method PortFindSlot(dev: DevId) returns (slot: Option<Pidx>)
      requires Linked()
      ensures Linked() && CfgView() == old(CfgView())
      ensures slot == PortFind(CfgView(), dev)
    {
      var pidx := FirstFrom(busy, 0);
      while pidx < MAX_PORTS
        invariant pidx <= MAX_PORTS && (pidx < MAX_PORTS ==> pidx in busy)
        invariant forall i: Pidx :: i < pidx ==> !Occupies(CfgView(), i, dev)
        invariant forall i: Pidx :: i in busy && pidx == MAX_PORTS ==> i < pidx
        decreases MAX_PORTS - pidx
      {
        if ports[pidx].dev == Some(dev) {
          assert Occupies(CfgView(), pidx, dev);
          return Some(pidx);
        }
        assert !Occupies(CfgView(), pidx, dev);
        pidx := FirstFrom(busy, pidx + 1);
      }
      slot := None;
    }

    /** Sets a port's PVID, with it the port's VLAN and whether the port filters. */
    method PortSet(dev: DevId, pvid: Vid) returns (status: Status)
      requires Valid()
      modifies ports
      ensures Valid()
      ensures (CfgView(), status) == SetPort(old(CfgView()), dev, pvid)
    {
      SetPortKeepsInv(View(), dev, pvid);
      status := SetSlot(dev, pvid);
    }

    method SetSlot(dev: DevId, pvid: Vid) returns (status: Status)
      requires Linked()
      modifies ports
      ensures Linked()
      ensures (CfgView(), status) == SetPort(old(CfgView()), dev, pvid)
    {
      ghost var cfg := CfgView();
      var slot := PortFindSlot(dev);
      if slot.None? {
        return Failure(EINVAL);
      }
      var vlan := FindVlan(pvid);
      var p := ports[slot.value];
      var p' := p.(pvid := pvid, cb := p.cb.(vlan := vlan, vlanFiltering := pvid != 0));
      assert PortValue(p')
          == cfg.ports[slot.value].(pvid := pvid, cached := VlanFind(cfg, pvid), filtering := pvid != 0);
      WritePort(slot.value, p');
      status := Success;
    }

    // ---------- VLANs ----------

    /** Points the cache of every busy port with this PVID at the VLAN, or at nothing. */
    method UpdatePortVlan(vid: Vid, vlan: Vlan?)
      requires Linked() && PointerOk(vlan) && (vlan != null ==> vlan.vid == vid)
      modifies ports
      ensures Linked()
      ensures CfgView()
          == old(CfgView()).(ports := Repointed(old(CfgView()), vid, if vlan == null then None else Some(vid)))
    {
      ghost var cfg := CfgView();
      RepointPorts(vid, vlan);
      assert vlans.View() == cfg.vlans;
      assert PortValues(ports[..]) == Repointed(cfg, vid, if vlan == null then None else Some(vid));
    }

    method RepointPorts(vid: Vid, vlan: Vlan?)
      requires ports.Length == MAX_PORTS
      modifies ports
      ensures forall i: Pidx ::
                ports[i] == if i in busy && old(ports[i]).pvid == vid
                            then old(ports[i]).(cb := old(ports[i]).cb.(vlan := vlan)) else old(ports[i])
    {
      var pidx := FirstFrom(busy, 0);
      while pidx < MAX_PORTS
        invariant pidx <= MAX_PORTS && (pidx < MAX_PORTS ==> pidx in busy)
        invariant forall i: Pidx ::
                    ports[i] == if i < pidx && i in busy && old(ports[i]).pvid == vid
                                then old(ports[i]).(cb := old(ports[i]).cb.(vlan := vlan)) else old(ports[i])
        decreases MAX_PORTS - pidx
      {
        if ports[pidx].pvid == vid {
          ports[pidx] := ports[pidx].(cb := ports[pidx].cb.(vlan := vlan));
        }
        pidx := FirstFrom(busy, pidx + 1);
      }
    }

    method VlanAdd(vid: Vid, alloc: bool) returns (status: Status)
      requires Valid()
      modifies ports, vlans
      ensures forall v :: v in vlans.index.Values ==> v in old(vlans.index.Values) || fresh(v)
      ensures Valid()
      ensures (CfgView(), status) == AddVlan(old(CfgView()), vid, alloc)
    {
      AddVlanKeepsInv(View(), vid, alloc);
      status := AddVlanAndPorts(vid, alloc);
    }

    method AddVlanAndPorts(vid: Vid, alloc: bool) returns (status: Status)
      requires Linked()
      modifies ports, vlans
      ensures forall v :: v in vlans.index.Values ==> v in old(vlans.index.Values) || fresh(v)
      ensures Linked()
      ensures (CfgView(), status) == AddVlan(old(CfgView()), vid, alloc)
    {
      ghost var cfg := CfgView();
      var vlan;
      status, vlan := NewTableVlan(vid, alloc);
      if status.Success? {
        RepointedByPorts(cfg, CfgView(), vid, Some(vid));
        UpdatePortVlan(vid, vlan);
      }
    }

    method NewTableVlan(vid: Vid, alloc: bool) returns (status: Status, vlan: Vlan?)
      requires Linked()
      modifies vlans
      ensures forall v :: v in vlans.index.Values ==> v in old(vlans.index.Values) || fresh(v)
      ensures Linked()
      ensures status == AddVlan(old(CfgView()), vid, alloc).1
      ensures status.Success? ==> vlan != null && vlan.vid == vid && PointerOk(vlan)
                                  && CfgView() == old(CfgView()).(vlans := old(CfgView()).vlans[vid := NewVlan()])
      ensures status.Failure? ==> CfgView() == old(CfgView())
    {
      status, vlan := vlans.New(vid, alloc);
    }

    /** Deletion as intended: after the caches let go of the VLAN it leaves the table. */
    method VlanDel(vid: Vid) returns (status: Status)
      requires Valid() && vid != 0
      modifies ports, vlans, vlans.index.Values
      ensures vlans.index.Values <= old(vlans.index.Values)
      ensures Valid()
      ensures (CfgView(), status) == DelVlan(old(CfgView()), vid)
    {
      DelVlanKeepsInv(View(), vid);
      status := DelVlanAndCaches(vid);
    }

    method DelVlanAndCaches(vid: Vid) returns (status: Status)
      requires Linked() && CfgInv(CfgView()) && vid != 0
      modifies ports, vlans, vlans.index.Values
      ensures vlans.index.Values <= old(vlans.index.Values)
      ensures Linked()
      ensures (CfgView(), status) == DelVlan(old(CfgView()), vid)
    {
      ghost var cfg := CfgView();
      var vlan := FindVlan(vid);
      if vlan == null {
        return Failure(ENOENT);
      }
      UpdatePortVlan(vid, null);
      NoCacheLeft(cfg, CfgView(), vid);
      DropVlan(vlan);
      status := Success;
    }

    method DropVlan(vlan: Vlan)
      requires Linked() && vlan.vid in vlans.index && vlans.index[vlan.vid] == vlan && vlan.vid != 0
      requires forall i: Pidx :: CfgView().ports[i].cached != Some(vlan.vid)
      modifies vlans, vlan
      ensures vlans.index.Values <= old(vlans.index.Values)
      ensures Linked() && CfgView() == old(CfgView()).(vlans := old(CfgView()).vlans - {vlan.vid})
    {
      ghost var vs := CfgView().vlans;
      ClearMembers(vlan);
      assert CfgView().vlans - {vlan.vid} == vs - {vlan.vid};
      UnhashVlan(vlan);
    }

    /** Deletion as written: the caches let go of the VLAN and it loses its members, but it stays in the table. */
    method VlanDelAsWritten(vid: Vid) returns (status: Status)
      requires Linked()
      modifies ports, vlans.index.Values
      ensures Linked()
      ensures status == if vid in old(CfgView()).vlans then Success else Failure(ENOENT)
      ensures CfgView() == if status.Success? then DelVlanAsWritten(old(CfgView()), vid) else old(CfgView())
    {
      var vlan := FindVlan(vid);
      if vlan == null {
        return Failure(ENOENT);
      }
      UpdatePortVlan(vid, null);
      ClearMembers(vlan);
      status := Success;
    }

    method ClearMembers(vlan: Vlan)
      requires Linked() && vlan.vid in vlans.index && vlans.index[vlan.vid] == vlan
      modifies vlan
      ensures Linked()
      ensures var vs := old(CfgView()).vlans;
              CfgView() == old(CfgView()).(vlans := vs[vlan.vid := vs[vlan.vid].(members := {})])
    {
      vlan.members := {};
      assert vlans.View() == old(vlans.View())[vlan.vid := vlan.Value()];
    }

    method UnhashVlan(vlan: Vlan)
      requires Linked() && vlan.vid in vlans.index && vlans.index[vlan.vid] == vlan && vlan.vid != 0
      requires forall i: Pidx :: CfgView().ports[i].cached != Some(vlan.vid)
      modifies vlans
      ensures vlans.index.Values <= old(vlans.index.Values)
      ensures Linked() && CfgView() == old(CfgView()).(vlans := old(CfgView()).vlans - {vlan.vid})
    {
      forall i: Pidx ensures ports[i].cb.vlan != vlan {
        assert CfgView().ports[i] == PortValue(ports[i]);
      }
      vlans.Unhash(vlan);
    }

    method Attach(vid: Vid, dev: DevId, tagged: bool) returns (status: Status)
      requires Valid() && Admissible(View(), CmdAttach(vid, dev, tagged))
      modifies vlans.index.Values
      ensures Valid()
      ensures (CfgView(), status) == AttachPort(old(CfgView()), vid, dev, tagged)
    {
      ExecuteKeepsInv(View(), CmdAttach(vid, dev, tagged));
      status := AttachSlot(vid, dev, tagged);
    }

    method AttachSlot(vid: Vid, dev: DevId, tagged: bool) returns (status: Status)
      requires Linked() && (PortFind(CfgView(), dev).Some? ==> vid in CfgView().vlans)
      modifies vlans.index.Values
      ensures Linked()
      ensures (CfgView(), status) == AttachPort(old(CfgView()), vid, dev, tagged)
    {
      var vlan := FindVlan(vid);
      var slot := PortFindSlot(dev);
      if slot.None? {
        return Failure(ENODEV);
      }
      AddMember(vlan, slot.value, tagged);
      status := Success;
    }

    method Detach(vid: Vid, dev: DevId)
      requires Valid() && Admissible(View(), CmdDetach(vid, dev))
      modifies vlans.index.Values
      ensures Valid()
      ensures CfgView() == DetachPort(old(CfgView()), vid, dev)
      ensures PortFind(old(CfgView()), dev).None? ==> CfgView() == old(CfgView())
    {
      ExecuteKeepsInv(View(), CmdDetach(vid, dev));
      DetachSlot(vid, dev);
    }

    method DetachSlot(vid: Vid, dev: DevId)
      requires Linked() && (PortFind(CfgView(), dev).Some? ==> vid in CfgView().vlans)
      modifies vlans.index.Values
      ensures Linked()
      ensures CfgView() == DetachPort(old(CfgView()), vid, dev)
    {
      var vlan := FindVlan(vid);
      var slot := PortFindSlot(dev);
      if slot.Some? {
        DelMember(vlan, slot.value);
      }
    }

    // ---------- teardown ----------

    /** Deletes every port while walking the very vector that the deletions clear, then empties the database. */
    method Dellink(now: nat, walk: seq<WalkItem>)
      requires Valid() && Completes(walk, fdb.View())
      modifies this`busy, ports, net, fdb`nodes
      ensures Valid()
      ensures View() == TornBelow(old(View()), MAX_PORTS)
      ensures fdb.View() == map[]
    {
      DelAllPorts();
      EmptyFdb(now, walk);
    }

    method EmptyFdb(now: nat, walk: seq<WalkItem>)
      requires Valid() && Completes(walk, fdb.View())
      modifies fdb`nodes
      ensures Valid() && View() == old(View())
      ensures fdb.View() == map[]
    {
      fdb.Dellink(now, walk);
      CfgStands(this);
    }

    method DelAllPorts()
      requires Valid()
      modifies this`busy, ports, net
      ensures Valid() && fdb.View() == old(fdb.View())
      ensures View() == TornBelow(old(View()), MAX_PORTS)
    {
      ghost var s := View();
      ghost var t := fdb.View();
      var pidx := FirstFrom(busy, 0);
      TearNothing(s);
      TearToNext(s, 0);
      while pidx < MAX_PORTS
        invariant pidx <= MAX_PORTS && (pidx < MAX_PORTS ==> pidx in s.cfg.busy)
        invariant Valid() && fdb.View() == t && View() == TornBelow(s, pidx)
        decreases MAX_PORTS - pidx
      {
        pidx := DelToNext(pidx, s);
      }
    }

    method DelToNext(pidx: Pidx, ghost s: Setup) returns (next: nat)
      requires Valid() && Inv(s) && View() == TornBelow(s, pidx) && pidx in s.cfg.busy
      modifies this`busy, ports, net
      ensures Valid() && fdb.View() == old(fdb.View())
      ensures pidx < next <= MAX_PORTS && (next < MAX_PORTS ==> next in s.cfg.busy) && View() == TornBelow(s, next)
    {
      DelNext(pidx, s);
      TearToNext(s, pidx + 1);
      next := FirstFrom(busy, pidx + 1);
    }

    method DelNext(pidx: Pidx, ghost s: Setup)
      requires Valid() && Inv(s) && View() == TornBelow(s, pidx) && pidx in s.cfg.busy
      modifies this`busy, ports, net
      ensures Valid() && fdb.View() == old(fdb.View())
      ensures View() == TornBelow(s, pidx + 1)
    {
      if pidx == HOST {
        TearGap(s, 0, 1);
        return;
      }
      TearOnePort(s, pidx);
      assert PortValue(ports[pidx]) == s.cfg.ports[pidx];
      var dev := ports[pidx].dev.value;
      PortDel(dev);
    }
  }

  /** What touches neither slots nor VLANs leaves the configuration as it is. */
  twostate lemma CfgStands(b: Bridge)
    requires unchanged(b) && unchanged(b.ports) && unchanged(b.vlans)
    requires forall v :: v in b.vlans.index.Values ==> unchanged(v)
    ensures b.CfgView() == old(b.CfgView()) && (old(b.Linked()) ==> b.Linked())
  {
  }
}
