/** What the configuration commands keep, over single commands and over whole runs. */
module ConfigProofs {
  import opened Option
  import opened Ports
  import opened Frames
  import opened Config

  // ---------- every command keeps the invariant ----------

  lemma AddPortKeepsInv(s: Setup, dev: DevId, f: Faults)
    requires Inv(s) && dev in s.net
    ensures Inv(AddPort(s, dev, f).0)
  {
    var (s', status) := AddPort(s, dev, f);
    var n := FirstZero(s.cfg.busy);
    if status.Success? {
      assert s.net[dev].master.None?;
      forall i: Pidx ensures SlotOk(s'.cfg, i) && NetOk(s'.cfg, s'.net, i) {
        assert SlotOk(s.cfg, i) && NetOk(s.cfg, s.net, i);
      }
      forall d | d in s'.net && s'.net[d].master == Some(s'.cfg.bridge) ensures Enslaved(s'.cfg, d) {
        if d == dev {
          assert Occupies(s'.cfg, n, d);
        } else {
          assert Enslaved(s.cfg, d);
          var i: Pidx :| i != HOST && Occupies(s.cfg, i, d);
          assert Occupies(s'.cfg, i, d);
        }
      }
      forall i: Pidx | i in s.cfg.busy ensures s.cfg.ports[i].dev != Some(dev) {
        assert SlotOk(s.cfg, i) && NetOk(s.cfg, s.net, i);
      }
    } else if n < MAX_PORTS {
      assert SlotOk(s.cfg, n);
      assert s'.cfg.ports == s.cfg.ports;
      UnchangedPortsKeepInv(s, s');
    }
  }

  /** Only the VLAN table's contents differ, not which VLANs exist. */
  lemma UnchangedPortsKeepInv(s: Setup, s': Setup)
    requires Inv(s)
    requires s'.net == s.net && s'.cfg == s.cfg.(vlans := s'.cfg.vlans) && s'.cfg.vlans.Keys == s.cfg.vlans.Keys
    ensures Inv(s')
  {
    forall i: Pidx ensures SlotOk(s'.cfg, i) && NetOk(s'.cfg, s'.net, i) {
      assert SlotOk(s.cfg, i) && NetOk(s.cfg, s.net, i);
    }
    SameSlotsKeepEnslaved(s, s');
  }

  lemma SameSlotsKeepEnslaved(s: Setup, s': Setup)
    requires |s.cfg.ports| == |s'.cfg.ports| == MAX_PORTS && s'.cfg.busy == s.cfg.busy
    requires forall i: Pidx :: s'.cfg.ports[i].dev == s.cfg.ports[i].dev
    ensures forall d :: Enslaved(s.cfg, d) <==> Enslaved(s'.cfg, d)
  {
    assert forall i: Pidx, d :: Occupies(s.cfg, i, d) <==> Occupies(s'.cfg, i, d);
  }

  lemma DelPortKeepsInv(s: Setup, dev: DevId)
    requires Inv(s) && Admissible(s, CmdPortDel(dev))
    ensures Inv(DelPort(s, dev))
  {
    var s' := DelPort(s, dev);
    var n: Pidx :| n != HOST && Occupies(s.cfg, n, dev);
    assert NetOk(s.cfg, s.net, n);
    forall i: Pidx ensures SlotOk(s'.cfg, i) && NetOk(s'.cfg, s'.net, i) {
      assert SlotOk(s.cfg, i) && NetOk(s.cfg, s.net, i);
    }
    forall d | d in s'.net && s'.net[d].master == Some(s'.cfg.bridge) ensures Enslaved(s'.cfg, d) {
      var i: Pidx :| i != HOST && Occupies(s.cfg, i, d);
      assert Occupies(s'.cfg, i, d);
    }
  }

  /** Ports change only in their cached VLAN, PVID and filtering, and stay coherent. */
  lemma CoherentPortsKeepInv(s: Setup, s': Setup)
    requires Inv(s) && Basic(s'.cfg)
    requires s'.net == s.net && s'.cfg == s.cfg.(ports := s'.cfg.ports, vlans := s'.cfg.vlans)
    requires forall i: Pidx :: SlotOk(s'.cfg, i) && s'.cfg.ports[i].dev == s.cfg.ports[i].dev
    ensures Inv(s')
  {
    forall i: Pidx ensures NetOk(s'.cfg, s'.net, i) {
      assert SlotOk(s.cfg, i) && NetOk(s.cfg, s.net, i);
    }
    SameSlotsKeepEnslaved(s, s');
    assert Occupies(s.cfg, HOST, s.cfg.bridge);
  }

  lemma SetPortKeepsInv(s: Setup, dev: DevId, pvid: Vid)
    requires Inv(s)
    ensures Inv(s.(cfg := SetPort(s.cfg, dev, pvid).0))
  {
    var s' := s.(cfg := SetPort(s.cfg, dev, pvid).0);
    forall i: Pidx ensures SlotOk(s'.cfg, i) && s'.cfg.ports[i].dev == s.cfg.ports[i].dev {
      assert SlotOk(s.cfg, i);
    }
    CoherentPortsKeepInv(s, s');
  }

  lemma AddVlanKeepsInv(s: Setup, vid: Vid, alloc: bool)
    requires Inv(s)
    ensures Inv(s.(cfg := AddVlan(s.cfg, vid, alloc).0))
  {
    var s' := s.(cfg := AddVlan(s.cfg, vid, alloc).0);
    forall i: Pidx ensures SlotOk(s'.cfg, i) && s'.cfg.ports[i].dev == s.cfg.ports[i].dev {
      assert SlotOk(s.cfg, i);
    }
    CoherentPortsKeepInv(s, s');
  }

  lemma DelVlanKeepsInv(s: Setup, vid: Vid)
    requires Inv(s) && vid != 0
    ensures Inv(s.(cfg := DelVlan(s.cfg, vid).0))
  {
    var s' := s.(cfg := DelVlan(s.cfg, vid).0);
    forall i: Pidx ensures SlotOk(s'.cfg, i) && s'.cfg.ports[i].dev == s.cfg.ports[i].dev {
      assert SlotOk(s.cfg, i);
    }
    CoherentPortsKeepInv(s, s');
  }

  lemma OthersKeepInv(s: Setup, cmd: Cmd)
    requires Inv(s) && cmd.Others? && Admissible(s, cmd)
    ensures Inv(Execute(s, cmd))
  {
    var s' := Execute(s, cmd);
    forall i: Pidx ensures NetOk(s'.cfg, s'.net, i) {
      assert NetOk(s.cfg, s.net, i);
    }
    assert forall d :: d in s'.net ==> s'.net[d].master == s.net[d].master;
  }

  /** Coherent PVID caches, self-describing slots, unique devices and consistent device links
      survive every command. */
  lemma ExecuteKeepsInv(s: Setup, cmd: Cmd)
    requires Inv(s) && Admissible(s, cmd)
    ensures Inv(Execute(s, cmd))
  {
    match cmd
    case CmdPortAdd(dev, f) => AddPortKeepsInv(s, dev, f);
    case CmdPortDel(dev) => DelPortKeepsInv(s, dev);
    case CmdPortSet(dev, pvid) => SetPortKeepsInv(s, dev, pvid);
    case CmdVlanAdd(vid, alloc) => AddVlanKeepsInv(s, vid, alloc);
    case CmdVlanDel(vid) => DelVlanKeepsInv(s, vid);
    case CmdAttach(_, _, _) => UnchangedPortsKeepInv(s, Execute(s, cmd));
    case CmdDetach(_, _) => UnchangedPortsKeepInv(s, Execute(s, cmd));
    case Others(_, _, _) => OthersKeepInv(s, cmd);
  }

  // ---------- slots ----------

  /** Finding a port inverts its allocation. */
  lemma PortFindInverts(s: Setup, i: Pidx, dev: DevId)
    requires Inv(s)
    ensures PortFind(s.cfg, dev) == Some(i) <==> Occupies(s.cfg, i, dev)
  {
  }

  /** A successful addition takes the lowest free slot, and the port is found there. */
  lemma AddedPortIsFound(s: Setup, dev: DevId, f: Faults)
    requires Inv(s) && dev in s.net && AddPort(s, dev, f).1.Success?
    ensures var (s', _) := AddPort(s, dev, f);
            && FirstZero(s.cfg.busy) < MAX_PORTS
            && PortFind(s'.cfg, dev) == Some(FirstZero(s.cfg.busy))
            && PortFind(s.cfg, dev) == None
            && Enslaved(s'.cfg, dev)
  {
    AddPortKeepsInv(s, dev, f);
    var (s', _) := AddPort(s, dev, f);
    var n := FirstZero(s.cfg.busy);
    assert Occupies(s.cfg, HOST, s.cfg.bridge);
    assert Occupies(s'.cfg, n, dev);
    PortFindInverts(s', n, dev);
    forall i: Pidx ensures !Occupies(s.cfg, i, dev) {
      assert SlotOk(s.cfg, i) && NetOk(s.cfg, s.net, i);
    }
  }

  /** A deleted port is no longer found, and its slot is as it was before any use. */
  lemma DeletedPortIsGone(s: Setup, dev: DevId)
    requires Inv(s) && Admissible(s, CmdPortDel(dev))
    ensures var s' := DelPort(s, dev);
            && PortFind(s.cfg, dev).Some?
            && PortFind(s'.cfg, dev) == None
            && s'.cfg.ports[PortFind(s.cfg, dev).value] == ZERO_PORT
            && s'.cfg.busy == s.cfg.busy - {PortFind(s.cfg, dev).value}
  {
    var n: Pidx :| n != HOST && Occupies(s.cfg, n, dev);
    assert NetOk(s.cfg, s.net, n);
    PortFindInverts(s, n, dev);
    var s' := DelPort(s, dev);
    forall i: Pidx ensures !Occupies(s'.cfg, i, dev) {
    }
  }

  // ---------- acquisition ----------

  /** Exactly a bridgeable device is taken, while there is a slot and the kernel plays along; a device that
      any bridge has is refused and nothing changes. Once added it is refused until it is deleted. */
  lemma AddedOnlyOnce(s: Setup, dev: DevId, f: Faults)
    requires Inv(s) && dev in s.net
    ensures AddPort(s, dev, f).1.Success?
        <==> Bridgeable(s.net[dev]) && FirstZero(s.cfg.busy) < MAX_PORTS && !KernelRefuses(s.cfg.bridge, s.net, dev, f)
    ensures s.net[dev].master.Some? ==>
              AddPort(s, dev, f).0 == s && AddPort(s, dev, f).1 in {Failure(EINVAL), Failure(EBUSY)}
    ensures Enslaved(s.cfg, dev) ==> s.net[dev].master.Some?
    ensures AddPort(s, dev, f).1.Success? ==>
              var s' := AddPort(s, dev, f).0;
              && (forall g :: AddPort(s', dev, g) == (s', Failure(EBUSY)))
              && Admissible(s', CmdPortDel(dev))
              && Bridgeable(DelPort(s', dev).net[dev])
  {
    if Enslaved(s.cfg, dev) {
      var i: Pidx :| i != HOST && Occupies(s.cfg, i, dev);
      assert NetOk(s.cfg, s.net, i);
    }
    if AddPort(s, dev, f).1.Success? {
      DelUndoesAdd(s, dev, f);
    }
  }

  /** A failed addition leaves nothing behind but, once a slot was taken, that slot's VLAN 0 member bit. */
  lemma FailedAddLeavesNothing(s: Setup, dev: DevId, f: Faults)
    requires Inv(s) && dev in s.net && AddPort(s, dev, f).1.Failure?
    ensures var (s', status) := AddPort(s, dev, f);
            && s'.net == s.net && s'.cfg.busy == s.cfg.busy && s'.cfg.ports == s.cfg.ports
            && (status.errno != KERNEL ==> s' == s)
            && (status.errno == KERNEL ==>
                 FirstZero(s.cfg.busy) < MAX_PORTS
                 && s'.cfg.vlans == s.cfg.vlans[0 := Attached(s.cfg.vlans[0], FirstZero(s.cfg.busy), false)])
  {
    var n := FirstZero(s.cfg.busy);
    if n < MAX_PORTS {
      assert SlotOk(s.cfg, n);
    }
  }

  /** Deleting a port that was just added restores everything but that member bit. */
  lemma DelUndoesAdd(s: Setup, dev: DevId, f: Faults)
    requires Inv(s) && dev in s.net && AddPort(s, dev, f).1.Success?
    ensures var (s1, _) := AddPort(s, dev, f);
            && Admissible(s1, CmdPortDel(dev))
            && DelPort(s1, dev).net == s.net
            && DelPort(s1, dev).cfg == s.cfg.(vlans := s1.cfg.vlans)
  {
    AddedPortIsFound(s, dev, f);
    var (s1, _) := AddPort(s, dev, f);
    var n := FirstZero(s.cfg.busy);
    assert SlotOk(s.cfg, n);
    assert DelPort(s1, dev).cfg.ports == s.cfg.ports;
    assert DelPort(s1, dev).cfg.busy == s.cfg.busy;
  }

  /** What the bridge adds to a device's promiscuity and allmulti counts. */
  ghost function Contribution(cfg: Cfg, dev: DevId): int
    requires |cfg.ports| == MAX_PORTS
  {
    if Enslaved(cfg, dev) then 1 else 0
  }

  /** The counts as the rest of the system alone would have them. */
  ghost predicate CountsAre(s: Setup, dev: DevId, promisc: int, allmulti: int)
    requires Basic(s.cfg) && dev in s.net
  {
    && s.net[dev].promisc == promisc + Contribution(s.cfg, dev)
    && s.net[dev].allmulti == allmulti + Contribution(s.cfg, dev)
  }

  function OthersDelta(cmd: Cmd, dev: DevId): (int, int) {
    if cmd.Others? && cmd.dev == dev then (cmd.promisc, cmd.allmulti) else (0, 0)
  }

  lemma EnslavedElsewhere(s: Setup, s': Setup, dev: DevId)
    requires |s.cfg.ports| == |s'.cfg.ports| == MAX_PORTS
    requires forall i: Pidx :: i != HOST ==> (Occupies(s.cfg, i, dev) <==> Occupies(s'.cfg, i, dev))
    ensures Enslaved(s.cfg, dev) <==> Enslaved(s'.cfg, dev)
  {
    if i: Pidx :| i != HOST && Occupies(s.cfg, i, dev) {
      assert Occupies(s'.cfg, i, dev);
    }
    if i: Pidx :| i != HOST && Occupies(s'.cfg, i, dev) {
      assert Occupies(s.cfg, i, dev);
    }
  }

  /** Only adding or deleting a port changes whether its device is enslaved. */
  lemma OthersStayEnslaved(s: Setup, cmd: Cmd, dev: DevId)
    requires Inv(s) && Admissible(s, cmd) && dev in s.net
    requires !(cmd.CmdPortAdd? && cmd.dev == dev && AddPort(s, dev, cmd.faults).1.Success?)
    requires !(cmd.CmdPortDel? && cmd.dev == dev)
    ensures Enslaved(s.cfg, dev) <==> Enslaved(Execute(s, cmd).cfg, dev)
  {
    var s' := Execute(s, cmd);
    if cmd.CmdPortAdd? {
      if AddPort(s, cmd.dev, cmd.faults).1.Failure? {
        FailedAddLeavesNothing(s, cmd.dev, cmd.faults);
      }
    } else if cmd.CmdPortDel? {
      DeletedPortIsGone(s, cmd.dev);
      assert forall i: Pidx :: i in s.cfg.busy && s.cfg.ports[i].dev == Some(dev) ==> i != s.net[cmd.dev].rx.pidx;
    }
    forall i: Pidx | i != HOST ensures Occupies(s.cfg, i, dev) <==> Occupies(s'.cfg, i, dev) {
    }
    EnslavedElsewhere(s, s', dev);
  }

  /** What a device would be without the bridge. */
  ghost function WithoutBridge(s: Setup, dev: DevId): NetDev
    requires Basic(s.cfg) && dev in s.net
  {
    if Enslaved(s.cfg, dev) then Released(s.net[dev]) else s.net[dev]
  }

  lemma AddKeepsDevice(s: Setup, dev: DevId, f: Faults)
    requires Inv(s) && dev in s.net && AddPort(s, dev, f).1.Success?
    ensures WithoutBridge(AddPort(s, dev, f).0, dev) == WithoutBridge(s, dev)
  {
    AddedPortIsFound(s, dev, f);
  }

  lemma DelKeepsDevice(s: Setup, dev: DevId)
    requires Inv(s) && Admissible(s, CmdPortDel(dev))
    ensures WithoutBridge(DelPort(s, dev), dev) == WithoutBridge(s, dev)
  {
    DeletedPortIsGone(s, dev);
  }

  lemma OthersKeepDevice(s: Setup, cmd: Cmd, dev: DevId)
    requires Inv(s) && Admissible(s, cmd) && dev in s.net
    requires !(cmd.CmdPortAdd? && cmd.dev == dev && AddPort(s, dev, cmd.faults).1.Success?)
    requires !(cmd.CmdPortDel? && cmd.dev == dev)
    ensures dev in Execute(s, cmd).net
    ensures Execute(s, cmd).net[dev] == Used(s.net[dev], OthersDelta(cmd, dev).0, OthersDelta(cmd, dev).1)
  {
  }

  /** Without the bridge, every command would leave a device as the rest of the system makes it. */
  lemma ExecuteKeepsDevices(s: Setup, cmd: Cmd, dev: DevId)
    requires Inv(s) && Admissible(s, cmd) && dev in s.net
    ensures dev in Execute(s, cmd).net && Basic(Execute(s, cmd).cfg)
    ensures WithoutBridge(Execute(s, cmd), dev)
         == Used(WithoutBridge(s, dev), OthersDelta(cmd, dev).0, OthersDelta(cmd, dev).1)
  {
    if cmd.CmdPortAdd? && cmd.dev == dev && AddPort(s, dev, cmd.faults).1.Success? {
      AddKeepsDevice(s, dev, cmd.faults);
    } else if cmd.CmdPortDel? && cmd.dev == dev {
      DelKeepsDevice(s, dev);
    } else {
      OthersStayEnslaved(s, cmd, dev);
      OthersKeepDevice(s, cmd, dev);
    }
  }

  // ---------- teardown ----------

  /** Deleting the next busy port takes teardown one slot further. */
  lemma TearOne(s: Setup, n: Pidx, dev: DevId)
    requires Inv(s) && n != HOST && Occupies(s.cfg, n, dev)
    ensures dev in TornBelow(s, n).net && TornBelow(s, n).net[dev].rx == BridgeRx(s.cfg.bridge, n)
    ensures DelPort(TornBelow(s, n), dev) == TornBelow(s, n + 1)
    ensures Enslaved(TornBelow(s, n).cfg, dev)
  {
    assert NetOk(s.cfg, s.net, n);
    var t, t' := DelPort(TornBelow(s, n), dev), TornBelow(s, n + 1);
    assert !EnslavedBelow(s.cfg, dev, n);
    assert Occupies(TornBelow(s, n).cfg, n, dev);
    forall d | d in s.net ensures t.net[d] == t'.net[d] {
      if d != dev && EnslavedBelow(s.cfg, d, n + 1) {
        var i: Pidx :| 0 < i < n + 1 && Occupies(s.cfg, i, d);
        assert EnslavedBelow(s.cfg, d, n);
      }
      if EnslavedBelow(s.cfg, d, n) {
        var i: Pidx :| 0 < i < n && Occupies(s.cfg, i, d);
        assert 0 < i < n + 1;
      }
    }
    assert t.cfg.busy == t'.cfg.busy;
    assert t.cfg.ports == t'.cfg.ports;
  }

  /** Idle slots have nothing to tear down. */
  lemma TearGap(s: Setup, n: nat, m: nat)
    requires Inv(s) && n <= m <= MAX_PORTS
    requires forall i: Pidx :: i in s.cfg.busy && n <= i && 0 < i ==> m <= i
    ensures TornBelow(s, n) == TornBelow(s, m)
  {
    var t, t' := TornBelow(s, n), TornBelow(s, m);
    forall d | d in s.net ensures EnslavedBelow(s.cfg, d, n) <==> EnslavedBelow(s.cfg, d, m) {
      if i: Pidx :| 0 < i < m && Occupies(s.cfg, i, d) {
        assert i < n;
      }
      if i: Pidx :| 0 < i < n && Occupies(s.cfg, i, d) {
        assert i < m;
      }
    }
    forall i: Pidx ensures t.cfg.ports[i] == t'.cfg.ports[i] {
      assert SlotOk(s.cfg, i);
    }
    assert t.cfg.ports == t'.cfg.ports;
  }

  /** After teardown only the host slot is busy, no device is enslaved, and each device that was is
      back to what it was before it was enslaved. */
  lemma TornDown(s: Setup)
    requires Inv(s)
    ensures var t := TornBelow(s, MAX_PORTS);
            && t.cfg.busy == {HOST} && t.cfg.ports[HOST] == s.cfg.ports[HOST] && t.cfg.vlans == s.cfg.vlans
            && t.net.Keys == s.net.Keys
            && (forall d :: d in s.net ==> !Enslaved(t.cfg, d))
            && (forall d :: d in s.net ==> t.net[d] == WithoutBridge(s, d))
  {
    var t := TornBelow(s, MAX_PORTS);
    assert Occupies(s.cfg, HOST, s.cfg.bridge);
    forall d | d in s.net ensures Enslaved(s.cfg, d) <==> EnslavedBelow(s.cfg, d, MAX_PORTS) {
      if i: Pidx :| i != HOST && Occupies(s.cfg, i, d) {
        assert 0 < i < MAX_PORTS;
      }
      if i: Pidx :| 0 < i < MAX_PORTS && Occupies(s.cfg, i, d) {
        assert i != HOST;
      }
    }
  }

  // ---------- where the code falls short of its intent ----------

  ghost predicate CachesCoherent(cfg: Cfg)
    requires Basic(cfg)
  {
    forall i: Pidx :: i in cfg.busy ==> cfg.ports[i].cached == VlanFind(cfg, cfg.ports[i].pvid)
  }

  /** Deleting a VLAN as written never does what deletion is for: the VLAN is still found, its VID cannot
      be added again, and it can be deleted again. */
  lemma DeletionAsWritten(s: Setup, vid: Vid)
    requires Inv(s) && vid in s.cfg.vlans && vid != 0
    ensures var written, intended := DelVlanAsWritten(s.cfg, vid), DelVlan(s.cfg, vid).0;
            && Basic(written) && Basic(intended)
            && VlanFind(written, vid) == Some(vid) && VlanFind(intended, vid) == None
            && AddVlan(written, vid, true).1 == Failure(EBUSY) && AddVlan(intended, vid, true).1 == Success
            && DelVlan(written, vid).1 == Success && DelVlan(intended, vid).1 == Failure(ENOENT)
            && written.ports == intended.ports && written.vlans - {vid} == intended.vlans
  {
    DelVlanKeepsInv(s, vid);
  }

  /** As the lookup still finds the VLAN, the caches cleared by the deletion are coherent only if there
      were none. */
  lemma CachesAfterDeletionAsWritten(s: Setup, vid: Vid)
    requires Inv(s) && vid in s.cfg.vlans
    ensures CachesCoherent(DelVlanAsWritten(s.cfg, vid))
        <==> forall i: Pidx :: i in s.cfg.busy ==> s.cfg.ports[i].pvid != vid
  {
    var cfg' := DelVlanAsWritten(s.cfg, vid);
    forall i: Pidx | i in s.cfg.busy
      ensures cfg'.ports[i].cached == VlanFind(cfg', cfg'.ports[i].pvid) <==> s.cfg.ports[i].pvid != vid
    {
      assert SlotOk(s.cfg, i);
    }
  }

  /** The bridge with one VLAN, which is the PVID of the host's port. */
  function HostInVlan(bridge: DevId, vid: Vid): Cfg {
    SetPort(AddVlan(NewCfg(bridge), vid, true).0, bridge, vid).0
  }

  /** A new bridge, one VLAN and one PVID suffice to see the incoherence. */
  lemma IncoherenceIsReached(bridge: DevId, net: Net, vid: Vid)
    requires vid != 0 && Unrelated(bridge, net)
    ensures var s := Setup(HostInVlan(bridge, vid), net);
            Inv(s) && vid in s.cfg.vlans && !CachesCoherent(DelVlanAsWritten(s.cfg, vid))
  {
    NewCfgInv(bridge, net);
    var s0 := Setup(NewCfg(bridge), net);
    AddVlanKeepsInv(s0, vid, true);
    var s1 := s0.(cfg := AddVlan(s0.cfg, vid, true).0);
    SetPortKeepsInv(s1, bridge, vid);
    var s := Setup(HostInVlan(bridge, vid), net);
    assert Occupies(s1.cfg, HOST, bridge);
    PortFindInverts(s1, HOST, bridge);
    assert HOST in s.cfg.busy && s.cfg.ports[HOST].pvid == vid;
    CachesAfterDeletionAsWritten(s, vid);
  }

  /** The pipeline relies on it: classification does not test for a VLAN on ports that do not filter. */
  ghost predicate OpenPortsHaveVlan(cfg: Cfg)
    requires Basic(cfg)
  {
    forall i: Pidx :: i in cfg.busy && !cfg.ports[i].filtering ==> cfg.ports[i].cached.Some?
  }

  /** Nothing in the kernel keeps VLAN 0 from being deleted, and that leaves ports without a VLAN exactly if
      there is one that has not been given a PVID. No other deletion does. */
  lemma OpenPortsAfterDeletionAsWritten(s: Setup, vid: Vid)
    requires Inv(s) && vid in s.cfg.vlans
    ensures OpenPortsHaveVlan(s.cfg)
    ensures OpenPortsHaveVlan(DelVlanAsWritten(s.cfg, vid))
        <==> vid != 0 || forall i: Pidx :: i in s.cfg.busy ==> s.cfg.ports[i].pvid != 0
  {
    var cfg' := DelVlanAsWritten(s.cfg, vid);
    forall i: Pidx | i in s.cfg.busy && !s.cfg.ports[i].filtering
      ensures s.cfg.ports[i].cached == Some(0)
    {
      assert SlotOk(s.cfg, i);
    }
    forall i: Pidx | i in s.cfg.busy
      ensures cfg'.ports[i].filtering == s.cfg.ports[i].filtering
      ensures s.cfg.ports[i].filtering <==> s.cfg.ports[i].pvid != 0
      ensures cfg'.ports[i].cached == if s.cfg.ports[i].pvid == vid then None else s.cfg.ports[i].cached
    {
      assert SlotOk(s.cfg, i);
    }
  }

  /** A new bridge is enough to see that: the host's port has no PVID. */
  lemma OpenHostIsReached(bridge: DevId)
    ensures OpenPortsHaveVlan(NewCfg(bridge)) && !OpenPortsHaveVlan(DelVlanAsWritten(NewCfg(bridge), 0))
  {
    var cfg := DelVlanAsWritten(NewCfg(bridge), 0);
    assert HOST in cfg.busy && !cfg.ports[HOST].filtering && cfg.ports[HOST].cached == None;
  }

  /** No VLAN has a member that is not a port. */
  ghost predicate MembersArePorts(cfg: Cfg) {
    forall v :: v in cfg.vlans ==> cfg.vlans[v].members <= cfg.busy
  }

  /** Deleting a port leaves its member bits behind: all members are ports afterwards exactly when
      the port had been detached from every VLAN. */
  lemma DeletionLeavesMembers(s: Setup, dev: DevId)
    requires Inv(s) && Admissible(s, CmdPortDel(dev)) && MembersArePorts(s.cfg)
    ensures PortFind(s.cfg, dev).Some?
    ensures MembersArePorts(DelPort(s, dev).cfg)
        <==> forall v :: v in s.cfg.vlans ==> PortFind(s.cfg, dev).value !in s.cfg.vlans[v].members
  {
    DeletedPortIsGone(s, dev);
  }

  /** An addition keeps all members ports exactly unless the kernel refuses it after a slot was taken. */
  lemma RefusedAddLeavesMember(s: Setup, dev: DevId, f: Faults)
    requires Inv(s) && dev in s.net && MembersArePorts(s.cfg)
    ensures MembersArePorts(AddPort(s, dev, f).0.cfg)
        <==> AddRefusal(s.net, dev).Some? || FirstZero(s.cfg.busy) == MAX_PORTS
             || !KernelRefuses(s.cfg.bridge, s.net, dev, f)
  {
    var (s', _) := AddPort(s, dev, f);
    var n := FirstZero(s.cfg.busy);
    if AddRefusal(s.net, dev).None? && n < MAX_PORTS && KernelRefuses(s.cfg.bridge, s.net, dev, f) {
      assert n in s'.cfg.vlans[0].members && n !in s'.cfg.busy;
    }
  }

  /** A new bridge, its members all ports, is enough to see both: one refused addition, or one addition
      and deletion. */
  lemma StaleMembersAreReached(bridge: DevId, net: Net, dev: DevId, ok: Faults, refused: Faults)
    requires Unrelated(bridge, net) && dev in net && Bridgeable(net[dev])
    requires !KernelRefuses(bridge, net, dev, ok) && KernelRefuses(bridge, net, dev, refused)
    ensures var s := Setup(NewCfg(bridge), net);
            && MembersArePorts(s.cfg)
            && !MembersArePorts(AddPort(s, dev, refused).0.cfg)
            && AddPort(s, dev, ok).1.Success?
            && Admissible(AddPort(s, dev, ok).0, CmdPortDel(dev))
            && !MembersArePorts(DelPort(AddPort(s, dev, ok).0, dev).cfg)
  {
    var s := Setup(NewCfg(bridge), net);
    NewCfgInv(bridge, net);
    var n := FirstZero(s.cfg.busy);
    assert n < MAX_PORTS by {
      assert (1 as Pidx) !in s.cfg.busy;
    }
    RefusedAddLeavesMember(s, dev, refused);
    DelUndoesAdd(s, dev, ok);
    var s1 := AddPort(s, dev, ok).0;
    assert n in DelPort(s1, dev).cfg.vlans[0].members;
  }
}
