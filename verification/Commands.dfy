/** What each configuration command does to every slot, VLAN and bit, and what it answers. */
module Commands {
  import opened Option
  import opened Ports
  import opened Frames
  import opened Config
  import opened ConfigProofs

  predicate IsMember(cfg: Cfg, v: Vid, i: Pidx) {
    v in cfg.vlans && i in cfg.vlans[v].members
  }

  predicate IsTagged(cfg: Cfg, v: Vid, i: Pidx) {
    v in cfg.vlans && i in cfg.vlans[v].tagged
  }

  /** No VLAN comes or goes, and none changes in anything but its members and tagged ports. */
  ghost predicate SameVlans(cfg: Cfg, cfg': Cfg) {
    && cfg'.vlans.Keys == cfg.vlans.Keys
    && forall v :: v in cfg.vlans ==>
         cfg'.vlans[v].saLearning == cfg.vlans[v].saLearning && cfg'.vlans[v].flood == cfg.vlans[v].flood
  }

  /** Memberships are the same but for one bit. */
  ghost predicate SameBitsBut(cfg: Cfg, cfg': Cfg, vid: Vid, i: Pidx) {
    forall v: Vid, j: Pidx :: v != vid || j != i ==>
      (IsMember(cfg', v, j) <==> IsMember(cfg, v, j)) && (IsTagged(cfg', v, j) <==> IsTagged(cfg, v, j))
  }

  ghost predicate SameSlotsBut(cfg: Cfg, cfg': Cfg, i: Pidx)
    requires |cfg.ports| == |cfg'.ports| == MAX_PORTS
  {
    && cfg'.bridge == cfg.bridge
    && forall j: Pidx :: j != i ==> cfg'.ports[j] == cfg.ports[j] && (j in cfg'.busy <==> j in cfg.busy)
  }

  /** The answer to an addition: the first of these reasons to refuse that applies. */
  lemma AddPortAnswers(s: Setup, dev: DevId, f: Faults)
    requires Basic(s.cfg) && dev in s.net
    ensures var d, status := s.net[dev], AddPort(s, dev, f).1;
            var taken := f.link || dev == s.cfg.bridge || f.promisc || f.allmulti || f.rx || d.rx != NoRx;
            var full := forall i: Pidx :: i in s.cfg.busy;
            && (d.loopback || !d.ethernet ==> status == Failure(EINVAL))
            && (!d.loopback && d.ethernet ==>
                 && (d.dsa || d.master.Some? ==> status == Failure(EBUSY))
                 && (!d.dsa && d.master.None? ==>
                      && (d.dontBridge ==> status == Failure(EOPNOTSUPP))
                      && (!d.dontBridge && full ==> status == Failure(EBUSY))
                      && (!d.dontBridge && !full ==> status == if taken then Failure(KERNEL) else Success)))
  {
  }

  /** A successful addition makes the lowest free slot the device's: learning, without PVID and not
      filtering, in VLAN 0 untagged as far as the bit was not set before. All else is as it was. */
  lemma AddPortExactly(s: Setup, dev: DevId, f: Faults)
    requires Inv(s) && dev in s.net && AddPort(s, dev, f).1.Success?
    ensures FirstZero(s.cfg.busy) < MAX_PORTS
    ensures var n: Pidx, cfg' := FirstZero(s.cfg.busy), AddPort(s, dev, f).0.cfg;
            && Basic(cfg') && n in cfg'.busy
            && cfg'.ports[n] == PortCfg(Some(dev), n, false, true, false, Some(0), Fill() - {n}, 0)
            && IsMember(cfg', 0, n) && (IsTagged(cfg', 0, n) <==> IsTagged(s.cfg, 0, n))
            && SameVlans(s.cfg, cfg') && SameBitsBut(s.cfg, cfg', 0, n) && SameSlotsBut(s.cfg, cfg', n)
  {
    assert SlotOk(s.cfg, FirstZero(s.cfg.busy));
  }

  /** A refused addition at most sets the VLAN 0 member bit of the lowest free slot. */
  lemma RefusedAddExactly(s: Setup, dev: DevId, f: Faults)
    requires Inv(s) && dev in s.net && AddPort(s, dev, f).1.Failure?
    ensures var n, s' := FirstZero(s.cfg.busy), AddPort(s, dev, f).0;
            && s'.net == s.net && s'.cfg == s.cfg.(vlans := s'.cfg.vlans) && SameVlans(s.cfg, s'.cfg)
            && (AddPort(s, dev, f).1.errno != KERNEL ==> s' == s)
            && (AddPort(s, dev, f).1.errno == KERNEL ==>
                 n < MAX_PORTS && SameBitsBut(s.cfg, s'.cfg, 0, n)
                 && IsMember(s'.cfg, 0, n) && (IsTagged(s'.cfg, 0, n) <==> IsTagged(s.cfg, 0, n)))
  {
    FailedAddLeavesNothing(s, dev, f);
  }

  /** A deletion frees the device's slot and leaves every VLAN, with the slot's own bits, as it was. */
  lemma DelPortExactly(s: Setup, dev: DevId)
    requires Inv(s) && Admissible(s, CmdPortDel(dev))
    ensures PortFind(s.cfg, dev).Some?
    ensures var i, cfg' := PortFind(s.cfg, dev).value, DelPort(s, dev).cfg;
            && i !in cfg'.busy && cfg'.ports[i] == PortCfg(None, 0, false, false, false, None, {}, 0)
            && cfg'.vlans == s.cfg.vlans && SameSlotsBut(s.cfg, cfg', i)
  {
    DeletedPortIsGone(s, dev);
  }

  /** Setting a PVID changes nothing for a device that is no port, and otherwise just that slot's PVID,
      cached VLAN and filtering. */
  lemma SetPortExactly(cfg: Cfg, dev: DevId, pvid: Vid)
    requires Basic(cfg)
    ensures (forall i: Pidx :: !Occupies(cfg, i, dev)) ==> SetPort(cfg, dev, pvid) == (cfg, Failure(EINVAL))
    ensures PortFind(cfg, dev).Some? ==>
              var i, (cfg', status) := PortFind(cfg, dev).value, SetPort(cfg, dev, pvid);
              && status == Success && |cfg'.ports| == MAX_PORTS
              && cfg'.vlans == cfg.vlans && cfg'.busy == cfg.busy && SameSlotsBut(cfg, cfg', i)
              && cfg'.ports[i] == cfg.ports[i].(pvid := pvid, filtering := pvid != 0,
                                                cached := if pvid in cfg.vlans then Some(pvid) else None)
  {
  }

  /** The caches of the busy slots with the PVID, and nothing else of the slots. */
  ghost predicate OnlyCaches(cfg: Cfg, cfg': Cfg, vid: Vid, cached: Option<Vid>)
    requires |cfg.ports| == |cfg'.ports| == MAX_PORTS
  {
    && cfg'.bridge == cfg.bridge && cfg'.busy == cfg.busy
    && forall i: Pidx :: cfg'.ports[i] == if i in cfg.busy && cfg.ports[i].pvid == vid
                                          then cfg.ports[i].(cached := cached) else cfg.ports[i]
  }

  /** Adding a VLAN fails exactly if it exists or there is no memory; the new one learns, floods to every
      port and has neither members nor tagged ports. */
  lemma AddVlanExactly(cfg: Cfg, vid: Vid, alloc: bool)
    requires Basic(cfg)
    ensures vid in cfg.vlans ==> AddVlan(cfg, vid, alloc) == (cfg, Failure(EBUSY))
    ensures vid !in cfg.vlans && !alloc ==> AddVlan(cfg, vid, alloc) == (cfg, Failure(ENOMEM))
    ensures vid !in cfg.vlans && alloc ==>
              var (cfg', status) := AddVlan(cfg, vid, alloc);
              && status == Success && |cfg'.ports| == MAX_PORTS && OnlyCaches(cfg, cfg', vid, Some(vid))
              && vid in cfg'.vlans && cfg'.vlans - {vid} == cfg.vlans && OpenVlan(cfg'.vlans[vid])
              && cfg'.vlans[vid].members == {} && cfg'.vlans[vid].tagged == {}
  {
  }

  /** The VLAN learns, and floods whatever it does not know to every port. */
  ghost predicate OpenVlan(v: VlanCfg) {
    v.saLearning && forall p: Pidx :: p in v.flood.bc && p in v.flood.mc && p in v.flood.uc
  }

  /** Deleting a VLAN fails exactly if there is none. */
  lemma DelVlanExactly(cfg: Cfg, vid: Vid)
    requires Basic(cfg)
    ensures vid !in cfg.vlans ==> DelVlan(cfg, vid) == (cfg, Failure(ENOENT))
    ensures vid in cfg.vlans ==>
              var (cfg', status) := DelVlan(cfg, vid);
              && status == Success && |cfg'.ports| == MAX_PORTS && OnlyCaches(cfg, cfg', vid, None)
              && cfg'.vlans == cfg.vlans - {vid}
  {
  }

  /** As written, all the VLAN loses is its members. */
  lemma DelVlanAsWrittenExactly(cfg: Cfg, vid: Vid)
    requires Basic(cfg) && vid in cfg.vlans
    ensures var cfg' := DelVlanAsWritten(cfg, vid);
            && |cfg'.ports| == MAX_PORTS && OnlyCaches(cfg, cfg', vid, None)
            && SameVlans(cfg, cfg') && cfg'.vlans - {vid} == cfg.vlans - {vid}
            && forall i: Pidx :: !IsMember(cfg', vid, i) && (IsTagged(cfg', vid, i) <==> IsTagged(cfg, vid, i))
  {
  }

  /** Attaching a device that is no port changes nothing; otherwise just the port's bits in the VLAN change. */
  lemma AttachPortExactly(cfg: Cfg, vid: Vid, dev: DevId, tagged: bool)
    requires Basic(cfg) && (PortFind(cfg, dev).Some? ==> vid in cfg.vlans)
    ensures (forall i: Pidx :: !Occupies(cfg, i, dev)) ==> AttachPort(cfg, vid, dev, tagged) == (cfg, Failure(ENODEV))
    ensures PortFind(cfg, dev).Some? ==>
              var i, (cfg', status) := PortFind(cfg, dev).value, AttachPort(cfg, vid, dev, tagged);
              && status == Success && cfg' == cfg.(vlans := cfg'.vlans)
              && SameVlans(cfg, cfg') && SameBitsBut(cfg, cfg', vid, i)
              && IsMember(cfg', vid, i) && (IsTagged(cfg', vid, i) <==> tagged || IsTagged(cfg, vid, i))
  {
  }

  /** Detaching a device that is no port changes nothing; otherwise just the port's bits in the VLAN go. */
  lemma DetachPortExactly(cfg: Cfg, vid: Vid, dev: DevId)
    requires Basic(cfg) && (PortFind(cfg, dev).Some? ==> vid in cfg.vlans)
    ensures (forall i: Pidx :: !Occupies(cfg, i, dev)) ==> DetachPort(cfg, vid, dev) == cfg
    ensures PortFind(cfg, dev).Some? ==>
              var i, cfg' := PortFind(cfg, dev).value, DetachPort(cfg, vid, dev);
              && cfg' == cfg.(vlans := cfg'.vlans)
              && SameVlans(cfg, cfg') && SameBitsBut(cfg, cfg', vid, i)
              && !IsMember(cfg', vid, i) && !IsTagged(cfg', vid, i)
  {
  }
}
