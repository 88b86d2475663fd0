/** What each configuration command means for the frames that follow. */
module Effects {
  import opened Option
  import opened Ports
  import opened Frames
  import opened FdbSpec
  import opened Config
  import opened ConfigProofs
  import opened Delivery
  import opened Pipeline

  /** After a PVID was set, the port's frames without a VID of their own belong to that VLAN as soon as it
      exists, and those with one to theirs, unless the PVID is 0: then the port does not filter and all its
      frames belong to VLAN 0. No other port notices. */
  lemma PvidSet(s: Setup, dev: DevId, pvid: Vid, f: Frame, j: Pidx)
    requires Inv(s) && SetPort(s.cfg, dev, pvid).1.Success? && j in s.cfg.busy
    ensures PortFind(s.cfg, dev).Some?
    ensures var cfg', i := SetPort(s.cfg, dev, pvid).0, PortFind(s.cfg, dev).value;
            && Basic(cfg')
            && cfg'.ports[i].filtering == (pvid != 0)
            && (OwnVid(f) == 0 ==> VlanIngress(cfg', i, f).vlan == VlanFind(s.cfg, pvid))
            && (OwnVid(f) != 0 && pvid != 0 ==>
                 VlanIngress(cfg', i, f).vlan == VlanFind(s.cfg, OwnVid(f)))
            && (pvid == 0 ==> VlanIngress(cfg', i, f).vlan == Some(0) && VlanIngress(cfg', i, f).allow)
            && (j != i ==> VlanIngress(cfg', j, f) == VlanIngress(s.cfg, j, f))
  {
    SetPortKeepsInv(s, dev, pvid);
    var cfg', i := SetPort(s.cfg, dev, pvid).0, PortFind(s.cfg, dev).value;
    ClassificationIsSound(cfg', i, f);
  }

  /** A new VLAN takes up exactly the frames that request it; on a filtering port they are still
      rejected, for it has no members. */
  lemma VlanAdded(s: Setup, vid: Vid, alloc: bool, f: Frame, j: Pidx)
    requires Inv(s) && AddVlan(s.cfg, vid, alloc).1.Success? && j in s.cfg.busy
    ensures var cfg' := AddVlan(s.cfg, vid, alloc).0;
            && Basic(cfg')
            && RequestedVid(cfg', j, f) == RequestedVid(s.cfg, j, f)
            && (RequestedVid(s.cfg, j, f) == vid ==>
                 VlanIngress(s.cfg, j, f).vlan == None && VlanIngress(cfg', j, f).vlan == Some(vid)
                 && !VlanIngress(cfg', j, f).allow)
            && (RequestedVid(s.cfg, j, f) != vid ==> VlanIngress(cfg', j, f) == VlanIngress(s.cfg, j, f))
  {
    AddVlanKeepsInv(s, vid, alloc);
    ClassificationIsSound(s.cfg, j, f);
    ClassificationIsSound(AddVlan(s.cfg, vid, alloc).0, j, f);
  }

  /** Without the VLAN exactly the frames that request it no longer belong anywhere. */
  lemma VlanDeleted(s: Setup, vid: Vid, f: Frame, j: Pidx)
    requires Inv(s) && vid != 0 && DelVlan(s.cfg, vid).1.Success? && j in s.cfg.busy
    ensures var cfg' := DelVlan(s.cfg, vid).0;
            && Basic(cfg')
            && (RequestedVid(s.cfg, j, f) == vid ==>
                 VlanIngress(cfg', j, f).vlan == None && !VlanIngress(cfg', j, f).allow)
            && (RequestedVid(s.cfg, j, f) != vid ==> VlanIngress(cfg', j, f) == VlanIngress(s.cfg, j, f))
  {
    DelVlanKeepsInv(s, vid);
    ClassificationIsSound(s.cfg, j, f);
    ClassificationIsSound(DelVlan(s.cfg, vid).0, j, f);
  }

  /** What frames notice of a deletion as written: those that carry the VID themselves still belong to the
      VLAN, though none is accepted, and so their sources are still learnt in it. All others fare as intended. */
  lemma VlanDeletedAsWritten(s: Setup, vid: Vid, f: Frame, j: Pidx)
    requires Inv(s) && vid != 0 && vid in s.cfg.vlans && j in s.cfg.busy
    ensures var written, intended := DelVlanAsWritten(s.cfg, vid), DelVlan(s.cfg, vid).0;
            && Basic(written) && Basic(intended)
            && (s.cfg.ports[j].filtering && OwnVid(f) == vid ==>
                 && VlanIngress(written, j, f).vlan == Some(vid) && !VlanIngress(written, j, f).allow
                 && VlanIngress(intended, j, f).vlan == None)
            && (!(s.cfg.ports[j].filtering && OwnVid(f) == vid) ==>
                 VlanIngress(written, j, f) == VlanIngress(intended, j, f))
  {
    assert SlotOk(s.cfg, j);
  }

  /** An attached port may send into the VLAN and be sent to, with a tag if it was attached so;
      its other bits and everybody else's stay. */
  lemma Attachment(s: Setup, vid: Vid, dev: DevId, tagged: bool, f: Frame)
    requires Inv(s) && Admissible(s, CmdAttach(vid, dev, tagged)) && AttachPort(s.cfg, vid, dev, tagged).1.Success?
    ensures PortFind(s.cfg, dev).Some? && vid in s.cfg.vlans
    ensures var cfg', i := AttachPort(s.cfg, vid, dev, tagged).0, PortFind(s.cfg, dev).value;
            && Basic(cfg') && vid in cfg'.vlans
            && (RequestedVid(s.cfg, i, f) == vid ==> VlanIngress(cfg', i, f).allow)
            && i in cfg'.vlans[vid].members
            && (tagged || i in s.cfg.vlans[vid].tagged <==> i in cfg'.vlans[vid].tagged)
            && cfg'.vlans - {vid} == s.cfg.vlans - {vid} && cfg'.ports == s.cfg.ports
            && cfg'.vlans[vid].members - {i} == s.cfg.vlans[vid].members - {i}
            && cfg'.vlans[vid].tagged - {i} == s.cfg.vlans[vid].tagged - {i}
  {
    var cfg', i := AttachPort(s.cfg, vid, dev, tagged).0, PortFind(s.cfg, dev).value;
    ExecuteKeepsInv(s, CmdAttach(vid, dev, tagged));
    ClassificationIsSound(cfg', i, f);
  }

  /** A detached port is sent no frame of the VLAN, and if it filters, none of its own is accepted into it. */
  lemma Detachment(s: Setup, vid: Vid, dev: DevId, c: Clock, t: Table, a: Arrival, now: nat, timeout: nat)
    requires Inv(s) && Admissible(s, CmdDetach(vid, dev)) && PortFind(s.cfg, dev).Some?
    requires a.pidx in s.cfg.busy
    requires Basic(DetachPort(s.cfg, vid, dev)) && Resolved(DetachPort(s.cfg, vid, dev), a)
    requires VidOf(DetachPort(s.cfg, vid, dev), a) == vid
    ensures var cfg', i := DetachPort(s.cfg, vid, dev), PortFind(s.cfg, dev).value;
            && (forall x :: x in Forwarded(c, cfg', t, a, now, timeout).sent ==> x.port != i)
            && (a.pidx == i && cfg'.ports[i].filtering ==> Forwarded(c, cfg', t, a, now, timeout).sent == [])
  {
    ExecuteKeepsInv(s, CmdDetach(vid, dev));
    Isolation(c, DetachPort(s.cfg, vid, dev), t, a, now, timeout);
  }

  // ---------- what learning means for later frames ----------

  /** What learning a station leaves of a later frame's vector: a known station's port or, if it was new and
      there was no memory, the VLAN's flood vector. */
  lemma LearntVec(cfg: Cfg, t: Table, a: Arrival, b: Arrival, now: nat, later: nat, timeout: nat)
    requires CfgInv(cfg) && Shape(t) && a.pidx in cfg.busy && b.pidx in cfg.busy
    requires Resolved(cfg, a) && Learns(cfg, a) && IsValidEther(a.frame.src)
    requires Resolved(cfg, b) && VidOf(cfg, b) == VidOf(cfg, a) && VlanIngress(cfg, b.pidx, b.frame).allow
    requires b.frame.dst == a.frame.src && b.frame.src != a.frame.src && now <= later <= now + timeout
    ensures var vlan, t' := cfg.vlans[VidOf(cfg, a)], TableAfter(Unbounded, cfg, t, a, now);
            var learnt := a.alloc || MacAddr(VidOf(cfg, a), a.frame.src) in t;
            EgressVec(Unbounded, cfg, TableAfter(Unbounded, cfg, t', b, later), b, later, timeout)
            == ((if learnt then {a.pidx} else vlan.flood.uc) * vlan.members) - {b.pidx}
  {
    assert SlotOk(cfg, a.pidx) && SlotOk(cfg, b.pidx);
    var vid, key := VidOf(cfg, a), MacAddr(VidOf(cfg, a), a.frame.src);
    LearnedEntry(Unbounded, t, vid, a.frame.src, a.pidx, now, a.alloc);
    var t' := TableAfter(Unbounded, cfg, t, a, now);
    var t'' := TableAfter(Unbounded, cfg, t', b, later);
    if a.alloc || key in t {
      assert key in t'' && t''[key] == Entry({a.pidx}, Dynamic, now);
    } else {
      assert key !in t'';
    }
  }

  /** Once a station was heard in a VLAN on port p, a frame to it, accepted into that VLAN within the
      timeout, is sent to p alone, and that exactly if p is a member and not where the frame came in. As
      rejected frames are learnt too, a station heard on a port that is no member is sent nothing. Only if
      the station was new and there was no memory is the frame flooded. */
  lemma LearntStation(cfg: Cfg, t: Table, a: Arrival, b: Arrival, now: nat, later: nat, timeout: nat)
    requires CfgInv(cfg) && Shape(t) && a.pidx in cfg.busy && b.pidx in cfg.busy
    requires Resolved(cfg, a) && Learns(cfg, a) && IsValidEther(a.frame.src)
    requires Resolved(cfg, b) && VidOf(cfg, b) == VidOf(cfg, a) && VlanIngress(cfg, b.pidx, b.frame).allow
    requires b.frame.dst == a.frame.src && b.frame.src != a.frame.src && now <= later <= now + timeout
    ensures var vlan, t' := cfg.vlans[VidOf(cfg, a)], TableAfter(Unbounded, cfg, t, a, now);
            var out := Forwarded(Unbounded, cfg, t', b, later, timeout);
            var ports := Delivered((vlan.flood.uc * vlan.members) - {b.pidx}, b.lost).ports;
            if !a.alloc && MacAddr(VidOf(cfg, a), a.frame.src) !in t
            then out.sent
                 == SentTo(ports, cfg.ports[b.pidx].filtering, vlan.tagged, VlanIngress(cfg, b.pidx, b.frame).frame)
            else if a.pidx in vlan.members && a.pidx != b.pidx
            then |out.sent| == 1 && out.sent[0].port == a.pidx
            else out.sent == []
  {
    LearntVec(cfg, t, a, b, now, later, timeout);
    assert SlotOk(cfg, b.pidx);
    var vlan := cfg.vlans[VidOf(cfg, a)];
    var vec := ({a.pidx} * vlan.members) - {b.pidx};
    if a.pidx in vlan.members && a.pidx != b.pidx {
      assert vec == {a.pidx};
      DeliveredToAll(vec, b.lost);
    } else {
      assert vec == {};
      BuffersConserved(vec, b.lost);
    }
  }

  // ---------- members and ports ----------

  /** While all members are ports, frames reach only ports. */
  lemma OnlyPortsAreReached(c: Clock, cfg: Cfg, t: Table, a: Arrival, now: nat, timeout: nat)
    requires CfgInv(cfg) && a.pidx in cfg.busy && Resolved(cfg, a) && MembersArePorts(cfg)
    ensures forall x :: x in Forwarded(c, cfg, t, a, now, timeout).sent ==> x.port in cfg.busy
  {
    Isolation(c, cfg, t, a, now, timeout);
  }

  /** Commands other than adding or deleting a port keep all members ports. */
  lemma OtherCommandsKeepMembers(s: Setup, cmd: Cmd)
    requires Inv(s) && Admissible(s, cmd) && !cmd.CmdPortAdd? && !cmd.CmdPortDel? && MembersArePorts(s.cfg)
    ensures MembersArePorts(Execute(s, cmd).cfg)
  {
  }
}
