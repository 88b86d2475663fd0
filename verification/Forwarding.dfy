/** The frame pipeline on the bridge object and a buffer. */
module Forwarding {
  import opened Option
  import opened Ports
  import opened Frames
  import opened FdbSpec
  import opened Config
  import opened ConfigProofs
  import opened Delivery
  import opened Pipeline
  import opened Vlans
  import opened Buffers
  import opened Bridges

  /** The buffer's control block is that of its ingress port, as copied on reception. */
  ghost predicate Fresh(b: Bridge, skb: SkBuff, pidx: Pidx)
    reads b, b.ports, skb
  {
    b.ports.Length == MAX_PORTS && skb.cb == b.ports[pidx].cb
  }

  /** Brings the frame's tag beside the frame, or puts a foreign one back, and reads the VID of a C-tag. */
  method ParseTag(skb: SkBuff) returns (vid: TagVid)
    modifies skb`frame
    ensures skb.frame == Reinserted(Offloaded(old(skb.frame))) && vid == TaggedVid(skb.frame)
    ensures var f, f' := old(skb.frame), skb.frame;
            var cTagged := Tags(f) != [] && Tags(f)[0].CTag?;
            && vid == (if cTagged then Tags(f)[0].vid else 0)
            && f'.inband == (if cTagged then Tags(f)[1..] else Tags(f))
            && (cTagged ==> f'.tag == Some(Tags(f)[0]))
            && f'.src == f.src && f'.dst == f.dst && f'.l3 == f.l3
  {
    if skb.frame.tag.None? && skb.frame.inband != [] && skb.frame.inband[0].CTag? {
      skb.frame := skb.frame.(tag := Some(skb.frame.inband[0]), inband := skb.frame.inband[1..]);
    }
    vid := 0;
    if skb.frame.tag.Some? {
      if skb.frame.tag.value.OtherTag? {
        skb.frame := skb.frame.(inband := [skb.frame.tag.value] + skb.frame.inband);
      } else {
        vid := skb.frame.tag.value.vid;
      }
    }
  }

  function VidAt(vlan: Vlan?): Option<Vid> {
    if vlan == null then None else Some(vlan.vid)
  }

  /** The VLAN of the control block is the one the frame resolved to. */
  ghost predicate Points(b: Bridge, cb: Cb, vlan: Option<Vid>)
    reads b.vlans
  {
    b.PointerOk(cb.vlan) && vlan == VidAt(cb.vlan)
  }

  /** The outcome of classification as it stands in the buffer. */
  ghost predicate Classified(b: Bridge, skb: SkBuff, cb: Cb, ing: Ingress)
    reads b.vlans, skb
  {
    skb.frame == ing.frame && Points(b, skb.cb, ing.vlan) && skb.cb == cb.(vlan := skb.cb.vlan, vec := ing.vec)
  }

  /** Classifies a frame: its VLAN ends up in the control block, its tag is normalised, and its port
      vector is narrowed to the VLAN's members. */
  method VlanIngress(b: Bridge, skb: SkBuff, ghost pidx: Pidx) returns (allow: bool)
    requires b.Linked() && Fresh(b, skb, pidx)
    requires skb.cb.pidx == pidx && b.PointerOk(skb.cb.vlan) && (!skb.cb.vlanFiltering ==> skb.cb.vlan != null)
    requires b.CfgView().ports[pidx] == PortValue(b.ports[pidx])
    modifies skb
    ensures b.Linked() && b.CfgView() == old(b.CfgView())
    ensures var ing := Pipeline.VlanIngress(b.CfgView(), pidx, old(skb.frame));
            allow == ing.allow && Classified(b, skb, old(skb.cb), ing)
  {
    if skb.cb.vlanFiltering {
      allow := FilterVlan(b, skb, pidx);
    } else {
      var members := b.MembersOf(skb.cb.vlan);
      Update(b, skb, skb.frame, skb.cb.(vec := skb.cb.vec * members));
      allow := true;
    }
  }

  method FilterVlan(b: Bridge, skb: SkBuff, ghost pidx: Pidx) returns (allow: bool)
    requires b.Linked() && Fresh(b, skb, pidx)
    requires skb.cb.pidx == pidx && b.PointerOk(skb.cb.vlan) && skb.cb.vlanFiltering
    requires b.CfgView().ports[pidx] == PortValue(b.ports[pidx])
    modifies skb
    ensures b.Linked() && b.CfgView() == old(b.CfgView())
    ensures var ing := Pipeline.VlanIngress(b.CfgView(), pidx, old(skb.frame));
            allow == ing.allow && Classified(b, skb, old(skb.cb), ing)
  {
    var cb := skb.cb;
    var vid := ParseBufferTag(b, skb);
    if vid != 0 {
      var vlan := b.FindVlan(vid);
      cb := cb.(vlan := vlan);
    }
    allow := JoinVlan(b, skb, cb, vid != 0);
  }

  method ParseBufferTag(b: Bridge, skb: SkBuff) returns (vid: TagVid)
    requires b.Linked()
    modifies skb`frame
    ensures b.Linked() && b.CfgView() == old(b.CfgView())
    ensures skb.frame == Reinserted(Offloaded(old(skb.frame))) && vid == TaggedVid(skb.frame)
  {
    vid := ParseTag(skb);
  }

  /** Writing to a buffer leaves the bridge alone. */
  method Update(b: Bridge, skb: SkBuff, frame: Frame, cb: Cb)
    requires b.Linked()
    modifies skb
    ensures b.Linked() && b.CfgView() == old(b.CfgView())
    ensures skb.frame == frame && skb.cb == cb
  {
    skb.frame := frame;
    skb.cb := cb;
  }

  /** The frame joins the VLAN its control block points to, if there is one and its port may. */
  method JoinVlan(b: Bridge, skb: SkBuff, cb: Cb, tagged: bool) returns (allow: bool)
    requires b.Linked() && b.PointerOk(cb.vlan) && cb.pidx < MAX_PORTS
    modifies skb
    ensures b.Linked() && b.CfgView() == old(b.CfgView())
    ensures var ing := Pipeline.JoinVlan(b.CfgView(), cb.pidx, cb.vec, old(skb.frame), tagged, VidAt(cb.vlan));
            allow == ing.allow && Classified(b, skb, cb, ing)
  {
    ghost var ing := Pipeline.JoinVlan(b.CfgView(), cb.pidx, cb.vec, skb.frame, tagged, VidAt(cb.vlan));
    if cb.vlan == null {
      Update(b, skb, skb.frame, cb);
      return false;
    }
    var frame := if tagged then skb.frame else skb.frame.(tag := Some(CTag(cb.vlan.vid % TAG_VIDS)));
    var members := b.MembersOf(cb.vlan);
    allow := cb.pidx in members;
    var vec := if allow then cb.vec * members else cb.vec;
    assert ing == Ingress(frame, VidAt(cb.vlan), allow, vec);
    Update(b, skb, frame, cb.(vec := vec));
  }

  lemma TemplateIsPort(b: Bridge, cfg: Cfg, pidx: Pidx)
    requires b.Linked() && CfgInv(b.CfgView()) && cfg == b.CfgView() && pidx in b.busy
    ensures cfg.ports[pidx] == PortValue(b.ports[pidx])
    ensures b.PointerOk(b.ports[pidx].cb.vlan) && b.ports[pidx].cb.pidx == pidx
    ensures !b.ports[pidx].cb.vlanFiltering ==> b.ports[pidx].cb.vlan != null
  {
    assert SlotOk(cfg, pidx);
  }

  // ---------- delivery ----------

  /** The tag decision for one egress port. */
  method CommonEgress(skb: SkBuff, pidx: Pidx) returns (tag: EgressTag)
    requires skb.cb.vlan != null
    ensures tag == EgressTagOf(skb.cb.vlanFiltering, skb.cb.vlan.tagged, skb.frame, pidx)
  {
    if !skb.cb.vlanFiltering {
      return Keep;
    }
    if pidx in skb.cb.vlan.tagged {
      tag := Push(if skb.frame.tag.Some? then skb.frame.tag.value.vid else 0);
    } else {
      tag := Strip;
    }
  }

  /** Hands the buffer to the host stack. */
  method DeliverUp(skb: SkBuff) returns (sent: Sent)
    requires skb.cb.vlan != null
    ensures sent == Sent(HOST, EgressTagOf(skb.cb.vlanFiltering, skb.cb.vlan.tagged, skb.frame, HOST))
  {
    var tag := CommonEgress(skb, HOST);
    sent := Sent(HOST, tag);
  }

  /** Queues the buffer on a port's device. */
  method DeliverDown(skb: SkBuff, pidx: Pidx) returns (sent: Sent)
    requires skb.cb.vlan != null
    ensures sent == Sent(pidx, EgressTagOf(skb.cb.vlanFiltering, skb.cb.vlan.tagged, skb.frame, pidx))
  {
    var tag := CommonEgress(skb, pidx);
    sent := Sent(pidx, tag);
  }

  method DeliverClone(skb: SkBuff, pidx: Pidx) returns (sent: Sent)
    requires skb.cb.vlan != null
    ensures sent == Sent(pidx, EgressTagOf(skb.cb.vlanFiltering, skb.cb.vlan.tagged, skb.frame, pidx))
  {
    var clone := new SkBuff.Clone(skb);
    sent := DeliverDown(clone, pidx);
  }

  method DeliverOriginal(skb: SkBuff, pidx: Pidx) returns (sent: Sent)
    requires skb.cb.vlan != null
    ensures sent == Sent(pidx, EgressTagOf(skb.cb.vlanFiltering, skb.cb.vlan.tagged, skb.frame, pidx))
  {
    if pidx == HOST {
      sent := DeliverUp(skb);
    } else {
      sent := DeliverDown(skb, pidx);
    }
  }

  /** The clones for the set ports above `first`, up to the first port of `lost`. */
  method DeliverCopies(skb: SkBuff, first: Pidx, lost: PortVec) returns (sent: seq<Sent>, complete: bool)
    requires skb.cb.vlan != null
    ensures var vec := skb.cb.vec;
            var stop := FirstFrom(vec * lost, first + 1);
            && sent == SentBetween(skb, first + 1, stop)
            && (complete <==> stop == MAX_PORTS)
  {
    var vec := skb.cb.vec;
    ghost var stop := FirstFrom(vec * lost, first + 1);
    sent := [];
    var pidx := FirstFrom(vec, first + 1);
    BetweenFirst(vec, first + 1);
    while pidx < MAX_PORTS
      invariant first < pidx <= stop && (pidx < MAX_PORTS ==> pidx in vec)
      invariant sent == SentBetween(skb, first + 1, pidx)
      decreases MAX_PORTS - pidx
    {
      NextWithin(vec, lost, first + 1, pidx);
      if pidx in lost {
        return sent, false;
      }
      sent := AppendClone(skb, first, pidx, sent);
      pidx := FirstFrom(vec, pidx + 1);
    }
    complete := true;
  }

  /** What went out to the ports of the buffer's vector in [lo, hi). */
  ghost function SentBetween(skb: SkBuff, lo: nat, hi: nat): seq<Sent>
    requires skb.cb.vlan != null && hi <= MAX_PORTS
    reads skb, skb.cb.vlan
  {
    SentTo(Between(skb.cb.vec, lo, hi), skb.cb.vlanFiltering, skb.cb.vlan.tagged, skb.frame)
  }

  method AppendClone(skb: SkBuff, first: Pidx, pidx: Pidx, sent: seq<Sent>) returns (more: seq<Sent>)
    requires skb.cb.vlan != null && first < pidx && pidx in skb.cb.vec && sent == SentBetween(skb, first + 1, pidx)
    ensures more == SentBetween(skb, first + 1, FirstFrom(skb.cb.vec, pidx + 1))
  {
    var copy := DeliverClone(skb, pidx);
    SentToMore(Between(skb.cb.vec, first + 1, pidx), pidx, skb.cb.vlanFiltering, skb.cb.vlan.tagged, skb.frame);
    BetweenNext(skb.cb.vec, first + 1, pidx);
    more := sent + [copy];
  }

  /** Clones the buffer for every set port but the lowest, which gets the original; gives up, and frees
      the original, at the first port of `lost`. */
  method Deliver(skb: SkBuff, lost: PortVec) returns (sent: seq<Sent>, clones: nat, freed: nat)
    requires skb.cb.vlan != null
    ensures var d := Delivered(skb.cb.vec, lost);
            && sent == SentTo(d.ports, skb.cb.vlanFiltering, skb.cb.vlan.tagged, skb.frame)
            && clones == d.clones && freed == d.freed
  {
    var first := FirstFrom(skb.cb.vec, 0);
    if first == MAX_PORTS {
      return [], 0, 1;
    }
    var copies, complete := DeliverCopies(skb, first, lost);
    if !complete {
      return copies, |copies|, 1;
    }
    var last := DeliverOriginal(skb, first);
    SentToMore(Between(skb.cb.vec, first + 1, MAX_PORTS), first, skb.cb.vlanFiltering, skb.cb.vlan.tagged, skb.frame);
    return copies + [last], |copies|, 0;
  }

  // ---------- one frame ----------

  method FdbStage(b: Bridge, skb: SkBuff, now: nat, alloc: bool)
    requires b.Linked() && b.fdb.Valid()
    requires skb.cb.vlan != null && b.PointerOk(skb.cb.vlan) && skb.cb.pidx < MAX_PORTS
    modifies skb`cb, b.fdb`nodes, b.fdb.nodes.Values
    ensures forall n :: n in b.fdb.nodes.Values ==> n in old(b.fdb.nodes.Values) || fresh(n)
    ensures b.Linked() && b.fdb.Valid() && b.View() == old(b.View()) && old(skb.cb).vlan.vid in b.CfgView().vlans
    ensures var cb, f, vid := old(skb.cb), skb.frame, old(skb.cb).vlan.vid;
            var vlan, t := b.CfgView().vlans[vid], b.fdb.View();
            && t == (if cb.saLearning && vlan.saLearning
                     then LearnedFrom(b.fdb.clock, old(b.fdb.View()), vid, f.src, cb.pidx, now, alloc)
                     else old(b.fdb.View()))
            && skb.cb == cb.(vec := cb.vec * EgressFilter(b.fdb.clock, t, LookupKey(vid, f.dst, SeenL3(f)),
                                                          vlan.flood, f.dst, now, b.fdb.ageingTimeout))
  {
    b.VlanInView(skb.cb.vlan);
    ForwardThroughFdb(b, skb, now, alloc);
  }

  /** The same, described by the VLAN the buffer points to; the configuration stays. */
  method ForwardThroughFdb(b: Bridge, skb: SkBuff, now: nat, alloc: bool)
    requires b.Linked() && b.fdb.Valid() && skb.cb.vlan != null && skb.cb.pidx < MAX_PORTS
    modifies skb`cb, b.fdb`nodes, b.fdb.nodes.Values
    ensures forall n :: n in b.fdb.nodes.Values ==> n in old(b.fdb.nodes.Values) || fresh(n)
    ensures b.Linked() && b.fdb.Valid() && b.View() == old(b.View()) && b.CfgView() == old(b.CfgView())
    ensures var cb, f, t := old(skb.cb), skb.frame, b.fdb.View();
            && t == (if cb.saLearning && cb.vlan.saLearning
                     then LearnedFrom(b.fdb.clock, old(b.fdb.View()), cb.vlan.vid, f.src, cb.pidx, now, alloc)
                     else old(b.fdb.View()))
            && skb.cb == cb.(vec := cb.vec * EgressFilter(b.fdb.clock, t, LookupKey(cb.vlan.vid, f.dst, SeenL3(f)),
                                                          cb.vlan.flood, f.dst, now, b.fdb.ageingTimeout))
  {
    b.fdb.Forward(skb, now, alloc);
    CfgStands(b);
  }

  /** Everything after classification. The database is consulted, and learns, also when
      classification rejected the frame. */
  method Switch(b: Bridge, skb: SkBuff, allow: bool, now: nat, alloc: bool, lost: PortVec)
    returns (trapped: bool, out: Out)
    requires b.Linked() && b.fdb.Valid()
    requires skb.cb.vlan != null && b.PointerOk(skb.cb.vlan) && skb.cb.pidx < MAX_PORTS
    modifies skb`cb, b.fdb`nodes, b.fdb.nodes.Values
    ensures forall n :: n in b.fdb.nodes.Values ==> n in old(b.fdb.nodes.Values) || fresh(n)
    ensures b.Linked() && b.fdb.Valid() && b.View() == old(b.View()) && old(skb.cb).vlan.vid in b.CfgView().vlans
    ensures var cb, vid := old(skb.cb), old(skb.cb).vlan.vid;
            var vlan, p := b.CfgView().vlans[vid], Flags(cb.ctrl, cb.saLearning, cb.vlanFiltering);
            && b.fdb.View() == Taught(b.fdb.clock, vlan, vid, old(b.fdb.View()), p, cb.pidx, skb.frame.src, now, alloc)
            && out == Switched(b.fdb.clock, vlan, vid, b.fdb.View(), p, Ingress(skb.frame, Some(vid), allow, cb.vec),
                               lost, now, b.fdb.ageingTimeout)
            && trapped == out.trapped
  {
    var vid := skb.cb.vlan.vid;
    b.VlanInView(skb.cb.vlan);
    if skb.cb.ctrl {
      return true, Out(vid, [], 0, 0, true);
    }
    FdbStage(b, skb, now, alloc);
    if !allow {
      return false, Out(vid, [], 0, 1, false);
    }
    b.VlanInView(skb.cb.vlan);
    var sent, clones, freed := DeliverFrom(b, skb, lost);
    return false, Out(vid, sent, clones, freed, false);
  }

  method DeliverFrom(b: Bridge, skb: SkBuff, lost: PortVec) returns (sent: seq<Sent>, clones: nat, freed: nat)
    requires b.Linked() && b.fdb.Valid() && skb.cb.vlan != null
    ensures b.fdb.nodes == old(b.fdb.nodes)
    ensures b.Linked() && b.fdb.Valid() && b.View() == old(b.View()) && b.fdb.View() == old(b.fdb.View())
    ensures var d := Delivered(skb.cb.vec, lost);
            && sent == SentTo(d.ports, skb.cb.vlanFiltering, skb.cb.vlan.tagged, skb.frame)
            && clones == d.clones && freed == d.freed
  {
    sent, clones, freed := Deliver(skb, lost);
    CfgStands(b);
  }

  /** The pipeline from classification to delivery. Returns whether the frame was trapped for the host. */
  method Forward(b: Bridge, skb: SkBuff, ghost pidx: Pidx, now: nat, alloc: bool, lost: PortVec)
    returns (trapped: bool, out: Out)
    requires b.Valid() && pidx in b.busy && Fresh(b, skb, pidx)
    requires Resolved(b.CfgView(), Arrival(pidx, skb.frame, alloc, lost))
    modifies skb, b.fdb`nodes, b.fdb.nodes.Values
    ensures forall n :: n in b.fdb.nodes.Values ==> n in old(b.fdb.nodes.Values) || fresh(n)
    ensures b.Valid() && b.View() == old(b.View()) && trapped == out.trapped
    ensures var a := Arrival(pidx, old(skb.frame), alloc, lost);
            && out == Forwarded(b.fdb.clock, b.CfgView(), old(b.fdb.View()), a, now, b.fdb.ageingTimeout)
            && b.fdb.View() == TableAfter(b.fdb.clock, b.CfgView(), old(b.fdb.View()), a, now)
  {
    TemplateIsPort(b, b.CfgView(), pidx);
    trapped, out := Stages(b, skb, pidx, now, alloc, lost);
  }

  method Stages(b: Bridge, skb: SkBuff, ghost pidx: Pidx, now: nat, alloc: bool, lost: PortVec)
    returns (trapped: bool, out: Out)
    requires b.Linked() && b.fdb.Valid() && Fresh(b, skb, pidx)
    requires skb.cb.pidx == pidx && b.PointerOk(skb.cb.vlan) && (!skb.cb.vlanFiltering ==> skb.cb.vlan != null)
    requires b.CfgView().ports[pidx] == PortValue(b.ports[pidx])
    requires Resolved(b.CfgView(), Arrival(pidx, skb.frame, alloc, lost))
    modifies skb, b.fdb`nodes, b.fdb.nodes.Values
    ensures forall n :: n in b.fdb.nodes.Values ==> n in old(b.fdb.nodes.Values) || fresh(n)
    ensures b.Linked() && b.fdb.Valid() && b.View() == old(b.View()) && trapped == out.trapped
    ensures var cfg, ing := b.CfgView(), Pipeline.VlanIngress(b.CfgView(), pidx, old(skb.frame));
            var vid, p := ing.vlan.value, FlagsOf(cfg.ports[pidx]);
            && vid in cfg.vlans
            && b.fdb.View() == Taught(b.fdb.clock, cfg.vlans[vid], vid, old(b.fdb.View()),
                                      p, pidx, ing.frame.src, now, alloc)
            && out == Switched(b.fdb.clock, cfg.vlans[vid], vid, b.fdb.View(), p, ing, lost, now, b.fdb.ageingTimeout)
  {
    ghost var ing := Pipeline.VlanIngress(b.CfgView(), pidx, skb.frame);
    ghost var flags := FlagsOf(b.CfgView().ports[pidx]);
    var allow := ClassifyOnly(b, skb, pidx);
    trapped, out := SwitchAs(b, skb, pidx, flags, ing, now, allow, alloc, lost);
  }

  /** The same stages, described by what classification found instead of by the buffer. */
  method SwitchAs(b: Bridge, skb: SkBuff, ghost pidx: Pidx, ghost flags: Flags, ghost ing: Ingress,
                  now: nat, allow: bool, alloc: bool, lost: PortVec)
    returns (trapped: bool, out: Out)
    requires b.Linked() && b.fdb.Valid() && skb.cb.pidx == pidx && b.PointerOk(skb.cb.vlan)
    requires ing.vlan.Some? && ing == Ingress(skb.frame, VidAt(skb.cb.vlan), allow, skb.cb.vec)
    requires flags == Flags(skb.cb.ctrl, skb.cb.saLearning, skb.cb.vlanFiltering)
    modifies skb`cb, b.fdb`nodes, b.fdb.nodes.Values
    ensures forall n :: n in b.fdb.nodes.Values ==> n in old(b.fdb.nodes.Values) || fresh(n)
    ensures b.Linked() && b.fdb.Valid() && b.View() == old(b.View()) && trapped == out.trapped
    ensures var cfg, vid := b.CfgView(), ing.vlan.value;
            && vid in cfg.vlans
            && b.fdb.View() == Taught(b.fdb.clock, cfg.vlans[vid], vid, old(b.fdb.View()),
                                      flags, pidx, ing.frame.src, now, alloc)
            && out == Switched(b.fdb.clock, cfg.vlans[vid], vid, b.fdb.View(),
                               flags, ing, lost, now, b.fdb.ageingTimeout)
  {
    trapped, out := Switch(b, skb, allow, now, alloc, lost);
  }

  method ClassifyOnly(b: Bridge, skb: SkBuff, ghost pidx: Pidx) returns (allow: bool)
    requires b.Linked() && b.fdb.Valid() && Fresh(b, skb, pidx)
    requires skb.cb.pidx == pidx && b.PointerOk(skb.cb.vlan) && (!skb.cb.vlanFiltering ==> skb.cb.vlan != null)
    requires b.CfgView().ports[pidx] == PortValue(b.ports[pidx])
    modifies skb
    ensures b.fdb.nodes == old(b.fdb.nodes)
    ensures b.Linked() && b.fdb.Valid() && b.View() == old(b.View()) && b.fdb.View() == old(b.fdb.View())
    ensures var ing := Pipeline.VlanIngress(b.CfgView(), pidx, old(skb.frame));
            allow == ing.allow && Classified(b, skb, old(skb.cb), ing)
  {
    allow := VlanIngress(b, skb, pidx);
  }

  /** Gives the buffer its ingress port's control block and forwards it. */
  method Receive(b: Bridge, pidx: Pidx, skb: SkBuff, now: nat, alloc: bool, lost: PortVec)
    returns (trapped: bool, out: Out)
    requires b.Valid() && pidx in b.busy
    requires Resolved(b.CfgView(), Arrival(pidx, skb.frame, alloc, lost))
    modifies skb, b.fdb`nodes, b.fdb.nodes.Values
    ensures forall n :: n in b.fdb.nodes.Values ==> n in old(b.fdb.nodes.Values) || fresh(n)
    ensures b.Valid() && b.View() == old(b.View()) && trapped == out.trapped
    ensures var a := Arrival(pidx, old(skb.frame), alloc, lost);
            && out == Forwarded(b.fdb.clock, b.CfgView(), old(b.fdb.View()), a, now, b.fdb.ageingTimeout)
            && b.fdb.View() == TableAfter(b.fdb.clock, b.CfgView(), old(b.fdb.View()), a, now)
  {
    LoadTemplate(b, pidx, skb);
    trapped, out := Forward(b, skb, pidx, now, alloc, lost);
  }

  method LoadTemplate(b: Bridge, pidx: Pidx, skb: SkBuff)
    requires b.Valid()
    modifies skb`cb
    ensures b.Valid() && b.View() == old(b.View()) && b.fdb.View() == old(b.fdb.View()) && Fresh(b, skb, pidx)
  {
    skb.cb := b.ports[pidx].cb;
    CfgStands(b);
  }

  /** A frame from an enslaved device is forwarded from that device's port, and always consumed. */
  method RxHandler(b: Bridge, dev: DevId, skb: SkBuff, now: nat, alloc: bool, lost: PortVec)
    returns (consumed: bool, out: Out)
    requires b.Valid() && Enslaved(b.CfgView(), dev) && PortFind(b.CfgView(), dev).Some?
    requires Resolved(b.CfgView(), Arrival(PortFind(b.CfgView(), dev).value, skb.frame, alloc, lost))
    modifies skb, b.fdb`nodes, b.fdb.nodes.Values
    ensures forall n :: n in b.fdb.nodes.Values ==> n in old(b.fdb.nodes.Values) || fresh(n)
    ensures b.Valid() && b.View() == old(b.View()) && consumed
    ensures var a := Arrival(PortFind(b.CfgView(), dev).value, old(skb.frame), alloc, lost);
            && out == Forwarded(b.fdb.clock, b.CfgView(), old(b.fdb.View()), a, now, b.fdb.ageingTimeout)
            && b.fdb.View() == TableAfter(b.fdb.clock, b.CfgView(), old(b.fdb.View()), a, now)
  {
    HandlerData(b.View(), dev);
    var pidx := b.net.devs[dev].rx.pidx;
    ForwardedIsNotTrapped(b.fdb.clock, b.CfgView(), b.fdb.View(),
                          Arrival(pidx, skb.frame, alloc, lost), now, b.fdb.ageingTimeout);
    var trapped;
    trapped, out := Receive(b, pidx, skb, now, alloc, lost);
    consumed := !trapped;
  }

  /** The receive hook of an enslaved device leads to the device's own slot. */
  lemma HandlerData(s: Setup, dev: DevId)
    requires Inv(s) && Enslaved(s.cfg, dev)
    ensures dev in s.net && s.net[dev].rx.BridgeRx? && PortFind(s.cfg, dev) == Some(s.net[dev].rx.pidx)
    ensures s.net[dev].rx.pidx in s.cfg.busy
  {
    var i: Pidx :| i != HOST && Occupies(s.cfg, i, dev);
    assert NetOk(s.cfg, s.net, i);
    PortFindInverts(s, i, dev);
  }

  lemma ForwardedIsNotTrapped(c: Clock, cfg: Cfg, t: Table, a: Arrival, now: nat, timeout: nat)
    requires CfgInv(cfg) && a.pidx in cfg.busy && Resolved(cfg, a)
    ensures !Forwarded(c, cfg, t, a, now, timeout).trapped
  {
    assert SlotOk(cfg, a.pidx);
  }

  /** A frame the host sends enters at the host's own port. */
  method StartXmit(b: Bridge, skb: SkBuff, now: nat, alloc: bool, lost: PortVec) returns (out: Out)
    requires b.Valid()
    requires Resolved(b.CfgView(), Arrival(HOST, skb.frame, alloc, lost))
    modifies skb, b.fdb`nodes, b.fdb.nodes.Values
    ensures forall n :: n in b.fdb.nodes.Values ==> n in old(b.fdb.nodes.Values) || fresh(n)
    ensures b.Valid() && b.View() == old(b.View())
    ensures var a := Arrival(HOST, old(skb.frame), alloc, lost);
            && out == Forwarded(b.fdb.clock, b.CfgView(), old(b.fdb.View()), a, now, b.fdb.ageingTimeout)
            && b.fdb.View() == TableAfter(b.fdb.clock, b.CfgView(), old(b.fdb.View()), a, now)
  {
    assert Occupies(b.CfgView(), HOST, b.CfgView().bridge);
    var trapped;
    trapped, out := Receive(b, HOST, skb, now, alloc, lost);
  }
}
