/** The path of one frame through the bridge: VLAN classification, the forwarding database and delivery. */
module Pipeline {
  import opened Option
  import opened Ports
  import opened Frames
  import opened FdbSpec
  import opened Config
  import opened Delivery

  // ---------- VLAN ingress ----------

  /** `vlan` is None when the frame belongs to no VLAN of the bridge. */
  datatype Ingress = Ingress(frame: Frame, vlan: Option<Vid>, allow: bool, vec: PortVec)

  /** Take a C-tag out of the frame's bytes unless a tag is already held beside them. */
  function Offloaded(f: Frame): Frame {
    if f.tag.None? && f.inband != [] && f.inband[0].CTag?
    then f.(tag := Some(f.inband[0]), inband := f.inband[1..])
    else f
  }

  /** A held tag of another protocol goes back into the bytes. */
  function Reinserted(f: Frame): Frame {
    if f.tag.Some? && f.tag.value.OtherTag? then f.(inband := [f.tag.value] + f.inband) else f
  }

  function TaggedVid(f: Frame): TagVid {
    if f.tag.Some? && f.tag.value.CTag? then f.tag.value.vid else 0
  }

  /** A frame joins the VLAN, if there is one; an untagged frame is given the VLAN's tag on the way. */
  function JoinVlan(cfg: Cfg, pidx: Pidx, vec: PortVec, f: Frame, tagged: bool, vlan: Option<Vid>): Ingress {
    if vlan.None? || vlan.value !in cfg.vlans then Ingress(f, None, false, vec)
    else
      var f1 := if tagged then f else f.(tag := Some(CTag(vlan.value % TAG_VIDS)));
      var members := cfg.vlans[vlan.value].members;
      if pidx !in members then Ingress(f1, vlan, false, vec)
      else Ingress(f1, vlan, true, vec * members)
  }

  function VlanIngress(cfg: Cfg, pidx: Pidx, f: Frame): (ing: Ingress)
    requires Basic(cfg)
    ensures ing.frame.src == f.src && ing.frame.dst == f.dst
    ensures ing.vlan.Some? ==> ing.vlan.value in cfg.vlans
  {
    var p := cfg.ports[pidx];
    if !p.filtering then
      if p.cached.Some? && p.cached.value in cfg.vlans
      then Ingress(f, p.cached, true, p.vec * cfg.vlans[p.cached.value].members)
      else Ingress(f, None, false, p.vec)
    else
      var f1 := Reinserted(Offloaded(f));
      var vid := TaggedVid(f1);
      JoinVlan(cfg, pidx, p.vec, f1, vid != 0, if vid != 0 then VlanFind(cfg, vid) else p.cached)
  }

  // ---------- egress ----------

  datatype EgressTag = Push(vid: TagVid) | Strip | Keep

  /** What one port was sent. */
  datatype Sent = Sent(port: Pidx, tag: EgressTag)

  /** Tags are touched only for frames that came in on a filtering port. */
  function EgressTagOf(filtering: bool, tagged: PortVec, f: Frame, port: Pidx): EgressTag {
    if !filtering then Keep
    else if port in tagged then Push(if f.tag.Some? then f.tag.value.vid else 0)
    else Strip
  }

  function SentTo(ports: seq<Pidx>, filtering: bool, tagged: PortVec, f: Frame): (s: seq<Sent>)
    ensures |s| == |ports|
    ensures forall i :: 0 <= i < |s| ==> s[i] == Sent(ports[i], EgressTagOf(filtering, tagged, f, ports[i]))
  {
    seq(|ports|, i requires 0 <= i < |ports| => Sent(ports[i], EgressTagOf(filtering, tagged, f, ports[i])))
  }

  lemma SentToMore(ports: seq<Pidx>, p: Pidx, filtering: bool, tagged: PortVec, f: Frame)
    ensures SentTo(ports + [p], filtering, tagged, f)
         == SentTo(ports, filtering, tagged, f) + [Sent(p, EgressTagOf(filtering, tagged, f, p))]
  {
  }

  // ---------- one frame ----------

  /** A frame on a port, and what the kernel does meanwhile: whether a table node could be
      allocated, and the ports whose clone fails. */
  datatype Arrival = Arrival(pidx: Pidx, frame: Frame, alloc: bool, lost: PortVec)

  /** What became of a frame: its VLAN, what was sent, and the buffers made and freed;
      `trapped` frames are handed to the host stack instead. */
  datatype Out = Out(vid: Vid, sent: seq<Sent>, clones: nat, freed: nat, trapped: bool)

  predicate Resolved(cfg: Cfg, a: Arrival)
    requires Basic(cfg)
  {
    VlanIngress(cfg, a.pidx, a.frame).vlan.Some?
  }

  /** The VLAN of a frame. */
  function VidOf(cfg: Cfg, a: Arrival): (vid: Vid)
    requires Basic(cfg) && Resolved(cfg, a)
    ensures vid in cfg.vlans
  {
    VlanIngress(cfg, a.pidx, a.frame).vlan.value
  }

  predicate Learns(cfg: Cfg, a: Arrival)
    requires Basic(cfg) && Resolved(cfg, a)
  {
    var p := cfg.ports[a.pidx];
    !p.ctrl && p.saLearning && cfg.vlans[VidOf(cfg, a)].saLearning
  }

  /** The switches of a port that the stages after classification look at. */
  datatype Flags = Flags(ctrl: bool, saLearning: bool, filtering: bool)

  function FlagsOf(p: PortCfg): Flags {
    Flags(p.ctrl, p.saLearning, p.filtering)
  }

  /** The table after a frame: its source is learnt, whether or not classification accepted it. */
  function Taught(c: Clock, vlan: VlanCfg, vid: Vid, t: Table, p: Flags, pidx: Pidx,
                  src: Mac, now: nat, alloc: bool): Table {
    if !p.ctrl && p.saLearning && vlan.saLearning then LearnedFrom(c, t, vid, src, pidx, now, alloc) else t
  }

  /** The ports left in a classified frame's vector once its destination was looked up. */
  function Narrowed(c: Clock, vlan: VlanCfg, vid: Vid, t: Table, ing: Ingress, now: nat, timeout: nat): PortVec {
    var key := LookupKey(vid, ing.frame.dst, SeenL3(ing.frame));
    ing.vec * EgressFilter(c, t, key, vlan.flood, ing.frame.dst, now, timeout)
  }

  /** The stages after classification, given the table after learning. */
  function Switched(c: Clock, vlan: VlanCfg, vid: Vid, t: Table, p: Flags, ing: Ingress, lost: PortVec,
                    now: nat, timeout: nat): Out
  {
    if p.ctrl then Out(vid, [], 0, 0, true)
    else if !ing.allow then Out(vid, [], 0, 1, false)
    else
      var d := Delivered(Narrowed(c, vlan, vid, t, ing, now, timeout), lost);
      Out(vid, SentTo(d.ports, p.filtering, vlan.tagged, ing.frame), d.clones, d.freed, false)
  }

  function TableAfter(c: Clock, cfg: Cfg, t: Table, a: Arrival, now: nat): Table
    requires Basic(cfg) && Resolved(cfg, a)
  {
    var vid := VidOf(cfg, a);
    Taught(c, cfg.vlans[vid], vid, t, FlagsOf(cfg.ports[a.pidx]), a.pidx, a.frame.src, now, a.alloc)
  }

  /** The ports an accepted frame is sent to, given the table after learning. */
  function EgressVec(c: Clock, cfg: Cfg, t: Table, a: Arrival, now: nat, timeout: nat): PortVec
    requires Basic(cfg) && Resolved(cfg, a)
  {
    var vid := VidOf(cfg, a);
    Narrowed(c, cfg.vlans[vid], vid, t, VlanIngress(cfg, a.pidx, a.frame), now, timeout)
  }

  function Forwarded(c: Clock, cfg: Cfg, t: Table, a: Arrival, now: nat, timeout: nat): Out
    requires Basic(cfg) && Resolved(cfg, a)
  {
    var vid := VidOf(cfg, a);
    Switched(c, cfg.vlans[vid], vid, TableAfter(c, cfg, t, a, now), FlagsOf(cfg.ports[a.pidx]),
             VlanIngress(cfg, a.pidx, a.frame), a.lost, now, timeout)
  }

  // ---------- what classification and forwarding guarantee ----------

  /** All tags a frame carries, outermost first. */
  function Tags(f: Frame): seq<Tag> {
    (if f.tag.Some? then [f.tag.value] else []) + f.inband
  }

  /** The VID of a frame whose outermost tag is a C-tag, if it has one, and otherwise 0. */
  function OwnVid(f: Frame): TagVid {
    if Tags(f) != [] && Tags(f)[0].CTag? then Tags(f)[0].vid else 0
  }

  /** The VID a frame asks for: on a filtering port its own, if it has one, otherwise the PVID. */
  function RequestedVid(cfg: Cfg, pidx: Pidx, f: Frame): Vid
    requires Basic(cfg)
  {
    if cfg.ports[pidx].filtering && OwnVid(f) != 0 then OwnVid(f) else cfg.ports[pidx].pvid
  }

  /** On a busy port a frame resolves to exactly the VLAN with the requested VID, and it is accepted
      exactly when that VLAN exists and, on a filtering port, has the ingress port as a member. */
  lemma ClassificationIsSound(cfg: Cfg, pidx: Pidx, f: Frame)
    requires CfgInv(cfg) && pidx in cfg.busy
    ensures var ing := VlanIngress(cfg, pidx, f);
            var vid := RequestedVid(cfg, pidx, f);
            && ing.vlan == VlanFind(cfg, vid)
            && (ing.allow <==> vid in cfg.vlans && (cfg.ports[pidx].filtering ==> pidx in cfg.vlans[vid].members))
            && (!cfg.ports[pidx].filtering ==> vid == 0 && ing.allow && ing.frame == f)
  {
    assert SlotOk(cfg, pidx);
  }

  /** What a VLAN lookup yields, and whether the port may use the VLAN. */
  predicate BelongsTo(cfg: Cfg, pidx: Pidx, ing: Ingress, vid: Vid) {
    && ing.vlan == (if vid in cfg.vlans then Some(vid) else None)
    && (ing.allow <==> vid in cfg.vlans && pidx in cfg.vlans[vid].members)
  }

  /** On a filtering port the VLAN is that of the outermost tag, if this is a C-tag with a VID, and otherwise
      that of the PVID: for frames without tag, with a priority tag or with a foreign tag outermost, held
      beside the frame or not. */
  lemma ClassifiedByOutermostTag(cfg: Cfg, pidx: Pidx, f: Frame)
    requires CfgInv(cfg) && pidx in cfg.busy && cfg.ports[pidx].filtering
    ensures var ing := VlanIngress(cfg, pidx, f);
            && (forall v: TagVid :: v != 0 && f.tag == Some(CTag(v)) ==> BelongsTo(cfg, pidx, ing, v))
            && (forall v: TagVid :: v != 0 && f.tag == None && f.inband != [] && f.inband[0] == CTag(v) ==>
                  BelongsTo(cfg, pidx, ing, v))
            && (f.tag == None && f.inband == [] ==> BelongsTo(cfg, pidx, ing, cfg.ports[pidx].pvid))
            && (f.tag == Some(CTag(0)) ==> BelongsTo(cfg, pidx, ing, cfg.ports[pidx].pvid))
            && (f.tag == None && f.inband != [] && f.inband[0] == CTag(0) ==>
                  BelongsTo(cfg, pidx, ing, cfg.ports[pidx].pvid))
            && (f.tag.Some? && f.tag.value.OtherTag? ==> BelongsTo(cfg, pidx, ing, cfg.ports[pidx].pvid))
            && (f.tag == None && f.inband != [] && f.inband[0].OtherTag? ==>
                  BelongsTo(cfg, pidx, ing, cfg.ports[pidx].pvid))
  {
    assert SlotOk(cfg, pidx);
  }

  /** Classification takes an outermost C-tag out of the frame's bytes and leaves every other tag in them;
      a frame that belongs to a VLAN then holds one C-tag beside them, with the VID it came with or, if it
      came without, the lower 12 bits of its VLAN's. Nothing else of the frame changes. */
  lemma TagsAreNormalised(cfg: Cfg, pidx: Pidx, f: Frame)
    requires CfgInv(cfg) && pidx in cfg.busy
    ensures var ing := VlanIngress(cfg, pidx, f);
            && ing.frame.src == f.src && ing.frame.dst == f.dst && ing.frame.l3 == f.l3
            && (!cfg.ports[pidx].filtering ==> ing.frame == f)
            && (cfg.ports[pidx].filtering ==>
                 ing.frame.inband == if Tags(f) != [] && Tags(f)[0].CTag? then Tags(f)[1..] else Tags(f))
            && (cfg.ports[pidx].filtering && ing.vlan.Some? ==>
                 ing.frame.tag == if Tags(f) != [] && Tags(f)[0].CTag? && Tags(f)[0].vid != 0 then Some(Tags(f)[0])
                                  else Some(CTag(ing.vlan.value % 4096)))
            && (cfg.ports[pidx].filtering && ing.vlan.None? ==>
                 ing.frame.tag == if Tags(f) != [] && Tags(f)[0].CTag? then Some(Tags(f)[0]) else f.tag)
  {
    assert SlotOk(cfg, pidx);
  }

  /** Whether a frame shows its network protocol when it is looked up: no tag is left in its bytes then. */
  predicate ShowsProtocol(cfg: Cfg, pidx: Pidx, f: Frame)
    requires Basic(cfg)
  {
    if cfg.ports[pidx].filtering then Tags(f) == [] || (|Tags(f)| == 1 && Tags(f)[0].CTag?) else f.inband == []
  }

  /** A live entry for a group filters the group's frames: an entry for the network address those that show
      it, and an entry for the link-layer address all others. */
  lemma GroupEntriesAreUsed(c: Clock, cfg: Cfg, t: Table, a: Arrival, now: nat, timeout: nat, e: Entry)
    requires CfgInv(cfg) && a.pidx in cfg.busy && Resolved(cfg, a)
    requires FirstOctet(a.frame.dst) % 2 == 1 && !IsOld(c, e, now, timeout)
    ensures var vid, vec, l3 := VidOf(cfg, a), VlanIngress(cfg, a.pidx, a.frame).vec, a.frame.l3;
            var shown := ShowsProtocol(cfg, a.pidx, a.frame);
            && (shown && l3.IsIp4? ==>
                 EgressVec(c, cfg, t[Ip4Addr(vid, l3.daddr4) := e], a, now, timeout) == vec * e.vec)
            && (shown && l3.IsIp6? ==>
                 EgressVec(c, cfg, t[Ip6Addr(vid, l3.daddr6) := e], a, now, timeout) == vec * e.vec)
            && (!shown || l3.IsOther? ==>
                 EgressVec(c, cfg, t[MacAddr(vid, a.frame.dst) := e], a, now, timeout) == vec * e.vec)
  {
    TagsAreNormalised(cfg, a.pidx, a.frame);
    var ing := VlanIngress(cfg, a.pidx, a.frame);
    var vid := VidOf(cfg, a);
    GroupLookup(c, t, vid, a.frame.dst, SeenL3(ing.frame), cfg.vlans[vid].flood, now, timeout, e);
  }

  /** The vector of an accepted frame is that of its VLAN's members, without its own port. */
  lemma AcceptedMayReachMembers(cfg: Cfg, pidx: Pidx, f: Frame)
    requires CfgInv(cfg) && pidx in cfg.busy && VlanIngress(cfg, pidx, f).allow
    ensures var ing := VlanIngress(cfg, pidx, f);
            ing.vlan.Some? && ing.vec == cfg.vlans[ing.vlan.value].members - {pidx}
  {
    assert SlotOk(cfg, pidx);
  }

  /** The switches of port and VLAN are obeyed: nothing is learnt unless both learn, and control traffic is
      trapped, not learnt and not sent. */
  lemma SwitchesAreObeyed(c: Clock, cfg: Cfg, t: Table, a: Arrival, now: nat, timeout: nat)
    requires Basic(cfg) && Resolved(cfg, a)
    ensures var p, vid, t' := cfg.ports[a.pidx], VidOf(cfg, a), TableAfter(c, cfg, t, a, now);
            && (p.ctrl || !p.saLearning || !cfg.vlans[vid].saLearning ==> t' == t)
            && (!p.ctrl && p.saLearning && cfg.vlans[vid].saLearning ==>
                 t' == LearnedFrom(c, t, vid, a.frame.src, a.pidx, now, a.alloc))
            && (Forwarded(c, cfg, t, a, now, timeout).trapped <==> p.ctrl)
            && (p.ctrl ==> Forwarded(c, cfg, t, a, now, timeout) == Out(vid, [], 0, 0, true))
  {
  }

  /** A frame accepted on a filtering port carries a C-tag, and the tag's VID is that of the frame's VLAN
      exactly when the latter fits a tag. */
  lemma AcceptedFramesAreTagged(cfg: Cfg, pidx: Pidx, f: Frame)
    requires CfgInv(cfg) && pidx in cfg.busy && cfg.ports[pidx].filtering
    requires VlanIngress(cfg, pidx, f).allow
    ensures var ing := VlanIngress(cfg, pidx, f);
            && ing.frame.tag.Some? && ing.frame.tag.value.CTag?
            && ing.frame.tag.value.vid == ing.vlan.value % 4096
            && (ing.frame.tag.value.vid == ing.vlan.value <==> ing.vlan.value < 4096)
  {
    assert SlotOk(cfg, pidx);
  }

  /** Whatever the table holds, a frame reaches only members of its own VLAN, never its ingress port,
      and leaves a filtering port only if that port is a member itself. */
  lemma Isolation(c: Clock, cfg: Cfg, t: Table, a: Arrival, now: nat, timeout: nat)
    requires CfgInv(cfg) && a.pidx in cfg.busy && Resolved(cfg, a)
    ensures var out := Forwarded(c, cfg, t, a, now, timeout);
            && out.vid == RequestedVid(cfg, a.pidx, a.frame)
            && (forall s :: s in out.sent ==> s.port in cfg.vlans[out.vid].members && s.port != a.pidx)
            && (cfg.ports[a.pidx].filtering && out.sent != [] ==> a.pidx in cfg.vlans[out.vid].members)
            && |out.sent| + out.freed == 1 + out.clones
            && !out.trapped
  {
    ClassificationIsSound(cfg, a.pidx, a.frame);
    assert SlotOk(cfg, a.pidx);
    var ing := VlanIngress(cfg, a.pidx, a.frame);
    if ing.allow {
      var vec := EgressVec(c, cfg, TableAfter(c, cfg, t, a, now), a, now, timeout);
      BuffersConserved(vec, a.lost);
      var d := Delivered(vec, a.lost);
      var out := Forwarded(c, cfg, t, a, now, timeout);
      forall i | 0 <= i < |out.sent| ensures out.sent[i].port in vec {
        assert d.ports[i] in d.ports;
      }
    }
  }

  /** A frame from a filtering port is pushed a tag exactly for the tagged ports of its VLAN, and the tag
      carries the VLAN's VID as far as it fits into 12 bits. */
  lemma EgressTagging(c: Clock, cfg: Cfg, t: Table, a: Arrival, now: nat, timeout: nat)
    requires CfgInv(cfg) && a.pidx in cfg.busy && Resolved(cfg, a)
    ensures var out := Forwarded(c, cfg, t, a, now, timeout);
            forall s :: s in out.sent ==>
              && (s.tag == Keep <==> !cfg.ports[a.pidx].filtering)
              && (s.tag.Push? <==> cfg.ports[a.pidx].filtering && s.port in cfg.vlans[out.vid].tagged)
              && (s.tag.Push? ==> s.tag.vid == out.vid % 4096)
  {
    if cfg.ports[a.pidx].filtering && VlanIngress(cfg, a.pidx, a.frame).allow {
      AcceptedFramesAreTagged(cfg, a.pidx, a.frame);
    }
  }
}
