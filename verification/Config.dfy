/** Ports, VLANs and enslaved devices as values, and the configuration commands as functions on them. */
module Config {
  import opened Option
  import opened Ports
  import opened Frames
  import opened FdbSpec

  type DevId = nat

  // ---------- VLANs ----------

  datatype VlanCfg = VlanCfg(saLearning: bool, members: PortVec, tagged: PortVec, flood: Flood)

  /** A new VLAN learns, floods unknown traffic everywhere and has no members. */
  function NewVlan(): VlanCfg {
    VlanCfg(true, {}, {}, Flood(Fill(), Fill(), Fill()))
  }

  /** Attaching untagged leaves an earlier tagged bit in place. */
  function Attached(v: VlanCfg, p: Pidx, tagged: bool): VlanCfg {
    v.(members := v.members + {p}, tagged := if tagged then v.tagged + {p} else v.tagged)
  }

  function Detached(v: VlanCfg, p: Pidx): VlanCfg {
    v.(members := v.members - {p}, tagged := v.tagged - {p})
  }

  // ---------- ports and devices ----------

  /** `cached` names the VLAN that the port's control block points to. */
  datatype PortCfg = PortCfg(dev: Option<DevId>, pidx: nat, filtering: bool, saLearning: bool, ctrl: bool,
                             cached: Option<Vid>, vec: PortVec, pvid: Vid)

  const ZERO_PORT := PortCfg(None, 0, false, false, false, None, {}, 0)

  datatype RxHandler = NoRx | BridgeRx(bridge: DevId, pidx: Pidx) | OtherRx

  datatype NetDev = NetDev(loopback: bool, ethernet: bool, dsa: bool, dontBridge: bool,
                           master: Option<DevId>, promisc: int, allmulti: int, rx: RxHandler, bridgePort: bool)

  type Net = map<DevId, NetDev>

  datatype Cfg = Cfg(bridge: DevId, busy: PortVec, ports: seq<PortCfg>, vlans: map<Vid, VlanCfg>)

  datatype Setup = Setup(cfg: Cfg, net: Net)

  /** What every operation takes for granted: all slots exist and VLAN 0 exists. */
  predicate Basic(cfg: Cfg) {
    |cfg.ports| == MAX_PORTS && 0 in cfg.vlans
  }

  function VlanFind(cfg: Cfg, vid: Vid): Option<Vid> {
    if vid in cfg.vlans then Some(vid) else None
  }

  predicate Occupies(cfg: Cfg, i: Pidx, dev: DevId)
    requires |cfg.ports| == MAX_PORTS
  {
    i in cfg.busy && cfg.ports[i].dev == Some(dev)
  }

  /** The first busy slot with the device. */
  function PortFind(cfg: Cfg, dev: DevId): (r: Option<Pidx>)
    requires |cfg.ports| == MAX_PORTS
    ensures r.Some? ==> Occupies(cfg, r.value, dev) && forall i: Pidx :: i < r.value ==> !Occupies(cfg, i, dev)
    ensures r.None? ==> forall i: Pidx :: !Occupies(cfg, i, dev)
  {
    var holders := set i: Pidx | i in cfg.busy && cfg.ports[i].dev == Some(dev);
    var i := FirstFrom(holders, 0);
    assert forall j: Pidx :: Occupies(cfg, j, dev) ==> j in holders;
    if i == MAX_PORTS then None else Some(i)
  }

  ghost predicate Enslaved(cfg: Cfg, dev: DevId)
    requires |cfg.ports| == MAX_PORTS
  {
    exists i: Pidx :: i != HOST && Occupies(cfg, i, dev)
  }

  // ---------- commands ----------

  function InitPort(p: PortCfg, pidx: Pidx, dev: DevId): PortCfg {
    p.(dev := Some(dev), pidx := pidx, saLearning := true, vec := Fill() - {pidx}, cached := Some(0))
  }

  /** Slot initialisation: the port joins VLAN 0 untagged and may send to every port but itself. */
  function PortInit(cfg: Cfg, pidx: Pidx, dev: DevId): Cfg
    requires Basic(cfg)
  {
    cfg.(ports := cfg.ports[pidx := InitPort(cfg.ports[pidx], pidx, dev)],
         vlans := cfg.vlans[0 := Attached(cfg.vlans[0], pidx, false)],
         busy := cfg.busy + {pidx})
  }

  /** What is left of a slot's initialisation once the slot was given back. */
  function Uninit(cfg: Cfg, pidx: Pidx): Cfg
    requires Basic(cfg)
  {
    cfg.(ports := cfg.ports[pidx := ZERO_PORT], vlans := cfg.vlans[0 := Attached(cfg.vlans[0], pidx, false)])
  }

  function EmptyCfg(bridge: DevId): Cfg {
    Cfg(bridge, {}, seq(MAX_PORTS, _ => ZERO_PORT), map[0 := NewVlan()])
  }

  /** A new bridge: one slot, for the bridge device itself, and VLAN 0. */
  function NewCfg(bridge: DevId): (cfg: Cfg)
    ensures Basic(cfg)
  {
    PortInit(EmptyCfg(bridge), HOST, bridge)
  }

  /** Which of the kernel services used by a port addition would refuse. */
  datatype Faults = Faults(link: bool, promisc: bool, allmulti: bool, rx: bool)

  /** An Ethernet device that is free to join a bridge. */
  predicate Bridgeable(d: NetDev) {
    !d.loopback && d.ethernet && !d.dsa && d.master.None? && !d.dontBridge
  }

  function AddRefusal(net: Net, dev: DevId): Option<Errno>
    requires dev in net
  {
    var d := net[dev];
    if d.loopback then Some(EINVAL)
    else if !d.ethernet then Some(EINVAL)
    else if d.dsa then Some(EBUSY)
    else if d.master.Some? then Some(EBUSY)
    else if d.dontBridge then Some(EOPNOTSUPP)
    else None
  }

  /** A device cannot be its own master, and an occupied receive hook cannot be taken. */
  predicate KernelRefuses(bridge: DevId, net: Net, dev: DevId, f: Faults)
    requires dev in net
  {
    f.link || dev == bridge || f.promisc || f.allmulti || f.rx || net[dev].rx != NoRx
  }

  function Joined(d: NetDev, bridge: DevId, pidx: Pidx): NetDev {
    d.(master := Some(bridge), promisc := d.promisc + 1, allmulti := d.allmulti + 1,
       rx := BridgeRx(bridge, pidx), bridgePort := true)
  }

  function Released(d: NetDev): NetDev {
    d.(master := None, promisc := d.promisc - 1, allmulti := d.allmulti - 1, rx := NoRx, bridgePort := false)
  }

  /** The rest of the system changes its use of a device. */
  function Used(d: NetDev, promisc: int, allmulti: int): NetDev {
    d.(promisc := d.promisc + promisc, allmulti := d.allmulti + allmulti)
  }

  function AddPort(s: Setup, dev: DevId, f: Faults): (Setup, Status)
    requires Basic(s.cfg) && dev in s.net
  {
    var refusal := AddRefusal(s.net, dev);
    var pidx := FirstZero(s.cfg.busy);
    if refusal.Some? then (s, Failure(refusal.value))
    else if pidx == MAX_PORTS then (s, Failure(EBUSY))
    else if KernelRefuses(s.cfg.bridge, s.net, dev, f) then
      (s.(cfg := Uninit(s.cfg, pidx)), Failure(KERNEL))
    else
      (Setup(PortInit(s.cfg, pidx, dev), s.net[dev := Joined(s.net[dev], s.cfg.bridge, pidx)]), Success)
  }

  function DelPort(s: Setup, dev: DevId): Setup
    requires Basic(s.cfg) && dev in s.net && s.net[dev].rx.BridgeRx?
  {
    var pidx := s.net[dev].rx.pidx;
    Setup(s.cfg.(busy := s.cfg.busy - {pidx}, ports := s.cfg.ports[pidx := ZERO_PORT]),
          s.net[dev := Released(s.net[dev])])
  }

  function SetPort(cfg: Cfg, dev: DevId, pvid: Vid): (Cfg, Status)
    requires Basic(cfg)
  {
    match PortFind(cfg, dev)
    case None => (cfg, Failure(EINVAL))
    case Some(i) =>
      (cfg.(ports := cfg.ports[i := cfg.ports[i].(pvid := pvid, cached := VlanFind(cfg, pvid),
                                                   filtering := pvid != 0)]),
       Success)
  }

  /** Point the cache of every busy port with this PVID at `target`. */
  function Repointed(cfg: Cfg, vid: Vid, target: Option<Vid>): (ports: seq<PortCfg>)
    requires Basic(cfg)
    ensures |ports| == MAX_PORTS
  {
    seq(MAX_PORTS, i requires 0 <= i < MAX_PORTS =>
      if i in cfg.busy && cfg.ports[i].pvid == vid then cfg.ports[i].(cached := target) else cfg.ports[i])
  }

  function AddVlan(cfg: Cfg, vid: Vid, alloc: bool): (Cfg, Status)
    requires Basic(cfg)
  {
    if vid in cfg.vlans then (cfg, Failure(EBUSY))
    else if !alloc then (cfg, Failure(ENOMEM))
    else (cfg.(vlans := cfg.vlans[vid := NewVlan()], ports := Repointed(cfg, vid, Some(vid))), Success)
  }

  /** Deletion as intended: the VLAN can no longer be found. */
  function DelVlan(cfg: Cfg, vid: Vid): (Cfg, Status)
    requires Basic(cfg)
  {
    if vid !in cfg.vlans then (cfg, Failure(ENOENT))
    else (cfg.(vlans := cfg.vlans - {vid}, ports := Repointed(cfg, vid, None)), Success)
  }

  /** Deletion as written: the members are cleared, but the VLAN is never taken out of the hash table. */
  function DelVlanAsWritten(cfg: Cfg, vid: Vid): Cfg
    requires Basic(cfg) && vid in cfg.vlans
  {
    cfg.(vlans := cfg.vlans[vid := cfg.vlans[vid].(members := {})], ports := Repointed(cfg, vid, None))
  }

  function AttachPort(cfg: Cfg, vid: Vid, dev: DevId, tagged: bool): (Cfg, Status)
    requires Basic(cfg) && (PortFind(cfg, dev).Some? ==> vid in cfg.vlans)
  {
    match PortFind(cfg, dev)
    case None => (cfg, Failure(ENODEV))
    case Some(i) => (cfg.(vlans := cfg.vlans[vid := Attached(cfg.vlans[vid], i, tagged)]), Success)
  }

  /** Detaching an unknown port reports success. */
  function DetachPort(cfg: Cfg, vid: Vid, dev: DevId): Cfg
    requires Basic(cfg) && (PortFind(cfg, dev).Some? ==> vid in cfg.vlans)
  {
    match PortFind(cfg, dev)
    case None => cfg
    case Some(i) => cfg.(vlans := cfg.vlans[vid := Detached(cfg.vlans[vid], i)])
  }

  /** Some slot below n, other than the host's, holds the device. */
  ghost predicate EnslavedBelow(cfg: Cfg, dev: DevId, n: nat)
    requires |cfg.ports| == MAX_PORTS
  {
    exists i: Pidx :: 0 < i < n && Occupies(cfg, i, dev)
  }

  /** Teardown as far as slot n: the slots are given back and their devices released, each once. */
  ghost function TornBelow(s: Setup, n: nat): Setup
    requires Basic(s.cfg)
  {
    Setup(s.cfg.(busy := (set i | i in s.cfg.busy && !(0 < i < n)),
                 ports := seq(MAX_PORTS, i requires 0 <= i < MAX_PORTS =>
                   if 0 < i < n then ZERO_PORT else s.cfg.ports[i])),
          map d | d in s.net :: if EnslavedBelow(s.cfg, d, n) then Released(s.net[d]) else s.net[d])
  }

  // ---------- the command machine ----------

  /** `Others` stands for the rest of the system using a device's promiscuity and allmulti counts. */
  datatype Cmd =
    | CmdPortAdd(dev: DevId, faults: Faults)
    | CmdPortDel(dev: DevId)
    | CmdPortSet(dev: DevId, pvid: Vid)
    | CmdVlanAdd(vid: Vid, alloc: bool)
    | CmdVlanDel(vid: Vid)
    | CmdAttach(vid: Vid, dev: DevId, tagged: bool)
    | CmdDetach(vid: Vid, dev: DevId)
    | Others(dev: DevId, promisc: int, allmulti: int)

  /** What the source demands of its callers. */
  ghost predicate Admissible(s: Setup, cmd: Cmd)
    requires Basic(s.cfg)
  {
    match cmd
    case CmdPortAdd(dev, _) => dev in s.net
    case CmdPortDel(dev) => dev in s.net && Enslaved(s.cfg, dev) && s.net[dev].rx.BridgeRx?
    case CmdPortSet(_, _) => true
    case CmdVlanAdd(_, _) => true
    case CmdVlanDel(vid) => vid != 0
    case CmdAttach(vid, dev, _) => PortFind(s.cfg, dev).Some? ==> vid in s.cfg.vlans
    case CmdDetach(vid, dev) => PortFind(s.cfg, dev).Some? ==> vid in s.cfg.vlans
    case Others(dev, _, _) => dev in s.net
  }

  ghost function Execute(s: Setup, cmd: Cmd): Setup
    requires Basic(s.cfg) && Admissible(s, cmd)
  {
    match cmd
    case CmdPortAdd(dev, f) => AddPort(s, dev, f).0
    case CmdPortDel(dev) => DelPort(s, dev)
    case CmdPortSet(dev, pvid) => s.(cfg := SetPort(s.cfg, dev, pvid).0)
    case CmdVlanAdd(vid, alloc) => s.(cfg := AddVlan(s.cfg, vid, alloc).0)
    case CmdVlanDel(vid) => s.(cfg := DelVlan(s.cfg, vid).0)
    case CmdAttach(vid, dev, tagged) => s.(cfg := AttachPort(s.cfg, vid, dev, tagged).0)
    case CmdDetach(vid, dev) => s.(cfg := DetachPort(s.cfg, vid, dev))
    case Others(dev, p, a) => s.(net := s.net[dev := Used(s.net[dev], p, a)])
  }

  // ---------- invariants ----------

  /** A busy slot stores its own index, allows egress to every other port, and its cached VLAN
      is the lookup of its PVID; filtering is on exactly when there is a PVID. */
  ghost predicate SlotOk(cfg: Cfg, i: Pidx)
    requires Basic(cfg)
  {
    var p := cfg.ports[i];
    if i in cfg.busy then
      && p.dev.Some? && p.pidx == i && p.vec == Fill() - {i} && p.saLearning && !p.ctrl
      && p.cached == VlanFind(cfg, p.pvid)
      && (p.filtering <==> p.pvid != 0)
    else p == ZERO_PORT
  }

  ghost predicate CfgInv(cfg: Cfg) {
    && Basic(cfg)
    && Occupies(cfg, HOST, cfg.bridge)
    && (forall i: Pidx :: SlotOk(cfg, i))
    && (forall i: Pidx, j: Pidx :: i in cfg.busy && j in cfg.busy && cfg.ports[i].dev == cfg.ports[j].dev ==> i == j)
  }

  ghost predicate NetOk(cfg: Cfg, net: Net, i: Pidx)
    requires Basic(cfg)
  {
    i in cfg.busy && i != HOST && cfg.ports[i].dev.Some? ==>
      var d := cfg.ports[i].dev.value;
      && d in net && net[d].master == Some(cfg.bridge) && net[d].rx == BridgeRx(cfg.bridge, i) && net[d].bridgePort
  }

  ghost predicate Inv(s: Setup) {
    && CfgInv(s.cfg)
    && (forall i: Pidx :: NetOk(s.cfg, s.net, i))
    && (forall d :: d in s.net && s.net[d].master == Some(s.cfg.bridge) ==> Enslaved(s.cfg, d))
    && (forall d :: d in s.net && s.net[d].bridgePort ==> s.net[d].master.Some?)
  }

  /** Devices that a new bridge can start beside. */
  ghost predicate Unrelated(bridge: DevId, net: Net) {
    forall d :: d in net ==> net[d].master != Some(bridge) && (net[d].bridgePort ==> net[d].master.Some?)
  }

  lemma NewCfgInv(bridge: DevId, net: Net)
    requires Unrelated(bridge, net)
    ensures Inv(Setup(NewCfg(bridge), net))
  {
    var cfg := NewCfg(bridge);
    forall i: Pidx ensures SlotOk(cfg, i) {
    }
  }
}
