/** Whose attachment a VLAN membership goes back to, over runs in which devices come and go. */
module Tenancies {
  import opened Option
  import opened Ports
  import opened Frames
  import opened Config
  import opened ConfigProofs
  import opened Runs

  /** The device whose attach command set a member bit, while neither a detach nor the loss of the slot or
      of the VLAN has ended that. */
  type Credits = map<(Vid, Pidx), DevId>

  ghost function Credited(s: Setup, credits: Credits, ev: Event): Credits
    requires Basic(s.cfg) && Enabled(s, ev)
  {
    if !ev.Command? then credits
    else
      match ev.cmd
      case CmdAttach(vid, dev, _) =>
        (match PortFind(s.cfg, dev)
         case None => credits
         case Some(i) => credits[(vid, i) := dev])
      case CmdDetach(vid, dev) =>
        (match PortFind(s.cfg, dev)
         case None => credits
         case Some(i) => credits - {(vid, i)})
      case CmdPortDel(dev) => map b | b in credits && b.1 != s.net[dev].rx.pidx :: credits[b]
      case CmdVlanDel(vid) => map b | b in credits && b.0 != vid :: credits[b]
      case _ => credits
  }

  predicate HasMember(cfg: Cfg, v: Vid, i: Pidx) {
    v in cfg.vlans && i in cfg.vlans[v].members
  }

  /** Every membership of a port, but for those in VLAN 0, goes back to an attachment of the very device
      that is in the slot. */
  ghost predicate Earned(s: Setup, credits: Credits)
    requires Basic(s.cfg)
  {
    forall v: Vid, i: Pidx :: v != 0 && i in s.cfg.busy && HasMember(s.cfg, v, i) ==>
      (v, i) in credits && s.cfg.ports[i].dev == Some(credits[(v, i)])
  }

  ghost predicate Held(s: Setup, credits: Credits) {
    forall b :: b in credits ==> b.1 in s.cfg.busy
  }

  /** A device is given a slot that an earlier one left without having been detached from every VLAN. */
  ghost predicate Inherits(s: Setup, ev: Event)
    requires Basic(s.cfg) && Enabled(s, ev)
  {
    && ev.Command? && ev.cmd.CmdPortAdd? && AddPort(s, ev.cmd.dev, ev.cmd.faults).1.Success?
    && exists v: Vid :: v != 0 && HasMember(s.cfg, v, FirstZero(s.cfg.busy))
  }

  lemma AddStep(s: Setup, credits: Credits, dev: DevId, f: Faults)
    requires Inv(s) && Earned(s, credits) && Held(s, credits) && dev in s.net
    ensures var ev := Command(CmdPortAdd(dev, f));
            Held(NextSetup(s, ev), credits) && (Earned(NextSetup(s, ev), credits) <==> !Inherits(s, ev))
  {
    var s' := AddPort(s, dev, f).0;
    var n := FirstZero(s.cfg.busy);
    assert forall v: Vid, i: Pidx :: v != 0 ==> (HasMember(s'.cfg, v, i) <==> HasMember(s.cfg, v, i));
    if AddPort(s, dev, f).1.Failure? {
      FailedAddLeavesNothing(s, dev, f);
    }
  }

  lemma DelStep(s: Setup, credits: Credits, dev: DevId)
    requires Inv(s) && Earned(s, credits) && Held(s, credits) && Admissible(s, CmdPortDel(dev))
    ensures var ev := Command(CmdPortDel(dev));
            Held(NextSetup(s, ev), Credited(s, credits, ev)) && Earned(NextSetup(s, ev), Credited(s, credits, ev))
  {
    var s' := DelPort(s, dev);
    assert forall v: Vid, i: Pidx :: HasMember(s'.cfg, v, i) <==> HasMember(s.cfg, v, i);
  }

  lemma MemberStep(s: Setup, credits: Credits, cmd: Cmd)
    requires Inv(s) && Earned(s, credits) && Held(s, credits) && Admissible(s, cmd)
      && (cmd.CmdAttach? || cmd.CmdDetach?)
    ensures var ev := Command(cmd);
            Held(NextSetup(s, ev), Credited(s, credits, ev)) && Earned(NextSetup(s, ev), Credited(s, credits, ev))
  {
    var s' := Execute(s, cmd);
    var slot := PortFind(s.cfg, cmd.dev);
    if slot.Some? {
      assert forall v: Vid, i: Pidx ::
          (v, i) != (cmd.vid, slot.value) ==> (HasMember(s'.cfg, v, i) <==> HasMember(s.cfg, v, i));
      assert HasMember(s'.cfg, cmd.vid, slot.value) <==> cmd.CmdAttach?;
    }
  }

  lemma OtherCommandStep(s: Setup, credits: Credits, cmd: Cmd)
    requires Inv(s) && Earned(s, credits) && Held(s, credits) && Admissible(s, cmd)
    requires cmd.CmdPortSet? || cmd.CmdVlanAdd? || cmd.CmdVlanDel? || cmd.Others?
    ensures var ev := Command(cmd);
            Held(NextSetup(s, ev), Credited(s, credits, ev)) && Earned(NextSetup(s, ev), Credited(s, credits, ev))
  {
    var s' := Execute(s, cmd);
    assert forall v: Vid, i: Pidx ::
        HasMember(s'.cfg, v, i) ==> HasMember(s.cfg, v, i) && !(cmd.CmdVlanDel? && v == cmd.vid);
    assert forall i: Pidx :: s'.cfg.ports[i].dev == s.cfg.ports[i].dev;
  }

  lemma CreditStep(s: Setup, credits: Credits, ev: Event)
    requires Inv(s) && Earned(s, credits) && Held(s, credits) && Enabled(s, ev)
    ensures Inv(NextSetup(s, ev)) && Held(NextSetup(s, ev), Credited(s, credits, ev))
    ensures Earned(NextSetup(s, ev), Credited(s, credits, ev)) <==> !Inherits(s, ev)
  {
    if ev.Command? {
      ExecuteKeepsInv(s, ev.cmd);
      match ev.cmd
      case CmdPortAdd(dev, f) => AddStep(s, credits, dev, f);
      case CmdPortDel(dev) => DelStep(s, credits, dev);
      case CmdAttach(_, _, _) => MemberStep(s, credits, ev.cmd);
      case CmdDetach(_, _) => MemberStep(s, credits, ev.cmd);
      case _ => OtherCommandStep(s, credits, ev.cmd);
    }
  }

  ghost predicate AlwaysEarned(s: Setup, credits: Credits, evs: seq<Event>)
    requires Feasible(s, evs)
    decreases |evs|
  {
    Earned(s, credits) && (evs == [] || AlwaysEarned(NextSetup(s, evs[0]), Credited(s, credits, evs[0]), evs[1..]))
  }

  ghost predicate NeverInherits(s: Setup, evs: seq<Event>)
    requires Feasible(s, evs)
    decreases |evs|
  {
    evs == [] || (!Inherits(s, evs[0]) && NeverInherits(NextSetup(s, evs[0]), evs[1..]))
  }

  /** Over every run all memberships are earned at every instant exactly if no device is ever given a slot
      that still has memberships. */
  lemma {:induction false} MembershipsAreEarned(s: Setup, credits: Credits, evs: seq<Event>)
    requires Inv(s) && Feasible(s, evs) && Earned(s, credits) && Held(s, credits)
    ensures AlwaysEarned(s, credits, evs) <==> NeverInherits(s, evs)
    decreases |evs|
  {
    if evs != [] {
      CreditStep(s, credits, evs[0]);
      if !Inherits(s, evs[0]) {
        MembershipsAreEarned(NextSetup(s, evs[0]), Credited(s, credits, evs[0]), evs[1..]);
      } else {
        NotEarnedNow(NextSetup(s, evs[0]), Credited(s, credits, evs[0]), evs[1..]);
      }
    }
  }

  lemma NotEarnedNow(s: Setup, credits: Credits, evs: seq<Event>)
    requires Feasible(s, evs) && !Earned(s, credits)
    ensures !AlwaysEarned(s, credits, evs)
  {
  }

  /** A new bridge starts without memberships to earn. */
  lemma NothingToEarn(bridge: DevId, net: Net)
    ensures Earned(Setup(NewCfg(bridge), net), map[]) && Held(Setup(NewCfg(bridge), net), map[])
  {
  }

  /** So of every run of a new bridge. */
  lemma NewBridgeMemberships(bridge: DevId, net: Net, evs: seq<Event>)
    requires Unrelated(bridge, net) && Feasible(Setup(NewCfg(bridge), net), evs)
    ensures AlwaysEarned(Setup(NewCfg(bridge), net), map[], evs) <==> NeverInherits(Setup(NewCfg(bridge), net), evs)
  {
    NewCfgInv(bridge, net);
    NothingToEarn(bridge, net);
    MembershipsAreEarned(Setup(NewCfg(bridge), net), map[], evs);
  }

  /** How it goes wrong: the lowest free slot is that of a port deleted while still attached, and the next
      device added is a member of the VLAN without having been attached. */
  lemma SlotIsInherited(s: Setup, dev: DevId, next: DevId, f: Faults, v: Vid)
    requires Inv(s) && Admissible(s, CmdPortDel(dev)) && next in s.net && v != 0
    requires PortFind(s.cfg, dev).Some? && HasMember(s.cfg, v, PortFind(s.cfg, dev).value)
    requires forall i: Pidx :: i < PortFind(s.cfg, dev).value ==> i in s.cfg.busy
    requires AddPort(DelPort(s, dev), next, f).1.Success?
    ensures var s' := AddPort(DelPort(s, dev), next, f).0;
            PortFind(s'.cfg, next) == PortFind(s.cfg, dev) && HasMember(s'.cfg, v, PortFind(s'.cfg, next).value)
    ensures Inherits(DelPort(s, dev), Command(CmdPortAdd(next, f)))
  {
    var i := PortFind(s.cfg, dev).value;
    DeletedPortIsGone(s, dev);
    DelPortKeepsInv(s, dev);
    var s1 := DelPort(s, dev);
    assert i !in s1.cfg.busy;
    assert FirstZero(s1.cfg.busy) == i;
    AddedPortIsFound(s1, next, f);
    assert HasMember(s1.cfg, v, i);
  }

  lemma FeasibleCons(s: Setup, ev: Event, rest: seq<Event>)
    requires Basic(s.cfg) && Enabled(s, ev) && Feasible(NextSetup(s, ev), rest)
    ensures Feasible(s, [ev] + rest)
    ensures NeverInherits(s, [ev] + rest) <==> !Inherits(s, ev) && NeverInherits(NextSetup(s, ev), rest)
  {
    assert ([ev] + rest)[1..] == rest;
  }

  /** A VLAN, a device attached to it and deleted, and the next device. */
  function Succession(vid: Vid, dev: DevId, next: DevId, f: Faults): seq<Event> {
    [Command(CmdVlanAdd(vid, true))] +
    ([Command(CmdPortAdd(dev, f))] +
     ([Command(CmdAttach(vid, dev, true))] +
      ([Command(CmdPortDel(dev))] +
       ([Command(CmdPortAdd(next, f))] + []))))
  }

  /** The device in the lowest slot but the host's, attached. */
  ghost predicate FirstAttached(s: Setup, dev: DevId, vid: Vid) {
    && Inv(s) && s.cfg.busy == {HOST, 1} && PortFind(s.cfg, dev) == Some(1) && HasMember(s.cfg, vid, 1)
    && Admissible(s, CmdPortDel(dev))
  }

  lemma AttachedIsReached(bridge: DevId, net: Net, dev: DevId, f: Faults, vid: Vid)
    requires Unrelated(bridge, net) && vid != 0
    requires dev in net && Bridgeable(net[dev]) && !KernelRefuses(bridge, net, dev, f)
    ensures var s1 := Setup(AddVlan(NewCfg(bridge), vid, true).0, net);
            && Inv(s1) && AddPort(s1, dev, f).1.Success?
            && Admissible(AddPort(s1, dev, f).0, CmdAttach(vid, dev, true))
            && FirstAttached(Execute(AddPort(s1, dev, f).0, CmdAttach(vid, dev, true)), dev, vid)
            && Execute(AddPort(s1, dev, f).0, CmdAttach(vid, dev, true)).net == net[dev := Joined(net[dev], bridge, 1)]
  {
    NewCfgInv(bridge, net);
    AddVlanKeepsInv(Setup(NewCfg(bridge), net), vid, true);
    var s1 := Setup(AddVlan(NewCfg(bridge), vid, true).0, net);
    assert s1.cfg.busy == {HOST};
    assert (1 as Pidx) !in s1.cfg.busy;
    assert FirstZero(s1.cfg.busy) == 1;
    AddedPortIsFound(s1, dev, f);
    var s2 := AddPort(s1, dev, f).0;
    AddPortKeepsInv(s1, dev, f);
    var s3 := Execute(s2, CmdAttach(vid, dev, true));
    ExecuteKeepsInv(s2, CmdAttach(vid, dev, true));
    assert Occupies(s3.cfg, 1, dev);
    PortFindInverts(s3, 1, dev);
  }

  /** On any new bridge any two free devices can be its victims. */
  lemma InheritanceIsReached(bridge: DevId, net: Net, dev: DevId, next: DevId, f: Faults, vid: Vid)
    requires Unrelated(bridge, net) && vid != 0 && dev != next
    requires dev in net && Bridgeable(net[dev]) && !KernelRefuses(bridge, net, dev, f)
    requires next in net && Bridgeable(net[next]) && !KernelRefuses(bridge, net, next, f)
    ensures var s := Setup(NewCfg(bridge), net);
            Feasible(s, Succession(vid, dev, next, f)) && !NeverInherits(s, Succession(vid, dev, next, f))
  {
    var s := Setup(NewCfg(bridge), net);
    var s1 := NextSetup(s, Command(CmdVlanAdd(vid, true)));
    AttachedIsReached(bridge, net, dev, f, vid);
    var s2 := NextSetup(s1, Command(CmdPortAdd(dev, f)));
    var s3 := NextSetup(s2, Command(CmdAttach(vid, dev, true)));
    var s4 := NextSetup(s3, Command(CmdPortDel(dev)));
    var last := Command(CmdPortAdd(next, f));
    DeletedPortIsGone(s3, dev);
    assert 1 !in s4.cfg.busy;
    SlotIsInherited(s3, dev, next, f, vid);
    FeasibleCons(s4, last, []);
    FeasibleCons(s3, Command(CmdPortDel(dev)), [last] + []);
    FeasibleCons(s2, Command(CmdAttach(vid, dev, true)), [Command(CmdPortDel(dev))] + ([last] + []));
    FeasibleCons(s1, Command(CmdPortAdd(dev, f)),
                 [Command(CmdAttach(vid, dev, true))] + ([Command(CmdPortDel(dev))] + ([last] + [])));
    FeasibleCons(s, Command(CmdVlanAdd(vid, true)),
                 [Command(CmdPortAdd(dev, f))] +
                 ([Command(CmdAttach(vid, dev, true))] + ([Command(CmdPortDel(dev))] + ([last] + []))));
  }
}
