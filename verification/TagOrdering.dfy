/** A configuration writer attaching and detaching ports of one VLAN, write by write, while forwarders
    read the member bits first and the tagged bits later. */
module TagOrdering {
  import opened Ports
  import opened Config

  /** A single write to one of the two vectors. */
  datatype Write = SetTagged(p: Pidx) | SetMember(p: Pidx) | ClearMember(p: Pidx) | ClearTagged(p: Pidx)

  datatype Command = Attach(p: Pidx, tagged: bool) | Detach(p: Pidx)

  /** The writes of a command, in program order. */
  function WritesOf(c: Command): seq<Write> {
    match c
    case Attach(p, tagged) => if tagged then [SetTagged(p), SetMember(p)] else [SetMember(p)]
    case Detach(p) => [ClearMember(p), ClearTagged(p)]
  }

  function WritesOfAll(cs: seq<Command>): seq<Write> {
    if cs == [] then [] else WritesOf(cs[0]) + WritesOfAll(cs[1..])
  }

  datatype Bits = Bits(members: PortVec, tagged: PortVec)

  function Apply(b: Bits, w: Write): Bits {
    match w
    case SetTagged(p) => b.(tagged := b.tagged + {p})
    case SetMember(p) => b.(members := b.members + {p})
    case ClearMember(p) => b.(members := b.members - {p})
    case ClearTagged(p) => b.(tagged := b.tagged - {p})
  }

  /** What the vectors hold after the first n writes. */
  function After(b: Bits, ws: seq<Write>, n: nat): Bits
    requires n <= |ws|
  {
    if n == 0 then b else Apply(After(b, ws, n - 1), ws[n - 1])
  }

  predicate OnlyTagged(cs: seq<Command>, p: Pidx) {
    forall i :: 0 <= i < |cs| && cs[i].Attach? && cs[i].p == p ==> cs[i].tagged
  }

  predicate MemberImpliesTagged(b: Bits, p: Pidx) {
    p in b.members ==> p in b.tagged
  }

  /** The first n writes of a concatenation, when they reach into its second part. */
  lemma {:induction false} AfterAppend(b: Bits, xs: seq<Write>, ys: seq<Write>, n: nat)
    requires n <= |xs + ys|
    ensures n <= |xs| ==> After(b, xs + ys, n) == After(b, xs, n)
    ensures n > |xs| ==> After(b, xs + ys, n) == After(After(b, xs, |xs|), ys, n - |xs|)
  {
    if n > 0 {
      AfterAppend(b, xs, ys, n - 1);
    }
  }

  /** During a single command a port attached only as tagged is never a member without being tagged. */
  lemma OneCommand(b: Bits, c: Command, p: Pidx, n: nat)
    requires MemberImpliesTagged(b, p) && (c.Attach? && c.p == p ==> c.tagged)
    requires n <= |WritesOf(c)|
    ensures MemberImpliesTagged(After(b, WritesOf(c), n), p)
  {
    var ws := WritesOf(c);
    assert After(b, ws, 0) == b;
    if n >= 1 {
      assert After(b, ws, 1) == Apply(b, ws[0]);
    }
  }

  /** At every instant of every run of commands, a port only ever attached as tagged is tagged
      whenever it is a member. */
  lemma {:induction false} TaggedBeforeMember(b: Bits, cs: seq<Command>, p: Pidx, n: nat)
    requires MemberImpliesTagged(b, p) && OnlyTagged(cs, p) && n <= |WritesOfAll(cs)|
    ensures MemberImpliesTagged(After(b, WritesOfAll(cs), n), p)
    decreases |cs|
  {
    if cs != [] {
      var ws, rest := WritesOf(cs[0]), WritesOfAll(cs[1..]);
      AfterAppend(b, ws, rest, n);
      OneCommand(b, cs[0], p, if n <= |ws| then n else |ws|);
      if n > |ws| {
        TaggedBeforeMember(After(b, ws, |ws|), cs[1..], p, n - |ws|);
      }
    }
  }

  /** Nothing of a detach of the port happens in between. */
  predicate NoDetach(ws: seq<Write>, i: nat, j: nat, p: Pidx)
    requires j <= |ws|
  {
    forall k :: i <= k < j ==> ws[k] != ClearTagged(p)
  }

  lemma {:induction false} TaggedStays(b: Bits, ws: seq<Write>, i: nat, j: nat, p: Pidx)
    requires i <= j <= |ws| && p in After(b, ws, i).tagged && NoDetach(ws, i, j, p)
    ensures p in After(b, ws, j).tagged
  {
    if i < j {
      TaggedStays(b, ws, i, j - 1, p);
    }
  }

  /** A forwarder that found the port to be a member after i writes, and looks at the tagged bit after
      j >= i writes, finds it set unless a detach cleared it in between. */
  lemma ForwarderSeesTag(b: Bits, cs: seq<Command>, p: Pidx, i: nat, j: nat)
    requires MemberImpliesTagged(b, p) && OnlyTagged(cs, p)
    requires i <= j <= |WritesOfAll(cs)|
    requires p in After(b, WritesOfAll(cs), i).members && NoDetach(WritesOfAll(cs), i, j, p)
    ensures p in After(b, WritesOfAll(cs), j).tagged
  {
    TaggedBeforeMember(b, cs, p, i);
    TaggedStays(b, WritesOfAll(cs), i, j, p);
  }

  /** With the two writes of an attach the other way round, a forwarder can see a member without tag. */
  lemma OrderMatters(p: Pidx)
    ensures !MemberImpliesTagged(After(Bits({}, {}), [SetMember(p), SetTagged(p)], 1), p)
  {
    assert After(Bits({}, {}), [SetMember(p), SetTagged(p)], 1) == Apply(Bits({}, {}), SetMember(p));
  }

  function BitsOf(v: VlanCfg): Bits {
    Bits(v.members, v.tagged)
  }

  /** Once all its writes are done a command has done what the configuration commands say. */
  lemma CommandEffect(v: VlanCfg, c: Command)
    ensures After(BitsOf(v), WritesOf(c), |WritesOf(c)|)
         == BitsOf(if c.Attach? then Attached(v, c.p, c.tagged) else Detached(v, c.p))
  {
    assert After(BitsOf(v), WritesOf(c), 1) == Apply(BitsOf(v), WritesOf(c)[0]);
  }
}
