/** The forwarding database: table nodes that are updated in place, looked up and collected. */
module ForwardingDb {
  import opened Ports
  import opened Frames
  import opened FdbSpec
  import opened Buffers

  class FdbNode {
    const addr: FdbAddr
    var vec: PortVec
    var proto: Proto
    var tstamp: nat

    constructor (addr: FdbAddr, pidx: Pidx, tstamp: nat)
      ensures this.addr == addr && Value() == Entry({pidx}, Dynamic, tstamp)
    {
      this.addr := addr;
      this.vec := {pidx};
      this.proto := Dynamic;
      this.tstamp := tstamp;
    }

    function Value(): Entry
      reads this
    {
      Entry(vec, proto, tstamp)
    }
  }

  /** What one step of a table walk yields: a node, a request to carry on after a resize, or an error. */
  datatype WalkItem = Node(key: FdbAddr) | Again | Broken

  /** The keys a walk comes past before it breaks off, if it does. */
  function Visited(walk: seq<WalkItem>): (keys: set<FdbAddr>)
    ensures forall k :: k in keys ==> Node(k) in walk
    ensures Broken !in walk ==> forall k :: Node(k) in walk ==> k in keys
  {
    if walk == [] || walk[0].Broken? then {}
    else (if walk[0].Node? then {walk[0].key} else {}) + Visited(walk[1..])
  }

  /** A walk comes past exactly the nodes it yields before it breaks off. */
  lemma {:induction false} VisitedExactly(walk: seq<WalkItem>, k: FdbAddr)
    ensures k in Visited(walk) <==> exists i :: 0 <= i < |walk| && walk[i] == Node(k) && Broken !in walk[..i]
  {
    if walk != [] {
      VisitedExactly(walk[1..], k);
      if i :| 0 <= i < |walk| && walk[i] == Node(k) && Broken !in walk[..i] {
        assert i > 0 ==> walk[0] in walk[..i] && walk[..i][1..] == walk[1..][..i - 1] && walk[1..][i - 1] == Node(k);
      }
      if i :| 0 <= i < |walk| - 1 && walk[1..][i] == Node(k) && Broken !in walk[1..][..i] && !walk[0].Broken? {
        assert walk[..i + 1] == [walk[0]] + walk[1..][..i] && walk[i + 1] == Node(k);
      }
    }
  }

  lemma {:induction false} VisitedAppend(walk: seq<WalkItem>, item: WalkItem)
    requires Broken !in walk && !item.Broken?
    ensures Visited(walk + [item]) == if item.Node? then Visited(walk) + {item.key} else Visited(walk)
  {
    if walk == [] {
      assert (walk + [item])[1..] == [];
    } else {
      assert (walk + [item])[1..] == walk[1..] + [item];
      VisitedAppend(walk[1..], item);
    }
  }

  lemma {:induction false} VisitedBroken(walk: seq<WalkItem>, rest: seq<WalkItem>)
    requires Broken !in walk && rest != [] && rest[0].Broken?
    ensures Visited(walk + rest) == Visited(walk)
  {
    if walk == [] {
      assert walk + rest == rest;
    } else {
      assert (walk + rest)[1..] == walk[1..] + rest;
      VisitedBroken(walk[1..], rest);
    }
  }

  /** A walk that ends normally after coming past every entry. */
  ghost predicate Completes(walk: seq<WalkItem>, t: Table) {
    Broken !in walk && forall k :: k in t ==> Node(k) in walk
  }

  /** However often it was told to start again, a complete walk flushes exactly what matches. */
  lemma CompleteFlush(c: Clock, t: Table, op: FlushOp, walk: seq<WalkItem>, now: nat, timeout: nat)
    requires Completes(walk, t)
    ensures FlushedAmong(c, t, op, Visited(walk), now, timeout) == Flushed(c, t, op, now, timeout)
  {
  }

  twostate lemma SameNodesSameView(fdb: Fdb)
    requires fdb.nodes == old(fdb.nodes)
    requires forall k :: k in fdb.nodes ==> fdb.nodes[k].Value() == old(fdb.nodes[k].Value())
    ensures fdb.View() == old(fdb.View())
  {
  }

  class Fdb {
    const clock: Clock
    var nodes: map<FdbAddr, FdbNode>
    var ageingTimeout: nat

    /** Every node is filed under its own address. */
    ghost predicate Valid()
      reads this
    {
      forall k :: k in nodes ==> nodes[k].addr == k
    }

    ghost function View(): Table
      reads this, nodes.Values
    {
      map k | k in nodes :: nodes[k].Value()
    }

    constructor (clock: Clock, timeout: nat)
      ensures Valid() && View() == map[] && nodes == map[]
      ensures this.clock == clock && ageingTimeout == timeout
    {
      this.clock := clock;
      this.nodes := map[];
      this.ageingTimeout := timeout;
    }

    method NodeIsOld(node: FdbNode, now: nat) returns (isOld: bool)
      ensures isOld == IsOld(clock, node.Value(), now, ageingTimeout)
    {
      isOld := node.proto == Dynamic && TimeIsBefore(clock, node.tstamp + ageingTimeout, now);
    }

    /** The tests a flush makes on a node before it removes it. */
    method Selected(op: FlushOp, node: FdbNode, now: nat) returns (selected: bool)
      ensures selected == Matches(clock, op, node.addr, node.Value(), now, ageingTimeout)
    {
      if op.perPort && op.pidx !in node.vec {
        return false;
      }
      if op.perVlan && node.addr.vid != op.vid {
        return false;
      }
      if op.perProto {
        if node.proto != op.proto {
          return false;
        }
        var isOld := NodeIsOld(node, now);
        if op.proto == Dynamic && op.onlyOld && !isOld {
          return false;
        }
      }
      return true;
    }

    /** One step of a flush, after the part `done` of the walk; a node that is gone already is not come past. */
    method Collect(op: FlushOp, key: FdbAddr, now: nat, ghost before: Table, ghost done: seq<WalkItem>)
      requires Valid() && Broken !in done
      requires View() == FlushedAmong(clock, before, op, Visited(done), now, ageingTimeout)
      modifies this`nodes
      ensures Valid() && nodes.Values <= old(nodes.Values)
      ensures View() == FlushedAmong(clock, before, op, Visited(done + [Node(key)]), now, ageingTimeout)
    {
      VisitedAppend(done, Node(key));
      FlushOneMore(clock, before, op, Visited(done), key, now, ageingTimeout);
      if key in nodes {
        var selected := Selected(op, nodes[key], now);
        if selected {
          nodes := nodes - {key};
          assert View() == old(View()) - {key};
        }
      }
    }

    /** Removes exactly the matching entries among those the walk came past. */
    method Flush(op: FlushOp, now: nat, walk: seq<WalkItem>) returns (failed: bool)
      requires Valid()
      modifies this`nodes
      ensures Valid() && nodes.Values <= old(nodes.Values)
      ensures View() == FlushedAmong(clock, old(View()), op, Visited(walk), now, ageingTimeout)
      ensures failed <==> Broken in walk
    {
      ghost var before := View();
      var i := 0;
      while i < |walk|
        invariant 0 <= i <= |walk|
        invariant Valid() && nodes.Values <= old(nodes.Values)
        invariant Broken !in walk[..i]
        invariant View() == FlushedAmong(clock, before, op, Visited(walk[..i]), now, ageingTimeout)
      {
        match walk[i] {
          case Node(key) =>
            Collect(op, key, now, before, walk[..i]);
          case Again =>
            VisitedAppend(walk[..i], Again);
          case Broken =>
            VisitedBroken(walk[..i], walk[i..]);
            assert walk == walk[..i] + walk[i..];
            return true;
        }
        assert walk[..i + 1] == walk[..i] + [walk[i]];
        i := i + 1;
      }
      assert walk[..i] == walk;
      failed := false;
    }

    /** A complete walk over the table. */
    method Walk() returns (walk: seq<WalkItem>)
      ensures Completes(walk, View())
    {
      var todo := nodes.Keys;
      walk := [];
      while todo != {}
        invariant Broken !in walk && todo <= nodes.Keys
        invariant forall k :: k in nodes && k !in todo ==> Node(k) in walk
        decreases todo
      {
        var key :| key in todo;
        walk := walk + [Node(key)];
        todo := todo - {key};
      }
    }

    /** A flush that is left to finish. */
    method FlushAll(op: FlushOp, now: nat)
      requires Valid()
      modifies this`nodes
      ensures Valid() && nodes.Values <= old(nodes.Values)
      ensures View() == Flushed(clock, old(View()), op, now, ageingTimeout)
    {
      var walk := Walk();
      CompleteFlush(clock, View(), op, walk, now, ageingTimeout);
      var _ := Flush(op, now, walk);
    }

    /** An ageing run that is left to finish. */
    method AgeAll(now: nat) returns (delay: nat)
      requires Valid()
      modifies this`nodes
      ensures Valid() && nodes.Values <= old(nodes.Values)
      ensures View() == Aged(clock, old(View()), now, ageingTimeout) && delay == ageingTimeout / 2
    {
      var walk := Walk();
      delay := Age(now, walk);
    }

    /** One run of the ageing worker; returns the delay after which it runs again. */
    method Age(now: nat, walk: seq<WalkItem>) returns (delay: nat)
      requires Valid()
      modifies this`nodes
      ensures Valid() && nodes.Values <= old(nodes.Values)
      ensures Completes(walk, old(View())) ==> View() == Aged(clock, old(View()), now, ageingTimeout)
      ensures delay == ageingTimeout / 2
    {
      var _ := Flush(FLUSH_AGED, now, walk);
      delay := ageingTimeout / 2;
    }

    method Learn(vid: Vid, src: Mac, pidx: Pidx, now: nat, alloc: bool)
      requires Valid()
      modifies this`nodes, nodes.Values
      ensures Valid() && forall n :: n in nodes.Values ==> n in old(nodes.Values) || fresh(n)
      ensures View() == LearnedFrom(clock, old(View()), vid, src, pidx, now, alloc)
      ensures src == 0 || FirstOctet(src) % 2 == 1 ==> View() == old(View())
    {
      if !IsValidEther(src) {
        return;
      }
      var key := MacAddr(vid, src);
      if key in nodes {
        var node := nodes[key];
        if node.proto != Dynamic {
          return;
        }
        if pidx !in node.vec {
          node.vec := {};
          node.vec := node.vec + {pidx};
        }
        node.tstamp := Stamp(clock, now);
        assert {} + {pidx} == {pidx};
        assert forall k :: k in nodes && k != key ==> nodes[k] != node;
        assert View() == old(View())[key := node.Value()];
        return;
      }
      if !alloc {
        return;
      }
      var node := new FdbNode(key, pidx, Stamp(clock, now));
      nodes := nodes[key := node];
    }

    /** The vector a lookup yields: that of a live entry, or the flood vector. */
    method Filter(vid: Vid, dst: Mac, l3: L3, flood: Flood, now: nat) returns (filter: PortVec)
      requires Valid()
      ensures filter == EgressFilter(clock, View(), LookupKey(vid, dst, l3), flood, dst, now, ageingTimeout)
    {
      var key := MacAddr(vid, dst);
      if IsMulticast(dst) {
        match l3
        case IsIp4(daddr) => key := Ip4Addr(vid, daddr);
        case IsIp6(daddr) => key := Ip6Addr(vid, daddr);
        case IsOther =>
      }
      if key in nodes {
        var isOld := NodeIsOld(nodes[key], now);
        if !isOld {
          return nodes[key].vec;
        }
      }
      if IsMulticast(dst) {
        if IsBroadcast(dst) {
          filter := flood.bc;
        } else {
          filter := flood.mc;
        }
      } else {
        filter := flood.uc;
      }
    }

    /** Learns the source if port and VLAN want it, then narrows the frame's port vector by the destination. */
    method Forward(skb: SkBuff, now: nat, alloc: bool)
      requires Valid() && skb.cb.vlan != null && skb.cb.pidx < MAX_PORTS
      modifies this`nodes, nodes.Values, skb`cb
      ensures Valid() && forall n :: n in nodes.Values ==> n in old(nodes.Values) || fresh(n)
      ensures var cb, f := old(skb.cb), skb.frame;
              && View() == (if cb.saLearning && cb.vlan.saLearning
                            then LearnedFrom(clock, old(View()), cb.vlan.vid, f.src, cb.pidx, now, alloc)
                            else old(View()))
              && skb.cb == cb.(vec := cb.vec * EgressFilter(clock, View(), LookupKey(cb.vlan.vid, f.dst, SeenL3(f)),
                                                            cb.vlan.flood, f.dst, now, ageingTimeout))
    {
      var vlan := skb.cb.vlan;
      if skb.cb.saLearning && vlan.saLearning {
        Learn(vlan.vid, skb.frame.src, skb.cb.pidx, now, alloc);
      }
      var filter := Filter(vlan.vid, skb.frame.dst, SeenL3(skb.frame), vlan.flood, now);
      ghost var view := View();
      skb.cb := skb.cb.(vec := skb.cb.vec * filter);
      assert View() == view;
    }

    /** Teardown: everything goes. */
    method Dellink(now: nat, walk: seq<WalkItem>)
      requires Valid() && Completes(walk, View())
      modifies this`nodes
      ensures Valid() && View() == map[] && nodes.Values <= old(nodes.Values)
    {
      FlushAllEmpties(clock, View(), now, ageingTimeout);
      var _ := Flush(FLUSH_ALL, now, walk);
    }
  }
}
