/** A learn call that no other one overlaps is the sequential learning function. */
module LoneLearner {
  import opened Ports
  import opened Frames
  import opened FdbSpec
  import opened ConcurrentFdb

  /** The nodes in the table, read as one value. */
  ghost predicate Shows(s: State, t: Table) {
    && (forall n :: n in s.table && n in s.nodes ==> s.nodes[n].key in t && t[s.nodes[n].key] == EntryOf(s.nodes[n]))
    && (forall key :: key in t ==> HasKey(s, key))
  }

  /** The accesses of a learn call that finds node n. */
  function HitRun(s: State, t: Tid, key: FdbAddr, pidx: Pidx, n: NodeId, now: nat): seq<Action>
    requires n in s.nodes
  {
    var r := s.nodes[n];
    if r.proto != Dynamic then [Begin(t, key, pidx), Find(t, n), Test(t)]
    else if pidx in r.vec then [Begin(t, key, pidx), Find(t, n), Test(t), Stamp(t, now)]
    else [Begin(t, key, pidx), Find(t, n), Test(t), Zero(t), Set(t), Stamp(t, now)]
  }

  /** The accesses of a learn call that finds nothing; n is the node it is given, if any. */
  function MissRun(t: Tid, key: FdbAddr, pidx: Pidx, n: NodeId, now: nat, alloc: bool): seq<Action> {
    if alloc then [Begin(t, key, pidx), Miss(t), Alloc(t, n, now), Insert(t)]
    else [Begin(t, key, pidx), Miss(t), AllocFails(t)]
  }

  /** Two states with the same table contents, but for what node n holds. */
  lemma ShowsUpdate(s: State, s': State, table: Table, n: NodeId, key: FdbAddr)
    requires Inv(s) && Shows(s, table) && n in s.table && n in s.nodes && s.nodes[n].key == key
    requires s'.table == s.table && n in s'.nodes && s'.nodes == s.nodes[n := s'.nodes[n]] && s'.nodes[n].key == key
    ensures Shows(s', table[key := EntryOf(s'.nodes[n])])
  {
    forall k | k in table[key := EntryOf(s'.nodes[n])] ensures HasKey(s', k) {
      if k == key {
        assert n in s'.table && s'.nodes[n].key == k;
      } else {
        assert HasKey(s, k);
        var m :| m in s.table && m in s.nodes && s.nodes[m].key == k;
        assert m in s'.table && s'.nodes[m].key == k;
      }
    }
  }

  /** From the test on, the learner is at a dynamic node. */
  lemma HitFromTest(s: State, t: Tid, n: NodeId, now: nat)
    requires t in s.learners && s.learners[t].pc == AtTest(n) && n in s.nodes && s.nodes[n].proto == Dynamic
    ensures var l, r := s.learners[t], s.nodes[n];
            var run := if l.pidx in r.vec then [Test(t), Stamp(t, now)] else [Test(t), Zero(t), Set(t), Stamp(t, now)];
            && Feasible(s, run) && Run(s, run).table == s.table
            && Run(s, run).nodes == s.nodes[n := r.(vec := if l.pidx in r.vec then r.vec else {l.pidx}, tstamp := now)]
  {
    var pidx := s.learners[t].pidx;
    var s1 := Step(s, Test(t));
    if pidx in s.nodes[n].vec {
      RunOne(s1, Stamp(t, now));
      RunCons(s, Test(t), [Stamp(t, now)]);
      assert [Test(t)] + [Stamp(t, now)] == [Test(t), Stamp(t, now)];
    } else {
      var s2 := Step(s1, Zero(t));
      var s3 := Step(s2, Set(t));
      assert {} + {pidx} == {pidx};
      RunOne(s3, Stamp(t, now));
      RunCons(s2, Set(t), [Stamp(t, now)]);
      RunCons(s1, Zero(t), [Set(t)] + [Stamp(t, now)]);
      RunCons(s, Test(t), [Zero(t)] + ([Set(t)] + [Stamp(t, now)]));
      assert [Test(t)] + ([Zero(t)] + ([Set(t)] + [Stamp(t, now)])) == [Test(t), Zero(t), Set(t), Stamp(t, now)];
    }
  }

  lemma HitReaches(s: State, t: Tid, key: FdbAddr, pidx: Pidx, n: NodeId, now: nat)
    requires t !in s.learners && n in s.table && n in s.nodes && s.nodes[n].key == key
    ensures var run, r := HitRun(s, t, key, pidx, n, now), s.nodes[n];
            && Feasible(s, run)
            && Run(s, run).table == s.table
            && Run(s, run).nodes == s.nodes[n := if r.proto != Dynamic then r
                                                 else r.(vec := if pidx in r.vec then r.vec else {pidx}, tstamp := now)]
  {
    var run := HitRun(s, t, key, pidx, n, now);
    var s1 := Step(s, Begin(t, key, pidx));
    var s2 := Step(s1, Find(t, n));
    if s.nodes[n].proto != Dynamic {
      RunOne(s2, Test(t));
    } else {
      HitFromTest(s2, t, n, now);
    }
    RunCons(s1, Find(t, n), run[2..]);
    RunCons(s, Begin(t, key, pidx), [Find(t, n)] + run[2..]);
    assert [Begin(t, key, pidx)] + ([Find(t, n)] + run[2..]) == run;
  }

  /** A learner left alone that finds its station does what the sequential learning function does. */
  lemma LoneHitLearns(s: State, table: Table, t: Tid, key: FdbAddr, pidx: Pidx, n: NodeId, now: nat, alloc: bool)
    requires Inv(s) && Shows(s, table) && t !in s.learners
    requires n in s.table && n in s.nodes && s.nodes[n].key == key
    ensures var run := HitRun(s, t, key, pidx, n, now);
            Feasible(s, run) && Shows(Run(s, run), Learned(Unbounded, table, key, pidx, now, alloc))
  {
    HitReaches(s, t, key, pidx, n, now);
    var s' := Run(s, HitRun(s, t, key, pidx, n, now));
    ShowsUpdate(s, s', table, n, key);
    assert table[key := EntryOf(s'.nodes[n])] == Learned(Unbounded, table, key, pidx, now, alloc);
  }

  lemma MissReaches(s: State, t: Tid, key: FdbAddr, pidx: Pidx, n: NodeId, now: nat, alloc: bool)
    requires t !in s.learners && !HasKey(s, key) && n !in s.nodes && n !in s.table
    ensures var run := MissRun(t, key, pidx, n, now, alloc);
            && Feasible(s, run)
            && Run(s, run).table == (if alloc then s.table + {n} else s.table)
            && Run(s, run).nodes == if alloc then s.nodes[n := NodeRec(key, {pidx}, Dynamic, now)] else s.nodes
  {
    var run := MissRun(t, key, pidx, n, now, alloc);
    var s1 := Step(s, Begin(t, key, pidx));
    assert !HasKey(s1, key);
    var s2 := Step(s1, Miss(t));
    if alloc {
      var s3 := Step(s2, Alloc(t, n, now));
      assert !HasKey(s3, key);
      RunOne(s3, Insert(t));
      RunCons(s2, Alloc(t, n, now), [Insert(t)]);
    } else {
      RunOne(s2, AllocFails(t));
    }
    RunCons(s1, Miss(t), run[2..]);
    RunCons(s, Begin(t, key, pidx), [Miss(t)] + run[2..]);
    assert [Begin(t, key, pidx)] + ([Miss(t)] + run[2..]) == run;
    assert alloc ==> run[2..] == [Alloc(t, n, now)] + [Insert(t)];
    assert !alloc ==> run[2..] == [AllocFails(t)];
  }

  /** A learner left alone that finds nothing does what the sequential learning function does. */
  lemma LoneMissLearns(s: State, table: Table, t: Tid, key: FdbAddr, pidx: Pidx, n: NodeId, now: nat, alloc: bool)
    requires Inv(s) && Shows(s, table) && t !in s.learners && key !in table && n !in s.nodes
    ensures var run := MissRun(t, key, pidx, n, now, alloc);
            Feasible(s, run) && Shows(Run(s, run), Learned(Unbounded, table, key, pidx, now, alloc))
  {
    assert !HasKey(s, key);
    assert NodeOk(s, n);
    MissReaches(s, t, key, pidx, n, now, alloc);
    var s' := Run(s, MissRun(t, key, pidx, n, now, alloc));
    var table' := Learned(Unbounded, table, key, pidx, now, alloc);
    forall k | k in table' ensures HasKey(s', k) {
      if k in table {
        assert HasKey(s, k);
        var m :| m in s.table && m in s.nodes && s.nodes[m].key == k;
        assert m in s'.table && s'.nodes[m].key == k;
      } else {
        assert n in s'.table && s'.nodes[n].key == k;
      }
    }
  }
}
