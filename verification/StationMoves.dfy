/** What interleaved learners and the flusher make of one station: the ports its node ends up with, and
    whether it is lost. */
module StationMoves {
  import opened Ports
  import opened Frames
  import opened FdbSpec
  import opened ConcurrentFdb

  // ---------- who wrote to a node's vector ----------

  /** Step k of the run empties the node's vector. */
  ghost predicate EmptiesAt(run: seq<Action>, k: nat, n: NodeId)
    requires Feasible(INITIAL, run) && k < |run|
  {
    var s := At(INITIAL, run, k);
    run[k].Zero? && run[k].t in s.learners && s.learners[run[k].t].pc == AtZero(n)
  }

  /** Step k of the run sets a port in the node's vector, for a learner that moves the station. */
  ghost predicate MovesAt(run: seq<Action>, k: nat, n: NodeId)
    requires Feasible(INITIAL, run) && k < |run|
  {
    run[k].Set? && Moving(At(INITIAL, run, k), run[k].t, n)
  }

  ghost predicate SetsAt(run: seq<Action>, k: nat, n: NodeId, p: Pidx)
    requires Feasible(INITIAL, run) && k < |run|
  {
    MovesAt(run, k, n) && At(INITIAL, run, k).learners[run[k].t].pidx == p
  }

  ghost predicate Moving(s: State, t: Tid, n: NodeId) {
    t in s.learners && s.learners[t].pc == AtSet(n)
  }

  /** Step k of the run makes the node, with that port. */
  ghost predicate MakesAt(run: seq<Action>, k: nat, n: NodeId, p: Pidx)
    requires Feasible(INITIAL, run) && k < |run|
  {
    var s := At(INITIAL, run, k);
    run[k].Alloc? && run[k].n == n && run[k].t in s.learners && s.learners[run[k].t].pidx == p
  }

  /** No step strictly between i and m empties the node's vector. */
  ghost predicate Untouched(run: seq<Action>, i: nat, m: nat, n: NodeId)
    requires Feasible(INITIAL, run) && m <= |run|
  {
    forall k :: i < k < m ==> !EmptiesAt(run, k, n)
  }

  ghost predicate Has(s: State, n: NodeId, p: Pidx) {
    n in s.nodes && p in s.nodes[n].vec
  }

  ghost predicate WrittenAt(run: seq<Action>, k: nat, m: nat, n: NodeId, p: Pidx)
    requires Feasible(INITIAL, run) && m <= |run|
  {
    k < m && (SetsAt(run, k, n, p) || MakesAt(run, k, n, p)) && Untouched(run, k, m, n)
  }

  /** What one step does to a node's vector. */
  lemma VectorStep(run: seq<Action>, m: nat, n: NodeId, p: Pidx)
    requires Feasible(INITIAL, run) && m < |run|
    ensures Has(At(INITIAL, run, m + 1), n, p)
        <==> SetsAt(run, m, n, p) || MakesAt(run, m, n, p) || (Has(At(INITIAL, run, m), n, p) && !EmptiesAt(run, m, n))
    ensures n in At(INITIAL, run, m).nodes ==> n in At(INITIAL, run, m + 1).nodes
    ensures MakesAt(run, m, n, p) ==> n !in At(INITIAL, run, m).nodes && n in At(INITIAL, run, m + 1).nodes
  {
    AtNext(INITIAL, run, m);
  }

  /** At every instant of every run, a port is in a node's vector exactly if it was written there and the
      vector has not been emptied since. */
  lemma {:induction false} VectorIsHistory(run: seq<Action>, m: nat, n: NodeId, p: Pidx)
    requires Feasible(INITIAL, run) && m <= |run|
    ensures Has(At(INITIAL, run, m), n, p) <==> exists k: nat :: WrittenAt(run, k, m, n, p)
  {
    if m > 0 {
      VectorIsHistory(run, m - 1, n, p);
      VectorStep(run, m - 1, n, p);
      if Has(At(INITIAL, run, m), n, p) {
        if SetsAt(run, m - 1, n, p) || MakesAt(run, m - 1, n, p) {
          assert WrittenAt(run, m - 1, m, n, p);
        } else {
          var k: nat :| WrittenAt(run, k, m - 1, n, p);
          assert WrittenAt(run, k, m, n, p);
        }
      }
      if k: nat :| WrittenAt(run, k, m, n, p) {
        if k < m - 1 {
          assert !EmptiesAt(run, m - 1, n);
          assert WrittenAt(run, k, m - 1, n, p);
        }
      }
    }
  }

  lemma {:induction false} NodesStay(run: seq<Action>, i: nat, m: nat, n: NodeId)
    requires Feasible(INITIAL, run) && i <= m <= |run| && n in At(INITIAL, run, i).nodes
    ensures n in At(INITIAL, run, m).nodes
    decreases m - i
  {
    if i < m {
      VectorStep(run, i, n, 0);
      NodesStay(run, i + 1, m, n);
    }
  }

  /** A learner about to set a node's vector has emptied it, and has been about to set it ever since. */
  lemma {:induction false} MoverEmptied(run: seq<Action>, m: nat, t: Tid, n: NodeId) returns (k: nat)
    requires Feasible(INITIAL, run) && m <= |run| && Moving(At(INITIAL, run, m), t, n)
    ensures k < m && EmptiesAt(run, k, n) && n in At(INITIAL, run, k).nodes
    ensures forall i :: k < i <= m ==>
              Moving(At(INITIAL, run, i), t, n)
              && At(INITIAL, run, i).learners[t].pidx == At(INITIAL, run, m).learners[t].pidx
  {
    AtNext(INITIAL, run, m - 1);
    if run[m - 1] == Zero(t) {
      k := m - 1;
    } else {
      k := MoverEmptied(run, m - 1, t, n);
    }
  }

  // ---------- two ports ----------

  /** The vector holds more than one port: the station is in two places at once. */
  ghost predicate TwoPorts(s: State, n: NodeId) {
    n in s.nodes && |s.nodes[n].vec| > 1
  }

  /** Two learners set different ports in the node with no emptying in between. */
  ghost predicate Collide(run: seq<Action>, i: nat, j: nat, n: NodeId)
    requires Feasible(INITIAL, run)
  {
    i < j < |run| && Untouched(run, i, j, n)
    && exists p, q :: p != q && SetsAt(run, i, n, p) && SetsAt(run, j, n, q)
  }

  /** Two learners collided, and the node has not been emptied since. */
  ghost predicate Collided(run: seq<Action>, i: nat, j: nat, m: nat, n: NodeId)
    requires Feasible(INITIAL, run) && m <= |run|
  {
    j < m && Collide(run, i, j, n) && Untouched(run, j, m, n)
  }

  lemma TwoElements(v: PortVec)
    ensures |v| > 1 <==> exists p, q :: p in v && q in v && p != q
  {
    if |v| > 1 {
      var p :| p in v;
      assert |v - {p}| > 0;
      var q :| q in v - {p};
      assert p in v && q in v && p != q;
    } else if |v| == 1 {
      var p :| p in v;
      SingleBit(v, p);
    }
  }

  /** The port a node was made with is gone before any other is set. */
  lemma MadeIsGone(run: seq<Action>, k: nat, l: nat, m: nat, n: NodeId, p: Pidx, q: Pidx)
    requires Feasible(INITIAL, run) && m <= |run| && p != q
    requires WrittenAt(run, k, m, n, p) && WrittenAt(run, l, m, n, q)
    ensures !MakesAt(run, k, n, p)
  {
    if MakesAt(run, k, n, p) {
      VectorStep(run, k, n, p);
      if MakesAt(run, l, n, q) {
        VectorStep(run, l, n, q);
        if k < l {
          NodesStay(run, k + 1, l, n);
        } else if l < k {
          NodesStay(run, l + 1, k, n);
        }
      } else {
        var e := MoverEmptied(run, l, run[l].t, n);
        if e < k {
          NodesStay(run, e, k, n);
        }
      }
    }
  }

  lemma CollisionIsThere(run: seq<Action>, k: nat, l: nat, m: nat, n: NodeId, p: Pidx, q: Pidx)
    requires Feasible(INITIAL, run) && m <= |run| && p != q
    requires WrittenAt(run, k, m, n, p) && WrittenAt(run, l, m, n, q)
    ensures Collided(run, k, l, m, n) || Collided(run, l, k, m, n)
  {
    MadeIsGone(run, k, l, m, n, p, q);
    MadeIsGone(run, l, k, m, n, q, p);
    assert SetsAt(run, k, n, p) && SetsAt(run, l, n, q);
  }

  lemma CollisionShows(run: seq<Action>, i: nat, j: nat, m: nat, n: NodeId)
    requires Feasible(INITIAL, run) && m <= |run| && Collided(run, i, j, m, n)
    ensures TwoPorts(At(INITIAL, run, m), n)
  {
    var p, q :| p != q && SetsAt(run, i, n, p) && SetsAt(run, j, n, q);
    assert WrittenAt(run, j, m, n, q);
    assert WrittenAt(run, i, m, n, p);
    VectorIsHistory(run, m, n, p);
    VectorIsHistory(run, m, n, q);
    TwoElements(At(INITIAL, run, m).nodes[n].vec);
  }

  /** At every instant of every run, a node has two ports exactly if two learners collided in it and it
      has not been emptied since. */
  lemma TwoPortsAt(run: seq<Action>, m: nat, n: NodeId)
    requires Feasible(INITIAL, run) && m <= |run|
    ensures TwoPorts(At(INITIAL, run, m), n) <==> exists i: nat, j: nat :: Collided(run, i, j, m, n)
  {
    var s := At(INITIAL, run, m);
    if TwoPorts(s, n) {
      TwoElements(s.nodes[n].vec);
      var p, q :| p in s.nodes[n].vec && q in s.nodes[n].vec && p != q;
      VectorIsHistory(run, m, n, p);
      VectorIsHistory(run, m, n, q);
      var k: nat :| WrittenAt(run, k, m, n, p);
      var l: nat :| WrittenAt(run, l, m, n, q);
      CollisionIsThere(run, k, l, m, n, p, q);
    }
    if i: nat, j: nat :| Collided(run, i, j, m, n) {
      CollisionShows(run, i, j, m, n);
    }
  }

  /** A run brings a node to two ports exactly if two learners collide in it. */
  lemma TwoPortsExactly(run: seq<Action>, n: NodeId)
    requires Feasible(INITIAL, run)
    ensures (exists m: nat :: m <= |run| && TwoPorts(At(INITIAL, run, m), n))
        <==> (exists i: nat, j: nat :: Collide(run, i, j, n))
  {
    if m: nat :| m <= |run| && TwoPorts(At(INITIAL, run, m), n) {
      TwoPortsAt(run, m, n);
      var i: nat, j: nat :| Collided(run, i, j, m, n);
    }
    if i: nat, j: nat :| Collide(run, i, j, n) {
      TwoPortsAt(run, j + 1, n);
      assert Collided(run, i, j, j + 1, n);
    }
  }

  /** Two learners are in the middle of moving the same node to different ports. */
  ghost predicate Contested(s: State, n: NodeId) {
    exists t, u :: Moving(s, t, n) && Moving(s, u, n) && s.learners[t].pidx != s.learners[u].pidx
  }

  /** Learners collide only where their moves overlap. */
  lemma CollisionsOverlap(run: seq<Action>, i: nat, j: nat, n: NodeId)
    requires Feasible(INITIAL, run) && Collide(run, i, j, n)
    ensures Contested(At(INITIAL, run, i), n)
  {
    var k := MoverEmptied(run, j, run[j].t, n);
    assert k < i;
    assert Moving(At(INITIAL, run, i), run[i].t, n) && Moving(At(INITIAL, run, i), run[j].t, n);
  }

  /** So over every run in which moves of a node to different ports do not overlap it keeps at most one port. */
  lemma ExclusiveMovesKeepOnePort(run: seq<Action>, n: NodeId)
    requires Feasible(INITIAL, run)
    requires forall m: nat :: m <= |run| ==> !Contested(At(INITIAL, run, m), n)
    ensures forall m: nat :: m <= |run| ==> !TwoPorts(At(INITIAL, run, m), n)
  {
    TwoPortsExactly(run, n);
    if i: nat, j: nat :| Collide(run, i, j, n) {
      CollisionsOverlap(run, i, j, n);
    }
  }

  // ---------- no port ----------

  ghost predicate EmptySince(run: seq<Action>, k: nat, m: nat, n: NodeId)
    requires Feasible(INITIAL, run) && m <= |run|
  {
    k < m && EmptiesAt(run, k, n) && forall i :: k < i < m ==> !MovesAt(run, i, n)
  }

  lemma EmptySinceNext(run: seq<Action>, m: nat, m': nat, n: NodeId)
    requires Feasible(INITIAL, run) && m' == m + 1 <= |run| && !EmptiesAt(run, m, n) && !MovesAt(run, m, n)
    ensures (exists k: nat :: EmptySince(run, k, m, n)) <==> (exists k: nat :: EmptySince(run, k, m', n))
  {
    if k: nat :| EmptySince(run, k, m, n) {
      assert EmptySince(run, k, m', n);
    }
    if k: nat :| EmptySince(run, k, m', n) {
      assert EmptySince(run, k, m, n);
    }
  }

  /** A node has no port, and frames to the station go nowhere, exactly between an emptying and the next
      setting. */
  lemma {:induction false} NoPortExactly(run: seq<Action>, m: nat, n: NodeId)
    requires Feasible(INITIAL, run) && m <= |run| && n in At(INITIAL, run, m).nodes
    ensures At(INITIAL, run, m).nodes[n].vec == {} <==> exists k: nat :: EmptySince(run, k, m, n)
  {
    if m > 0 {
      AtNext(INITIAL, run, m - 1);
      var s, s' := At(INITIAL, run, m - 1), At(INITIAL, run, m);
      if n in s.nodes {
        NoPortExactly(run, m - 1, n);
        if EmptiesAt(run, m - 1, n) {
          assert EmptySince(run, m - 1, m, n);
        } else if MovesAt(run, m - 1, n) {
          assert s.learners[run[m - 1].t].pidx in s'.nodes[n].vec;
        } else {
          assert s'.nodes[n].vec == s.nodes[n].vec;
          EmptySinceNext(run, m - 1, m, n);
        }
      } else {
        var p := s.learners[run[m - 1].t].pidx;
        assert p in s'.nodes[n].vec;
        if k: nat :| EmptySince(run, k, m, n) {
          AtNext(INITIAL, run, k);
          NodesStay(run, k, m - 1, n);
        }
      }
    }
  }

  // ---------- a station lost right after it was heard ----------

  ghost predicate PickedIn(run: seq<Action>, i: nat, m: nat, n: NodeId)
    requires m <= |run|
  {
    exists k :: i <= k < m && run[k].Pick? && run[k].n == n
  }

  ghost predicate RemovalIn(run: seq<Action>, i: nat, m: nat)
    requires m <= |run|
  {
    exists k :: i <= k < m && run[k].Remove?
  }

  /** The node is gone exactly if it was picked and a node was removed since; until then the flusher is
      after it exactly if it was picked. */
  ghost predicate Fate(s: State, n: NodeId, picked: bool, removed: bool) {
    && n in s.nodes
    && (n in s.table <==> !(picked && removed))
    && (n in s.table ==> (s.flusher == AtRemove(n) <==> picked))
    && (n !in s.table ==> Unlinked(s, n) || n in s.retired)
  }

  lemma FateStep(s: State, a: Action, n: NodeId, picked: bool, removed: bool)
    requires Enabled(s, a) && !(a.Pick? && a.n == n) && Fate(s, n, picked, removed)
    requires a.Insert? && n !in s.table ==> s.learners[a.t].pc.own != n
    ensures Fate(Step(s, a), n, picked, removed || a.Remove?)
  {
  }

  /** A node on its way out of the table does not come back. */
  lemma InsertedIsNew(s: State, a: Action, n: NodeId)
    requires Inv(s) && Enabled(s, a) && a.Insert? && n in s.nodes && (Unlinked(s, n) || n in s.retired)
    ensures s.learners[a.t].pc.own != n
  {
    assert NodeOk(s, n) && Owns(s.learners[a.t], s.learners[a.t].pc.own);
  }

  lemma FateAtNext(run: seq<Action>, m: nat, n: NodeId, picked: bool, removed: bool)
    requires Feasible(INITIAL, run) && m < |run| && !(run[m].Pick? && run[m].n == n)
    requires Fate(At(INITIAL, run, m), n, picked, removed)
    ensures Fate(At(INITIAL, run, m + 1), n, picked, removed || run[m].Remove?)
  {
    InitialInv();
    AtInv(INITIAL, run, m);
    AtNext(INITIAL, run, m);
    if run[m].Insert? && n !in At(INITIAL, run, m).table {
      InsertedIsNew(At(INITIAL, run, m), run[m], n);
    }
    FateStep(At(INITIAL, run, m), run[m], n, picked, removed);
  }

  lemma FateAtFirst(run: seq<Action>, i: nat, n: NodeId)
    requires Feasible(INITIAL, run) && i <= |run| && n in At(INITIAL, run, i).table
    ensures Fate(At(INITIAL, run, i), n, At(INITIAL, run, i).flusher == AtRemove(n), false)
  {
    InitialInv();
    AtInv(INITIAL, run, i);
    assert NodeOk(At(INITIAL, run, i), n);
  }

  /** The flusher tests a node when it picks it and does not look again. From any instant i on, and whatever
      learners have written to it, a node not picked again is lost exactly if it had been picked already
      and the flusher goes on to remove it. */
  lemma {:induction false} LostExactly(run: seq<Action>, i: nat, m: nat, n: NodeId)
    requires Feasible(INITIAL, run) && i <= m <= |run| && n in At(INITIAL, run, i).table && !PickedIn(run, i, m, n)
    ensures n !in At(INITIAL, run, m).table <==> At(INITIAL, run, i).flusher == AtRemove(n) && RemovalIn(run, i, m)
    ensures Fate(At(INITIAL, run, m), n, At(INITIAL, run, i).flusher == AtRemove(n), RemovalIn(run, i, m))
    decreases m - i
  {
    if i == m {
      FateAtFirst(run, i, n);
    } else {
      assert !PickedIn(run, i, m - 1, n);
      LostExactly(run, i, m - 1, n);
      FateAtNext(run, m - 1, n, At(INITIAL, run, i).flusher == AtRemove(n), RemovalIn(run, i, m - 1));
      assert RemovalIn(run, i, m) <==> RemovalIn(run, i, m - 1) || run[m - 1].Remove?;
    }
  }

  // ---------- both are reached ----------

  function Then(a: Action, rest: seq<Action>): seq<Action> {
    [a] + rest
  }

  /** One station, known on port p since time 0. */
  ghost function Known(key: FdbAddr, p: Pidx): State {
    State(map[0 := NodeRec(key, {p}, Dynamic, 0)], {0}, {}, multiset{}, {}, map[], map[], FlusherIdle, {(key, p)})
  }

  function Learning(key: FdbAddr, p: Pidx, rest: seq<Action>): seq<Action> {
    Then(Begin(0, key, p), Then(Miss(0), Then(Alloc(0, 0, 0), Then(Insert(0), rest))))
  }

  lemma KnownIsReached(key: FdbAddr, p: Pidx, rest: seq<Action>)
    requires Feasible(Known(key, p), rest)
    ensures Feasible(INITIAL, Learning(key, p, rest))
      && Run(INITIAL, Learning(key, p, rest)) == Run(Known(key, p), rest)
  {
    var s1 := Step(INITIAL, Begin(0, key, p));
    var s2 := Step(s1, Miss(0));
    var s3 := Step(s2, Alloc(0, 0, 0));
    assert Step(s3, Insert(0)) == Known(key, p);
    RunCons(s3, Insert(0), rest);
    RunCons(s2, Alloc(0, 0, 0), Then(Insert(0), rest));
    RunCons(s1, Miss(0), Then(Alloc(0, 0, 0), Then(Insert(0), rest)));
    RunCons(INITIAL, Begin(0, key, p), Then(Miss(0), Then(Alloc(0, 0, 0), Then(Insert(0), rest))));
  }

  /** Two learners that find the station, and then test it, on a third port. */
  function BothFind(key: FdbAddr, p: Pidx, q: Pidx): seq<Action> {
    Then(Begin(1, key, p), Then(Begin(2, key, q), Then(Find(1, 0), Then(Find(2, 0), BothTest()))))
  }

  function BothTest(): seq<Action> {
    Then(Test(1), Then(Test(2), BothMove()))
  }

  function BothMove(): seq<Action> {
    Then(Zero(1), Then(Zero(2), Then(Set(1), Then(Set(2), []))))
  }

  ghost predicate AboutToMove(s: State, t: Tid, n: NodeId, p: Pidx) {
    t in s.learners && s.learners[t].pc == AtZero(n) && s.learners[t].pidx == p
  }

  lemma BothMoveReaches(s: State, p: Pidx, q: Pidx)
    requires 0 in s.nodes && AboutToMove(s, 1, 0, p) && AboutToMove(s, 2, 0, q)
    ensures Feasible(s, BothMove()) && Has(Run(s, BothMove()), 0, p) && Has(Run(s, BothMove()), 0, q)
  {
    var s1 := Step(s, Zero(1));
    var s2 := Step(s1, Zero(2));
    var s3 := Step(s2, Set(1));
    RunCons(s3, Set(2), []);
    RunCons(s2, Set(1), Then(Set(2), []));
    RunCons(s1, Zero(2), Then(Set(1), Then(Set(2), [])));
    RunCons(s, Zero(1), Then(Zero(2), Then(Set(1), Then(Set(2), []))));
  }

  lemma BothTestReaches(s: State, o: Pidx, p: Pidx, q: Pidx)
    requires 0 in s.nodes && s.nodes[0].vec == {o} && s.nodes[0].proto == Dynamic && o != p && o != q
    requires 1 in s.learners && s.learners[1].pc == AtTest(0) && s.learners[1].pidx == p
    requires 2 in s.learners && s.learners[2].pc == AtTest(0) && s.learners[2].pidx == q
    ensures Feasible(s, BothTest()) && Has(Run(s, BothTest()), 0, p) && Has(Run(s, BothTest()), 0, q)
  {
    var s1 := Step(s, Test(1));
    var s2 := Step(s1, Test(2));
    BothMoveReaches(s2, p, q);
    RunCons(s1, Test(2), BothMove());
    RunCons(s, Test(1), Then(Test(2), BothMove()));
  }

  lemma BothFindReaches(s: State, key: FdbAddr, o: Pidx, p: Pidx, q: Pidx)
    requires s == Known(key, o) && o != p && o != q
    ensures Feasible(s, BothFind(key, p, q))
    ensures Has(Run(s, BothFind(key, p, q)), 0, p) && Has(Run(s, BothFind(key, p, q)), 0, q)
  {
    var s1 := Step(s, Begin(1, key, p));
    var s2 := Step(s1, Begin(2, key, q));
    var s3 := Step(s2, Find(1, 0));
    var s4 := Step(s3, Find(2, 0));
    BothTestReaches(s4, o, p, q);
    RunCons(s3, Find(2, 0), BothTest());
    RunCons(s2, Find(1, 0), Then(Find(2, 0), BothTest()));
    RunCons(s1, Begin(2, key, q), Then(Find(1, 0), Then(Find(2, 0), BothTest())));
    RunCons(s, Begin(1, key, p), Then(Begin(2, key, q), Then(Find(1, 0), Then(Find(2, 0), BothTest()))));
  }

  /** From the empty database: a station is learnt on one port, then heard on two others at once. */
  lemma TwoPortsReached(key: FdbAddr, o: Pidx, p: Pidx, q: Pidx)
    requires o != p && o != q && p != q
    ensures var run := Learning(key, o, BothFind(key, p, q));
            Feasible(INITIAL, run) && TwoPorts(Run(INITIAL, run), 0)
  {
    BothFindReaches(Known(key, o), key, o, p, q);
    KnownIsReached(key, o, BothFind(key, p, q));
    TwoElements(Run(Known(key, o), BothFind(key, p, q)).nodes[0].vec);
  }

  function RefreshUnderFlush(key: FdbAddr, p: Pidx, timeout: nat): seq<Action> {
    Then(Begin(1, key, p), Then(Find(1, 0), Then(Test(1), Then(Pick(0, FLUSH_AGED, timeout + 1, timeout),
      Then(Stamp(1, timeout + 1), Then(Remove, []))))))
  }

  /** From the empty database: the ageing worker finds the station expired, the station is heard, and the
      worker removes its fresh entry. */
  lemma RefreshedIsLost(key: FdbAddr, p: Pidx, timeout: nat)
    ensures var run := Learning(key, p, RefreshUnderFlush(key, p, timeout));
            && Feasible(INITIAL, run)
            && !HasKey(Run(INITIAL, run), key)
            && 0 in Run(INITIAL, run).nodes
            && !IsOld(Unbounded, EntryOf(Run(INITIAL, run).nodes[0]), timeout + 1, timeout)
  {
    var s := Known(key, p);
    var pick := Pick(0, FLUSH_AGED, timeout + 1, timeout);
    var s1 := Step(s, Begin(1, key, p));
    var s2 := Step(s1, Find(1, 0));
    var s3 := Step(s2, Test(1));
    var s4 := Step(s3, pick);
    var s5 := Step(s4, Stamp(1, timeout + 1));
    RunCons(s5, Remove, []);
    RunCons(s4, Stamp(1, timeout + 1), Then(Remove, []));
    RunCons(s3, pick, Then(Stamp(1, timeout + 1), Then(Remove, [])));
    RunCons(s2, Test(1), Then(pick, Then(Stamp(1, timeout + 1), Then(Remove, []))));
    RunCons(s1, Find(1, 0), Then(Test(1), Then(pick, Then(Stamp(1, timeout + 1), Then(Remove, [])))));
    RunCons(s, Begin(1, key, p),
            Then(Find(1, 0), Then(Test(1), Then(pick, Then(Stamp(1, timeout + 1), Then(Remove, []))))));
    KnownIsReached(key, p, RefreshUnderFlush(key, p, timeout));
  }
}
