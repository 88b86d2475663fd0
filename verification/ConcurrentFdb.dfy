/** Any number of learners and one flusher working on the forwarding database at the same time,
    interleaved at every access to shared state. */
module ConcurrentFdb {
  import opened Ports
  import opened Frames
  import opened FdbSpec

  type NodeId = nat
  type Tid = nat

  datatype NodeRec = NodeRec(key: FdbAddr, vec: PortVec, proto: Proto, tstamp: nat)

  /** What a learner does next; the node is one it found, or one it allocated. */
  datatype Pc =
    | AtLookup
    | AtTest(found: NodeId)
    | AtZero(found: NodeId)
    | AtSet(found: NodeId)
    | AtStamp(found: NodeId)
    | AtAlloc
    | AtInsert(own: NodeId)
    | AtFree(own: NodeId)

  datatype Learner = Learner(pc: Pc, key: FdbAddr, pidx: Pidx)

  function EntryOf(r: NodeRec): Entry {
    Entry(r.vec, r.proto, r.tstamp)
  }

  /** The flusher picks a node in the table that matches what it is to flush, takes it out, and hands it
      over for deferred freeing. */
  datatype FlusherPc = FlusherIdle | AtRemove(node: NodeId) | AtRetire(node: NodeId)

  /** `lost` are nodes freed because their insertion failed; `retired` counts hand-overs for deferred
      freeing; `readers` are the learners a retired node still waits for; `calls` are all learn calls so far. */
  datatype State = State(
    nodes: map<NodeId, NodeRec>,
    table: set<NodeId>,
    lost: set<NodeId>,
    retired: multiset<NodeId>,
    reclaimed: set<NodeId>,
    readers: map<NodeId, set<Tid>>,
    learners: map<Tid, Learner>,
    flusher: FlusherPc,
    calls: set<(FdbAddr, Pidx)>)

  datatype Action =
    | Begin(t: Tid, key: FdbAddr, pidx: Pidx)
    | Find(t: Tid, n: NodeId)
    | Miss(t: Tid)
    | Test(t: Tid)
    | Zero(t: Tid)
    | Set(t: Tid)
    | Stamp(t: Tid, now: nat)
    | Alloc(t: Tid, n: NodeId, now: nat)
    | AllocFails(t: Tid)
    | Insert(t: Tid)
    | InsertFails(t: Tid)
    | Free(t: Tid)
    | Pick(n: NodeId, op: FlushOp, now: nat, timeout: nat)
    | Remove
    | Retire
    | Reclaim(n: NodeId)

  ghost predicate HasKey(s: State, key: FdbAddr) {
    exists n :: n in s.table && n in s.nodes && s.nodes[n].key == key
  }

  ghost predicate Enabled(s: State, a: Action) {
    match a
    case Begin(t, _, _) => t !in s.learners
    case Find(t, n) =>
      && t in s.learners && s.learners[t].pc.AtLookup?
      && n in s.table && n in s.nodes && s.nodes[n].key == s.learners[t].key
    case Miss(t) => t in s.learners && s.learners[t].pc.AtLookup? && !HasKey(s, s.learners[t].key)
    case Test(t) => t in s.learners && s.learners[t].pc.AtTest? && s.learners[t].pc.found in s.nodes
    case Zero(t) => t in s.learners && s.learners[t].pc.AtZero? && s.learners[t].pc.found in s.nodes
    case Set(t) => t in s.learners && s.learners[t].pc.AtSet? && s.learners[t].pc.found in s.nodes
    case Stamp(t, _) => t in s.learners && s.learners[t].pc.AtStamp? && s.learners[t].pc.found in s.nodes
    case Alloc(t, n, _) => t in s.learners && s.learners[t].pc.AtAlloc? && n !in s.nodes
    case AllocFails(t) => t in s.learners && s.learners[t].pc.AtAlloc?
    case Insert(t) => t in s.learners && s.learners[t].pc.AtInsert? && !HasKey(s, s.learners[t].key)
    case InsertFails(t) => t in s.learners && s.learners[t].pc.AtInsert?
    case Free(t) => t in s.learners && s.learners[t].pc.AtFree?
    case Pick(n, op, now, timeout) =>
      s.flusher.FlusherIdle? && n in s.table && n in s.nodes
      && Matches(Unbounded, op, s.nodes[n].key, EntryOf(s.nodes[n]), now, timeout)
    case Remove => s.flusher.AtRemove?
    case Retire => s.flusher.AtRetire?
    case Reclaim(n) => n in s.retired && n !in s.reclaimed && n in s.readers && s.readers[n] == {}
  }

  function Goto(s: State, t: Tid, pc: Pc): State
    requires t in s.learners
  {
    s.(learners := s.learners[t := s.learners[t].(pc := pc)])
  }

  /** The learner leaves its read-side section. */
  function End(s: State, t: Tid): State {
    s.(learners := s.learners - {t}, readers := map n | n in s.readers :: s.readers[n] - {t})
  }

  function Write(s: State, n: NodeId, r: NodeRec): State {
    s.(nodes := s.nodes[n := r])
  }

  ghost function Step(s: State, a: Action): State
    requires Enabled(s, a)
  {
    match a
    case Begin(t, key, pidx) =>
      s.(learners := s.learners[t := Learner(AtLookup, key, pidx)], calls := s.calls + {(key, pidx)})
    case Find(t, n) => Goto(s, t, AtTest(n))
    case Miss(t) => Goto(s, t, AtAlloc)
    case Test(t) =>
      var n := s.learners[t].pc.found;
      if s.nodes[n].proto != Dynamic then End(s, t)
      else Goto(s, t, if s.learners[t].pidx in s.nodes[n].vec then AtStamp(n) else AtZero(n))
    case Zero(t) =>
      var n := s.learners[t].pc.found;
      Goto(Write(s, n, s.nodes[n].(vec := {})), t, AtSet(n))
    case Set(t) =>
      var n := s.learners[t].pc.found;
      Goto(Write(s, n, s.nodes[n].(vec := s.nodes[n].vec + {s.learners[t].pidx})), t, AtStamp(n))
    case Stamp(t, now) =>
      var n := s.learners[t].pc.found;
      End(Write(s, n, s.nodes[n].(tstamp := now)), t)
    case Alloc(t, n, now) =>
      Goto(Write(s, n, NodeRec(s.learners[t].key, {s.learners[t].pidx}, Dynamic, now)), t, AtInsert(n))
    case AllocFails(t) => End(s, t)
    case Insert(t) => End(s.(table := s.table + {s.learners[t].pc.own}), t)
    case InsertFails(t) => Goto(s, t, AtFree(s.learners[t].pc.own))
    case Free(t) => End(s.(lost := s.lost + {s.learners[t].pc.own}), t)
    case Pick(n, _, _, _) => s.(flusher := AtRemove(n))
    case Remove => s.(table := s.table - {s.flusher.node}, flusher := AtRetire(s.flusher.node))
    case Retire =>
      var n := s.flusher.node;
      s.(retired := s.retired + multiset{n}, readers := s.readers[n := s.learners.Keys], flusher := FlusherIdle)
    case Reclaim(n) => s.(reclaimed := s.reclaimed + {n})
  }

  ghost predicate Feasible(s: State, run: seq<Action>)
    decreases |run|
  {
    run == [] || (Enabled(s, run[0]) && Feasible(Step(s, run[0]), run[1..]))
  }

  ghost function Run(s: State, run: seq<Action>): State
    requires Feasible(s, run)
    decreases |run|
  {
    if run == [] then s else Run(Step(s, run[0]), run[1..])
  }

  const INITIAL := State(map[], {}, {}, multiset{}, {}, map[], map[], FlusherIdle, {})

  // ---------- the invariant ----------

  /** The learner has a node of its own that nobody else can see. */
  predicate Owns(l: Learner, n: NodeId) {
    (l.pc.AtInsert? || l.pc.AtFree?) && l.pc.own == n
  }

  /** The learner found the node in the table and may still access it. */
  predicate Uses(l: Learner, n: NodeId) {
    (l.pc.AtTest? || l.pc.AtZero? || l.pc.AtSet? || l.pc.AtStamp?) && l.pc.found == n
  }

  predicate Unlinked(s: State, n: NodeId) {
    s.flusher == AtRetire(n)
  }

  ghost predicate OwnedByLearner(s: State, n: NodeId) {
    exists t :: t in s.learners && Owns(s.learners[t], n)
  }

  /** How many of the five places a node can be in it is in. */
  ghost function Places(s: State, n: NodeId): nat {
    (if n in s.table then 1 else 0) + (if n in s.lost then 1 else 0) + s.retired[n]
    + (if Unlinked(s, n) then 1 else 0) + (if OwnedByLearner(s, n) then 1 else 0)
  }

  ghost predicate NodeOk(s: State, n: NodeId) {
    if n in s.nodes then
      && Places(s, n) == 1
      && (forall p :: p in s.nodes[n].vec ==> (s.nodes[n].key, p) in s.calls)
    else Places(s, n) == 0
  }

  ghost predicate LearnerOk(s: State, t: Tid)
    requires t in s.learners
  {
    var l := s.learners[t];
    && (l.key, l.pidx) in s.calls
    && (forall n :: Owns(l, n) ==> n in s.nodes && s.nodes[n].key == l.key)
    && (forall n :: Uses(l, n) ==>
          && n in s.nodes && s.nodes[n].key == l.key
          && (n in s.table || Unlinked(s, n) || (n in s.retired && n in s.readers && t in s.readers[n])))
  }

  /** The table has at most one node per key. */
  ghost predicate OneNodePerKey(s: State) {
    forall m, n ::
      m in s.table && n in s.table && m in s.nodes && n in s.nodes && s.nodes[m].key == s.nodes[n].key ==> m == n
  }

  ghost predicate OneOwnerPerNode(s: State) {
    forall t, u, n :: t in s.learners && u in s.learners && Owns(s.learners[t], n) && Owns(s.learners[u], n) ==> t == u
  }

  ghost predicate Inv(s: State) {
    && (forall n :: NodeOk(s, n))
    && (forall t :: t in s.learners ==> LearnerOk(s, t))
    && OneOwnerPerNode(s)
    && OneNodePerKey(s)
    && (s.flusher.AtRemove? ==> s.flusher.node in s.table)
    && (forall n :: n in s.reclaimed ==> n in s.retired && n in s.readers && s.readers[n] == {})
  }

  lemma InitialInv()
    ensures Inv(INITIAL)
  {
  }

  predicate OwnsNothing(l: Learner) {
    !l.pc.AtInsert? && !l.pc.AtFree?
  }

  lemma SameOwners(s: State, s': State, t: Tid)
    requires forall u :: u != t ==> (u in s.learners <==> u in s'.learners)
    requires forall u :: u != t && u in s.learners ==> s'.learners[u] == s.learners[u]
    requires t in s.learners ==> OwnsNothing(s.learners[t])
    requires t in s'.learners ==> OwnsNothing(s'.learners[t])
    ensures forall n :: OwnedByLearner(s', n) <==> OwnedByLearner(s, n)
  {
    forall n ensures OwnedByLearner(s', n) <==> OwnedByLearner(s, n) {
      if u :| u in s.learners && Owns(s.learners[u], n) {
        assert u in s'.learners && Owns(s'.learners[u], n);
      }
      if u :| u in s'.learners && Owns(s'.learners[u], n) {
        assert u in s.learners && Owns(s.learners[u], n);
      }
    }
  }

  /** A learner begins, or moves on among positions in which it owns no node. */
  lemma MovesOnKeepsNodes(s: State, s': State, t: Tid)
    requires Inv(s) && s' == s.(learners := s'.learners, calls := s'.calls) && s.calls <= s'.calls
    requires t in s'.learners && s'.learners == s.learners[t := s'.learners[t]]
    requires (t in s.learners ==> OwnsNothing(s.learners[t])) && OwnsNothing(s'.learners[t])
    ensures forall n :: NodeOk(s', n)
  {
    SameOwners(s, s', t);
    forall n ensures NodeOk(s', n) {
      assert NodeOk(s, n);
    }
  }

  lemma MovesOnKeepsInv(s: State, s': State, t: Tid)
    requires Inv(s) && s' == s.(learners := s'.learners, calls := s'.calls) && s.calls <= s'.calls
    requires t in s'.learners && s'.learners == s.learners[t := s'.learners[t]]
    requires (t in s.learners ==> OwnsNothing(s.learners[t])) && OwnsNothing(s'.learners[t])
    requires LearnerOk(s', t)
    ensures Inv(s')
  {
    MovesOnKeepsNodes(s, s', t);
    forall u | u in s'.learners ensures LearnerOk(s', u) {
      if u != t {
        assert LearnerOk(s, u);
      }
    }
  }

  lemma BeginKeepsInv(s: State, a: Action)
    requires Inv(s) && Enabled(s, a) && a.Begin?
    ensures Inv(Step(s, a))
  {
    MovesOnKeepsInv(s, Step(s, a), a.t);
  }

  lemma GotoKeepsInv(s: State, t: Tid, pc: Pc)
    requires Inv(s) && t in s.learners
    requires OwnsNothing(s.learners[t]) && OwnsNothing(s.learners[t].(pc := pc))
    requires forall n :: Uses(s.learners[t].(pc := pc), n) ==>
               Uses(s.learners[t], n) || (n in s.table && n in s.nodes && s.nodes[n].key == s.learners[t].key)
    ensures Inv(Goto(s, t, pc))
  {
    assert LearnerOk(s, t);
    MovesOnKeepsInv(s, Goto(s, t, pc), t);
  }

  /** A learner that owns no node ends, and no retired node waits for it any longer. */
  lemma EndKeepsInv(s: State, t: Tid)
    requires Inv(s) && t in s.learners && OwnsNothing(s.learners[t])
    ensures Inv(End(s, t))
  {
    var s' := End(s, t);
    SameOwners(s, s', t);
    forall n ensures NodeOk(s', n) {
      assert NodeOk(s, n);
    }
    forall u | u in s'.learners ensures LearnerOk(s', u) {
      assert LearnerOk(s, u);
    }
  }

  /** A write keeps the node's key and names no port without a call. */
  lemma WriteKeepsInv(s: State, n: NodeId, r: NodeRec)
    requires Inv(s) && n in s.nodes && r.key == s.nodes[n].key
    requires forall p :: p in r.vec ==> (r.key, p) in s.calls
    ensures Inv(Write(s, n, r))
  {
    var s' := Write(s, n, r);
    forall m ensures NodeOk(s', m) {
      assert NodeOk(s, m);
      assert OwnedByLearner(s', m) <==> OwnedByLearner(s, m);
    }
    forall u | u in s'.learners ensures LearnerOk(s', u) {
      assert LearnerOk(s, u);
    }
  }

  lemma FoundNodeKeepsInv(s: State, a: Action)
    requires Inv(s) && Enabled(s, a) && (a.Test? || a.Zero? || a.Set? || a.Stamp?)
    ensures Inv(Step(s, a))
  {
    var l := s.learners[a.t];
    var n := l.pc.found;
    assert LearnerOk(s, a.t) && Uses(l, n) && NodeOk(s, n);
    match a {
      case Test(t) =>
        if s.nodes[n].proto != Dynamic {
          EndKeepsInv(s, t);
        } else {
          GotoKeepsInv(s, t, if l.pidx in s.nodes[n].vec then AtStamp(n) else AtZero(n));
        }
      case Zero(t) =>
        var r := s.nodes[n].(vec := {});
        WriteKeepsInv(s, n, r);
        GotoKeepsInv(Write(s, n, r), t, AtSet(n));
      case Set(t) =>
        var r := s.nodes[n].(vec := s.nodes[n].vec + {l.pidx});
        WriteKeepsInv(s, n, r);
        GotoKeepsInv(Write(s, n, r), t, AtStamp(n));
      case Stamp(t, now) =>
        var r := s.nodes[n].(tstamp := now);
        WriteKeepsInv(s, n, r);
        EndKeepsInv(Write(s, n, r), t);
    }
  }

  // ---------- steps that move a node from one place to another ----------

  /** Ownership of all nodes but one is as before. */
  lemma OtherOwners(s: State, s': State, t: Tid, own: NodeId)
    requires forall u :: u != t ==> (u in s.learners <==> u in s'.learners)
    requires forall u :: u != t && u in s.learners ==> s'.learners[u] == s.learners[u]
    requires t in s.learners ==> forall n :: Owns(s.learners[t], n) ==> n == own
    requires t in s'.learners ==> forall n :: Owns(s'.learners[t], n) ==> n == own
    ensures forall n :: n != own ==> (OwnedByLearner(s', n) <==> OwnedByLearner(s, n))
  {
    forall n | n != own ensures OwnedByLearner(s', n) <==> OwnedByLearner(s, n) {
      if u :| u in s.learners && Owns(s.learners[u], n) {
        assert u in s'.learners && Owns(s'.learners[u], n);
      }
      if u :| u in s'.learners && Owns(s'.learners[u], n) {
        assert u in s.learners && Owns(s.learners[u], n);
      }
    }
  }

  lemma AllocKeepsNodes(s: State, a: Action)
    requires Inv(s) && Enabled(s, a) && a.Alloc?
    ensures forall n :: NodeOk(Step(s, a), n)
  {
    var s' := Step(s, a);
    assert LearnerOk(s, a.t) && NodeOk(s, a.n);
    OtherOwners(s, s', a.t, a.n);
    assert Owns(s'.learners[a.t], a.n);
    forall n ensures NodeOk(s', n) {
      assert NodeOk(s, n);
    }
  }

  lemma AllocKeepsLearners(s: State, a: Action)
    requires Inv(s) && Enabled(s, a) && a.Alloc?
    ensures forall u :: u in Step(s, a).learners ==> LearnerOk(Step(s, a), u)
  {
    forall u | u in Step(s, a).learners ensures LearnerOk(Step(s, a), u) {
      assert LearnerOk(s, u);
    }
  }

  lemma AllocKeepsInv(s: State, a: Action)
    requires Inv(s) && Enabled(s, a) && a.Alloc?
    ensures Inv(Step(s, a))
  {
    var s' := Step(s, a);
    AllocKeepsNodes(s, a);
    AllocKeepsLearners(s, a);
    forall u, n | u in s.learners && Owns(s.learners[u], n) ensures n != a.n {
      assert LearnerOk(s, u);
    }
    forall n | n in s'.table ensures n != a.n {
      assert NodeOk(s, n);
    }
  }

  lemma InsertFailsKeepsNodes(s: State, a: Action)
    requires Inv(s) && Enabled(s, a) && a.InsertFails?
    ensures forall n :: NodeOk(Step(s, a), n)
  {
    var s' := Step(s, a);
    var own := s.learners[a.t].pc.own;
    OtherOwners(s, s', a.t, own);
    assert Owns(s.learners[a.t], own) && Owns(s'.learners[a.t], own);
    forall n ensures NodeOk(s', n) {
      assert NodeOk(s, n);
    }
  }

  lemma InsertFailsKeepsLearners(s: State, a: Action)
    requires Inv(s) && Enabled(s, a) && a.InsertFails?
    ensures forall u :: u in Step(s, a).learners ==> LearnerOk(Step(s, a), u)
  {
    forall u | u in Step(s, a).learners ensures LearnerOk(Step(s, a), u) {
      assert LearnerOk(s, u);
    }
  }

  lemma InsertFailsKeepsOwners(s: State, a: Action)
    requires OneOwnerPerNode(s) && Enabled(s, a) && a.InsertFails?
    ensures OneOwnerPerNode(Step(s, a))
  {
    var s' := Step(s, a);
    assert forall u, n :: u in s'.learners && Owns(s'.learners[u], n) ==> u in s.learners && Owns(s.learners[u], n);
  }

  lemma InsertFailsKeepsInv(s: State, a: Action)
    requires Inv(s) && Enabled(s, a) && a.InsertFails?
    ensures Inv(Step(s, a))
  {
    InsertFailsKeepsNodes(s, a);
    InsertFailsKeepsLearners(s, a);
    InsertFailsKeepsOwners(s, a);
  }

  lemma GiveUpKeepsNodes(s: State, a: Action)
    requires Inv(s) && Enabled(s, a) && (a.Insert? || a.Free?)
    ensures forall n :: NodeOk(Step(s, a), n)
  {
    var s' := Step(s, a);
    var own := s.learners[a.t].pc.own;
    assert LearnerOk(s, a.t) && Owns(s.learners[a.t], own) && NodeOk(s, own);
    OtherOwners(s, s', a.t, own);
    assert forall u :: u in s'.learners ==> u != a.t && s'.learners[u] == s.learners[u];
    assert !OwnedByLearner(s', own);
    assert OwnedByLearner(s, own);
    forall n ensures NodeOk(s', n) {
      assert NodeOk(s, n);
    }
  }

  lemma GiveUpKeepsLearners(s: State, a: Action)
    requires Inv(s) && Enabled(s, a) && (a.Insert? || a.Free?)
    ensures forall u :: u in Step(s, a).learners ==> LearnerOk(Step(s, a), u)
  {
    forall u | u in Step(s, a).learners ensures LearnerOk(Step(s, a), u) {
      assert LearnerOk(s, u);
    }
  }

  lemma GiveUpKeepsKeys(s: State, a: Action)
    requires OneNodePerKey(s) && Enabled(s, a) && (a.Insert? || a.Free?)
    requires a.Insert? ==>
               s.learners[a.t].pc.own in s.nodes && s.nodes[s.learners[a.t].pc.own].key == s.learners[a.t].key
    ensures OneNodePerKey(Step(s, a))
  {
  }

  /** A learner gives up its node, to the table or as a loss, and ends. */
  lemma GiveUpKeepsInv(s: State, a: Action)
    requires Inv(s) && Enabled(s, a) && (a.Insert? || a.Free?)
    ensures Inv(Step(s, a))
  {
    var s' := Step(s, a);
    GiveUpKeepsNodes(s, a);
    GiveUpKeepsLearners(s, a);
    assert LearnerOk(s, a.t) && Owns(s.learners[a.t], s.learners[a.t].pc.own);
    GiveUpKeepsKeys(s, a);
  }

  lemma FlusherKeepsNodes(s: State, a: Action)
    requires Inv(s) && Enabled(s, a) && (a.Pick? || a.Remove? || a.Retire? || a.Reclaim?)
    ensures forall n :: NodeOk(Step(s, a), n)
  {
    var s' := Step(s, a);
    forall n ensures NodeOk(s', n) {
      assert NodeOk(s, n);
      assert OwnedByLearner(s', n) <==> OwnedByLearner(s, n);
    }
  }

  lemma FlusherKeepsLearners(s: State, a: Action)
    requires Inv(s) && Enabled(s, a) && (a.Pick? || a.Remove? || a.Retire? || a.Reclaim?)
    ensures forall u :: u in Step(s, a).learners ==> LearnerOk(Step(s, a), u)
  {
    forall u | u in Step(s, a).learners ensures LearnerOk(Step(s, a), u) {
      assert LearnerOk(s, u);
    }
  }

  lemma FlusherKeepsInv(s: State, a: Action)
    requires Inv(s) && Enabled(s, a) && (a.Pick? || a.Remove? || a.Retire? || a.Reclaim?)
    ensures Inv(Step(s, a))
  {
    var s' := Step(s, a);
    FlusherKeepsNodes(s, a);
    FlusherKeepsLearners(s, a);
    if a.Retire? {
      assert NodeOk(s, s.flusher.node);
    }
  }

  lemma StepKeepsInv(s: State, a: Action)
    requires Inv(s) && Enabled(s, a)
    ensures Inv(Step(s, a))
  {
    match a
    case Begin(_, _, _) => BeginKeepsInv(s, a);
    case Find(t, n) => GotoKeepsInv(s, t, AtTest(n));
    case Miss(t) => GotoKeepsInv(s, t, AtAlloc);
    case AllocFails(t) => EndKeepsInv(s, t);
    case Alloc(_, _, _) => AllocKeepsInv(s, a);
    case Insert(_) => GiveUpKeepsInv(s, a);
    case InsertFails(_) => InsertFailsKeepsInv(s, a);
    case Free(_) => GiveUpKeepsInv(s, a);
    case Test(_) => FoundNodeKeepsInv(s, a);
    case Zero(_) => FoundNodeKeepsInv(s, a);
    case Set(_) => FoundNodeKeepsInv(s, a);
    case Stamp(_, _) => FoundNodeKeepsInv(s, a);
    case Pick(_, _, _, _) => FlusherKeepsInv(s, a);
    case Remove => FlusherKeepsInv(s, a);
    case Retire => FlusherKeepsInv(s, a);
    case Reclaim(_) => FlusherKeepsInv(s, a);
  }

  lemma {:induction false} RunKeepsInv(s: State, run: seq<Action>)
    requires Inv(s) && Feasible(s, run)
    ensures Inv(Run(s, run))
    decreases |run|
  {
    if run != [] {
      StepKeepsInv(s, run[0]);
      RunKeepsInv(Step(s, run[0]), run[1..]);
    }
  }

  // ---------- what the invariant means ----------

  /** A node is freed only when no learner can still reach it. */
  ghost predicate NoUseAfterFree(s: State) {
    forall t, n :: t in s.learners && (Uses(s.learners[t], n) || Owns(s.learners[t], n))
      ==> n in s.nodes && n !in s.reclaimed && n !in s.lost
  }

  /** Every allocated node is in the table, was freed after a failed insertion, was handed over exactly
      once for deferred freeing, is about to be, or is still private to a learner. */
  ghost predicate NodesConserved(s: State) {
    forall n :: if n in s.nodes then Places(s, n) == 1 else Places(s, n) == 0
  }

  /** Every port of a node comes from a learn call for that very key. */
  ghost predicate PortsWereLearned(s: State) {
    forall n, p :: n in s.nodes && p in s.nodes[n].vec ==> (s.nodes[n].key, p) in s.calls
  }

  lemma InvMeans(s: State)
    requires Inv(s)
    ensures OneNodePerKey(s) && NoUseAfterFree(s) && NodesConserved(s) && PortsWereLearned(s)
  {
    forall n ensures if n in s.nodes then Places(s, n) == 1 else Places(s, n) == 0 {
      assert NodeOk(s, n);
    }
    forall n, p | n in s.nodes && p in s.nodes[n].vec ensures (s.nodes[n].key, p) in s.calls {
      assert NodeOk(s, n);
    }
    forall t, n | t in s.learners && (Uses(s.learners[t], n) || Owns(s.learners[t], n))
      ensures n in s.nodes && n !in s.reclaimed && n !in s.lost
    {
      assert LearnerOk(s, t) && NodeOk(s, n);
    }
  }

  /** Over every interleaving of learners and flusher. */
  lemma ConcurrentLearningIsSafe(run: seq<Action>)
    requires Feasible(INITIAL, run)
    ensures var s := Run(INITIAL, run);
            OneNodePerKey(s) && NoUseAfterFree(s) && NodesConserved(s) && PortsWereLearned(s)
  {
    InitialInv();
    RunKeepsInv(INITIAL, run);
    InvMeans(Run(INITIAL, run));
  }

  /** A node that is not dynamic, and that nobody is about to change. */
  ghost predicate IsStatic(s: State, n: NodeId, r: NodeRec) {
    && n in s.nodes && s.nodes[n] == r && r.proto != Dynamic
    && forall t :: t in s.learners ==> s.learners[t].pc !in {AtZero(n), AtSet(n), AtStamp(n)}
  }

  /** No learner ever changes a node that is not dynamic. */
  lemma {:induction false} StaticNodesStay(s: State, run: seq<Action>, n: NodeId, r: NodeRec)
    requires Feasible(s, run) && IsStatic(s, n, r)
    ensures IsStatic(Run(s, run), n, r)
    decreases |run|
  {
    if run != [] {
      StaticNodesStay(Step(s, run[0]), run[1..], n, r);
    }
  }

  // ---------- runs, step by step ----------

  /** The state after the first i steps. */
  ghost function At(s: State, run: seq<Action>, i: nat): State
    requires Feasible(s, run) && i <= |run|
    decreases i
  {
    if i == 0 then s else At(Step(s, run[0]), run[1..], i - 1)
  }

  lemma {:induction false} AtNext(s: State, run: seq<Action>, i: nat)
    requires Feasible(s, run) && i < |run|
    ensures Enabled(At(s, run, i), run[i]) && At(s, run, i + 1) == Step(At(s, run, i), run[i])
    decreases i
  {
    if i == 0 {
      assert At(s, run, 1) == At(Step(s, run[0]), run[1..], 0);
    } else {
      AtNext(Step(s, run[0]), run[1..], i - 1);
    }
  }

  lemma {:induction false} AtInv(s: State, run: seq<Action>, i: nat)
    requires Inv(s) && Feasible(s, run) && i <= |run|
    ensures Inv(At(s, run, i))
    decreases i
  {
    if i > 0 {
      StepKeepsInv(s, run[0]);
      AtInv(Step(s, run[0]), run[1..], i - 1);
    }
  }

  lemma {:induction false} AtEnd(s: State, run: seq<Action>)
    requires Feasible(s, run)
    ensures At(s, run, |run|) == Run(s, run)
    decreases |run|
  {
    if run != [] {
      AtEnd(Step(s, run[0]), run[1..]);
    }
  }

  lemma RunCons(s: State, a: Action, rest: seq<Action>)
    requires Enabled(s, a) && Feasible(Step(s, a), rest)
    ensures Feasible(s, [a] + rest) && Run(s, [a] + rest) == Run(Step(s, a), rest)
  {
    assert ([a] + rest)[1..] == rest;
  }

  lemma RunOne(s: State, a: Action)
    requires Enabled(s, a)
    ensures Feasible(s, [a]) && Run(s, [a]) == Step(s, a)
  {
    assert [a][1..] == [];
  }
}
