/** A flush that no learner disturbs is the sequential flush. */
module LoneFlusher {
  import opened FdbSpec
  import opened ConcurrentFdb
  import opened LoneLearner

  /** A step of a flusher at work on one flush. */
  predicate OfFlush(a: Action, op: FlushOp, now: nat, timeout: nat) {
    a.Remove? || a.Retire? || a.Reclaim? || (a.Pick? && a.op == op && a.now == now && a.timeout == timeout)
  }

  ghost predicate Matching(s: State, n: NodeId, op: FlushOp, now: nat, timeout: nat) {
    n in s.nodes && Matches(Unbounded, op, s.nodes[n].key, EntryOf(s.nodes[n]), now, timeout)
  }

  /** Since s0 only matching nodes were taken out of the table, and nothing was written. */
  ghost predicate Flushing(s0: State, s: State, op: FlushOp, now: nat, timeout: nat) {
    && s.nodes == s0.nodes && s.table <= s0.table
    && (forall n :: n in s0.table && n !in s.table ==> Matching(s0, n, op, now, timeout))
    && (s.flusher.AtRemove? ==> Matching(s0, s.flusher.node, op, now, timeout))
  }

  lemma {:induction false} FlushRun(s0: State, s: State, run: seq<Action>, op: FlushOp, now: nat, timeout: nat)
    requires Feasible(s, run) && Flushing(s0, s, op, now, timeout)
    requires forall i :: 0 <= i < |run| ==> OfFlush(run[i], op, now, timeout)
    ensures Flushing(s0, Run(s, run), op, now, timeout)
    decreases |run|
  {
    if run != [] {
      assert OfFlush(run[0], op, now, timeout);
      FlushRun(s0, Step(s, run[0]), run[1..], op, now, timeout);
    }
  }

  /** Whatever order it goes through the table in, once nothing is left that matches, the flusher has made
      of the table what the sequential flush makes of it. */
  lemma LoneFlushFlushes(s: State, table: Table, run: seq<Action>, op: FlushOp, now: nat, timeout: nat)
    requires Inv(s) && Shows(s, table) && s.flusher == FlusherIdle && Feasible(s, run)
    requires forall i :: 0 <= i < |run| ==> OfFlush(run[i], op, now, timeout)
    requires forall n :: n in Run(s, run).table ==> !Matching(Run(s, run), n, op, now, timeout)
    ensures Shows(Run(s, run), Flushed(Unbounded, table, op, now, timeout))
  {
    FlushRun(s, s, run, op, now, timeout);
    var s', table' := Run(s, run), Flushed(Unbounded, table, op, now, timeout);
    forall k | k in table' ensures HasKey(s', k) {
      assert HasKey(s, k);
      var n :| n in s.table && n in s.nodes && s.nodes[n].key == k;
      assert n in s'.table && n in s'.nodes && s'.nodes[n].key == k;
    }
  }
}
