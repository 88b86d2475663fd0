/** Whether, when and how often the ageing worker runs shows in no frame, but for one exact exception. */
module Ageing {
  import opened Ports
  import opened Frames
  import opened FdbSpec
  import opened Config
  import opened Delivery
  import opened Pipeline
  import opened Runs
  import opened Effects

  function WithoutAgeing(evs: seq<Event>): seq<Event> {
    if evs == [] then []
    else (if evs[0].AgeRun? then [] else [evs[0]]) + WithoutAgeing(evs[1..])
  }

  lemma {:induction false} WithoutAgeingIsFeasible(s: Setup, evs: seq<Event>)
    requires Feasible(s, evs)
    ensures Feasible(s, WithoutAgeing(evs))
    decreases |evs|
  {
    if evs != [] {
      var kept := WithoutAgeing(evs[1..]);
      WithoutAgeingIsFeasible(NextSetup(s, evs[0]), evs[1..]);
      if evs[0].AgeRun? {
        assert WithoutAgeing(evs) == kept;
      } else {
        assert WithoutAgeing(evs)[0] == evs[0] && WithoutAgeing(evs)[1..] == kept;
      }
    }
  }

  /** A frame refreshes an expired entry that lingers, while there is no memory to learn its source afresh. */
  ghost predicate Revives(s: Sys, a: Arrival)
    requires Basic(s.setup.cfg) && Enabled(s.setup, Arrive(a))
  {
    && !a.alloc && Learns(s.setup.cfg, a) && IsValidEther(a.frame.src)
    && Lingers(s.table, MacAddr(VidOf(s.setup.cfg, a), a.frame.src), s.now, s.timeout)
  }

  ghost predicate NoRevival(s: Sys, evs: seq<Event>)
    requires Feasible(s.setup, evs)
    decreases |evs|
  {
    evs == [] || ((evs[0].Arrive? ==> !Revives(s, evs[0].a)) && NoRevival(Step(Unbounded, s, evs[0]), evs[1..]))
  }

  /** The second system is as the first, but that expired entries linger in its table. */
  ghost predicate Behind(s: Sys, s': Sys) {
    && s' == s.(table := s'.table)
    && Shape(s'.table)
    && (forall k :: k in s.table ==> k in s'.table && s'.table[k] == s.table[k])
    && (forall k :: k in s'.table && k !in s.table ==> Lingers(s'.table, k, s.now, s.timeout))
  }

  lemma LearningKeepsBehind(s: Sys, s': Sys, a: Arrival)
    requires Behind(s, s') && Basic(s.setup.cfg) && Enabled(s.setup, Arrive(a)) && !Revives(s', a)
    ensures Behind(Step(Unbounded, s, Arrive(a)), Step(Unbounded, s', Arrive(a)))
  {
    if Learns(s.setup.cfg, a) && IsValidEther(a.frame.src) {
      assert Shape(s.table);
      LearnedEntry(Unbounded, s.table, VidOf(s.setup.cfg, a), a.frame.src, a.pidx, s.now, a.alloc);
      LearnedEntry(Unbounded, s'.table, VidOf(s.setup.cfg, a), a.frame.src, a.pidx, s.now, a.alloc);
      LearnKeepsShape(Unbounded, s'.table, VidOf(s.setup.cfg, a), a.frame.src, a.pidx, s.now, a.alloc);
    }
  }

  lemma FrameKeepsBehind(s: Sys, s': Sys, a: Arrival)
    requires Behind(s, s') && Basic(s.setup.cfg) && Enabled(s.setup, Arrive(a)) && !Revives(s', a)
    ensures Behind(Step(Unbounded, s, Arrive(a)), Step(Unbounded, s', Arrive(a)))
    ensures OutOf(Unbounded, s, Arrive(a)) == OutOf(Unbounded, s', Arrive(a))
  {
    LearningKeepsBehind(s, s', a);
    var cfg, vid := s.setup.cfg, VidOf(s.setup.cfg, a);
    var t, t' := Step(Unbounded, s, Arrive(a)).table, Step(Unbounded, s', Arrive(a)).table;
    LingeringDoesNotFilter(t, t', LookupKey(vid, a.frame.dst, SeenL3(VlanIngress(cfg, a.pidx, a.frame).frame)),
                           cfg.vlans[vid].flood, a.frame.dst, s.now, s.timeout);
  }

  lemma LingeringDoesNotFilter(t: Table, t': Table, key: FdbAddr, flood: Flood, dst: Mac, now: nat, timeout: nat)
    requires key in t ==> key in t' && t'[key] == t[key]
    requires key in t' && key !in t ==> Lingers(t', key, now, timeout)
    ensures EgressFilter(Unbounded, t, key, flood, dst, now, timeout)
         == EgressFilter(Unbounded, t', key, flood, dst, now, timeout)
  {
  }

  lemma StepKeepsBehind(s: Sys, s': Sys, ev: Event)
    requires Behind(s, s') && Basic(s.setup.cfg) && Enabled(s.setup, ev)
    requires ev.Arrive? ==> !Revives(s', ev.a)
    ensures Behind(Step(Unbounded, s, ev), Step(Unbounded, s', ev))
    ensures OutOf(Unbounded, s, ev) == OutOf(Unbounded, s', ev)
  {
    match ev
    case Arrive(a) => FrameKeepsBehind(s, s', a);
    case _ =>
  }

  /** Dropping all runs of the ageing worker leaves the fate of every frame unchanged, as long as no frame
      revives an entry. */
  lemma {:induction false} AgeingIsInvisible(s: Sys, s': Sys, evs: seq<Event>)
    requires Behind(s, s') && Feasible(s.setup, evs)
    requires Feasible(s'.setup, WithoutAgeing(evs)) && NoRevival(s', WithoutAgeing(evs))
    ensures Trace(Unbounded, s, evs) == Trace(Unbounded, s', WithoutAgeing(evs))
    ensures Behind(Run(Unbounded, s, evs), Run(Unbounded, s', WithoutAgeing(evs)))
    decreases |evs|
  {
    if evs != [] {
      var ev, rest := evs[0], evs[1..];
      var kept := WithoutAgeing(rest);
      if ev.AgeRun? {
        assert WithoutAgeing(evs) == kept;
        AgeingIsInvisible(Step(Unbounded, s, ev), s', rest);
        assert [] + Trace(Unbounded, Step(Unbounded, s, ev), rest) == Trace(Unbounded, Step(Unbounded, s, ev), rest);
      } else {
        assert WithoutAgeing(evs)[0] == ev && WithoutAgeing(evs)[1..] == kept;
        StepKeepsBehind(s, s', ev);
        AgeingIsInvisible(Step(Unbounded, s, ev), Step(Unbounded, s', ev), rest);
        TraceCons(Unbounded, s', ev, kept);
      }
    }
  }

  /** Runs that differ only in when, how often or whether the worker ran deliver the same. */
  lemma AgeingScheduleIsIrrelevant(s: Sys, evs: seq<Event>, evs': seq<Event>)
    requires Shape(s.table) && Feasible(s.setup, evs) && Feasible(s.setup, evs')
    requires WithoutAgeing(evs) == WithoutAgeing(evs')
    requires Feasible(s.setup, WithoutAgeing(evs)) && NoRevival(s, WithoutAgeing(evs))
    ensures Trace(Unbounded, s, evs) == Trace(Unbounded, s, evs')
  {
    AgeingIsInvisible(s, s, evs);
    AgeingIsInvisible(s, s, evs');
  }

  // ---------- the exception is exact ----------

  ghost predicate SameLookups(s: Sys, s': Sys) {
    s.now == s'.now && s.timeout == s'.timeout && Live(s.table, s.now, s.timeout) == Live(s'.table, s.now, s.timeout)
  }

  /** However the worker is scheduled, lookups find the same after every prefix of the run. */
  ghost predicate NeverShows(s: Sys, evs: seq<Event>) {
    forall n: nat, run: seq<Event> ::
      n <= |evs| && Feasible(s.setup, run) && Feasible(s.setup, evs[..n]) && WithoutAgeing(run) == evs[..n]
      ==> SameLookups(Run(Unbounded, s, run), Run(Unbounded, s, evs[..n]))
  }

  predicate WorkerIsIdle(evs: seq<Event>) {
    forall i :: 0 <= i < |evs| ==> !evs[i].AgeRun?
  }

  lemma {:induction false} NoRevivalInPrefix(s: Sys, evs: seq<Event>, n: nat)
    requires Feasible(s.setup, evs) && NoRevival(s, evs) && n <= |evs|
    ensures Feasible(s.setup, evs[..n]) && NoRevival(s, evs[..n])
    decreases |evs|
  {
    if n > 0 {
      NoRevivalInPrefix(Step(Unbounded, s, evs[0]), evs[1..], n - 1);
      assert evs[..n][1..] == evs[1..][..n - 1];
    }
  }

  /** An ageing run right before the frame makes the difference between an entry revived and none. */
  lemma RevivalShows(s: Sys, a: Arrival)
    requires Shape(s.table) && Basic(s.setup.cfg) && Enabled(s.setup, Arrive(a)) && Revives(s, a)
    ensures var key := MacAddr(VidOf(s.setup.cfg, a), a.frame.src);
            && key in Live(Step(Unbounded, s, Arrive(a)).table, s.now, s.timeout)
            && key !in Step(Unbounded, Step(Unbounded, s, AgeRun), Arrive(a)).table
  {
    LearnedEntry(Unbounded, s.table, VidOf(s.setup.cfg, a), a.frame.src, a.pidx, s.now, a.alloc);
  }

  lemma AgeRunBefore(s: Sys, evs: seq<Event>)
    requires Shape(s.table) && Feasible(s.setup, evs) && evs != [] && evs[0].Arrive? && Revives(s, evs[0].a)
    ensures !NeverShows(s, evs)
  {
    var ev := evs[0];
    var run := [AgeRun, ev];
    RevivalShows(s, ev.a);
    TraceCons(Unbounded, s, ev, []);
    TraceCons(Unbounded, Step(Unbounded, s, AgeRun), ev, []);
    TraceCons(Unbounded, s, AgeRun, [ev]);
    assert [AgeRun] + [ev] == run && [ev] + [] == [ev] == evs[..1];
    assert run[1..] == [ev] && [ev][1..] == [];
    assert WithoutAgeing([ev]) == [ev] + WithoutAgeing([]);
    assert WithoutAgeing(run) == [] + WithoutAgeing([ev]);
    assert !SameLookups(Run(Unbounded, s, run), Run(Unbounded, s, evs[..1]));
  }

  lemma SeenOneEarlier(s: Sys, evs: seq<Event>)
    requires Feasible(s.setup, evs) && evs != [] && !evs[0].AgeRun?
    requires !NeverShows(Step(Unbounded, s, evs[0]), evs[1..])
    ensures !NeverShows(s, evs)
  {
    var ev, rest := evs[0], evs[1..];
    var next := Step(Unbounded, s, ev);
    var n: nat, run :| n <= |rest| && Feasible(next.setup, run) && Feasible(next.setup, rest[..n])
      && WithoutAgeing(run) == rest[..n] && !SameLookups(Run(Unbounded, next, run), Run(Unbounded, next, rest[..n]));
    TraceCons(Unbounded, s, ev, run);
    TraceCons(Unbounded, s, ev, rest[..n]);
    assert ([ev] + run)[1..] == run;
    assert WithoutAgeing([ev] + run) == [ev] + rest[..n] == evs[..n + 1];
  }

  lemma {:induction false} RevivalIsSeen(s: Sys, evs: seq<Event>)
    requires Shape(s.table) && Feasible(s.setup, evs) && WorkerIsIdle(evs) && !NoRevival(s, evs)
    ensures !NeverShows(s, evs)
    decreases |evs|
  {
    if evs[0].Arrive? && Revives(s, evs[0].a) {
      AgeRunBefore(s, evs);
    } else {
      StepKeepsBehind(s, s, evs[0]);
      RevivalIsSeen(Step(Unbounded, s, evs[0]), evs[1..]);
      SeenOneEarlier(s, evs);
    }
  }

  /** The worker's schedule shows in the table's lookups exactly if, without the worker, some frame would
      revive an entry. */
  lemma OnlyRevivalsShow(s: Sys, evs: seq<Event>)
    requires Shape(s.table) && Feasible(s.setup, evs) && WorkerIsIdle(evs)
    ensures NeverShows(s, evs) <==> NoRevival(s, evs)
  {
    if NoRevival(s, evs) {
      forall n: nat, run: seq<Event> |
        n <= |evs| && Feasible(s.setup, run) && Feasible(s.setup, evs[..n]) && WithoutAgeing(run) == evs[..n]
        ensures SameLookups(Run(Unbounded, s, run), Run(Unbounded, s, evs[..n]))
      {
        NoRevivalInPrefix(s, evs, n);
        AgeingIsInvisible(s, s, run);
      }
    } else {
      RevivalIsSeen(s, evs);
    }
  }

  /** A frame to a station new to the table, when there was no memory to learn it, is flooded. */
  lemma UnlearntIsFlooded(cfg: Cfg, t: Table, a: Arrival, b: Arrival, now: nat, timeout: nat, r: Pidx)
    requires CfgInv(cfg) && Shape(t) && a.pidx in cfg.busy && b.pidx in cfg.busy
    requires Resolved(cfg, a) && Learns(cfg, a) && IsValidEther(a.frame.src)
    requires !a.alloc && MacAddr(VidOf(cfg, a), a.frame.src) !in t
    requires Resolved(cfg, b) && VidOf(cfg, b) == VidOf(cfg, a) && VlanIngress(cfg, b.pidx, b.frame).allow
    requires b.lost == {} && b.frame.dst == a.frame.src && b.frame.src != a.frame.src
    requires r in cfg.vlans[VidOf(cfg, a)].members * cfg.vlans[VidOf(cfg, a)].flood.uc && r != b.pidx
    ensures exists s ::
              s in Forwarded(Unbounded, cfg, TableAfter(Unbounded, cfg, t, a, now), b, now, timeout).sent && s.port == r
  {
    LearntStation(cfg, t, a, b, now, now, timeout);
    var vlan := cfg.vlans[VidOf(cfg, a)];
    var vec := (vlan.flood.uc * vlan.members) - {b.pidx};
    assert r in vec;
    DeliveredToAll(vec, b.lost);
    var ports := Delivered(vec, b.lost).ports;
    var i :| 0 <= i < |ports| && ports[i] == r;
    var sent := Forwarded(Unbounded, cfg, TableAfter(Unbounded, cfg, t, a, now), b, now, timeout).sent;
    assert sent[i] in sent && sent[i].port == r;
  }

  /** A frame that shows it: after a revival the station's frames go to its port alone, after an ageing
      run before it they are flooded to any further member. */
  lemma RevivalChangesDelivery(s: Sys, a: Arrival, b: Arrival, r: Pidx)
    requires CfgInv(s.setup.cfg) && Shape(s.table) && a.pidx in s.setup.cfg.busy && b.pidx in s.setup.cfg.busy
    requires Resolved(s.setup.cfg, a) && Revives(s, a)
    requires Resolved(s.setup.cfg, b) && VidOf(s.setup.cfg, b) == VidOf(s.setup.cfg, a)
    requires VlanIngress(s.setup.cfg, b.pidx, b.frame).allow && b.lost == {}
    requires b.frame.dst == a.frame.src && b.frame.src != a.frame.src
    requires r != a.pidx && r != b.pidx
    requires r in s.setup.cfg.vlans[VidOf(s.setup.cfg, a)].members * s.setup.cfg.vlans[VidOf(s.setup.cfg, a)].flood.uc
    ensures var lazily := Step(Unbounded, s, Arrive(a));
            var aged := Step(Unbounded, Step(Unbounded, s, AgeRun), Arrive(a));
            OutOf(Unbounded, lazily, Arrive(b)) != OutOf(Unbounded, aged, Arrive(b))
  {
    var cfg := s.setup.cfg;
    var aged := Aged(Unbounded, s.table, s.now, s.timeout);
    LearntStation(cfg, s.table, a, b, s.now, s.now, s.timeout);
    UnlearntIsFlooded(cfg, aged, a, b, s.now, s.timeout, r);
  }

  /** Heard while there was memory, and heard again too late and without. */
  lemma HeardAgainRevives(s: Sys, a: Arrival, later: nat)
    requires Basic(s.setup.cfg) && Enabled(s.setup, Arrive(a)) && s.table == map[] && later > s.now + s.timeout
    requires Learns(s.setup.cfg, a) && IsValidEther(a.frame.src) && a.alloc
    ensures var again := a.(alloc := false);
            Enabled(s.setup, Arrive(again)) && Revives(Step(Unbounded, s, Arrive(a)).(now := later), again)
  {
    var vid := VidOf(s.setup.cfg, a);
    LearnedEntry(Unbounded, s.table, vid, a.frame.src, a.pidx, s.now, true);
    var t := Step(Unbounded, s, Arrive(a)).table;
    assert t == map[MacAddr(vid, a.frame.src) := Entry({a.pidx}, Dynamic, s.now)];
  }

  /** Any learnable frame can be the exception, on any bridge that starts empty. */
  lemma RevivalIsReached(s: Sys, a: Arrival)
    requires Inv(s.setup) && s.table == map[] && Enabled(s.setup, Arrive(a))
    requires Learns(s.setup.cfg, a) && IsValidEther(a.frame.src) && a.alloc
    ensures var evs := [Arrive(a), Tick(s.timeout + 1), Arrive(a.(alloc := false))];
            Feasible(s.setup, evs) && !NoRevival(s, evs) && !NeverShows(s, evs)
  {
    var again, tick := Arrive(a.(alloc := false)), Tick(s.timeout + 1);
    var evs := [Arrive(a), tick, again];
    var s1 := Step(Unbounded, s, Arrive(a));
    var s2 := Step(Unbounded, s1, tick);
    HeardAgainRevives(s, a, s2.now);
    NoRevivalCons(s2, again, []);
    NoRevivalCons(s1, tick, [again]);
    NoRevivalCons(s, Arrive(a), [tick, again]);
    assert [again] + [] == [again] && [tick] + [again] == [tick, again] && [Arrive(a)] + [tick, again] == evs;
    OnlyRevivalsShow(s, evs);
  }

  lemma NoRevivalCons(s: Sys, ev: Event, rest: seq<Event>)
    requires Basic(s.setup.cfg) && Enabled(s.setup, ev) && Feasible(NextSetup(s.setup, ev), rest)
    ensures Feasible(s.setup, [ev] + rest)
    ensures NoRevival(s, [ev] + rest)
       <==> (ev.Arrive? ==> !Revives(s, ev.a)) && NoRevival(Step(Unbounded, s, ev), rest)
  {
    assert ([ev] + rest)[1..] == rest;
  }
}
