/** The loops of dbguard/manager/rejoin.py: `quiesce` and `verify_after_repoint`, and what the
    watch finds when its reads interleave with the steps of the fleet. */
module Rejoin {
  import opened Intervals
  import opened GtidSets
  import opened Selection
  import opened Fleet
  import opened Errant

  // ----- quiesce

  /** One fresh /status with the counts of semi-sync waiters and committing threads. */
  datatype CalmRead = CalmRead(nv: NodeView, waiting: nat, committing: nat) {
    predicate Calm() { nv.Usable() && waiting == 0 && committing == 0 }
  }

  /** Reads i - 1 and i are adjacent, both calm, and show the same executed set. */
  predicate SettledAt(log: seq<CalmRead>, i: int) {
    0 < i < |log| && log[i - 1].Calm() && log[i].Calm() &&
    log[i - 1].nv.executed == log[i].nv.executed
  }

  /** Returns at the first pair of equal adjacent calm reads, and only then. */
  method Quiesce(log: seq<CalmRead>) returns (stable: Option<NodeView>)
    ensures stable.Some? <==> exists i :: SettledAt(log, i)
    ensures stable.Some? ==> exists i ::
      SettledAt(log, i) && log[i].nv == stable.value && forall j :: j < i ==> !SettledAt(log, j)
  {
    var prev: Option<NodeView> := None;
    var i := 0;
    while i < |log|
      invariant 0 <= i <= |log|
      invariant forall j :: j < i ==> !SettledAt(log, j)
      invariant prev == if i > 0 && log[i - 1].Calm() then Some(log[i - 1].nv) else None
    {
      var r := log[i];
      if !r.Calm() {
        prev := None;
      } else if prev.Some? && prev.value.executed == r.nv.executed {
        assert SettledAt(log, i);
        return Some(r.nv);
      } else {
        prev := Some(r.nv);
      }
      i := i + 1;
    }
    return None;
  }

  /** The reads of a node while the fleet moves: each after another burst of steps, with the sessions that
      then wait for an acknowledgement and the threads then seen committing. */
  ghost predicate ReadRun(f: Fleet, n: Name, bursts: seq<seq<Env>>)
    decreases |bursts|
  {
    n in f.nodes && (bursts != [] ==> EnvRun(f, bursts[0]) && ReadRun(EnvAfter(f, bursts[0]), n, bursts[1..]))
  }

  ghost function FleetAt(f: Fleet, n: Name, bursts: seq<seq<Env>>, i: nat): Fleet
    requires ReadRun(f, n, bursts) && i < |bursts|
    decreases |bursts|
  {
    var g := EnvAfter(f, bursts[0]);
    if i == 0 then g else FleetAt(g, n, bursts[1..], i - 1)
  }

  ghost predicate ReadsOf(f: Fleet, n: Name, bursts: seq<seq<Env>>, log: seq<CalmRead>) {
    ReadRun(f, n, bursts) && |log| == |bursts| &&
    forall i :: 0 <= i < |log| ==>
      var g := FleetAt(f, n, bursts, i);
      n in g.nodes && log[i].nv == ViewOf(g, n) && log[i].waiting == |g.nodes[n].waiting|
  }

  /** A node found settled is up, no session of it waits for an acknowledgement, no thread of it was seen
      committing, and it executed nothing since the read before; and if it is read-only, whatever the fleet
      does from then on, it takes no write and no session of it waits again. */
  lemma SettledIsQuiet(f: Fleet, n: Name, bursts: seq<seq<Env>>, log: seq<CalmRead>, i: nat, es: seq<Env>)
    requires ReadsOf(f, n, bursts, log) && SettledAt(log, i)
    requires EnvRun(FleetAt(f, n, bursts, i), es)
    ensures var g, h, before := FleetAt(f, n, bursts, i), EnvAfter(FleetAt(f, n, bursts, i), es),
                                FleetAt(f, n, bursts, i - 1);
      n in before.nodes && n in g.nodes && n in h.nodes &&
      log[i].committing == log[i - 1].committing == 0 &&
      g.nodes[n].up && g.nodes[n].waiting == {} && g.nodes[n].executed == before.nodes[n].executed &&
      (g.nodes[n].superReadOnly ==> h.nodes[n].superReadOnly && h.nodes[n].waiting == {})
  {
    var g := FleetAt(f, n, bursts, i);
    assert n in g.nodes && n in FleetAt(f, n, bursts, i - 1).nodes;
    assert log[i].Calm() && log[i - 1].Calm();
    if g.nodes[n].superReadOnly {
      QuietRun(g, n, es);
    } else {
      KeptNode(g, n, es);
    }
  }

  lemma {:induction false} QuietRun(f: Fleet, n: Name, es: seq<Env>)
    requires n in f.nodes && Passive(f.nodes[n]) && EnvRun(f, es)
    ensures n in EnvAfter(f, es).nodes && Passive(EnvAfter(f, es).nodes[n])
    decreases |es|
  {
    if es != [] {
      PassiveEnv(f, n, es[0]);
      QuietRun(EnvDo(f, es[0]), n, es[1..]);
    }
  }

  lemma {:induction false} KeptNode(f: Fleet, n: Name, es: seq<Env>)
    requires n in f.nodes && EnvRun(f, es)
    ensures n in EnvAfter(f, es).nodes
    decreases |es|
  {
    if es != [] {
      EnvGrows(f, es[0], n);
      KeptNode(EnvDo(f, es[0]), n, es[1..]);
    }
  }

  // ----- verify_after_repoint

  datatype WatchRead = PrimaryMoved | Both(nv: NodeView, pv: NodeView)

  function ErrantIn(r: WatchRead): Trxs {
    if r.Both? then r.nv.executed - r.pv.executed else {}
  }

  predicate UsableRead(r: WatchRead) { r.Both? && r.nv.Usable() && r.pv.Usable() }

  /** How many errant reads in a row the watch has counted; an unusable read counts as none. */
  function Seen(log: seq<WatchRead>): nat {
    if log == [] then 0
    else
      var before := Seen(log[..|log| - 1]);
      var r := log[|log| - 1];
      if !UsableRead(r) then before else if ErrantIn(r) != {} then before + 1 else 0
  }

  /** The watch stops at read `i`: twice errant in a row, the primary never having moved. */
  predicate FlaggedAt(log: seq<WatchRead>, i: int) {
    0 <= i < |log| && (forall j :: 0 <= j <= i ==> log[j].Both?) && Seen(log[..i + 1]) >= 2
  }

  method VerifyAfterRepoint(log: seq<WatchRead>) returns (errant: Option<Trxs>)
    ensures errant.Some? <==> exists i :: FlaggedAt(log, i)
    ensures errant.Some? ==> exists i ::
      FlaggedAt(log, i) && errant.value == ErrantIn(log[i]) && forall j :: j < i ==> !FlaggedAt(log, j)
  {
    var seen := 0;
    var i := 0;
    while i < |log|
      invariant 0 <= i <= |log|
      invariant forall j :: 0 <= j < i ==> log[j].Both?
      invariant forall j :: j < i ==> !FlaggedAt(log, j)
      invariant seen == Seen(log[..i]) && seen < 2
    {
      var r := log[i];
      if r.PrimaryMoved? {
        assert forall j :: FlaggedAt(log, j) ==> j < i;
        return None;
      }
      assert log[..i + 1][..i] == log[..i];
      if UsableRead(r) {
        seen := if ErrantIn(r) != {} then seen + 1 else 0;
        if seen >= 2 {
          assert FlaggedAt(log, i);
          return Some(ErrantIn(r));
        }
      }
      i := i + 1;
    }
    return None;
  }

  // ----- the watch over a moving fleet

  /** One round: the fleet moves, the node is read, the fleet moves, the primary is read. */
  datatype Round = Round(before: seq<Env>, between: seq<Env>)

  ghost predicate WatchRun(f: Fleet, n: Name, p: Name, plan: seq<Round>)
    decreases |plan|
  {
    n in f.nodes && p in f.nodes &&
    (plan != [] ==>
       EnvRun(f, plan[0].before) && n in EnvAfter(f, plan[0].before).nodes &&
       EnvRun(EnvAfter(f, plan[0].before), plan[0].between) && p in RoundEnd(f, plan[0]).nodes &&
       WatchRun(RoundEnd(f, plan[0]), n, p, plan[1..]))
  }

  ghost function RoundEnd(f: Fleet, r: Round): Fleet
    requires EnvRun(f, r.before) && EnvRun(EnvAfter(f, r.before), r.between)
  {
    EnvAfter(EnvAfter(f, r.before), r.between)
  }

  ghost function RoundRead(f: Fleet, n: Name, p: Name, r: Round): WatchRead
    requires EnvRun(f, r.before) && EnvRun(EnvAfter(f, r.before), r.between)
    requires n in EnvAfter(f, r.before).nodes && p in RoundEnd(f, r).nodes
  {
    Both(ViewOf(EnvAfter(f, r.before), n), ViewOf(RoundEnd(f, r), p))
  }

  ghost function Reads(f: Fleet, n: Name, p: Name, plan: seq<Round>): seq<WatchRead>
    requires WatchRun(f, n, p, plan)
    decreases |plan|
  {
    if plan == [] then []
    else [RoundRead(f, n, p, plan[0])] + Reads(RoundEnd(f, plan[0]), n, p, plan[1..])
  }

  function UsableReads(log: seq<WatchRead>): nat {
    if log == [] then 0
    else UsableReads(log[..|log| - 1]) + if UsableRead(log[|log| - 1]) then 1 else 0
  }

  /** Every read of an errant node is errant, every read of a clean one is not. */
  ghost predicate Telling(log: seq<WatchRead>, errant: bool) {
    forall i :: 0 <= i < |log| ==>
      log[i].Both? && (UsableRead(log[i]) ==> (ErrantIn(log[i]) != {} <==> errant))
  }

  lemma RoundTells(f: Fleet, n: Name, p: Name, r: Round)
    requires n in f.nodes && Primary(f, p)
    requires Excess(f, n, p) == {} ==> Follower(f, n, p) && Behind(f, n, p)
    requires EnvRun(f, r.before) && EnvRun(EnvAfter(f, r.before), r.between)
    ensures n in EnvAfter(f, r.before).nodes && p in RoundEnd(f, r).nodes
    ensures var read := RoundRead(f, n, p, r);
      UsableRead(read) ==> (ErrantIn(read) != {} <==> Excess(f, n, p) != {})
    ensures var t := RoundEnd(f, r);
      n in t.nodes && Primary(t, p) && (Excess(t, n, p) == {} <==> Excess(f, n, p) == {}) &&
      (Excess(t, n, p) == {} ==> Follower(t, n, p) && Behind(t, n, p))
  {
    var f1 := EnvAfter(f, r.before);
    var f2 := RoundEnd(f, r);
    ExcessRun(f, n, p, r.before);
    ExcessRun(f1, n, p, r.between);
    if Excess(f, n, p) == {} {
      BehindRun(f, n, p, r.before);
      BehindRun(f1, n, p, r.between);
      EmptyDifference(f1.nodes[n].executed, f2.nodes[p].executed);
      EmptyDifference(f2.nodes[n].executed, f2.nodes[p].executed);
    } else {
      var g :| g in Excess(f, n, p);
      assert g in Excess(f2, n, p) && g in Excess(f1, n, p);
      assert g in f1.nodes[n].executed - f2.nodes[p].executed;
    }
  }

  lemma {:induction false} ReadsTell(f: Fleet, n: Name, p: Name, plan: seq<Round>)
    requires n in f.nodes && Primary(f, p) && WatchRun(f, n, p, plan)
    requires Excess(f, n, p) == {} ==> Follower(f, n, p) && Behind(f, n, p)
    ensures Telling(Reads(f, n, p, plan), Excess(f, n, p) != {})
    decreases |plan|
  {
    if plan != [] {
      RoundTells(f, n, p, plan[0]);
      ReadsTell(RoundEnd(f, plan[0]), n, p, plan[1..]);
    }
  }

  lemma {:induction false} TellingCounts(log: seq<WatchRead>, errant: bool)
    requires Telling(log, errant)
    ensures Seen(log) == if errant then UsableReads(log) else 0
  {
    if log != [] {
      TellingCounts(log[..|log| - 1], errant);
    }
  }

  lemma {:induction false} UsableReadsGrow(log: seq<WatchRead>, i: nat)
    requires i <= |log|
    ensures UsableReads(log[..i]) <= UsableReads(log)
  {
    if i < |log| {
      UsableReadsGrow(log[..|log| - 1], i);
      assert log[..|log| - 1][..i] == log[..i];
    } else {
      assert log[..i] == log;
    }
  }

  /** The watch is exact. A node just attached to its primary is flagged, whatever the fleet does
      around the reads, if and only if it held something the primary lacks and two rounds found
      both of them usable; in particular a clean node is never flagged. */
  lemma WatchExact(f: Fleet, n: Name, p: Name, plan: seq<Round>)
    requires n in f.nodes && n != p && Primary(f, p)
    requires WatchRun(Attached(f, n, p), n, p, plan)
    ensures var log := Reads(Attached(f, n, p), n, p, plan);
      (exists i :: FlaggedAt(log, i)) <==> (Excess(f, n, p) != {} && UsableReads(log) >= 2)
  {
    var g := Attached(f, n, p);
    EmptyDifference(g.nodes[n].executed, g.nodes[p].executed);
    assert Excess(g, n, p) == Excess(f, n, p);
    ReadsTell(g, n, p, plan);
    var log := Reads(g, n, p, plan);
    var errant := Excess(f, n, p) != {};
    if errant && UsableReads(log) >= 2 {
      TellingCounts(log, errant);
      assert log[..|log| - 1 + 1] == log;
      assert FlaggedAt(log, |log| - 1);
    }
    if i :| FlaggedAt(log, i) {
      TellingCounts(log[..i + 1], errant);
      UsableReadsGrow(log, i + 1);
    }
  }
}
