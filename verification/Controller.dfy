/** The per-set controller: `SetState` of dbguard/manager/state.py and the history, cooldown and
    cold-start gate of dbguard/manager/controller.py, as the objects the manager mutates. */
module Controller {
  import opened Intervals
  import opened GtidSets
  import opened Selection
  import Detector
  import History
  import ColdStart

  datatype State = Discovering | Healthy | Suspect | FailingOver | Degraded | Rebuilding | Halted

  /** The move `SetState.to` makes of `state`. */
  function Moved(state: State, primary: Option<Name>, to: State): State {
    if state == Halted || (to == Healthy && primary.None?) then state else to
  }

  /** Every move but two is made: none leads out of HALTED, and none to HEALTHY without a primary. */
  lemma MovesExactly(state: State, primary: Option<Name>, to: State)
    ensures Moved(state, primary, to) == to || Moved(state, primary, to) == state
    ensures Moved(state, primary, to) == to <==>
      to == state || (state != Halted && !(to == Healthy && primary.None?))
  {
  }

  class SetState {
    var state: State
    var primary: Option<Name>
    var haltReason: Option<string>
    var cooldownUntil: Option<real>
    var failoversTotal: nat

    /** HEALTHY needs a known primary, and only a halted set has a halt reason. */
    ghost predicate Valid()
      reads this
    {
      (state == Healthy ==> primary.Some?) && (haltReason.Some? <==> state == Halted)
    }

    constructor ()
      ensures Valid() && state == Discovering && primary == None && cooldownUntil == None && failoversTotal == 0
    {
      state, primary, haltReason, cooldownUntil, failoversTotal := Discovering, None, None, None, 0;
    }

    method To(next: State, note: string) returns (changed: bool)
      requires Valid()
      modifies this`state, this`haltReason
      ensures Valid() && state == Moved(old(state), primary, next) && changed == (state != old(state))
      ensures primary == old(primary) && cooldownUntil == old(cooldownUntil) && failoversTotal == old(failoversTotal)
      ensures haltReason == if changed && next == Halted then Some(note) else old(haltReason)
    {
      if state == next {
        return false;
      }
      if state == Halted {
        return false;
      }
      if next == Healthy && primary.None? {
        return false;
      }
      state := next;
      if next == Halted {
        haltReason := Some(note);
      }
      return true;
    }

    /** The operator's resume, the one way out of HALTED. */
    method Resume() returns (resumed: bool)
      requires Valid()
      modifies this
      ensures Valid() && resumed == (old(state) == Halted)
      ensures resumed ==> state == if primary.Some? then Healthy else Discovering
      ensures !resumed ==> state == old(state)
      ensures primary == old(primary) && cooldownUntil == old(cooldownUntil) && failoversTotal == old(failoversTotal)
    {
      if state != Halted {
        return false;
      }
      state := if primary.Some? then Healthy else Discovering;
      haltReason := None;
      return true;
    }

    predicate InCooldown(now: real)
      reads this
    {
      cooldownUntil.Some? && now < cooldownUntil.value
    }
  }

  datatype Knobs = Knobs(p: Detector.Params, cooldown: real)

  /** `max(3 * detect_window_s, 10)`. */
  function Keep(k: Knobs): real {
    if k.p.window * 3.0 >= 10.0 then k.p.window * 3.0 else 10.0
  }

  /** `Rejoin` repairs the replicas of a primary whose probe fails only because its writes stall. */
  datatype Decision = Sit | Discover | ColdStartOf(node: Name) | HaltSet | StartFailover | HoldOff | Rejoin | Reconcile

  /** `cold_start_seen` after a check. A set that must halt leaves the count alone. */
  function SeenAfter(seen: nat, check: ColdStart.Decision): nat {
    match check
    case NotColdStart => 0
    case Halt => seen
    case PromoteInPlace(_) => if seen == 0 then 1 else 0
  }

  function ViewsOf(ob: Detector.Observation): ColdStart.Views {
    map n | n in ob.nodes :: ob.nodes[n].nv
  }

  class SetController {
    const members: seq<Name>
    const knobs: Knobs
    const st: SetState
    var history: seq<Detector.Observation>
    var coldStartSeen: nat
    var cooldownLogged: bool
    /** Every observation since the primary was last adopted. */
    ghost var log: seq<Detector.Observation>

    ghost predicate Valid()
      reads this, st
    {
      Detector.Distinct(members) && (knobs.p.window > 0.0 || knobs.p.probeFailures > 0) && st.Valid() &&
      Detector.Monotone(log) && history == History.Kept(log, Keep(knobs)) && coldStartSeen < 2
    }

    constructor (members: seq<Name>, knobs: Knobs, st: SetState)
      requires Detector.Distinct(members) && (knobs.p.window > 0.0 || knobs.p.probeFailures > 0) && st.Valid()
      ensures Valid() && this.members == members && this.knobs == knobs && this.st == st && log == []
      ensures coldStartSeen == 0 && !cooldownLogged
    {
      this.members, this.knobs, this.st := members, knobs, st;
      history, coldStartSeen, cooldownLogged, log := [], 0, false, [];
    }

    /** Adopting a primary drops the history: it was about the old one. */
    method SetPrimary(node: Name)
      requires Valid()
      modifies this, st
      ensures Valid() && st.primary == Some(node) && history == [] && log == []
      ensures st.state == old(st.state) && st.cooldownUntil == old(st.cooldownUntil)
      ensures st.failoversTotal == old(st.failoversTotal)
    {
      st.primary := Some(node);
      history, log := [], [];
    }

    /** The kept part has `probe_failures` polls, one of them a full window old. */
    ghost predicate EvidenceKept()
      reads this
    {
      |History.Kept(log, Keep(knobs))| >= knobs.p.probeFailures &&
      History.WindowKept(History.Kept(log, Keep(knobs)), knobs.p.window)
    }

    /** Append and pop from the front; the result is what pruning the whole log would keep. */
    method Poll(ob: Detector.Observation)
      requires Valid() && Detector.Monotone(log + [ob])
      modifies this`history, this`log
      ensures Valid() && log == old(log) + [ob] && history != [] && history[|history| - 1] == ob
    {
      ghost var before := history + [ob];
      history := history + [ob];
      while ob.ts - history[0].ts > Keep(knobs)
        invariant History.Pruned(history, ob.ts, Keep(knobs)) == History.Pruned(before, ob.ts, Keep(knobs))
        invariant log == old(log) && history != [] && history[|history| - 1] == ob
        decreases |history|
      {
        history := history[1..];
      }
      History.KeptStep(log, ob, Keep(knobs));
      log := log + [ob];
    }

    /** `_cold_start_check`: what it finds, the count after it, and that it acts on the second finding
        of a node that keeps everything since the count was last reset. */
    method ColdStartCheck(views: ColdStart.Views) returns (d: Option<Decision>, ghost check: ColdStart.Decision)
      requires Valid()
      modifies this`coldStartSeen
      ensures Valid() && coldStartSeen == SeenAfter(old(coldStartSeen), check)
      ensures check.NotColdStart? <==> !ColdStart.WholeSetRestart(views, members, st.primary)
      ensures check.Halt? <==>
        ColdStart.WholeSetRestart(views, members, st.primary) && forall m :: !ColdStart.Keeps(views, members, m)
      ensures check.PromoteInPlace? ==> ColdStart.Keeps(views, members, check.node)
      ensures d ==
        match check
        case NotColdStart => None
        case Halt => Some(HaltSet)
        case PromoteInPlace(node) => if old(coldStartSeen) == 1 then Some(ColdStartOf(node)) else None
    {
      var choice := ColdStart.ColdStartChoice(views, members, st.primary);
      check := choice;
      if choice.Halt? {
        return Some(HaltSet), check;
      }
      if choice.NotColdStart? {
        coldStartSeen := 0;
        return None, check;
      }
      coldStartSeen := coldStartSeen + 1;
      if coldStartSeen < 2 {
        return None, check;
      }
      coldStartSeen := 0;
      return Some(ColdStartOf(choice.node)), check;
    }

    /** The evidence for DEAD is in the part of the log the controller keeps. */
    ghost predicate SeenDead()
      reads this
    {
      Detector.IsDead(log, members, knobs.p) && EvidenceKept()
    }

    /** Not halted, no operation of the API running, a primary known. */
    ghost predicate Awake(locked: bool)
      reads this, st
    {
      st.state != Halted && !locked && st.primary.Some?
    }

    /** One tick: in every case what it decides and the state it leaves. A failover starts exactly when
        nothing else holds the set and the kept evidence says DEAD. */
    method Tick(ob: Detector.Observation, locked: bool, stalledAlive: bool, now: real)
      returns (d: Decision, ghost check: ColdStart.Decision)
      requires Valid() && Detector.Monotone(log + [ob])
      modifies this, st
      ensures Valid() && log == old(log) + [ob] && st.primary == old(st.primary)
      ensures st.cooldownUntil == old(st.cooldownUntil) && st.failoversTotal == old(st.failoversTotal)
      ensures !old(Awake(locked)) ==>
        st.state == old(st.state) && coldStartSeen == old(coldStartSeen) && cooldownLogged == old(cooldownLogged) &&
        d == if old(st.state) == Halted || locked then Sit else Discover
      ensures old(Awake(locked)) ==>
        coldStartSeen == SeenAfter(old(coldStartSeen), check) &&
        (check.NotColdStart? <==> !ColdStart.WholeSetRestart(ViewsOf(ob), members, st.primary)) &&
        (check.Halt? <==> ColdStart.WholeSetRestart(ViewsOf(ob), members, st.primary) &&
                          forall m :: !ColdStart.Keeps(ViewsOf(ob), members, m)) &&
        (check.PromoteInPlace? ==> ColdStart.Keeps(ViewsOf(ob), members, check.node))
      ensures old(Awake(locked)) && check.Halt? ==> d == HaltSet && st.state == Halted
      ensures old(Awake(locked)) && check.PromoteInPlace? && old(coldStartSeen) == 1 ==>
        d == ColdStartOf(check.node) && st.state == old(st.state)
      ensures old(Awake(locked)) && (check.NotColdStart? || (check.PromoteInPlace? && old(coldStartSeen) == 0)) ==>
        if SeenDead() then
          if old(st.InCooldown(now)) then
            d == HoldOff && cooldownLogged &&
            st.state == if old(cooldownLogged) then old(st.state) else Moved(old(st.state), st.primary, Suspect)
          else d == StartFailover && cooldownLogged == old(cooldownLogged) && st.state == old(st.state)
        else
          !cooldownLogged &&
          if Detector.NewestProbeFailed(log) then
            d == (if stalledAlive then Rejoin else HoldOff) && st.state == Moved(old(st.state), st.primary, Suspect)
          else d == Reconcile && st.state == old(st.state)
    {
      hide Detector.IsDead, ColdStart.WholeSetRestart, ColdStart.Keeps, History.Kept, History.WindowKept, ViewsOf;
      check := ColdStart.NotColdStart;
      Poll(ob);
      if st.state == Halted || locked {
        return Sit, check;
      }
      if st.primary.None? {
        return Discover, check;
      }
      var cold;
      cold, check := ColdStartCheck(ViewsOf(ob));
      if cold.Some? {
        if cold.value == HaltSet {
          var _ := st.To(Halted, "cold start: no node holds every transaction");
        }
        return cold.value, check;
      }
      d := Judge(stalledAlive, now);
    }

    /** The verdict on the kept part, in terms of the whole log. */
    method Evaluated() returns (v: Detector.Verdict)
      requires Valid() && history != [] && log != [] && history[|history| - 1] == log[|log| - 1]
      ensures v.kind == Detector.Dead <==> SeenDead()
      ensures v.kind == Detector.Suspect <==> !SeenDead() && Detector.NewestProbeFailed(log)
    {
      History.KeptMonotone(log, Keep(knobs));
      History.PruningKeepsVerdict(log, members, knobs.p, Keep(knobs));
      v := Detector.Evaluate(history, members, knobs.p);
    }

    /** What the tick makes of the detector's verdict. */
    method Judge(stalledAlive: bool, now: real) returns (d: Decision)
      requires Valid() && history != [] && log != [] && history[|history| - 1] == log[|log| - 1]
      requires st.primary.Some? && st.state != Halted
      modifies this`cooldownLogged, st`state, st`haltReason
      ensures Valid()
      ensures if SeenDead() then
          if st.InCooldown(now) then
            d == HoldOff && cooldownLogged &&
            st.state == if old(cooldownLogged) then old(st.state) else Moved(old(st.state), st.primary, Suspect)
          else d == StartFailover && cooldownLogged == old(cooldownLogged) && st.state == old(st.state)
        else
          !cooldownLogged &&
          if Detector.NewestProbeFailed(log) then
            d == (if stalledAlive then Rejoin else HoldOff) && st.state == Moved(old(st.state), st.primary, Suspect)
          else d == Reconcile && st.state == old(st.state)
    {
      var v := Evaluated();
      hide SeenDead, Detector.NewestProbeFailed, Detector.IsDead, History.Kept;
      if v.kind == Detector.Dead {
        if st.InCooldown(now) {
          if !cooldownLogged {
            cooldownLogged := true;
            var _ := st.To(Suspect, "failed over recently, no automatic action");
          }
          return HoldOff;
        }
        return StartFailover;
      }
      cooldownLogged := false;
      if v.kind == Detector.Suspect {
        var _ := st.To(Suspect, "probe failed");
        return if stalledAlive then Rejoin else HoldOff;
      }
      return Reconcile;
    }

    /** Step 7 of a failover: count it, start the cooldown, go DEGRADED under the new primary. */
    method RecordFailover(winner: Name, now: real)
      requires Valid() && st.state != Halted
      modifies this, st
      ensures Valid() && st.state == Degraded && st.primary == Some(winner) && history == []
      ensures st.failoversTotal == old(st.failoversTotal) + 1 && st.cooldownUntil == Some(now + knobs.cooldown)
      ensures forall t: real :: now <= t < now + knobs.cooldown ==> st.InCooldown(t)
    {
      SetPrimary(winner);
      st.failoversTotal := st.failoversTotal + 1;
      st.cooldownUntil := Some(now + knobs.cooldown);
      var _ := st.To(Degraded, "failed over");
    }
  }

  // ----- cold starts over a sequence of checks

  function SeenOver(checks: seq<ColdStart.Decision>): nat {
    if checks == [] then 0 else SeenAfter(SeenOver(checks[..|checks| - 1]), checks[|checks| - 1])
  }

  /** The check finds a keeper for the second time since the count was last reset. */
  predicate ActsAt(checks: seq<ColdStart.Decision>, i: int) {
    0 <= i < |checks| && checks[i].PromoteInPlace? && SeenOver(checks[..i]) == 1
  }

  /** Check `j` found a keeper, and every check between it and `i` called for a halt. */
  predicate Pending(checks: seq<ColdStart.Decision>, j: int, i: int) {
    0 <= j < i <= |checks| && checks[j].PromoteInPlace? && forall k :: j < k < i ==> checks[k].Halt?
  }

  /** An action means that the check before it, halts apart, found a keeper as well, and did not act. */
  lemma {:induction false} SeenMeansPending(checks: seq<ColdStart.Decision>, i: nat)
    requires i <= |checks|
    ensures SeenOver(checks[..i]) <= 1
    ensures SeenOver(checks[..i]) == 1 <==> exists j :: Pending(checks, j, i) && !ActsAt(checks, j)
  {
    if i > 0 {
      SeenMeansPending(checks, i - 1);
      assert checks[..i][..i - 1] == checks[..i - 1] && checks[..i][i - 1] == checks[i - 1];
      forall j | Pending(checks, j, i) ensures j == i - 1 || (checks[i - 1].Halt? && Pending(checks, j, i - 1)) {
      }
      match checks[i - 1]
      case PromoteInPlace(_) => assert Pending(checks, i - 1, i);
      case Halt =>
        if SeenOver(checks[..i - 1]) == 1 {
          var j :| Pending(checks, j, i - 1) && !ActsAt(checks, j);
          assert Pending(checks, j, i);
        }
      case NotColdStart =>
    }
  }

  /** Exactly when a check acts: it finds a keeper, and so did, without acting, the last check before it
      that did not call for a halt. */
  lemma ActsExactly(checks: seq<ColdStart.Decision>, i: nat)
    requires i < |checks|
    ensures ActsAt(checks, i) <==>
      checks[i].PromoteInPlace? && exists j :: Pending(checks, j, i) && !ActsAt(checks, j)
  {
    SeenMeansPending(checks, i);
  }

  /** Where no check called for a halt two consecutive ones agree on every action, and the second of
      two that agree after a check that found no restart acts. */
  lemma ConsecutiveChecks(checks: seq<ColdStart.Decision>, i: nat)
    requires i < |checks| && forall k :: 0 <= k < i ==> !checks[k].Halt?
    ensures ActsAt(checks, i) ==> i > 0 && checks[i - 1].PromoteInPlace? && checks[i].PromoteInPlace?
    ensures i > 0 && checks[i - 1].PromoteInPlace? && checks[i].PromoteInPlace? &&
            (i > 1 ==> checks[i - 2].NotColdStart?) ==>
      ActsAt(checks, i)
  {
    ActsExactly(checks, i);
    if i > 0 {
      ActsExactly(checks, i - 1);
      OnlyBefore(checks, i);
      if i > 1 {
        OnlyBefore(checks, i - 1);
      }
    }
  }

  lemma OnlyBefore(checks: seq<ColdStart.Decision>, i: nat)
    requires 0 < i <= |checks| && !checks[i - 1].Halt?
    ensures forall j :: Pending(checks, j, i) <==> j == i - 1 && checks[j].PromoteInPlace?
  {
    forall j | 0 <= j < i - 1 ensures !Pending(checks, j, i) {
    }
  }

  /** A halt in between does not reset the count: after the operator's resume one more check acts. */
  lemma HaltDoesNotReset(a: Name, b: Name)
    ensures ActsAt([ColdStart.PromoteInPlace(a), ColdStart.Halt, ColdStart.PromoteInPlace(b)], 2)
  {
    var checks := [ColdStart.PromoteInPlace(a), ColdStart.Halt, ColdStart.PromoteInPlace(b)];
    assert Pending(checks, 0, 2) && checks[..0] == [];
    ActsExactly(checks, 2);
  }

  // ----- what the kept part is good for

  /** What is dropped is older than three windows and than ten seconds; the rest is kept. */
  lemma KeptExactly(log: seq<Detector.Observation>, k: Knobs) returns (n: nat)
    requires Detector.Monotone(log) && log != []
    ensures n < |log| && History.Kept(log, Keep(k)) == log[n..]
    ensures forall i :: 0 <= i < |log| ==>
      var age := log[|log| - 1].ts - log[i].ts; i >= n <==> age <= 3.0 * k.p.window || age <= 10.0
  {
    n := History.PrunedIsSuffix(log, log[|log| - 1].ts, Keep(k));
    var last := |log| - 1;
    assert !(log[last].ts - log[last].ts > Keep(k));
  }

  /** With polls no more than two windows apart, and the newest `probe_failures` of them within three
      windows or ten seconds, a DEAD on the whole log keeps its evidence. */
  lemma RegularPollsKeepEvidence(log: seq<Detector.Observation>, members: seq<Name>, k: Knobs)
    requires Detector.Monotone(log) && k.p.window > 0.0 && Detector.IsDead(log, members, k.p)
    requires forall i :: 0 < i < |log| ==> log[i].ts - log[i - 1].ts <= 2.0 * k.p.window
    requires k.p.probeFailures <= |log| && (k.p.probeFailures > 0 ==>
      var age := log[|log| - 1].ts - log[|log| - k.p.probeFailures].ts; age <= 3.0 * k.p.window || age <= 10.0)
    ensures var kept := History.Kept(log, Keep(k));
      |kept| >= k.p.probeFailures && History.WindowKept(kept, k.p.window)
  {
    var n := KeptExactly(log, k);
    var kept := log[n..];
    var primary := log[|log| - 1].primary.value;
    var j :| Detector.LostSince(log, members, primary, k.p.window, j) && log[|log| - 1].ts - log[j].ts >= k.p.window;
    hide Detector.IsDead, Detector.LostSince, Detector.Monotone, History.Kept;
    var from := |log| - k.p.probeFailures;
    assert k.p.probeFailures > 0 ==> from >= n;
    if n == 0 {
      AgedEnough(log, 0, j, k.p.window);
    } else {
      assert log[|log| - 1].ts - log[n - 1].ts > 3.0 * k.p.window;
      assert log[n].ts - log[n - 1].ts <= 2.0 * k.p.window;
      AgedEnough(log, n, n, k.p.window);
    }
  }

  lemma AgedEnough(log: seq<Detector.Observation>, n: nat, j: nat, window: real)
    requires n <= j < |log| && log[|log| - 1].ts - log[j].ts >= window
    ensures History.WindowKept(log[n..], window)
  {
    var kept := log[n..];
    assert kept[|kept| - 1] == log[|log| - 1] && kept[j - n] == log[j];
    assert History.Age(kept, j - n) >= window;
  }

  // ----- what the moves keep

  datatype Call = Move(to: State) | Adopt(node: Name) | Resume

  function Called(s: (State, Option<Name>), c: Call): (State, Option<Name>) {
    match c
    case Move(to) => (Moved(s.0, s.1, to), s.1)
    case Adopt(node) => (s.0, Some(node))
    case Resume => if s.0 == Halted then (if s.1.Some? then Healthy else Discovering, s.1) else s
  }

  function Calls(s: (State, Option<Name>), cs: seq<Call>): (State, Option<Name>) {
    if cs == [] then s else Called(Calls(s, cs[..|cs| - 1]), cs[|cs| - 1])
  }

  /** Over any sequence of calls HALTED is left only by a resume, and HEALTHY implies a primary. */
  lemma {:induction false} HaltedIsSticky(s: (State, Option<Name>), cs: seq<Call>)
    ensures s.0 == Halted && Resume !in cs ==> Calls(s, cs).0 == Halted
    ensures (s.0 == Healthy ==> s.1.Some?) ==> Calls(s, cs).0 == Healthy ==> Calls(s, cs).1.Some?
  {
    if cs != [] {
      HaltedIsSticky(s, cs[..|cs| - 1]);
      assert cs == cs[..|cs| - 1] + [cs[|cs| - 1]];
    }
  }
}
