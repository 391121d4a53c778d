/** The pruned poll history of dbguard/manager/controller.py: what is thrown away changes no
    verdict except a DEAD whose evidence no longer fits in the kept part. */
module History {
  import opened Intervals
  import opened GtidSets
  import opened Selection
  import opened Detector

  /** Popping from the front whatever is older than `keep` at time `now`. */
  function Pruned(h: seq<Observation>, now: real, keep: real): seq<Observation> {
    if h != [] && now - h[0].ts > keep then Pruned(h[1..], now, keep) else h
  }

  /** The kept part of a whole log, as of its newest observation. */
  function Kept(log: seq<Observation>, keep: real): seq<Observation> {
    if log == [] then [] else Pruned(log, log[|log| - 1].ts, keep)
  }

  lemma {:induction false} PrunedIsSuffix(h: seq<Observation>, now: real, keep: real) returns (d: nat)
    ensures d <= |h| && Pruned(h, now, keep) == h[d..]
    ensures forall i :: 0 <= i < d ==> now - h[i].ts > keep
    ensures d < |h| ==> now - h[d].ts <= keep
  {
    if h != [] && now - h[0].ts > keep {
      var e := PrunedIsSuffix(h[1..], now, keep);
      d := e + 1;
      assert h[1..][e..] == h[d..];
      forall i | 0 <= i < d ensures now - h[i].ts > keep {
        assert i > 0 ==> h[1..][i - 1] == h[i];
      }
    } else {
      d := 0;
      assert h[0..] == h;
    }
  }

  /** Pruning at every poll keeps exactly what pruning the whole log at the end would. */
  lemma KeptStep(log: seq<Observation>, ob: Observation, keep: real)
    requires Monotone(log + [ob]) && keep >= 0.0
    ensures Pruned(Kept(log, keep) + [ob], ob.ts, keep) == Kept(log + [ob], keep)
  {
    var all := log + [ob];
    assert all[|all| - 1] == ob;
    if log == [] {
      assert Kept(log, keep) + [ob] == all;
    } else {
      var d := PrunedIsSuffix(log, log[|log| - 1].ts, keep);
      assert log[|log| - 1] == all[|log| - 1];
      forall i | 0 <= i < d ensures ob.ts - all[i].ts > keep {
        assert all[i] == log[i] && all[|log| - 1].ts <= all[|log|].ts;
      }
      SkipOld(all, ob.ts, keep, d);
      assert all[d..] == log[d..] + [ob];
    }
  }

  lemma {:induction false} SkipOld(h: seq<Observation>, now: real, keep: real, d: nat)
    requires d <= |h| && forall i :: 0 <= i < d ==> now - h[i].ts > keep
    ensures Pruned(h[d..], now, keep) == Pruned(h, now, keep)
    decreases d
  {
    if d == 0 {
      assert h[0..] == h;
    } else {
      assert h[1..][d - 1..] == h[d..];
      SkipOld(h[1..], now, keep, d - 1);
    }
  }

  lemma {:induction false} StartOfSuffix(h: seq<Observation>, d: nat, primary: Name)
    requires d <= |h|
    ensures |h[d..]| - ProbeStart(h[d..], primary) ==
      if ProbeStart(h, primary) >= d then |h| - ProbeStart(h, primary) else |h| - d
  {
    hide ProbeDown;
    var t := h[d..];
    var a, b := ProbeStart(h, primary), ProbeStart(t, primary);
    assert forall j :: 0 <= j < |t| ==> t[j] == h[d + j];
    if a >= d {
      assert a > d ==> !ProbeDown(t[a - d - 1], primary);
      assert forall j :: a - d <= j < |t| ==> ProbeDown(t[j], primary);
      assert b > 0 ==> !ProbeDown(t[b - 1], primary);
      assert b == a - d;
    } else {
      assert forall j :: 0 <= j < |t| ==> ProbeDown(t[j], primary);
    }
  }

  /** Some kept observation is a full window old. */
  ghost predicate WindowKept(h: seq<Observation>, window: real) {
    exists k :: 0 <= k < |h| && Age(h, k) >= window
  }

  function Age(h: seq<Observation>, k: int): real
    requires 0 <= k < |h|
  {
    h[|h| - 1].ts - h[k].ts
  }

  lemma LostSuffix(h: seq<Observation>, members: seq<Name>, primary: Name, window: real, d: nat, k: int)
    requires 0 <= d <= k < |h|
    ensures LostSince(h[d..], members, primary, window, k - d) <==> LostSince(h, members, primary, window, k)
  {
    var t := h[d..];
    assert forall j :: 0 <= j < |t| ==> t[j] == h[d + j];
    forall j | k <= j < |h| && LostSince(t, members, primary, window, k - d)
      ensures ProbeDown(h[j], primary) && QuorumDown(h[j], members, primary, window)
    {
      assert h[j] == t[j - d];
    }
  }

  lemma LostLater(h: seq<Observation>, members: seq<Name>, primary: Name, window: real, i: int, k: int)
    requires LostSince(h, members, primary, window, i) && i <= k < |h|
    ensures LostSince(h, members, primary, window, k)
  {
  }

  lemma DeadBefore(h: seq<Observation>, members: seq<Name>, p: Params, d: nat)
    requires d < |h| && IsDead(h[d..], members, p)
    ensures IsDead(h, members, p) && |h[d..]| >= p.probeFailures && WindowKept(h[d..], p.window)
  {
    hide ProbeDown, QuorumDown, ProbeStart;
    var t := h[d..];
    assert t[|t| - 1] == h[|h| - 1];
    var primary := h[|h| - 1].primary.value;
    StartOfSuffix(h, d, primary);
    var k :| LostSince(t, members, primary, p.window, k) && t[|t| - 1].ts - t[k].ts >= p.window;
    hide LostSince;
    LostSuffix(h, members, primary, p.window, d, k + d);
    assert t[k] == h[k + d];
    assert Age(t, k) >= p.window;
  }

  lemma DeadAfter(h: seq<Observation>, members: seq<Name>, p: Params, d: nat)
    requires d < |h| && IsDead(h, members, p) && |h[d..]| >= p.probeFailures && WindowKept(h[d..], p.window)
    ensures IsDead(h[d..], members, p)
  {
    hide ProbeDown, QuorumDown, ProbeStart;
    var t := h[d..];
    assert t[|t| - 1] == h[|h| - 1];
    var primary := h[|h| - 1].primary.value;
    StartOfSuffix(h, d, primary);
    var k :| LostSince(h, members, primary, p.window, k) && h[|h| - 1].ts - h[k].ts >= p.window;
    hide LostSince;
    var y :| 0 <= y < |t| && Age(t, y) >= p.window;
    var m := if k >= d + y then k else d + y;
    LostLater(h, members, primary, p.window, k, m);
    LostSuffix(h, members, primary, p.window, d, m);
    assert t[m - d] == h[m] && t[y] == h[d + y];
  }

  /** DEAD on the kept part is DEAD on the whole log with the evidence still kept: pruning never
      creates a DEAD, and hides one only when the kept part is too short or too young. */
  lemma SuffixDead(h: seq<Observation>, members: seq<Name>, p: Params, d: nat)
    requires d < |h|
    ensures IsDead(h[d..], members, p) <==>
      IsDead(h, members, p) && |h[d..]| >= p.probeFailures && WindowKept(h[d..], p.window)
  {
    hide IsDead, WindowKept;
    if IsDead(h[d..], members, p) {
      DeadBefore(h, members, p, d);
    }
    if IsDead(h, members, p) && |h[d..]| >= p.probeFailures && WindowKept(h[d..], p.window) {
      DeadAfter(h, members, p, d);
    }
  }

  /** For the whole log of one primary and the history the controller keeps of it. */
  lemma PruningKeepsVerdict(log: seq<Observation>, members: seq<Name>, p: Params, keep: real)
    requires keep >= 0.0
    ensures IsDead(Kept(log, keep), members, p) <==>
      IsDead(log, members, p) && |Kept(log, keep)| >= p.probeFailures && WindowKept(Kept(log, keep), p.window)
  {
    if log != [] {
      var d := PrunedIsSuffix(log, log[|log| - 1].ts, keep);
      assert log[|log| - 1].ts - log[|log| - 1].ts <= keep;
      SuffixDead(log, members, p, d);
    }
  }

  lemma KeptMonotone(log: seq<Observation>, keep: real)
    requires Monotone(log)
    ensures Monotone(Kept(log, keep))
  {
    if log != [] {
      var d := PrunedIsSuffix(log, log[|log| - 1].ts, keep);
    }
  }
}
