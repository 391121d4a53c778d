/** Failure detection of dbguard/manager/detector.py in dbguard mode: the two backward scans of
    the poll history and the verdict they give. Times are real numbers of seconds. */
module Detector {
  import opened Intervals
  import opened GtidSets
  import opened Selection

  /** One node as one poll saw it, with what only the detector reads. */
  datatype Seen = Seen(nv: NodeView, sourceReachable: Option<bool>, heartbeatAge: Option<real>,
                       secondsBehind: Option<nat>)

  /** `probe` is None when the primary was not probed, else whether the probe succeeded. */
  datatype Observation = Observation(ts: real, primary: Option<Name>, probe: Option<bool>, nodes: map<Name, Seen>)

  datatype Params = Params(window: real, probeFailures: nat)

  const HEARTBEAT_VOTE_MAX_WINDOWS := 10.0

  predicate IsWitness(nodes: map<Name, Seen>, m: Name, primary: Name) {
    m in nodes && nodes[m].nv.Usable() && nodes[m].nv.replica.configured
    && nodes[m].nv.replica.sourceHost == Some(primary)
  }

  /** A heartbeat row too old for its apply lag, but not so old that it predates a restart. */
  predicate HeartbeatStale(v: Seen, window: real) {
    v.heartbeatAge.Some? && v.heartbeatAge.value > window &&
    var lag := if v.secondsBehind.Some? then v.secondsBehind.value as real else 0.0;
    window < v.heartbeatAge.value - lag <= HEARTBEAT_VOTE_MAX_WINDOWS * window
  }

  /** `replica_vote` gives a reason. */
  predicate Votes(nodes: map<Name, Seen>, m: Name, primary: Name, window: real) {
    IsWitness(nodes, m, primary) &&
    (nodes[m].nv.replica.ioRunning != Yes || nodes[m].sourceReachable == Some(false)
     || HeartbeatStale(nodes[m], window))
  }

  function Witnesses(ob: Observation, members: seq<Name>, primary: Name): set<Name> {
    set m | m in members && m != primary && IsWitness(ob.nodes, m, primary)
  }

  function Voters(ob: Observation, members: seq<Name>, primary: Name, window: real): set<Name> {
    set m | m in members && m != primary && Votes(ob.nodes, m, primary, window)
  }

  /** A strict majority of the witnesses, of which there is at least one. */
  predicate StrictMajority(ob: Observation, members: seq<Name>, primary: Name, window: real) {
    2 * |Voters(ob, members, primary, window)| > |Witnesses(ob, members, primary)|
  }

  predicate Distinct(s: seq<Name>) {
    forall i, j :: 0 <= i < j < |s| ==> s[i] != s[j]
  }

  lemma AddMember(ob: Observation, members: seq<Name>, i: nat, primary: Name, window: real)
    requires Distinct(members) && i < |members|
    ensures |Witnesses(ob, members[..i + 1], primary)| == |Witnesses(ob, members[..i], primary)| +
      if members[i] != primary && IsWitness(ob.nodes, members[i], primary) then 1 else 0
    ensures |Voters(ob, members[..i + 1], primary, window)| == |Voters(ob, members[..i], primary, window)| +
      if members[i] != primary && Votes(ob.nodes, members[i], primary, window) then 1 else 0
  {
    var m := members[i];
    assert members[..i + 1] == members[..i] + [m];
    assert forall n :: n in members[..i + 1] <==> n in members[..i] || n == m;
    assert m !in members[..i];
    OneMore(Witnesses(ob, members[..i], primary), Witnesses(ob, members[..i + 1], primary), m,
            m != primary && IsWitness(ob.nodes, m, primary));
    OneMore(Voters(ob, members[..i], primary, window), Voters(ob, members[..i + 1], primary, window), m,
            m != primary && Votes(ob.nodes, m, primary, window));
  }

  lemma OneMore<T>(before: set<T>, now: set<T>, x: T, joins: bool)
    requires x !in before && (x in now <==> joins)
    requires forall y :: y != x ==> (y in now <==> y in before)
    ensures |now| == |before| + if joins then 1 else 0
  {
    assert now == if joins then before + {x} else before;
  }

  /** `votes_at`: one pass over the members. */
  method VotesAt(ob: Observation, members: seq<Name>, primary: Name, window: real) returns (votes: nat, witnesses: nat)
    requires Distinct(members)
    ensures votes == |Voters(ob, members, primary, window)| && witnesses == |Witnesses(ob, members, primary)|
    ensures votes <= witnesses
  {
    votes, witnesses := 0, 0;
    for i := 0 to |members|
      invariant votes == |Voters(ob, members[..i], primary, window)|
      invariant witnesses == |Witnesses(ob, members[..i], primary)|
      invariant votes <= witnesses
    {
      AddMember(ob, members, i, primary, window);
      var m := members[i];
      if m != primary && IsWitness(ob.nodes, m, primary) {
        witnesses := witnesses + 1;
        if Votes(ob.nodes, m, primary, window) {
          votes := votes + 1;
        }
      }
    }
    assert members[..|members|] == members;
  }

  // ----- the scans

  predicate ProbeDown(ob: Observation, primary: Name) {
    ob.primary == Some(primary) && ob.probe == Some(false)
  }

  predicate QuorumDown(ob: Observation, members: seq<Name>, primary: Name, window: real) {
    ob.primary == Some(primary) && StrictMajority(ob, members, primary, window)
  }

  /** Index where the newest unbroken run of failed probes begins (the length if there is none). */
  function ProbeStart(h: seq<Observation>, primary: Name): (k: nat)
    ensures k <= |h| && (forall j :: k <= j < |h| ==> ProbeDown(h[j], primary))
    ensures k > 0 ==> !ProbeDown(h[k - 1], primary)
  {
    if h == [] || !ProbeDown(h[|h| - 1], primary) then |h|
    else
      var k := ProbeStart(h[..|h| - 1], primary);
      assert forall j :: 0 <= j < |h| - 1 ==> h[..|h| - 1][j] == h[j];
      k
  }

  datatype Kind = Ok | NoPrimary | Suspect | Dead | ReplicasOnly

  datatype Verdict = Verdict(kind: Kind, streak: nat, probeDownS: real, votes: nat, witnesses: nat, quorumS: real)

  /** Every observation from `k` on is about this primary, with a failed probe and a strict
      majority of witnesses who lost it. */
  ghost predicate LostSince(h: seq<Observation>, members: seq<Name>, primary: Name, window: real, k: int) {
    0 <= k < |h| &&
    forall j :: k <= j < |h| ==> ProbeDown(h[j], primary) && QuorumDown(h[j], members, primary, window)
  }

  /** What DEAD means. */
  ghost predicate IsDead(h: seq<Observation>, members: seq<Name>, p: Params) {
    h != [] && h[|h| - 1].primary.Some? &&
    var primary := h[|h| - 1].primary.value;
    |h| - ProbeStart(h, primary) >= p.probeFailures &&
    exists k :: LostSince(h, members, primary, p.window, k) && h[|h| - 1].ts - h[k].ts >= p.window
  }

  ghost predicate Monotone(h: seq<Observation>) {
    forall i, j :: 0 <= i < j < |h| ==> h[i].ts <= h[j].ts
  }

  method ScanProbe(h: seq<Observation>, primary: Name) returns (start: nat)
    ensures start == ProbeStart(h, primary)
  {
    start := |h|;
    while start > 0 && ProbeDown(h[start - 1], primary)
      invariant start <= |h|
      invariant forall j :: start <= j < |h| ==> ProbeDown(h[j], primary)
    {
      start := start - 1;
    }
  }

  method ScanQuorum(h: seq<Observation>, members: seq<Name>, primary: Name, window: real) returns (start: nat)
    requires Distinct(members)
    ensures start <= |h| && (forall j :: start <= j < |h| ==> QuorumDown(h[j], members, primary, window))
    ensures start > 0 ==> !QuorumDown(h[start - 1], members, primary, window)
  {
    start := |h|;
    while start > 0
      invariant start <= |h|
      invariant forall j :: start <= j < |h| ==> QuorumDown(h[j], members, primary, window)
    {
      var ob := h[start - 1];
      if ob.primary != Some(primary) {
        return;
      }
      var votes, witnesses := VotesAt(ob, members, primary, window);
      if !(witnesses > 0 && votes >= 1 && votes * 2 > witnesses) {
        return;
      }
      start := start - 1;
    }
  }

  predicate NewestProbeFailed(h: seq<Observation>) {
    h != [] && h[|h| - 1].primary.Some? && h[|h| - 1].probe == Some(false)
  }

  predicate NewestQuorum(h: seq<Observation>, members: seq<Name>, window: real) {
    h != [] && h[|h| - 1].primary.Some? &&
    QuorumDown(h[|h| - 1], members, h[|h| - 1].primary.value, window)
  }

  /** The newest `n` observations, and no more, are of a failed probe of this primary. */
  ghost predicate FailedFor(h: seq<Observation>, primary: Name, n: nat) {
    n <= |h| && (forall j :: |h| - n <= j < |h| ==> ProbeDown(h[j], primary)) &&
    (n < |h| ==> !ProbeDown(h[|h| - n - 1], primary))
  }

  /** The newest `n` observations, and no more, are of a strict majority that lost this primary. */
  ghost predicate MajorityFor(h: seq<Observation>, members: seq<Name>, primary: Name, window: real, n: nat) {
    n <= |h| && (forall j :: |h| - n <= j < |h| ==> QuorumDown(h[j], members, primary, window)) &&
    (n < |h| ==> !QuorumDown(h[|h| - n - 1], members, primary, window))
  }

  /** How long the newest `n` observations last. */
  function Lasting(h: seq<Observation>, n: nat): real
    requires n <= |h|
  {
    if n == 0 then 0.0 else h[|h| - 1].ts - h[|h| - n].ts
  }

  /** What the verdict reports: the failed probes in a row and for how long, the votes and the witnesses of
      the newest observation, and how long the majority has held. */
  ghost predicate Reports(h: seq<Observation>, members: seq<Name>, p: Params, v: Verdict) {
    if h == [] || h[|h| - 1].primary.None? then
      v == Verdict(if h == [] then Ok else NoPrimary, 0, 0.0, 0, 0, 0.0)
    else
      var last, primary := h[|h| - 1], h[|h| - 1].primary.value;
      FailedFor(h, primary, v.streak) && v.probeDownS == Lasting(h, v.streak) &&
      v.votes == |Voters(last, members, primary, p.window)| && v.witnesses == |Witnesses(last, members, primary)| &&
      exists n: nat :: MajorityFor(h, members, primary, p.window, n) && v.quorumS == Lasting(h, n)
  }

  /** The votes in the newest observation and, if they are a majority, since when they have been. */
  method Majority(h: seq<Observation>, members: seq<Name>, primary: Name, window: real)
    returns (votes: nat, witnesses: nat, start: nat)
    requires Distinct(members) && h != [] && h[|h| - 1].primary == Some(primary)
    ensures votes == |Voters(h[|h| - 1], members, primary, window)|
    ensures witnesses == |Witnesses(h[|h| - 1], members, primary)|
    ensures start <= |h| && MajorityFor(h, members, primary, window, |h| - start)
    ensures start < |h| <==> NewestQuorum(h, members, window)
  {
    var last := h[|h| - 1];
    votes, witnesses := VotesAt(last, members, primary, window);
    start := |h|;
    if witnesses > 0 && votes >= 1 && votes * 2 > witnesses {
      start := ScanQuorum(h, members, primary, window);
    }
    QuorumRun(h, members, primary, window, start);
  }

  /** `evaluate`: with timestamps that never go back, DEAD exactly when some suffix of the history
      at least a window old was lost throughout and the failing run is long enough; otherwise
      SUSPECT exactly when the newest probe failed. */
  method Evaluate(h: seq<Observation>, members: seq<Name>, p: Params) returns (v: Verdict)
    requires Distinct(members) && Monotone(h) && (p.window > 0.0 || p.probeFailures > 0)
    ensures v.kind == Dead <==> IsDead(h, members, p)
    ensures v.kind == NoPrimary <==> h != [] && h[|h| - 1].primary.None?
    ensures v.kind == Suspect <==> !IsDead(h, members, p) && NewestProbeFailed(h)
    ensures v.kind == ReplicasOnly <==> !NewestProbeFailed(h) && NewestQuorum(h, members, p.window)
    ensures Reports(h, members, p, v)
  {
    if h == [] {
      return Verdict(Ok, 0, 0.0, 0, 0, 0.0);
    }
    var last := h[|h| - 1];
    if last.primary.None? {
      return Verdict(NoPrimary, 0, 0.0, 0, 0, 0.0);
    }
    hide IsDead, Monotone, Distinct, NewestProbeFailed, NewestQuorum, Reports;
    v := EvaluatePrimary(h, members, p, last.primary.value);
  }

  method EvaluatePrimary(h: seq<Observation>, members: seq<Name>, p: Params, primary: Name) returns (v: Verdict)
    requires Distinct(members) && Monotone(h) && (p.window > 0.0 || p.probeFailures > 0)
    requires h != [] && h[|h| - 1].primary == Some(primary)
    ensures v.kind == Dead <==> IsDead(h, members, p)
    ensures v.kind == Suspect <==> !IsDead(h, members, p) && NewestProbeFailed(h)
    ensures v.kind == ReplicasOnly <==> !NewestProbeFailed(h) && NewestQuorum(h, members, p.window)
    ensures v.kind != NoPrimary && Reports(h, members, p, v)
  {
    hide IsDead, Monotone, Distinct, QuorumDown, ProbeDown, ProbeStart, NewestProbeFailed, FailedFor, MajorityFor,
         Reports, Voters, Witnesses, NewestQuorum, LostSince;
    var last := h[|h| - 1];
    var probeStart := ScanProbe(h, primary);
    var streak := |h| - probeStart;
    ProbeRun(h, primary, probeStart);
    var probeDownS := if streak > 0 then last.ts - h[probeStart].ts else 0.0;
    var votes, witnesses, quorumStart := Majority(h, members, primary, p.window);
    var quorum := quorumStart < |h|;
    var quorumS := if quorum then last.ts - h[quorumStart].ts else 0.0;
    DeadFromScans(h, members, p, probeStart, quorumStart);
    var kind :=
      if streak >= p.probeFailures && quorum && Min(probeDownS, quorumS) >= p.window then Dead
      else if streak > 0 then Suspect
      else if quorum then ReplicasOnly
      else Ok;
    v := Verdict(kind, streak, probeDownS, votes, witnesses, quorumS);
    Reported(h, members, p, v, |h| - quorumStart);
  }

  lemma ProbeRun(h: seq<Observation>, primary: Name, start: nat)
    requires h != [] && h[|h| - 1].primary == Some(primary) && start == ProbeStart(h, primary)
    ensures FailedFor(h, primary, |h| - start) && (start < |h| <==> NewestProbeFailed(h))
  {
  }

  lemma QuorumRun(h: seq<Observation>, members: seq<Name>, primary: Name, window: real, start: nat)
    requires h != [] && h[|h| - 1].primary == Some(primary) && start <= |h|
    requires forall j :: start <= j < |h| ==> QuorumDown(h[j], members, primary, window)
    requires start > 0 ==> !QuorumDown(h[start - 1], members, primary, window)
    ensures MajorityFor(h, members, primary, window, |h| - start)
    ensures start < |h| <==> NewestQuorum(h, members, window)
  {
    hide StrictMajority;
  }

  lemma Reported(h: seq<Observation>, members: seq<Name>, p: Params, v: Verdict, n: nat)
    requires h != [] && h[|h| - 1].primary.Some? && v.streak <= |h| && n <= |h|
    requires var last, primary := h[|h| - 1], h[|h| - 1].primary.value;
      FailedFor(h, primary, v.streak) && v.probeDownS == Lasting(h, v.streak) &&
      v.votes == |Voters(last, members, primary, p.window)| && v.witnesses == |Witnesses(last, members, primary)| &&
      MajorityFor(h, members, primary, p.window, n) && v.quorumS == Lasting(h, n)
    ensures Reports(h, members, p, v)
  {
    hide FailedFor, MajorityFor, Lasting, Voters, Witnesses;
  }

  function Min(a: real, b: real): real { if a <= b then a else b }

  ghost predicate AllSince(h: seq<Observation>, p: Observation -> bool, q: Observation -> bool, k: int) {
    0 <= k < |h| && forall j :: k <= j < |h| ==> p(h[j]) && q(h[j])
  }

  /** Two unbroken runs are both a window old exactly when their common part is. */
  lemma TwoRuns(h: seq<Observation>, p: Observation -> bool, q: Observation -> bool, window: real, a: nat, b: nat)
    requires Monotone(h) && h != [] && a <= |h| && b <= |h|
    requires (forall j :: a <= j < |h| ==> p(h[j])) && (a > 0 ==> !p(h[a - 1]))
    requires (forall j :: b <= j < |h| ==> q(h[j])) && (b > 0 ==> !q(h[b - 1]))
    ensures (exists k :: AllSince(h, p, q, k) && h[|h| - 1].ts - h[k].ts >= window) <==>
      a < |h| && b < |h| && h[|h| - 1].ts - h[a].ts >= window && h[|h| - 1].ts - h[b].ts >= window
  {
    forall k | AllSince(h, p, q, k) ensures a <= k && b <= k {
    }
    if a < |h| && b < |h| {
      assert AllSince(h, p, q, if a <= b then b else a);
    }
  }

  lemma DeadFromScans(h: seq<Observation>, members: seq<Name>, p: Params, a: nat, b: nat)
    requires Monotone(h) && h != [] && h[|h| - 1].primary.Some?
    requires var primary := h[|h| - 1].primary.value;
      a == ProbeStart(h, primary) && b <= |h| && MajorityFor(h, members, primary, p.window, |h| - b)
    ensures IsDead(h, members, p) <==>
      |h| - a >= p.probeFailures && a < |h| && b < |h| &&
      h[|h| - 1].ts - h[a].ts >= p.window && h[|h| - 1].ts - h[b].ts >= p.window
  {
    var primary := h[|h| - 1].primary.value;
    hide ProbeDown, QuorumDown, LostSince, AllSince, IsDead, Monotone;
    ScansMeet(h, members, p, primary, a, b, ob => ProbeDown(ob, primary),
              ob => QuorumDown(ob, members, primary, p.window));
  }

  lemma ScansMeet(h: seq<Observation>, members: seq<Name>, p: Params, primary: Name, a: nat, b: nat,
                  probe: Observation -> bool, quorum: Observation -> bool)
    requires Monotone(h) && h != [] && h[|h| - 1].primary == Some(primary)
    requires a == ProbeStart(h, primary) && b <= |h| && MajorityFor(h, members, primary, p.window, |h| - b)
    requires forall ob :: probe(ob) <==> ProbeDown(ob, primary)
    requires forall ob :: quorum(ob) <==> QuorumDown(ob, members, primary, p.window)
    ensures IsDead(h, members, p) <==>
      |h| - a >= p.probeFailures && a < |h| && b < |h| &&
      h[|h| - 1].ts - h[a].ts >= p.window && h[|h| - 1].ts - h[b].ts >= p.window
  {
    hide ProbeDown, QuorumDown, LostSince, AllSince, IsDead, Monotone;
    SameDead(h, members, p, primary, probe, quorum);
    TwoRuns(h, probe, quorum, p.window, a, b);
  }

  lemma SameDead(h: seq<Observation>, members: seq<Name>, p: Params, primary: Name,
                 probe: Observation -> bool, quorum: Observation -> bool)
    requires h != [] && h[|h| - 1].primary == Some(primary)
    requires forall ob :: probe(ob) <==> ProbeDown(ob, primary)
    requires forall ob :: quorum(ob) <==> QuorumDown(ob, members, primary, p.window)
    ensures IsDead(h, members, p) <==>
      |h| - ProbeStart(h, primary) >= p.probeFailures &&
      exists k :: AllSince(h, probe, quorum, k) && h[|h| - 1].ts - h[k].ts >= p.window
  {
    hide ProbeDown, QuorumDown, ProbeStart, LostSince, AllSince;
    forall k ensures LostSince(h, members, primary, p.window, k) <==> AllSince(h, probe, quorum, k) {
      SameSince(h, members, primary, p.window, probe, quorum, k);
    }
  }

  lemma SameSince(h: seq<Observation>, members: seq<Name>, primary: Name, window: real,
                  p: Observation -> bool, q: Observation -> bool, k: int)
    requires forall ob :: p(ob) <==> ProbeDown(ob, primary)
    requires forall ob :: q(ob) <==> QuorumDown(ob, members, primary, window)
    ensures LostSince(h, members, primary, window, k) <==> AllSince(h, p, q, k)
  {
  }
}
