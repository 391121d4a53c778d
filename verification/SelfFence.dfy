/** The self-fence lease of dbguard/agent/core.py over traces of ticks. Times are milliseconds of
    the monotonic clock, the precision the agent rounds to. */
module SelfFence {
  import opened Intervals

  /** What one tick found: whether the lease is on, whether the node is fenced or rebuilding,
      super_read_only and the connected semi-sync clients if mysqld answered, whether the manager
      answered, and the clock when the count may start and when it is compared. */
  datatype Tick = Tick(on: bool, busy: bool, readOnly: Option<bool>, clients: Option<int>, reachable: bool,
                       begun: int, judged: int)

  datatype Outcome = Disabled | NotPrimary | UnknownFacts | AllWell | Counting | SelfFenced

  function Verdict(since: Option<int>, t: Tick, bound: int): Outcome {
    if !t.on then Disabled
    else if t.busy || (t.readOnly.Some? && t.readOnly.value) then NotPrimary
    else if t.reachable then AllWell
    else if t.readOnly.None? || t.clients.None? then UnknownFacts
    else if t.clients.value > 0 then AllWell
    else if t.judged - (if since.Some? then since.value else t.begun) < bound then Counting
    else SelfFenced
  }

  /** When the count began, after the tick. */
  function Counted(since: Option<int>, t: Tick, bound: int): Option<int> {
    match Verdict(since, t, bound)
    case UnknownFacts => Some(if since.Some? then since.value else t.begun)
    case Counting => Some(if since.Some? then since.value else t.begun)
    case _ => None
  }

  class Lease {
    var since: Option<int>
    const bound: int

    constructor (bound: int)
      ensures this.bound == bound && since == None
    {
      this.bound, since := bound, None;
    }

    /** `self_fence_tick`; on SelfFenced the caller fences the node. */
    method Run(t: Tick) returns (outcome: Outcome)
      modifies this
      ensures outcome == Verdict(old(since), t, bound) && since == Counted(old(since), t, bound)
    {
      if !t.on {
        since := None;
        return Disabled;
      }
      if t.busy {
        since := None;
        return NotPrimary;
      }
      if t.readOnly.Some? && t.readOnly.value {
        since := None;
        return NotPrimary;
      }
      if t.reachable {
        since := None;
        return AllWell;
      }
      if since.None? {
        since := Some(t.begun);
      }
      if t.readOnly.None? || t.clients.None? {
        return UnknownFacts;
      }
      if t.clients.value > 0 {
        since := None;
        return AllWell;
      }
      if t.judged - since.value < bound {
        return Counting;
      }
      since := None;
      return SelfFenced;
    }
  }

  // ----- traces

  function Since(h: seq<Tick>, bound: int): Option<int> {
    if h == [] then None else Counted(Since(h[..|h| - 1], bound), h[|h| - 1], bound)
  }

  predicate FencesAt(h: seq<Tick>, i: int, bound: int) {
    0 <= i < |h| && Verdict(Since(h[..i], bound), h[i], bound) == SelfFenced
  }

  /** The manager unreachable, and nothing mysqld said speaks against fencing. */
  predicate CutOff(t: Tick) {
    t.on && !t.busy && !t.reachable && !(t.readOnly.Some? && t.readOnly.value) &&
    !(t.readOnly.Some? && t.clients.Some? && t.clients.value > 0)
  }

  /** mysqld answered: writable, and no semi-sync client. */
  predicate Confirmed(t: Tick) {
    t.readOnly.Some? && !t.readOnly.value && t.clients.Some? && t.clients.value <= 0
  }

  /** Cut off at every tick from `j` up to `i`, with no self-fence in between. */
  ghost predicate CutOffSince(h: seq<Tick>, j: int, i: int, bound: int) {
    0 <= j <= i <= |h| && forall k :: j <= k < i ==> CutOff(h[k]) && !FencesAt(h, k, bound)
  }

  ghost predicate Clocked(h: seq<Tick>) {
    (forall i :: 0 <= i < |h| ==> h[i].begun <= h[i].judged) &&
    forall i, j :: 0 <= i < j < |h| ==> h[i].judged <= h[j].begun
  }

  /** The count runs exactly while the node has been cut off, and began with the first such tick. */
  lemma {:induction false} CountRuns(h: seq<Tick>, i: nat, bound: int) returns (j: nat)
    requires i <= |h|
    ensures CutOffSince(h, j, i, bound)
    ensures j > 0 ==> !CutOffSince(h, j - 1, i, bound)
    ensures Since(h[..i], bound) == if j < i then Some(h[j].begun) else None
  {
    hide CutOff, FencesAt, Verdict, Counted;
    if i == 0 {
      j := 0;
    } else {
      var e := CountRuns(h, i - 1, bound);
      LastTick(h, i - 1, bound);
      if CutOff(h[i - 1]) && !FencesAt(h, i - 1, bound) {
        j := e;
        assert j > 0 && CutOffSince(h, j - 1, i, bound) ==> CutOffSince(h, j - 1, i - 1, bound);
      } else {
        j := i;
      }
    }
  }

  lemma LastTick(h: seq<Tick>, i: nat, bound: int)
    requires i < |h|
    ensures var since := Since(h[..i], bound);
      Since(h[..i + 1], bound) == if CutOff(h[i]) && !FencesAt(h, i, bound)
      then Some(if since.Some? then since.value else h[i].begun) else None
  {
    assert h[..i + 1][..i] == h[..i] && h[..i + 1][i] == h[i];
    TickCounts(Since(h[..i], bound), h[i], bound);
  }

  lemma TickCounts(since: Option<int>, t: Tick, bound: int)
    ensures Counted(since, t, bound).Some? <==> CutOff(t) && Verdict(since, t, bound) != SelfFenced
    ensures Counted(since, t, bound).Some? ==>
      Counted(since, t, bound).value == if since.Some? then since.value else t.begun
    ensures Verdict(since, t, bound) == SelfFenced <==>
      (CutOff(t) && Confirmed(t) && t.judged - (if since.Some? then since.value else t.begun) >= bound)
  {
  }

  /** A tick fences if and only if mysqld confirms it and the node has been cut off, tick after
      tick, since one that began at least the bound ago. So every tick of the preceding bound
      found the manager unreachable, and the first confirmed tick past the bound fences. */
  lemma FencesExactly(h: seq<Tick>, i: nat, bound: int)
    requires Clocked(h) && i < |h|
    ensures FencesAt(h, i, bound) <==>
      (Confirmed(h[i]) && CutOff(h[i]) &&
       exists j :: CutOffSince(h, j, i, bound) && h[i].judged - h[j].begun >= bound)
  {
    var e := CountRuns(h, i, bound);
    TickCounts(Since(h[..i], bound), h[i], bound);
    if j :| CutOffSince(h, j, i, bound) && h[i].judged - h[j].begun >= bound {
      EarliestRun(h, e, j, i, bound);
    }
  }

  lemma EarliestRun(h: seq<Tick>, e: nat, j: int, i: nat, bound: int)
    requires Clocked(h) && i < |h| && CutOffSince(h, e, i, bound) && (e > 0 ==> !CutOffSince(h, e - 1, i, bound))
    requires CutOffSince(h, j, i, bound)
    ensures e <= j && h[e].begun <= h[j].begun
  {
    if j < e {
      assert CutOffSince(h, e - 1, i, bound);
    }
  }

  /** Every tick within the bound before a self-fence found the manager unreachable, and none saw
      mysqld read-only or with a semi-sync client. */
  lemma WholeBoundCutOff(h: seq<Tick>, i: nat, k: nat, bound: int)
    requires Clocked(h) && FencesAt(h, i, bound) && k <= i && h[i].judged - h[k].begun < bound
    ensures CutOff(h[k])
  {
    FencesExactly(h, i, bound);
    var j :| CutOffSince(h, j, i, bound) && h[i].judged - h[j].begun >= bound;
    assert forall m :: k < m < |h| ==> h[k].judged <= h[m].begun;
  }
}
