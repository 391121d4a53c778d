/** Where an online schema change ends (dbguard/osc/runner.py): undisturbed it swaps the tables and leaves
    nothing behind, after a failure its cleanup leaves no trigger, and what is left `osc cleanup` removes. */
module OscEnds {
  import opened Intervals
  import opened Keys
  import opened OscCopy
  import opened OscRun
  import opened OscSafety

  /** What abort safety avoids: a write that fires a trigger whose shadow is gone fails and changes
      nothing, and no other applicable write fails. */
  lemma OrphanTriggerRefuses(s: Sys, w: Write)
    requires Applicable(s.live.rows, w)
    ensures EventOf(w) in s.live.triggers && s.shadow.None? ==> !Accepted(s, w) && Do(s, AppWrite(w)) == s
    ensures EventOf(w) !in s.live.triggers || s.shadow.Some? ==>
      Accepted(s, w) && Do(s, AppWrite(w)).live.rows == Applied(s.live.rows, w)
  {
  }

  // ----- a run nothing goes wrong in

  /** The statement takes effect and is confirmed, and a checksum matches exactly when the range is equal.
      The application writes on. */
  ghost predicate GoesThrough(s: Sys, a: Action) {
    match a
    case AppWrite(_) => true
    case CreateShadow(_, ok) => ok
    case AlterShadow(ok) => ok
    case CreateTrigger(_, ok) => ok
    case ReadMax(_) => true
    case ReadBoundary(_) => true
    case CopyChunk(_, ok) => ok
    case CheckRange(matches) => s.r.checked <= |s.r.bounds| && s.shadow.Some? && (matches <==> SameParts(s))
    case EndCheck => true
    case Rename(_, ok) => ok
    case DropTrigger(_, ok) => ok
    case DropOld(_) => true
    case CleanTrigger(_, ok) => ok
    case CleanShadow(taken) => taken
    case _ => false
  }

  ghost predicate ThroughRun(s: Sys, acts: seq<Action>)
    decreases |acts|
  {
    acts == [] || (Enabled(s, acts[0]) && GoesThrough(s, acts[0]) && ThroughRun(Do(s, acts[0]), acts[1..]))
  }

  lemma {:induction false} ThroughIsRun(s: Sys, acts: seq<Action>)
    requires ThroughRun(s, acts)
    ensures Run(s, acts)
    decreases |acts|
  {
    hide Enabled, GoesThrough, Do;
    if acts != [] {
      ThroughIsRun(Do(s, acts[0]), acts[1..]);
    }
  }

  predicate NoTriggers(s: Sys) { s.live.triggers == {} && Triggers(s.aside) == {} }

  /** The triggers still to be dropped are those from number `gone` on. */
  ghost predicate LeftFrom(triggers: set<Event>, gone: nat) {
    gone <= 3 && forall ev :: ev in triggers <==> gone <= IndexOf(ev)
  }

  ghost predicate OnTrack(s: Sys) {
    var r := s.r;
    Inv(s, true) &&
    match r.phase
    case Resting =>
      NoTriggers(s) && s.shadow.None? && (r.swapped <==> !r.bad) && (!r.swapped ==> s.aside.None?)
    case Untriggering => s.shadow.None? && s.aside.Some? && LeftFrom(s.aside.value.triggers, r.gone) && !r.bad
    case Cleaning =>
      s.shadow.Some? && s.aside.None? && LeftFrom(s.live.triggers, r.gone) && r.made == 3 && r.shadowMade && r.bad &&
      !r.swapped
    case Sweeping => false
    case MakingShadow => s.shadow.None?
    case Checking => r.shadowMade && r.checked <= |r.bounds| + 1
    case Swapping => r.shadowMade && !r.bad
    case _ => r.shadowMade && r.checked == 0 && !r.bad
  }

  lemma OnTrackStep(s: Sys, a: Action)
    requires OnTrack(s) && Enabled(s, a) && GoesThrough(s, a)
    ensures OnTrack(Do(s, a))
  {
    InvStep(s, a, true);
    hide Inv;
    if DropsTrigger(a) {
      OnTrackDrop(s, a);
    } else if a.AppWrite? {
      OnTrackWrite(s, a.w);
    } else {
      OnTrackOther(s, a);
    }
  }

  lemma OnTrackDrop(s: Sys, a: Action)
    requires OnTrack(s) && Enabled(s, a) && GoesThrough(s, a) && DropsTrigger(a) && Inv(Do(s, a), true)
    ensures OnTrack(Do(s, a))
  {
    hide Mirrors;
    assert forall ev :: ev == EventAt(IndexOf(ev));
    assert forall i :: 0 <= i < 3 ==> IndexOf(EventAt(i)) == i;
  }

  lemma OnTrackWrite(s: Sys, w: Write)
    requires OnTrack(s) && Enabled(s, AppWrite(w)) && Inv(Do(s, AppWrite(w)), true)
    ensures OnTrack(Do(s, AppWrite(w)))
  {
    hide Mirrors, Applied, Mirrored;
  }

  lemma OnTrackOther(s: Sys, a: Action)
    requires OnTrack(s) && Enabled(s, a) && GoesThrough(s, a) && Inv(Do(s, a), true)
    requires !DropsTrigger(a) && !a.AppWrite?
    ensures OnTrack(Do(s, a))
  {
    AllLeft(s.live.triggers, s.r.gone);
    AllLeft(Triggers(s.aside), s.r.gone);
    hide Mirrors, Copied, SameParts, MaxOf;
  }

  lemma AllLeft(triggers: set<Event>, gone: nat)
    ensures LeftFrom(triggers, 3) <==> triggers == {}
    ensures LeftFrom(ALL_EVENTS, 0) && (LeftFrom(triggers, gone) && gone == 3 ==> triggers == {})
  {
    if LeftFrom(triggers, 3) {
      assert forall ev :: ev !in triggers;
    }
    forall ev: Event ensures ev in ALL_EVENTS {
      match ev
      case OnInsert =>
      case OnUpdate =>
      case OnDelete =>
    }
  }

  lemma {:induction false} OnTrackRun(s: Sys, acts: seq<Action>)
    requires OnTrack(s) && ThroughRun(s, acts)
    ensures Run(s, acts) && OnTrack(After(s, acts))
    decreases |acts|
  {
    hide Enabled, GoesThrough, Do, OnTrack;
    if acts != [] {
      OnTrackStep(s, acts[0]);
      OnTrackRun(Do(s, acts[0]), acts[1..]);
    }
  }

  /** Nothing stale, so no checksum fails. */
  ghost predicate Matching(s: Sys) {
    OnTrack(s) && Inv(s, false) && !s.r.bad
  }

  lemma MatchingStep(s: Sys, a: Action)
    requires Matching(s) && Enabled(s, a) && GoesThrough(s, a) && Careful(s, a, false)
    ensures Matching(Do(s, a))
  {
    OnTrackStep(s, a);
    InvStep(s, a, false);
    if a.CheckRange? {
      assert Mirrors(s, false);
      forall k ensures Agree(s.live.rows, s.shadow.value, k) {
        OneOfThree(s.live.rows, s.shadow.value, k);
      }
      PartsAgree(s.live.rows, s.shadow.value, RangesOf(s.r.bounds)[s.r.checked]);
    }
    hide OnTrack, Inv, Mirrors, SameParts;
  }

  lemma {:induction false} MatchingRun(s: Sys, acts: seq<Action>)
    requires Matching(s) && ThroughRun(s, acts) && Run(s, acts) && CarefulRun(s, acts, false)
    ensures Matching(After(s, acts))
    decreases |acts|
  {
    hide Enabled, GoesThrough, Do, Matching, Careful;
    if acts != [] {
      MatchingStep(s, acts[0]);
      MatchingRun(Do(s, acts[0]), acts[1..]);
    }
  }

  /** A change whose statements all go through, whatever the application writes in between, ends with no
      trigger and no shadow left, the tables swapped unless a checksum differed; and if no stale row was
      there when the last trigger was created, none did. */
  lemma UndisturbedEnds(s: Sys, acts: seq<Action>)
    requires Untouched(s) && ThroughRun(Do(s, Start), acts)
    ensures Run(Do(s, Start), acts)
    ensures var t := After(Do(s, Start), acts);
      t.r.phase == Resting ==>
        NoTriggers(t) && t.shadow.None? && t.live.rows == t.acked &&
        (t.r.swapped <==> !t.r.bad) && (!t.r.swapped ==> t.aside.None?) &&
        (CarefulRun(Do(s, Start), acts, false) ==> t.r.swapped)
  {
    var u := Do(s, Start);
    InvStep(s, Start, true);
    InvStep(s, Start, false);
    assert Matching(u);
    OnTrackRun(u, acts);
    if CarefulRun(u, acts, false) {
      MatchingRun(u, acts);
    }
  }

  /** The rename puts the shadow in place and the old table, with its rows and triggers, under the old name;
      it is dropped at the end only if asked to be, and a drop that fails leaves what it was to drop. */
  lemma SwapKeepsOld(s: Sys)
    requires Enabled(s, Rename(true, true))
    ensures var t := Do(s, Rename(true, true));
      t.aside == Some(s.live) && t.live == Table(s.shadow.value, {}) && t.shadow.None?
  {
  }

  lemma DropsMean(s: Sys, taken: bool)
    ensures Enabled(s, DropOld(taken)) ==> Do(s, DropOld(taken)).aside == if taken then None else s.aside
    ensures Enabled(s, CleanShadow(taken)) && !taken ==> Do(s, CleanShadow(taken)).shadow == s.shadow
    ensures Enabled(s, SweepOld(taken)) && !taken ==> Do(s, SweepOld(taken)).aside == s.aside
    ensures Enabled(s, SweepShadow(taken)) && !taken ==> Do(s, SweepShadow(taken)).shadow == s.shadow
  {
  }

  // ----- the chunks under the checksum

  /** The boundaries recorded so far, in order, up to the last one copied. */
  ghost predicate Chunked(s: Sys) {
    var r := s.r;
    (r.phase == Copying ==>
       LastOf(r.bounds) == r.lo && NonDecreasing(r.bounds) && (r.lo.Some? ==> !Less(r.max, r.lo.value)) &&
       (r.next.Some? ==> !Less(r.max, r.next.value.0) && (r.lo.Some? ==> !Less(r.next.value.0, r.lo.value)))) &&
    (r.phase == Checking || r.phase == Swapping ==> NonDecreasing(r.bounds)) &&
    (r.phase == MakingShadow || r.phase == Altering || r.phase == Triggering || r.phase == ReadingMax ==>
       r.bounds == [] && r.lo.None? && r.next.None?)
  }

  lemma ChunkedStep(s: Sys, a: Action)
    requires Chunked(s) && Enabled(s, a)
    ensures Chunked(Do(s, a))
  {
    if a.CopyChunk? {
      ChunkedCopy(s, a.taken, a.ok);
    } else if a.ReadBoundary? {
      ChunkedBoundary(s, a.hi);
    } else {
      hide NonDecreasing, SameParts, MaxOf, Without, Accepted, Applied, AfterTriggers, LastOf, Less;
    }
  }

  lemma ChunkedCopy(s: Sys, taken: bool, ok: bool)
    requires Chunked(s) && Enabled(s, CopyChunk(taken, ok))
    ensures Chunked(Do(s, CopyChunk(taken, ok)))
  {
    Ordered(s.r.bounds, s.r.next.value.0);
    hide NonDecreasing, Copied, Less;
  }

  lemma ChunkedBoundary(s: Sys, hi: Option<Key>)
    requires Chunked(s) && Enabled(s, ReadBoundary(hi))
    ensures Chunked(Do(s, ReadBoundary(hi)))
  {
    Total(s.r.max, s.r.max);
    if hi.Some? && s.r.lo.Some? {
      Total(s.r.lo.value, hi.value);
    }
    hide NonDecreasing, Less;
  }

  lemma Ordered(bs: seq<Key>, hi: Key)
    requires NonDecreasing(bs) && (bs != [] ==> !Less(hi, bs[|bs| - 1]))
    ensures NonDecreasing(bs + [hi]) && LastOf(bs + [hi]) == Some(hi)
  {
    forall i | 0 <= i < |bs| ensures !Less(hi, bs[i]) {
      var last := bs[|bs| - 1];
      Total(hi, last);
      Total(hi, bs[i]);
      if Less(hi, bs[i]) && i < |bs| - 1 {
        if Less(last, hi) {
          Transitive(last, hi, bs[i]);
        }
      }
    }
  }

  lemma {:induction false} ChunkedRun(s: Sys, acts: seq<Action>)
    requires Chunked(s) && Run(s, acts)
    ensures Chunked(After(s, acts))
    decreases |acts|
  {
    hide Chunked, Enabled, Do;
    if acts != [] {
      ChunkedStep(s, acts[0]);
      ChunkedRun(Do(s, acts[0]), acts[1..]);
    }
  }

  /** The checksum runs over the chunks that were copied, one range each, and over what lies beyond: together
      every key, each exactly once. */
  lemma ChecksumCoversCopy(s: Sys, acts: seq<Action>, key: Key)
    requires Untouched(s) && Run(s, acts)
    ensures var t := After(s, acts);
      (t.r.phase == Copying && t.r.next.Some? && t.shadow.Some? ==>
         var u, hi := Do(t, CopyChunk(true, true)), t.r.next.value.0;
         u.shadow == Some(Copied(t.live.rows, t.shadow.value, t.r.lo, Some(hi))) &&
         RangesOf(u.r.bounds)[|t.r.bounds|] == ChunkRange(t.r.lo, Some(hi)) &&
         u.r.bounds[..|t.r.bounds|] == t.r.bounds) &&
      (t.r.phase == Checking ==>
         (exists i :: 0 <= i <= |t.r.bounds| && RangesOf(t.r.bounds)[i].Has(key)) &&
         forall i, j :: 0 <= i < j <= |t.r.bounds| && RangesOf(t.r.bounds)[i].Has(key) ==>
           !RangesOf(t.r.bounds)[j].Has(key))
  {
    ChunkedRun(s, acts);
    var t := After(s, acts);
    if t.r.phase == Checking {
      RangesPartition(t.r.bounds, key);
    } else if t.r.phase == Copying && t.r.next.Some? && t.shadow.Some? {
      var hi := t.r.next.value.0;
      assert (t.r.bounds + [hi])[..|t.r.bounds|] == t.r.bounds;
    }
  }

  // ----- it does end

  /** There is always a next statement to go through. */
  lemma NextStatement(s: Sys) returns (a: Action)
    requires OnTrack(s) && s.r.phase != Resting
    ensures Enabled(s, a) && GoesThrough(s, a) && !a.AppWrite?
  {
    match s.r.phase
    case MakingShadow => a := CreateShadow(true, true);
    case Altering => a := AlterShadow(true);
    case Triggering => a := CreateTrigger(true, true);
    case ReadingMax =>
      if s.live.rows == map[] {
        a := ReadMax(None);
      } else {
        var m := Largest(s.live.rows);
        a := ReadMax(Some(m));
      }
    case Copying => a := if s.r.next.None? then ReadBoundary(None) else CopyChunk(true, true);
    case Checking => a := if s.r.checked == |s.r.bounds| + 1 then EndCheck else CheckRange(SameParts(s));
    case Swapping => a := Rename(true, true);
    case Untriggering => a := if s.r.gone == 3 then DropOld(true) else DropTrigger(true, true);
    case Cleaning => a := if s.r.gone < s.r.made then CleanTrigger(true, true) else CleanShadow(true);
  }

  function Rank(p: Phase): nat {
    match p
    case MakingShadow => 8
    case Altering => 7
    case Triggering => 6
    case ReadingMax => 5
    case Copying => 4
    case Checking => 3
    case Swapping => 2
    case Untriggering => 1
    case Cleaning => 1
    case Sweeping => 1
    case Resting => 0
  }

  /** The rows still to be copied, up to the largest key. */
  function Ahead(rows: Rows, lo: Option<Key>, max: Key): set<Key> {
    set k | k in rows && InRange(k, lo, Some(max))
  }

  /** Statements left in the phase, at most. */
  function Left(s: Sys): int {
    var r := s.r;
    match r.phase
    case Triggering => 3 - r.made
    case Copying =>
      if r.next.None? then 2 * |Ahead(s.live.rows, r.lo, r.max)| + 2
      else if r.next.value.1 then 1
      else 2 * |Ahead(s.live.rows, Some(r.next.value.0), r.max)| + 3
    case Checking => |r.bounds| + 1 - r.checked
    case Untriggering => 3 - r.gone
    case Cleaning => 3 - r.gone
    case _ => 0
  }

  /** Every statement that goes through brings the change nearer to its end, the chunks of the copy
      included. */
  lemma Nearer(s: Sys, a: Action)
    requires OnTrack(s) && Enabled(s, a) && GoesThrough(s, a) && !a.AppWrite?
    ensures var t := Do(s, a);
      0 <= Left(t) && (Rank(t.r.phase) < Rank(s.r.phase) || (t.r.phase == s.r.phase && Left(t) < Left(s)))
  {
    OnTrackStep(s, a);
    if a.ReadBoundary? && a.hi.Some? {
      AheadShrinks(s.live.rows, s.r.lo, a.hi.value, s.r.max);
    }
    hide Inv, Ahead, SameParts, MaxOf, Copied, LeftFrom;
  }

  lemma AheadShrinks(rows: Rows, lo: Option<Key>, hi: Key, max: Key)
    requires hi in rows && InRange(hi, lo, Some(max))
    ensures |Ahead(rows, Some(hi), max)| < |Ahead(rows, lo, max)|
  {
    Total(hi, hi);
    var a, b := Ahead(rows, Some(hi), max), Ahead(rows, lo, max);
    forall k | k in a ensures k in b {
      if lo.Some? {
        Transitive(lo.value, hi, k);
      }
    }
    assert hi in b && hi !in a;
    SmallerSubset(a, b - {hi});
  }

  lemma SmallerSubset(a: set<Key>, b: set<Key>)
    requires a <= b
    ensures |a| <= |b|
  {
    assert b == a + (b - a);
  }

  /** From any point of a change that went through so far, the statements that remain end it. */
  lemma {:induction false} TheRest(s: Sys) returns (acts: seq<Action>)
    requires OnTrack(s) && 0 <= Left(s)
    ensures ThroughRun(s, acts) && Run(s, acts) && After(s, acts).r.phase == Resting
    ensures forall i :: 0 <= i < |acts| ==> !acts[i].AppWrite?
    decreases Rank(s.r.phase), Left(s)
  {
    acts := [];
    if s.r.phase != Resting {
      var a := NextStatement(s);
      Nearer(s, a);
      OnTrackStep(s, a);
      var rest := TheRest(Do(s, a));
      hide Enabled, GoesThrough, Do, OnTrack, Left, Rank;
      acts := [a] + rest;
      assert acts[1..] == rest;
      assert forall i :: 0 < i < |acts| ==> acts[i] == rest[i - 1];
    }
  }

  // ----- the cleanup after a failure, whatever failed

  /** The triggers that may be there are among those recorded and not yet dropped. */
  ghost predicate Recorded(s: Sys) {
    var r, left := s.r, s.live.triggers + Triggers(s.aside);
    r.made <= 3 &&
    match r.phase
    case Cleaning => forall ev :: ev in left ==> r.gone <= IndexOf(ev) < r.made
    case Untriggering =>
      r.gone <= 3 && (forall ev :: ev in left ==> r.gone <= IndexOf(ev)) && (r.gone < 3 ==> r.made == 3)
    case Resting => true
    case Sweeping => true
    case _ => s.aside.None? && forall ev :: ev in left ==> IndexOf(ev) < r.made
  }

  lemma RecordedStep(s: Sys, a: Action)
    requires Inv(s, true) && Recorded(s) && Enabled(s, a)
    ensures Recorded(Do(s, a))
  {
    hide Recorded, Inv, Enabled, Do;
    if a.DropTrigger? || a.CleanTrigger? {
      RecordedDrop(s, a);
    } else if a.CreateTrigger? || a.Rename? {
      RecordedMove(s, a);
    } else {
      RecordedOther(s, a);
    }
  }

  lemma Indexes()
    ensures forall ev :: ev == EventAt(IndexOf(ev)) && IndexOf(ev) < 3
    ensures forall i {:trigger EventAt(i)} :: 0 <= i < 3 ==> IndexOf(EventAt(i)) == i
  {
  }

  lemma RecordedDrop(s: Sys, a: Action)
    requires Inv(s, true) && Recorded(s) && Enabled(s, a) && (a.DropTrigger? || a.CleanTrigger?)
    ensures Recorded(Do(s, a))
  {
    Indexes();
    Fewer(s, a);
    assert s.r.phase == Untriggering || s.r.phase == Cleaning;
    hide Inv, EventAt, IndexOf, Without, Triggers;
  }

  lemma Fewer(s: Sys, a: Action)
    requires Enabled(s, a) && (a.DropTrigger? || a.CleanTrigger?)
    ensures var t, left := Do(s, a), s.live.triggers + Triggers(s.aside);
      t.live.triggers + Triggers(t.aside) <= left &&
      (a.ok ==> t.live.triggers + Triggers(t.aside) == left - {EventAt(s.r.gone)})
    ensures var r, gone := s.r, s.r.gone + 1;
      a.ok ==>
      Do(s, a).r == r.(gone := gone, made := if a.DropTrigger? && gone == 3 then 0 else r.made)
    ensures Do(s, a).r.made == s.r.made || Do(s, a).r.made == 0
  {
    hide EventAt;
  }

  lemma RecordedMove(s: Sys, a: Action)
    requires Inv(s, true) && Recorded(s) && Enabled(s, a) && (a.CreateTrigger? || a.Rename?)
    ensures Recorded(Do(s, a))
  {
    Indexes();
    hide Mirrors, EventAt, IndexOf;
  }

  lemma RecordedOther(s: Sys, a: Action)
    requires Inv(s, true) && Recorded(s) && Enabled(s, a)
    requires !a.DropTrigger? && !a.CleanTrigger? && !a.CreateTrigger? && !a.Rename?
    ensures Recorded(Do(s, a))
  {
    Indexes();
    hide Mirrors, SameParts, MaxOf, Copied, Applied, Mirrored, EventAt, IndexOf;
  }

  lemma {:induction false} RecordedRun(s: Sys, acts: seq<Action>)
    requires Inv(s, true) && Recorded(s) && Run(s, acts) && CarefulRun(s, acts, true)
    ensures Inv(After(s, acts), true) && Recorded(After(s, acts))
    decreases |acts|
  {
    hide Enabled, Do, Inv, Recorded, Careful;
    if acts != [] {
      InvStep(s, acts[0], true);
      RecordedStep(s, acts[0]);
      RecordedRun(Do(s, acts[0]), acts[1..]);
    }
  }

  /** The cleanup's statements, each taking effect and confirmed, and the application's writes. */
  predicate Cleans(a: Action) {
    a.AppWrite? || (a.CleanTrigger? && a.ok) || (a.CleanShadow? && a.taken)
  }

  /** The number of statements. */
  function Statements(acts: seq<Action>): nat {
    if acts == [] then 0 else (if acts[0].AppWrite? then 0 else 1) + Statements(acts[1..])
  }

  /** Once the cleanup is over only the application writes. */
  lemma {:induction false} Afterwards(s: Sys, acts: seq<Action>)
    requires s.r.phase == Resting && Run(s, acts) && forall a :: a in acts ==> Cleans(a)
    ensures Statements(acts) == 0
    ensures var t := After(s, acts);
      t.r.phase == Resting && (NoTriggers(s) ==> NoTriggers(t)) && (t.shadow.Some? <==> s.shadow.Some?)
    decreases |acts|
  {
    if acts != [] {
      assert acts[0] in acts && forall b :: b in acts[1..] ==> b in acts;
      Afterwards(Do(s, acts[0]), acts[1..]);
    }
  }

  lemma CleanupStep(s: Sys, a: Action)
    requires Inv(s, true) && Recorded(s) && s.r.phase == Cleaning && s.r.gone <= s.r.made
    requires Enabled(s, a) && Cleans(a)
    ensures var t := Do(s, a);
      t.r == (match a
              case AppWrite(_) => s.r
              case CleanTrigger(_, _) => s.r.(gone := s.r.gone + 1)
              case _ => s.r.(phase := Resting))
    ensures !a.CleanShadow? ==>
      (Do(s, a).shadow.Some? <==> s.shadow.Some?) && (a.CleanTrigger? ==> s.r.gone < s.r.made)
    ensures a.CleanShadow? ==>
      s.r.gone == s.r.made && NoTriggers(Do(s, a)) &&
      (Do(s, a).shadow.Some? <==> s.shadow.Some? && !(s.r.shadowMade && !s.r.swapped))
  {
    hide Inv;
    if a.CleanShadow? {
      assert forall ev :: ev !in s.live.triggers + Triggers(s.aside);
      assert s.live.triggers + Triggers(s.aside) == {};
    }
  }

  lemma {:induction false} CleanupRun(s: Sys, acts: seq<Action>)
    requires Inv(s, true) && Recorded(s) && s.r.phase == Cleaning && s.r.gone <= s.r.made
    requires Run(s, acts) && forall a :: a in acts ==> Cleans(a)
    ensures var t, left := After(s, acts), s.r.made - s.r.gone + 1;
      Statements(acts) <= left &&
      if Statements(acts) < left then t.r.phase == Cleaning && (t.shadow.Some? <==> s.shadow.Some?)
      else t.r.phase == Resting && NoTriggers(t) &&
           (t.shadow.Some? <==> s.shadow.Some? && !(s.r.shadowMade && !s.r.swapped))
    decreases |acts|
  {
    hide Inv, Recorded, Enabled, Do;
    if acts != [] {
      var a := acts[0];
      assert a in acts && forall b :: b in acts[1..] ==> b in acts;
      CleanupStep(s, a);
      InvStep(s, a, true);
      RecordedStep(s, a);
      if Do(s, a).r.phase == Resting {
        Afterwards(Do(s, a), acts[1..]);
      } else {
        CleanupRun(Do(s, a), acts[1..]);
      }
    }
  }

  /** Whatever failed, whatever took effect unseen: when the run starts its cleanup, and the cleanup's
      statements go through, it takes one for each trigger recorded and one for the shadow, and then no
      trigger is left on any table; the shadow is left only if its creation was never confirmed. */
  lemma CleanupClears(s: Sys, before: seq<Action>, acts: seq<Action>)
    requires Untouched(s) && Run(s, before) && CarefulRun(s, before, true)
    requires After(s, before).r.phase == Cleaning && After(s, before).r.gone == 0
    requires Run(After(s, before), acts) && forall a :: a in acts ==> Cleans(a)
    ensures var u, t := After(s, before), After(After(s, before), acts);
      Statements(acts) <= u.r.made + 1 && (t.r.phase == Resting <==> Statements(acts) == u.r.made + 1) &&
      (t.r.phase == Resting ==>
         NoTriggers(t) && (t.shadow.Some? <==> u.shadow.Some? && !(u.r.shadowMade && !u.r.swapped)))
  {
    RecordedRun(s, before);
    CleanupRun(After(s, before), acts);
  }

  // ----- `osc cleanup`

  predicate Sweeps(a: Action) {
    a.AppWrite? || (a.SweepTrigger? && a.taken) || (a.SweepShadow? && a.taken) || (a.SweepOld? && a.taken)
  }

  /** What is gone stays gone. */
  lemma {:induction false} StaysSwept(s: Sys, acts: seq<Action>)
    requires s.r.phase == Sweeping && Run(s, acts) && forall a :: a in acts ==> Sweeps(a)
    ensures var t := After(s, acts);
      t.r.phase == Sweeping && (NoTriggers(s) ==> NoTriggers(t)) && (s.shadow.None? ==> t.shadow.None?) &&
      (s.aside.None? ==> t.aside.None?)
    decreases |acts|
  {
    if acts != [] {
      assert acts[0] in acts && forall b :: b in acts[1..] ==> b in acts;
      StepKeepsSwept(s, acts[0]);
      hide Enabled, Do, NoTriggers;
      StaysSwept(Do(s, acts[0]), acts[1..]);
    }
  }

  lemma StepKeepsSwept(s: Sys, a: Action)
    requires s.r.phase == Sweeping && Enabled(s, a) && Sweeps(a)
    ensures var t := Do(s, a);
      t.r.phase == Sweeping && (NoTriggers(s) ==> NoTriggers(t)) && (s.shadow.None? ==> t.shadow.None?) &&
      (s.aside.None? ==> t.aside.None?)
  {
  }

  /** An `osc cleanup` that got to the drop of the shadow has left no trigger and no shadow, and one that got
      to the drop of the old table has left nothing but the table itself, whatever runs and failures came
      before and whatever the application writes. */
  lemma {:induction false} SweepClears(s: Sys, acts: seq<Action>)
    requires s.r.phase == Sweeping && Run(s, acts) && forall a :: a in acts ==> Sweeps(a)
    ensures SweepShadow(true) in acts || SweepOld(true) in acts ==>
      NoTriggers(After(s, acts)) && After(s, acts).shadow.None?
    ensures SweepOld(true) in acts ==> After(s, acts).aside.None?
    decreases |acts|
  {
    if acts != [] {
      var a := acts[0];
      assert a in acts && forall b :: b in acts[1..] ==> b in acts;
      assert forall b :: b in acts ==> b == a || b in acts[1..];
      var t := Do(s, a);
      SweepClears(t, acts[1..]);
      if a.SweepShadow? || a.SweepOld? {
        SweptNow(s, a);
        StaysSwept(t, acts[1..]);
      }
    }
  }

  lemma SweptNow(s: Sys, a: Action)
    requires Enabled(s, a) && Sweeps(a) && (a.SweepShadow? || a.SweepOld?)
    ensures NoTriggers(Do(s, a)) && Do(s, a).shadow.None? && (a.SweepOld? ==> Do(s, a).aside.None?)
  {
    var left := s.live.triggers + Triggers(s.aside);
    assert forall ev :: ev in s.live.triggers || ev in Triggers(s.aside) ==> ev in left;
    assert s.live.triggers == {} && Triggers(s.aside) == {};
  }

  /** With a trigger left there is a statement that drops it, and each drops one for good. */
  lemma SweepGoesOn(s: Sys, ev: Event)
    requires s.r.phase == Sweeping && ev in s.live.triggers + Triggers(s.aside)
    ensures Enabled(s, SweepTrigger(ev, true))
    ensures var t := Do(s, SweepTrigger(ev, true));
      t.live.triggers + Triggers(t.aside) == s.live.triggers + Triggers(s.aside) - {ev} && t.r == s.r
  {
    var t := Do(s, SweepTrigger(ev, true));
    forall x ensures x in t.live.triggers + Triggers(t.aside) <==> x in s.live.triggers + Triggers(s.aside) - {ev} {
    }
  }
}
