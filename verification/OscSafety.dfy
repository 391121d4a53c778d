/** Abort safety of an online schema change: whatever statement fails and however the cleanup goes,
    the table under the original name holds every acknowledged write and never carries a trigger
    whose shadow is missing. */
module OscSafety {
  import opened Intervals
  import opened Keys
  import opened OscCopy
  import opened OscRun

  function IndexOf(ev: Event): nat {
    match ev
    case OnInsert => 0
    case OnUpdate => 1
    case OnDelete => 2
  }

  predicate Mirroring(p: Phase) {
    p == ReadingMax || p == Copying || p == Checking || p == Swapping
  }

  /** Where the triggers, the shadow and the old table are in each phase. */
  ghost predicate Placed(s: Sys) {
    var r := s.r;
    (s.live.triggers != {} ==> s.shadow.Some?) &&
    match r.phase
    case MakingShadow => s.live.triggers == {} && s.aside.None? && r == NO_RUN.(phase := MakingShadow)
    case Altering =>
      s.live.triggers == {} && s.aside.None? && s.shadow.Some? &&
      r == NO_RUN.(phase := Altering, shadowMade := true)
    case Triggering =>
      s.aside.None? && s.shadow.Some? && r.made < 3 && !r.swapped &&
      r == NO_RUN.(phase := Triggering, shadowMade := true, made := r.made) &&
      forall ev :: ev in s.live.triggers <==> IndexOf(ev) < r.made
    case Untriggering => s.live.triggers == {} && r.swapped
    case Cleaning => forall ev :: ev in s.live.triggers ==> r.gone <= IndexOf(ev) < r.made
    case Resting => true
    case Sweeping => true
    case _ =>
      s.aside.None? && s.shadow.Some? && r.made == 3 && !r.swapped && s.live.triggers == ALL_EVENTS &&
      (r.phase == ReadingMax ==> r == NO_RUN.(phase := ReadingMax, shadowMade := true, made := 3))
  }

  /** The key is behind the copied boundary, or beyond where the copy stops. */
  predicate Covered(r: Runner, k: Key) {
    (r.lo.Some? && !Less(r.lo.value, k)) || Less(r.max, k)
  }

  /** How the shadow stands to the source in each phase. With `byCheck` the swap rests on the
      checksums having told the truth, otherwise on no stale row having been left when the triggers
      were complete. */
  ghost predicate Mirrors(s: Sys, byCheck: bool) {
    var r, live := s.r, s.live.rows;
    Mirroring(r.phase) && s.shadow.Some? ==>
      var shadow := s.shadow.value;
      (r.phase == Copying ==>
         (forall k :: Covered(r, k) ==> !Missing(live, shadow, k)) &&
         (r.next.Some? ==> !Less(r.max, r.next.value.0) && (r.next.value.1 ==> r.next.value.0 == r.max)) &&
         r.checked == 0 && !r.bad) &&
      (r.phase == Checking ==> forall k :: !Missing(live, shadow, k)) &&
      (r.phase == Checking && byCheck ==>
         r.checked <= |r.bounds| + 1 && (!r.bad ==> forall j, k :: AgreedIn(r, live, shadow, j, k))) &&
      (r.phase == Swapping ==> forall k :: Agree(live, shadow, k)) &&
      (!byCheck ==> forall k :: !Stale(live, shadow, k))
  }

  predicate AgreedIn(r: Runner, live: Rows, shadow: Rows, j: int, k: Key) {
    0 <= j < r.checked && j <= |r.bounds| && RangesOf(r.bounds)[j].Has(k) ==> Agree(live, shadow, k)
  }

  ghost predicate Inv(s: Sys, byCheck: bool) {
    s.acked == s.live.rows && Placed(s) && Mirrors(s, byCheck)
  }

  /** The hypothesis, on the step where it matters: a matching checksum is no collision, or the
      shadow holds no stale row when the last trigger is in place. */
  ghost predicate Careful(s: Sys, a: Action, byCheck: bool) {
    match a
    case CheckRange(matches) =>
      byCheck && s.r.checked <= |s.r.bounds| && s.shadow.Some? ==> (matches ==> SameParts(s))
    case CreateTrigger(taken, ok) =>
      !byCheck && ok && s.r.made == 2 && s.shadow.Some? ==> forall k :: !Stale(s.live.rows, s.shadow.value, k)
    case _ => true
  }

  // ----- single steps

  /** No write of the application ever fails on a trigger. */
  lemma WritesAccepted(s: Sys, byCheck: bool, w: Write)
    requires Inv(s, byCheck) && Enabled(s, AppWrite(w))
    ensures Accepted(s, w) && Do(s, AppWrite(w)).acked == Applied(s.acked, w)
  {
  }

  lemma InvWrite(s: Sys, byCheck: bool, w: Write)
    requires Inv(s, byCheck) && Enabled(s, AppWrite(w))
    ensures Inv(Do(s, AppWrite(w)), byCheck)
  {
    if Mirroring(s.r.phase) {
      var t := Do(s, AppWrite(w));
      var live, shadow := s.live.rows, s.shadow.value;
      assert t.live.rows == Applied(live, w) && t.shadow.value == Mirrored(shadow, w);
      forall k
        ensures Agree(live, shadow, k) ==> Agree(t.live.rows, t.shadow.value, k)
        ensures Stale(t.live.rows, t.shadow.value, k) ==> Stale(live, shadow, k)
        ensures Missing(t.live.rows, t.shadow.value, k) ==> Missing(live, shadow, k)
      {
        WriteMirrored(live, shadow, w, k);
      }
      MirrorsMonotone(s, t, byCheck);
    }
  }

  /** Nothing gets worse at any key, so what held of the mirror still does. */
  lemma MirrorsMonotone(s: Sys, t: Sys, byCheck: bool)
    requires Mirrors(s, byCheck) && t.r == s.r && s.shadow.Some? && t.shadow.Some?
    requires forall k :: Agree(s.live.rows, s.shadow.value, k) ==> Agree(t.live.rows, t.shadow.value, k)
    requires forall k :: Stale(t.live.rows, t.shadow.value, k) ==> Stale(s.live.rows, s.shadow.value, k)
    requires forall k :: Missing(t.live.rows, t.shadow.value, k) ==> Missing(s.live.rows, s.shadow.value, k)
    ensures Mirrors(t, byCheck)
  {
    var live, shadow, live', shadow' := s.live.rows, s.shadow.value, t.live.rows, t.shadow.value;
    forall j, k | AgreedIn(s.r, live, shadow, j, k) ensures AgreedIn(t.r, live', shadow', j, k) {
    }
  }

  lemma InvCopy(s: Sys, byCheck: bool, taken: bool, ok: bool)
    requires Inv(s, byCheck) && Enabled(s, CopyChunk(taken, ok))
    ensures Inv(Do(s, CopyChunk(taken, ok)), byCheck)
  {
    if ok {
      var t := Do(s, CopyChunk(taken, ok));
      var live, shadow := s.live.rows, s.shadow.value;
      var hi := s.r.next.value.0;
      forall k
        ensures Stale(live, t.shadow.value, k) ==> Stale(live, shadow, k)
        ensures (!Less(hi, k) || Less(s.r.max, k)) ==> !Missing(live, t.shadow.value, k)
      {
        CopyFills(live, shadow, s.r.lo, Some(hi), k);
      }
    }
  }

  lemma InvCheck(s: Sys, byCheck: bool, matches: bool)
    requires Inv(s, byCheck) && Enabled(s, CheckRange(matches)) && Careful(s, CheckRange(matches), byCheck)
    ensures Inv(Do(s, CheckRange(matches)), byCheck)
  {
    if byCheck && matches && !s.r.bad {
      var t := Do(s, CheckRange(matches));
      var live, shadow := s.live.rows, s.shadow.value;
      PartsAgree(live, shadow, RangesOf(s.r.bounds)[s.r.checked]);
      forall j, k ensures AgreedIn(t.r, live, shadow, j, k) {
        assert AgreedIn(s.r, live, shadow, j, k);
      }
    }
  }

  lemma InvEndCheck(s: Sys, byCheck: bool)
    requires Inv(s, byCheck) && Enabled(s, EndCheck)
    ensures Inv(Do(s, EndCheck), byCheck)
  {
    if !s.r.bad {
      var live, shadow := s.live.rows, s.shadow.value;
      forall k ensures Agree(live, shadow, k) {
        OneOfThree(live, shadow, k);
        if byCheck {
          var j := FirstRange(s.r.bounds, k);
          assert AgreedIn(s.r, live, shadow, j, k);
        }
      }
    }
  }

  lemma InvRename(s: Sys, byCheck: bool, taken: bool, ok: bool)
    requires Inv(s, byCheck) && Enabled(s, Rename(taken, ok))
    ensures Inv(Do(s, Rename(taken, ok)), byCheck)
  {
    AgreeEverywhere(s.live.rows, s.shadow.value);
  }

  lemma InvTrigger(s: Sys, byCheck: bool, taken: bool, ok: bool)
    requires Inv(s, byCheck) && Enabled(s, CreateTrigger(taken, ok)) && Careful(s, CreateTrigger(taken, ok), byCheck)
    ensures Inv(Do(s, CreateTrigger(taken, ok)), byCheck)
  {
    var t := Do(s, CreateTrigger(taken, ok));
    assert forall ev :: ev == EventAt(IndexOf(ev));
    if ok && s.r.made == 2 {
      assert forall ev :: ev in t.live.triggers;
      assert t.live.triggers == ALL_EVENTS;
    }
  }

  lemma InvReadMax(s: Sys, byCheck: bool, max: Option<Key>)
    requires Inv(s, byCheck) && Enabled(s, ReadMax(max))
    ensures Inv(Do(s, ReadMax(max)), byCheck)
  {
  }

  /** Every step keeps the invariant. */
  lemma InvStep(s: Sys, a: Action, byCheck: bool)
    requires Inv(s, byCheck) && Enabled(s, a) && Careful(s, a, byCheck)
    ensures Inv(Do(s, a), byCheck)
  {
    hide Inv, Enabled, Do, Careful;
    match a
    case AppWrite(w) => InvWrite(s, byCheck, w);
    case CopyChunk(taken, ok) => InvCopy(s, byCheck, taken, ok);
    case CheckRange(matches) => InvCheck(s, byCheck, matches);
    case EndCheck => InvEndCheck(s, byCheck);
    case Rename(taken, ok) => InvRename(s, byCheck, taken, ok);
    case CreateTrigger(taken, ok) => InvTrigger(s, byCheck, taken, ok);
    case ReadMax(max) => InvReadMax(s, byCheck, max);
    case _ =>
      if DropsTrigger(a) {
        InvDrop(s, a, byCheck);
      } else if Ends(a) {
        InvEnds(s, a, byCheck);
      } else {
        InvOther(s, a, byCheck);
      }
  }

  predicate DropsTrigger(a: Action) { a.DropTrigger? || a.CleanTrigger? || a.SweepTrigger? }

  /** What ends a run, its cleanup or a sweep, and the other statements of a sweep. */
  predicate Ends(a: Action) {
    a.StepFails? || a.CleanShadow? || a == CleanGivesUp || a == Crash || a == BeginSweep
    || a.SweepShadow? || a.SweepOld?
  }

  lemma InvDrop(s: Sys, a: Action, byCheck: bool)
    requires Inv(s, byCheck) && Enabled(s, a) && DropsTrigger(a)
    ensures Inv(Do(s, a), byCheck)
  {
    hide Mirrors;
    assert forall ev :: ev == EventAt(IndexOf(ev));
    MirrorsNothing(s, a, byCheck);
  }

  lemma InvEnds(s: Sys, a: Action, byCheck: bool)
    requires Inv(s, byCheck) && Enabled(s, a) && Ends(a)
    ensures Inv(Do(s, a), byCheck)
  {
    hide Mirrors;
    MirrorsNothing(s, a, byCheck);
  }

  /** Outside of the copy phases nothing is asked of the mirror. */
  lemma MirrorsNothing(s: Sys, a: Action, byCheck: bool)
    requires Enabled(s, a) && (DropsTrigger(a) || Ends(a))
    ensures Mirrors(Do(s, a), byCheck)
  {
    assert !Mirroring(Do(s, a).r.phase);
  }

  lemma InvOther(s: Sys, a: Action, byCheck: bool)
    requires Inv(s, byCheck) && Enabled(s, a) && !DropsTrigger(a) && !Ends(a)
    requires !a.AppWrite? && !a.CopyChunk? && !a.CheckRange? && a != EndCheck && !a.Rename? && !a.CreateTrigger?
    requires !a.ReadMax?
    ensures Inv(Do(s, a), byCheck)
  {
    hide Agree, Stale, Missing, AgreedIn;
    Total(s.r.max, s.r.max);
  }

  ghost predicate CarefulRun(s: Sys, acts: seq<Action>, byCheck: bool)
    requires Run(s, acts)
    decreases |acts|
  {
    acts == [] || (Careful(s, acts[0], byCheck) && CarefulRun(Do(s, acts[0]), acts[1..], byCheck))
  }

  lemma {:induction false} InvRun(s: Sys, acts: seq<Action>, byCheck: bool)
    requires Inv(s, byCheck) && Run(s, acts) && CarefulRun(s, acts, byCheck)
    ensures Inv(After(s, acts), byCheck)
    decreases |acts|
  {
    if acts != [] {
      InvStep(s, acts[0], byCheck);
      InvRun(Do(s, acts[0]), acts[1..], byCheck);
    }
  }

  /** A table nothing was ever done to. */
  predicate Untouched(s: Sys) {
    s.live.triggers == {} && s.shadow.None? && s.aside.None? && s.acked == s.live.rows && s.r == NO_RUN
  }

  /** Abort safety: from an untouched table, after any number of runs failed at any statement
      (the rename included, whether it took effect or not), cleanups failed at any statement,
      crashes and `osc cleanup`s, the live table holds exactly the acknowledged writes and carries
      no trigger whose shadow is missing, so the next write of the application goes through. */
  lemma AbortSafety(s: Sys, acts: seq<Action>, byCheck: bool)
    requires Untouched(s) && Run(s, acts) && CarefulRun(s, acts, byCheck)
    ensures var t := After(s, acts);
      t.live.rows == t.acked && (t.live.triggers != {} ==> t.shadow.Some?) &&
      forall w :: Applicable(t.live.rows, w) ==> Accepted(t, w)
  {
    InvRun(s, acts, byCheck);
  }

  /** When the swap is reached the shadow equals the source, whichever hypothesis was met. */
  lemma SwapOnlyWhenEqual(s: Sys, acts: seq<Action>, byCheck: bool)
    requires Untouched(s) && Run(s, acts) && CarefulRun(s, acts, byCheck)
    requires After(s, acts).r.phase == Swapping
    ensures After(s, acts).shadow == Some(After(s, acts).live.rows)
  {
    InvRun(s, acts, byCheck);
    AgreeEverywhere(After(s, acts).live.rows, After(s, acts).shadow.value);
  }

  // ----- the copy, and what the trigger window leaves behind

  /** The application's writes and the copy's own statements. */
  predicate CopyStep(a: Action) {
    a.AppWrite? || a.ReadMax? || a.ReadBoundary? || (a.CopyChunk? && a.ok)
  }

  /** In the copy phases, with the triggers in place: what is covered is not missing. */
  ghost predicate Filling(s: Sys) {
    Inv(s, true) && (s.r.phase == ReadingMax || s.r.phase == Copying || (s.r.phase == Checking && s.r.checked == 0))
  }

  ghost predicate NoStale(s: Sys) {
    s.shadow.Some? && forall k :: !Stale(s.live.rows, s.shadow.value, k)
  }

  lemma FillingStep(s: Sys, a: Action)
    requires Filling(s) && Enabled(s, a) && CopyStep(a)
    ensures Filling(Do(s, a))
    ensures NoStale(s) ==> NoStale(Do(s, a))
  {
    InvStep(s, a, true);
    if NoStale(s) {
      StaleStep(s, a);
    }
  }

  lemma StaleStep(s: Sys, a: Action)
    requires Filling(s) && Enabled(s, a) && CopyStep(a) && NoStale(s)
    ensures NoStale(Do(s, a))
  {
    var live, shadow := s.live.rows, s.shadow.value;
    match a
    case AppWrite(w) =>
      assert EventOf(w) in ALL_EVENTS;
      forall k ensures !Stale(Applied(live, w), Mirrored(shadow, w), k) {
        WriteMirrored(live, shadow, w, k);
      }
    case CopyChunk(taken, ok) =>
      forall k ensures !Stale(live, Copied(live, shadow, s.r.lo, Some(s.r.next.value.0)), k) {
        CopyFills(live, shadow, s.r.lo, Some(s.r.next.value.0), k);
      }
    case _ =>
  }

  ghost predicate CopyRun(s: Sys, acts: seq<Action>) {
    Run(s, acts) && forall i :: 0 <= i < |acts| ==> CopyStep(acts[i])
  }

  lemma {:induction false} FillingRun(s: Sys, acts: seq<Action>)
    requires Filling(s) && CopyRun(s, acts)
    ensures Filling(After(s, acts))
    ensures NoStale(s) ==> NoStale(After(s, acts))
    decreases |acts|
  {
    if acts != [] {
      FillingStep(s, acts[0]);
      FillingRun(Do(s, acts[0]), acts[1..]);
    }
  }

  /** Whatever the interleaving, when the copy loop ends the tables are equal exactly when no stale
      row is left. */
  lemma CopyLeavesOnlyStale(s: Sys, acts: seq<Action>)
    requires Inv(s, true) && s.r.phase == ReadingMax && CopyRun(s, acts)
    requires After(s, acts).r.phase == Checking
    ensures var t := After(s, acts); t.shadow == Some(t.live.rows) <==> NoStale(t)
  {
    FillingRun(s, acts);
    var t := After(s, acts);
    AgreeEverywhere(t.live.rows, t.shadow.value);
    forall k ensures Agree(t.live.rows, t.shadow.value, k) <==> !Stale(t.live.rows, t.shadow.value, k) {
      OneOfThree(t.live.rows, t.shadow.value, k);
    }
  }

  ghost predicate EndsEqual(s: Sys, acts: seq<Action>) {
    CopyRun(s, acts) && After(s, acts).r.phase == Checking ==>
      After(s, acts).shadow == Some(After(s, acts).live.rows)
  }

  /** The copy is correct over every interleaving if and only if no stale row was in the shadow
      when the last trigger was created. */
  lemma CopyCorrectExactly(s: Sys)
    requires Inv(s, true) && s.r.phase == ReadingMax
    ensures (forall acts: seq<Action> :: EndsEqual(s, acts)) <==> NoStale(s)
  {
    if NoStale(s) {
      forall acts: seq<Action> ensures EndsEqual(s, acts) {
        if CopyRun(s, acts) && After(s, acts).r.phase == Checking {
          FillingRun(s, acts);
          CopyLeavesOnlyStale(s, acts);
        }
      }
    } else {
      var acts := QuietCopy(s);
      CopyLeavesOnlyStale(s, acts);
      assert !EndsEqual(s, acts);
    }
  }

  /** The copy with no traffic: one boundary read, one chunk; a stale row stays. */
  lemma QuietCopy(s: Sys) returns (acts: seq<Action>)
    requires Inv(s, true) && s.r.phase == ReadingMax
    ensures CopyRun(s, acts) && After(s, acts).r.phase == Checking
    ensures NoStale(After(s, acts)) <==> NoStale(s)
  {
    var live, shadow := s.live.rows, s.shadow.value;
    var none: seq<Action> := [];
    if live == map[] {
      var t := Do(s, ReadMax(None));
      assert CopyRun(t, none) && After(t, none) == t;
      acts := Prepend(s, ReadMax(None), none);
    } else {
      var m := Largest(live);
      var t1 := Do(s, ReadMax(Some(m)));
      var t2 := Do(t1, ReadBoundary(None));
      var t3 := Do(t2, CopyChunk(true, true));
      forall k ensures Stale(live, t3.shadow.value, k) <==> Stale(live, shadow, k) {
        CopyFills(live, shadow, None, Some(m), k);
      }
      assert CopyRun(t3, none) && After(t3, none) == t3;
      acts := Prepend(t2, CopyChunk(true, true), none);
      acts := Prepend(t1, ReadBoundary(None), acts);
      acts := Prepend(s, ReadMax(Some(m)), acts);
    }
  }

  lemma Prepend(s: Sys, a: Action, rest: seq<Action>) returns (acts: seq<Action>)
    requires Enabled(s, a) && CopyStep(a) && CopyRun(Do(s, a), rest)
    ensures CopyRun(s, acts) && After(s, acts) == After(Do(s, a), rest)
  {
    acts := [a] + rest;
    assert acts[1..] == rest;
  }

  lemma {:induction false} Largest(rows: Rows) returns (m: Key)
    requires rows != map[]
    ensures MaxOf(rows, m)
    decreases |rows.Keys|
  {
    var k :| k in rows;
    var rest := rows - {k};
    if rest == map[] {
      assert forall x :: x in rows && x != k ==> x in rest;
      Total(k, k);
      m := k;
    } else {
      assert rest.Keys == rows.Keys - {k};
      var n := Largest(rest);
      Total(n, k);
      m := if Less(n, k) then k else n;
      forall x | x in rows ensures !Less(m, x) {
        if x != k {
          assert x in rest;
          if Less(n, k) && Less(k, x) { Transitive(n, k, x); }
        } else {
          Total(m, k);
        }
      }
    }
  }

  /** The window is real: between the creation of the first and the last trigger, an insert that is
      mirrored and a delete that is not leave a row no copy removes. */
  lemma TriggerWindow(s: Sys, k: Key, row: Row) returns (t: Sys)
    requires Inv(s, true) && s.r.phase == Triggering && s.r.made == 1 && k !in s.live.rows
    ensures exists acts: seq<Action> :: Run(s, acts) && After(s, acts) == t
    ensures Inv(t, true) && t.r.phase == ReadingMax && t.live.rows == s.live.rows && !NoStale(t)
  {
    var ins, del, trigger := AppWrite(Insert(k, row)), AppWrite(Delete(k)), CreateTrigger(true, true);
    var s1 := Do(s, ins);
    var s2 := Do(s1, del);
    var s3 := Do(s2, trigger);
    t := Do(s3, trigger);
    assert s1.shadow == Some(s.shadow.value[k := row]);
    assert s2.live.rows == s.live.rows;
    assert Stale(t.live.rows, t.shadow.value, k);
    InvFour(s, ins, del, trigger, trigger);
    FourSteps(s, ins, del, trigger, trigger);
  }

  lemma InvFour(s: Sys, a: Action, b: Action, c: Action, d: Action)
    requires Inv(s, true) && Enabled(s, a) && Enabled(Do(s, a), b) && Enabled(Do(Do(s, a), b), c)
    requires Enabled(Do(Do(Do(s, a), b), c), d)
    requires !a.CheckRange? && !b.CheckRange? && !c.CheckRange? && !d.CheckRange?
    ensures Inv(Do(Do(Do(Do(s, a), b), c), d), true)
  {
    hide Inv, Enabled, Do;
    InvStep(s, a, true);
    InvStep(Do(s, a), b, true);
    InvStep(Do(Do(s, a), b), c, true);
    InvStep(Do(Do(Do(s, a), b), c), d, true);
  }

  lemma FourSteps(s: Sys, a: Action, b: Action, c: Action, d: Action)
    requires Enabled(s, a) && Enabled(Do(s, a), b) && Enabled(Do(Do(s, a), b), c)
    requires Enabled(Do(Do(Do(s, a), b), c), d)
    ensures Run(s, [a, b, c, d]) && After(s, [a, b, c, d]) == Do(Do(Do(Do(s, a), b), c), d)
  {
    hide Enabled, Do;
    assert [a, b, c, d][1..] == [b, c, d] && [b, c, d][1..] == [c, d] && [c, d][1..] == [d] && [d][1..] == [];
    var u := Do(Do(Do(s, a), b), c);
    assert Run(u, [d]) && After(u, [d]) == Do(u, d);
    assert Run(Do(Do(s, a), b), [c, d]) && After(Do(Do(s, a), b), [c, d]) == Do(u, d);
    assert Run(Do(s, a), [b, c, d]) && After(Do(s, a), [b, c, d]) == Do(u, d);
  }
}
