/** One online schema change, statement by statement (dbguard/osc/runner.py): shadow, triggers,
    chunked copy, checksum, atomic rename, trigger drop, cleanup after a failure, and the operator's
    `osc cleanup`. The application writes between any two statements; every statement may fail, and
    one that failed may have taken effect or not; the runner may die anywhere. */
module OscRun {
  import opened Intervals
  import opened Keys
  import opened OscCopy

  datatype Table = Table(rows: Rows, triggers: set<Event>)

  datatype Phase = Resting | MakingShadow | Altering | Triggering | ReadingMax | Copying | Checking
                 | Swapping | Untriggering | Cleaning | Sweeping

  /** The order the triggers are created and dropped in. */
  function EventAt(i: nat): Event {
    if i == 0 then OnInsert else if i == 1 then OnUpdate else OnDelete
  }

  /** `made` counts the triggers recorded as created, `gone` those dropped again; `next` is the
      boundary read for the chunk to copy and whether it is the last. */
  datatype Runner = Runner(phase: Phase, shadowMade: bool, made: nat, gone: nat, lo: Option<Key>, max: Key,
                           next: Option<(Key, bool)>, bounds: seq<Key>, checked: nat, bad: bool, swapped: bool)

  /** The table under the original name, the shadow, the table under the old name, and the rows as
      the application's acknowledged writes make them. */
  datatype Sys = Sys(live: Table, shadow: Option<Rows>, aside: Option<Table>, acked: Rows, r: Runner)

  datatype Action =
    | AppWrite(w: Write)
    | Start
    | CreateShadow(taken: bool, ok: bool)
    | AlterShadow(ok: bool)
    | CreateTrigger(taken: bool, ok: bool)
    | ReadMax(max: Option<Key>)
    | ReadBoundary(hi: Option<Key>)
    | CopyChunk(taken: bool, ok: bool)
    | CheckRange(matches: bool)
    | EndCheck
    | Rename(taken: bool, ok: bool)
    | DropTrigger(taken: bool, ok: bool)
    | DropOld(taken: bool)
    | StepFails
    | CleanTrigger(taken: bool, ok: bool)
    | CleanShadow(taken: bool)
    | CleanGivesUp
    | Crash
    | BeginSweep
    | SweepTrigger(ev: Event, taken: bool)
    | SweepShadow(taken: bool)
    | SweepOld(taken: bool)

  const NO_RUN := Runner(Resting, false, 0, 0, None, [], None, [], 0, false, false)

  /** A write meets its trigger; with the trigger's shadow missing it would fail. */
  predicate Accepted(s: Sys, w: Write) {
    Applicable(s.live.rows, w) && (EventOf(w) in s.live.triggers ==> s.shadow.Some?)
  }

  predicate Running(p: Phase) {
    p != Resting && p != Cleaning && p != Sweeping
  }

  function Triggers(t: Option<Table>): set<Event> {
    if t.Some? then t.value.triggers else {}
  }

  ghost predicate MaxOf(rows: Rows, m: Key) {
    m in rows && forall k :: k in rows ==> !Less(m, k)
  }

  /** The range under the checksum holds the same rows in both tables. */
  predicate SameParts(s: Sys)
    requires s.r.checked <= |s.r.bounds| && s.shadow.Some?
  {
    Part(s.live.rows, RangesOf(s.r.bounds)[s.r.checked]) == Part(s.shadow.value, RangesOf(s.r.bounds)[s.r.checked])
  }

  ghost predicate Enabled(s: Sys, a: Action) {
    var r := s.r;
    match a
    case AppWrite(w) => Applicable(s.live.rows, w)
    case Start => r.phase == Resting && s.shadow.None? && s.aside.None? && s.live.triggers == {}
    case CreateShadow(taken, ok) => r.phase == MakingShadow && (ok ==> taken)
    case AlterShadow(ok) => r.phase == Altering
    case CreateTrigger(taken, ok) => r.phase == Triggering && r.made < 3 && (ok ==> taken)
    case ReadMax(max) =>
      r.phase == ReadingMax && (max.None? ==> s.live.rows == map[]) && (max.Some? ==> MaxOf(s.live.rows, max.value))
    case ReadBoundary(hi) =>
      r.phase == Copying && r.next.None? &&
      (hi.Some? ==> hi.value in s.live.rows && InRange(hi.value, r.lo, Some(r.max)))
    case CopyChunk(taken, ok) => r.phase == Copying && r.next.Some? && s.shadow.Some? && (ok ==> taken)
    case CheckRange(matches) =>
      r.phase == Checking && r.checked <= |r.bounds| && s.shadow.Some? &&
      (SameParts(s) ==> matches)
    case EndCheck => r.phase == Checking && r.checked == |r.bounds| + 1
    case Rename(taken, ok) => r.phase == Swapping && (ok ==> taken) && (taken ==> s.shadow.Some? && s.aside.None?)
    case DropTrigger(taken, ok) => r.phase == Untriggering && r.gone < 3 && (ok ==> taken)
    case DropOld(_) => r.phase == Untriggering && r.gone == 3
    case StepFails => Running(r.phase)
    case CleanTrigger(taken, ok) => r.phase == Cleaning && r.gone < r.made && (ok ==> taken)
    case CleanShadow(_) => r.phase == Cleaning && r.gone >= r.made
    case CleanGivesUp => r.phase == Cleaning
    case Crash => true
    case BeginSweep => r.phase == Resting
    case SweepTrigger(ev, _) => r.phase == Sweeping && ev in s.live.triggers + Triggers(s.aside)
    case SweepShadow(_) => r.phase == Sweeping && s.live.triggers + Triggers(s.aside) == {}
    case SweepOld(_) => r.phase == Sweeping && s.live.triggers + Triggers(s.aside) == {} && s.shadow.None?
  }

  /** Trigger names are unique in the schema, so a drop finds the trigger on whichever table. */
  function Without(s: Sys, ev: Event): Sys {
    s.(live := s.live.(triggers := s.live.triggers - {ev}),
       aside := if s.aside.Some? then Some(s.aside.value.(triggers := s.aside.value.triggers - {ev})) else None)
  }

  /** RENAME TABLE t TO old, shadow TO t: the triggers move with the old table. */
  function Swapped(s: Sys): Sys
    requires s.shadow.Some?
  {
    s.(live := Table(s.shadow.value, {}), shadow := None, aside := Some(s.live))
  }

  function To(s: Sys, p: Phase): Sys { s.(r := s.r.(phase := p)) }

  /** An exception in the run starts the cleanup. */
  function Fail(s: Sys): Sys { s.(r := s.r.(phase := Cleaning, gone := 0)) }

  function Do(s: Sys, a: Action): Sys
    requires Enabled(s, a)
  {
    var r := s.r;
    match a
    case AppWrite(w) =>
      if !Accepted(s, w) then s
      else s.(live := s.live.(rows := Applied(s.live.rows, w)), acked := Applied(s.acked, w),
              shadow := if s.shadow.Some? then Some(AfterTriggers(s.shadow.value, w, s.live.triggers)) else None)
    case Start => s.(r := NO_RUN.(phase := MakingShadow))
    case CreateShadow(taken, ok) =>
      var t := if taken then s.(shadow := Some(map[])) else s;
      if ok then t.(r := r.(phase := Altering, shadowMade := true)) else Fail(t)
    case AlterShadow(ok) => if ok then To(s, Triggering) else Fail(s)
    case CreateTrigger(taken, ok) =>
      var t := if taken then s.(live := s.live.(triggers := s.live.triggers + {EventAt(r.made)})) else s;
      var u := t.(r := r.(made := r.made + 1, phase := if r.made == 2 then ReadingMax else Triggering));
      if ok then u else Fail(u)
    case ReadMax(max) =>
      if max.None? then To(s, Checking) else s.(r := r.(phase := Copying, max := max.value))
    case ReadBoundary(hi) =>
      s.(r := r.(next := Some(if hi.Some? then (hi.value, false) else (r.max, true))))
    case CopyChunk(taken, ok) =>
      var (hi, last) := r.next.value;
      var t := if taken then s.(shadow := Some(Copied(s.live.rows, s.shadow.value, r.lo, Some(hi)))) else s;
      if ok then t.(r := r.(lo := Some(hi), next := None, bounds := r.bounds + [hi],
                            phase := if last then Checking else Copying))
      else Fail(t)
    case CheckRange(matches) => s.(r := r.(checked := r.checked + 1, bad := r.bad || !matches))
    case EndCheck => if r.bad then Fail(s) else To(s, Swapping)
    case Rename(taken, ok) =>
      var t := if taken then Swapped(s) else s;
      if ok then t.(r := r.(phase := Untriggering, gone := 0, swapped := true)) else Fail(t)
    case DropTrigger(taken, ok) =>
      var t := if taken then Without(s, EventAt(r.gone)) else s;
      if ok then t.(r := r.(gone := r.gone + 1, made := if r.gone == 2 then 0 else r.made)) else Fail(t)
    case DropOld(taken) => To(if taken then s.(aside := None) else s, Resting)
    case StepFails => Fail(s)
    case CleanTrigger(taken, ok) =>
      var t := if taken then Without(s, EventAt(r.gone)) else s;
      if ok then t.(r := r.(gone := r.gone + 1)) else To(t, Resting)
    case CleanShadow(taken) =>
      To(if taken && r.shadowMade && !r.swapped then s.(shadow := None) else s, Resting)
    case CleanGivesUp => To(s, Resting)
    case Crash => To(s, Resting)
    case BeginSweep => To(s, Sweeping)
    case SweepTrigger(ev, taken) => if taken then Without(s, ev) else To(s, Resting)
    case SweepShadow(taken) => if taken then s.(shadow := None) else To(s, Resting)
    case SweepOld(taken) => if taken then s.(aside := None) else To(s, Resting)
  }

  ghost predicate Run(s: Sys, acts: seq<Action>)
    decreases |acts|
  {
    acts == [] || (Enabled(s, acts[0]) && Run(Do(s, acts[0]), acts[1..]))
  }

  ghost function After(s: Sys, acts: seq<Action>): Sys
    requires Run(s, acts)
    decreases |acts|
  {
    if acts == [] then s else After(Do(s, acts[0]), acts[1..])
  }
}
