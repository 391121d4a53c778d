/** The agent's role changes in dbguard/agent/core.py, statement by statement: promote and repoint
    requests cut off anywhere, each statement taken or not, with fence steps, killed and rebooted
    mysqlds and agent restarts in between. Semi-sync mode. */
module AgentRoles {
  import opened Intervals
  import opened Selection

  datatype Statement =
    | StopReplica
    | ResetReplica
    | ReplicaSide(on: bool)
    | SourceSide(on: bool)
    | Writable
    | ReadOnly
    | ChangeSource(source: Name)
    | StartReplica
    | ClearFlag

  /** mysqld's role state, and the agent's fence flag, which is a file and outlives both. */
  datatype Server = Server(up: bool, superReadOnly: bool, sourceSide: bool, replicaSide: bool,
                           source: Option<Name>, running: bool, fenced: bool)

  datatype Kind = Promote | Repoint(source: Name)

  /** `_promote` and `_repoint`, in their order. */
  function Statements(k: Kind): seq<Statement> {
    match k
    case Promote => [StopReplica, ResetReplica, ReplicaSide(false), SourceSide(true), Writable, ClearFlag]
    case Repoint(source) =>
      [StopReplica, ReadOnly, SourceSide(false), ReplicaSide(true), ChangeSource(source), StartReplica]
  }

  function Effect(v: Server, s: Statement): Server {
    match s
    case StopReplica => v.(running := false)
    case ResetReplica => v.(source := None)
    case ReplicaSide(on) => v.(replicaSide := on)
    case SourceSide(on) => v.(sourceSide := on)
    case Writable => v.(superReadOnly := false)
    case ReadOnly => v.(superReadOnly := true)
    case ChangeSource(source) => v.(source := Some(source))
    case StartReplica => v.(running := true)
    case ClearFlag => v.(fenced := false)
  }

  /** A request holds the role lock from its first statement to its end; `linked` says its session
      still reaches the mysqld it was opened on. */
  datatype Request = Request(kind: Kind, next: nat, linked: bool)

  datatype Agent = Agent(v: Server, active: Option<Request>)

  datatype Action =
    | Begin(kind: Kind)
    | Send(taken: bool, ok: bool)
    | CutOff
    | FenceFlag
    | FenceReadOnly
    | Kill
    | Boot(sourceSide: bool, replicaSide: bool)
    | RestartAgent

  predicate Pending(a: Agent) {
    a.active.Some? && a.active.value.next < |Statements(a.active.value.kind)|
  }

  function Upcoming(a: Agent): Statement
    requires Pending(a)
  {
    Statements(a.active.value.kind)[a.active.value.next]
  }

  /** Clearing the flag is the agent's own doing; every other statement needs the session. */
  predicate Enabled(a: Agent, x: Action) {
    match x
    case Begin(_) => a.active.None? && a.v.up
    case Send(taken, ok) =>
      Pending(a) && (ok ==> taken) &&
      (if Upcoming(a) == ClearFlag then ok else taken ==> a.v.up && a.active.value.linked)
    case CutOff => a.active.Some?
    case FenceFlag => true
    case FenceReadOnly => a.v.up
    case Kill => true
    case Boot(_, _) => !a.v.up
    case RestartAgent => true
  }

  function Do(a: Agent, x: Action): Agent
    requires Enabled(a, x)
  {
    match x
    case Begin(kind) => a.(active := Some(Request(kind, 0, true)))
    case Send(taken, ok) =>
      var v := if taken then Effect(a.v, Upcoming(a)) else a.v;
      Agent(v, if ok then Some(a.active.value.(next := a.active.value.next + 1)) else None)
    case CutOff => a.(active := None)
    case FenceFlag => a.(v := a.v.(fenced := true))
    case FenceReadOnly => a.(v := a.v.(superReadOnly := true))
    case Kill =>
      Agent(a.v.(up := false, running := false),
            if a.active.Some? then Some(a.active.value.(linked := false)) else None)
    case Boot(sourceSide, replicaSide) =>
      a.(v := a.v.(up := true, superReadOnly := true, sourceSide := sourceSide, replicaSide := replicaSide))
    case RestartAgent => a.(active := None)
  }

  predicate Run(a: Agent, xs: seq<Action>)
    decreases |xs|
  {
    xs == [] || (Enabled(a, xs[0]) && Run(Do(a, xs[0]), xs[1..]))
  }

  function After(a: Agent, xs: seq<Action>): Agent
    requires Run(a, xs)
    decreases |xs|
  {
    if xs == [] then a else After(Do(a, xs[0]), xs[1..])
  }

  // ----- writable only behind semi-sync

  /** The running mysqld takes writes only with its semi-sync source side on. */
  predicate WritesAreSemisync(v: Server) {
    v.up && !v.superReadOnly ==> v.sourceSide
  }

  ghost predicate Inv(a: Agent) {
    WritesAreSemisync(a.v) &&
    (a.active.Some? && a.active.value.linked ==> a.v.up) &&
    (a.active.Some? && a.active.value.linked && a.active.value.kind == Promote && a.active.value.next >= 4 ==>
       a.v.sourceSide) &&
    (a.active.Some? && a.active.value.linked && a.active.value.kind.Repoint? && a.active.value.next >= 2 ==>
       a.v.superReadOnly)
  }

  lemma InvStep(a: Agent, x: Action)
    requires Inv(a) && Enabled(a, x)
    ensures Inv(Do(a, x))
  {
    match x
    case Send(taken, ok) => InvSend(a, taken, ok);
    case _ =>
  }

  lemma InvSend(a: Agent, taken: bool, ok: bool)
    requires Inv(a) && Enabled(a, Send(taken, ok))
    ensures Inv(Do(a, Send(taken, ok)))
  {
    var r := a.active.value;
    match r.kind
    case Promote =>
      assert Statements(Promote)[r.next] == Writable ==> r.next == 4;
      assert Statements(Promote)[r.next] != SourceSide(false) && Statements(Promote)[r.next] != ReadOnly;
    case Repoint(source) =>
      assert Statements(r.kind)[r.next] == SourceSide(false) ==> r.next == 2;
      assert Statements(r.kind)[r.next] != Writable;
  }

  lemma {:induction false} InvRun(a: Agent, xs: seq<Action>)
    requires Inv(a) && Run(a, xs)
    ensures Inv(After(a, xs))
    decreases |xs|
  {
    if xs != [] {
      InvStep(a, xs[0]);
      InvRun(Do(a, xs[0]), xs[1..]);
    }
  }

  /** From any state that meets it with no request running, over any sequence of promotes and
      repoints cut off anywhere, fences, kills, boots and agent restarts, super_read_only off
      implies the semi-sync source side is on. */
  lemma WritableOnlySemisync(v: Server, xs: seq<Action>)
    requires WritesAreSemisync(v) && Run(Agent(v, None), xs)
    ensures WritesAreSemisync(After(Agent(v, None), xs).v)
  {
    InvRun(Agent(v, None), xs);
  }

  // ----- the fence flag

  /** The step completes a promote's writable statement. */
  predicate PassesWritable(a: Agent, x: Action) {
    Pending(a) && Upcoming(a) == Writable && x == Send(true, true)
  }

  predicate NeverWritable(a: Agent, xs: seq<Action>)
    requires Run(a, xs)
    decreases |xs|
  {
    xs == [] || (!PassesWritable(a, xs[0]) && NeverWritable(Do(a, xs[0]), xs[1..]))
  }

  /** The running promote has not yet passed its writable statement. */
  predicate BeforeWritable(a: Agent) {
    a.active.Some? && a.active.value.kind == Promote ==> a.active.value.next <= 4
  }

  lemma FlagStep(a: Agent, x: Action)
    requires a.v.fenced && BeforeWritable(a) && Enabled(a, x) && !PassesWritable(a, x)
    ensures Do(a, x).v.fenced && BeforeWritable(Do(a, x))
  {
    if x.Send? {
      var r := a.active.value;
      assert r.kind == Promote && r.next == 4 ==> Upcoming(a) == Writable;
      assert Upcoming(a) == ClearFlag ==> r.kind == Promote && r.next == 5;
    }
  }

  /** A fence flag set before a promote survives every sequence of requests and faults unless some
      promote got its writable statement through. */
  lemma {:induction false} FlagSurvives(a: Agent, xs: seq<Action>)
    requires a.v.fenced && BeforeWritable(a) && Run(a, xs) && NeverWritable(a, xs)
    ensures After(a, xs).v.fenced
    decreases |xs|
  {
    if xs != [] {
      FlagStep(a, xs[0]);
      FlagSurvives(Do(a, xs[0]), xs[1..]);
    }
  }

  // ----- requests that run to their end

  /** Where a request that runs to its end leaves the server it found. */
  predicate Completed(kind: Kind, v: Server, w: Server) {
    w.up == v.up &&
    match kind
    case Promote =>
      !w.superReadOnly && w.sourceSide && !w.replicaSide && w.source == None && !w.running && !w.fenced
    case Repoint(source) =>
      w.superReadOnly && !w.sourceSide && w.replicaSide && w.source == Some(source) && w.running && w.fenced == v.fenced
  }

  /** A promote that runs to its end clears the flag and leaves the node writable behind semi-sync,
      replicating from nobody. */
  lemma CompletePromote(v: Server) returns (xs: seq<Action>)
    requires v.up
    ensures Run(Agent(v, None), xs)
    ensures var w := After(Agent(v, None), xs).v;
      !w.fenced && !w.superReadOnly && w.sourceSide && !w.replicaSide && w.source == None && !w.running
  {
    xs := CompleteRequest(v, Promote);
  }

  /** A repoint that runs to its end leaves the node read-only, replicating from the source it was given
      with only the semi-sync replica side on, and the flag as it was. */
  lemma CompleteRepoint(v: Server, source: Name) returns (xs: seq<Action>)
    requires v.up
    ensures Run(Agent(v, None), xs)
    ensures var w := After(Agent(v, None), xs).v;
      w.superReadOnly && !w.sourceSide && w.replicaSide && w.source == Some(source) && w.running &&
      w.fenced == v.fenced
  {
    xs := CompleteRequest(v, Repoint(source));
  }

  lemma CompleteRequest(v: Server, kind: Kind) returns (xs: seq<Action>)
    requires v.up
    ensures Run(Agent(v, None), xs) && Completed(kind, v, After(Agent(v, None), xs).v)
  {
    xs := SendsFrom(v, kind, 0);
    assert v == Effects(v, Statements(kind)[..0]);
    assert Do(Agent(v, None), Begin(kind)) == Agent(v, Some(Request(kind, 0, true)));
    xs := Prepend(Agent(v, None), Begin(kind), xs);
    AllLanded(v, kind);
  }

  /** The request's statements from the i-th on, each taken and answered. */
  lemma {:induction false} SendsFrom(v: Server, kind: Kind, i: nat) returns (xs: seq<Action>)
    requires v.up && i <= 6
    ensures var w := Effects(v, Statements(kind)[..i]);
      var a := Agent(w, Some(Request(kind, i, true)));
      Run(a, xs) && After(a, xs).v == Effects(v, Statements(kind))
    decreases 6 - i
  {
    var ss := Statements(kind);
    var w := Effects(v, ss[..i]);
    assert |ss| == 6;
    if i == 6 {
      xs := [];
      assert ss[..6] == ss;
    } else {
      hide Run, After, Effects;
      xs := SendsFrom(v, kind, i + 1);
      EffectsStep(v, ss, i + 1);
      StillUp(v, ss, i);
      xs := Prepend(Agent(w, Some(Request(kind, i, true))), Send(true, true), xs);
    }
  }

  lemma {:induction false} StillUp(v: Server, ss: seq<Statement>, n: nat)
    requires n <= |ss|
    ensures Effects(v, ss[..n]).up == v.up
  {
    if n == 0 {
      assert ss[..n] == [];
    } else {
      hide Effects, Effect;
      StillUp(v, ss, n - 1);
      EffectsStep(v, ss, n);
      EffectUp(Effects(v, ss[..n - 1]), ss[n - 1]);
    }
  }

  lemma EffectUp(w: Server, s: Statement)
    ensures Effect(w, s).up == w.up
  {
  }

  lemma AllLanded(v: Server, kind: Kind)
    ensures Completed(kind, v, Effects(v, Statements(kind)))
  {
    var ss := Statements(kind);
    SixEffects(v, ss);
    hide Effects;
    match kind
    case Promote =>
    case Repoint(source) =>
  }

  lemma SixEffects(v: Server, ss: seq<Statement>)
    requires |ss| == 6
    ensures Effects(v, ss) ==
      Effect(Effect(Effect(Effect(Effect(Effect(v, ss[0]), ss[1]), ss[2]), ss[3]), ss[4]), ss[5])
  {
    assert ss[..6] == ss && ss[..0] == [];
    assert Effects(v, ss[..0]) == v;
    hide Effects, Effect;
    EffectsStep(v, ss, 6);
    EffectsStep(v, ss, 5);
    EffectsStep(v, ss, 4);
    EffectsStep(v, ss, 3);
    EffectsStep(v, ss, 2);
    EffectsStep(v, ss, 1);
  }

  /** A fence leaves the flag set and the node read-only, through SQL or by killing mysqld, whatever
      request was running. */
  lemma FenceLeavesReadOnly(a: Agent, sourceSide: bool, replicaSide: bool)
    ensures a.v.up ==>
      Run(a, [FenceFlag, FenceReadOnly]) &&
      var w := After(a, [FenceFlag, FenceReadOnly]).v; w.fenced && w.superReadOnly
    ensures var xs := [FenceFlag, Kill, Boot(sourceSide, replicaSide)];
      Run(a, xs) && var w := After(a, xs).v;
      w.fenced && w.superReadOnly && w.up && !w.running && w.sourceSide == sourceSide && w.replicaSide == replicaSide
  {
    var b, none: seq<Action> := Do(a, FenceFlag), [];
    if a.v.up {
      var xs := Prepend(b, FenceReadOnly, none);
      xs := Prepend(a, FenceFlag, xs);
      assert xs == [FenceFlag, FenceReadOnly];
    }
    var boot := Boot(sourceSide, replicaSide);
    var ys := Prepend(Do(b, Kill), boot, none);
    ys := Prepend(b, Kill, ys);
    ys := Prepend(a, FenceFlag, ys);
    assert ys == [FenceFlag, Kill, boot];
  }

  /** A request that was cut off, or whose agent restarted, sends nothing more; of one whose mysqld was killed
      no statement takes effect any more, the agent's own flag apart. */
  lemma InterruptedSendsNothing(a: Agent, taken: bool, ok: bool)
    ensures a.active.Some? ==> !Enabled(Do(a, CutOff), Send(taken, ok)) && Do(a, CutOff).v == a.v
    ensures !Enabled(Do(a, RestartAgent), Send(taken, ok)) && Do(a, RestartAgent).v == a.v
    ensures var b := Do(a, Kill);
      Enabled(b, Send(taken, ok)) && taken ==>
        Upcoming(b) == ClearFlag && Do(b, Send(taken, ok)).v == b.v.(fenced := false)
  {
  }

  lemma Prepend(a: Agent, x: Action, rest: seq<Action>) returns (xs: seq<Action>)
    requires Enabled(a, x) && Run(Do(a, x), rest)
    ensures Run(a, xs) && After(a, xs) == After(Do(a, x), rest) && xs == [x] + rest
  {
    xs := [x] + rest;
    assert xs[1..] == rest;
  }

  // ----- the request as the agent runs it

  /** What became of one statement: refused or lost before it took effect, taken but the answer
      lost, or answered. */
  datatype Fate = NotTaken | TakenUnanswered | Answered

  /** How many of the statements took effect when each meets its fate and the first one that is
      not answered ends the request. */
  function Landed(fates: seq<Fate>): (n: nat)
    ensures n <= |fates|
  {
    if fates == [] then 0
    else match fates[0]
      case NotTaken => 0
      case TakenUnanswered => 1
      case Answered => 1 + Landed(fates[1..])
  }

  function Effects(v: Server, ss: seq<Statement>): Server {
    if ss == [] then v else Effect(Effects(v, ss[..|ss| - 1]), ss[|ss| - 1])
  }

  class RoleChanger {
    var v: Server

    constructor (v: Server)
      ensures this.v == v
    {
      this.v := v;
    }

    /** A request under its deadline, undisturbed by others: the statements that landed are a
        prefix, and success means all of them. */
    method Change(kind: Kind, fates: seq<Fate>) returns (ok: bool)
      requires |fates| == |Statements(kind)|
      modifies this
      ensures v == Effects(old(v), Statements(kind)[..Landed(fates)])
      ensures ok <==> forall i :: 0 <= i < |fates| ==> fates[i] == Answered
      ensures WritesAreSemisync(old(v)) ==> WritesAreSemisync(v)
      ensures ok ==> Completed(kind, old(v), v)
    {
      hide WritesAreSemisync;
      var ss := Statements(kind);
      var i := 0;
      assert fates[0..] == fates;
      while i < |ss|
        invariant 0 <= i <= |ss| && v == Effects(old(v), ss[..i])
        invariant forall k :: 0 <= k < i ==> fates[k] == Answered
        invariant Landed(fates) == i + Landed(fates[i..])
      {
        hide Effects, Effect, Statements, Landed;
        LandedFrom(fates, i);
        if fates[i] == NotTaken {
          Semisync(old(v), kind, i);
          return false;
        }
        v := Effect(v, ss[i]);
        EffectsStep(old(v), ss, i + 1);
        if fates[i] == TakenUnanswered {
          Semisync(old(v), kind, i + 1);
          return false;
        }
        i := i + 1;
      }
      Semisync(old(v), kind, i);
      assert ss[..i] == ss;
      AllLanded(old(v), kind);
      return true;
    }
  }

  lemma LandedFrom(fates: seq<Fate>, i: nat)
    requires i < |fates|
    ensures Landed(fates[i..]) ==
      match fates[i]
      case NotTaken => 0
      case TakenUnanswered => 1
      case Answered => 1 + Landed(fates[i + 1..])
  {
    assert fates[i..][1..] == fates[i + 1..];
  }

  lemma Semisync(v: Server, kind: Kind, n: nat)
    requires n <= |Statements(kind)|
    ensures WritesAreSemisync(v) ==> WritesAreSemisync(Effects(v, Statements(kind)[..n]))
  {
    if WritesAreSemisync(v) {
      PrefixSafe(v, kind, n);
    }
  }

  /** What holds once the first `n` statements of the request have taken effect. */
  predicate SafeAt(w: Server, kind: Kind, n: nat) {
    WritesAreSemisync(w) && (kind == Promote && n >= 4 ==> w.sourceSide) &&
    (kind.Repoint? && n >= 2 ==> w.superReadOnly)
  }

  /** Every prefix of a promote or a repoint leaves writes behind semi-sync. */
  lemma {:induction false} PrefixSafe(v: Server, kind: Kind, n: nat)
    requires n <= |Statements(kind)| && WritesAreSemisync(v)
    ensures SafeAt(Effects(v, Statements(kind)[..n]), kind, n)
  {
    var ss := Statements(kind);
    if n > 0 {
      hide Effects, Effect, Statements, SafeAt;
      PrefixSafe(v, kind, n - 1);
      EffectsStep(v, ss, n);
      SafeStep(Effects(v, ss[..n - 1]), kind, n - 1);
    } else {
      assert ss[..n] == [];
    }
  }

  lemma EffectsStep(v: Server, ss: seq<Statement>, n: nat)
    requires 0 < n <= |ss|
    ensures Effects(v, ss[..n]) == Effect(Effects(v, ss[..n - 1]), ss[n - 1])
  {
    assert ss[..n][..n - 1] == ss[..n - 1] && ss[..n][n - 1] == ss[n - 1];
  }

  lemma SafeStep(w: Server, kind: Kind, i: nat)
    requires i < |Statements(kind)| && SafeAt(w, kind, i)
    ensures SafeAt(Effect(w, Statements(kind)[i]), kind, i + 1)
  {
    var s := Statements(kind)[i];
    match kind
    case Promote => assert (s == Writable ==> i == 4) && (s.SourceSide? ==> s.on) && (i == 3 ==> s == SourceSide(true));
    case Repoint(_) => assert s != Writable && (s == SourceSide(false) ==> i == 2) && (i == 1 ==> s == ReadOnly);
  }
}
