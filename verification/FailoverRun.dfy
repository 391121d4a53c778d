/** One failover as the object `_Failover` of dbguard/manager/failover.py runs it: its fields filled
    step by step, while the fence task and the fleet move on by themselves between any two calls.
    Every execution is a run of the transition system in module Failover, so what is proved of all
    runs holds of it. */
module FailoverRun {
  import opened Intervals
  import opened GtidSets
  import opened Selection
  import opened Fleet
  import opened Failover
  import opened FailoverSafety
  import opened FailoverCalls
  import FailoverLossless
  import Polling = CatchUp

  predicate Background(a: Action) {
    a.Step? || a.FenceLands? || a.FenceReturns?
  }

  // ----- the manager's own calls in a run

  ghost function Own(a: Action): seq<Action> { if Background(a) then [] else [a] }

  /** The calls and decisions of the manager, in order; the rest happens by itself. */
  ghost function Calls(acts: seq<Action>): seq<Action> {
    if acts == [] then [] else Calls(acts[..|acts| - 1]) + Own(acts[|acts| - 1])
  }

  lemma CallsMore(acts: seq<Action>, a: Action)
    ensures Calls(acts + [a]) == Calls(acts) + Own(a)
  {
    assert (acts + [a])[..|acts + [a]| - 1] == acts;
  }

  datatype Kind = Stop | Look | Point

  predicate Calling(a: Action, kind: Kind, n: Name) {
    match kind
    case Stop => a.StopIo? && a.n == n
    case Look => a.LookAt? && a.n == n
    case Point => a.Repoint? && a.n == n
  }

  function Callee(a: Action): Name {
    if a.StopIo? || a.LookAt? || a.Repoint? then a.n else ""
  }

  /** One call of the kind for each of the names, and no other call. */
  ghost predicate EachOnce(calls: seq<Action>, kind: Kind, ns: set<Name>) {
    if calls == [] then ns == {}
    else
      var a := calls[|calls| - 1];
      Callee(a) in ns && Calling(a, kind, Callee(a)) && EachOnce(calls[..|calls| - 1], kind, ns - {Callee(a)})
  }

  lemma EachOnceMore(calls: seq<Action>, one: Action, kind: Kind, n: Name, ns: set<Name>)
    requires EachOnce(calls, kind, ns) && Calling(one, kind, n) && n !in ns
    ensures EachOnce(calls + [one], kind, ns + {n})
  {
    assert (calls + [one])[..|calls + [one]| - 1] == calls && ns + {n} - {n} == ns;
  }

  lemma OneMoreCall(before: seq<Action>, calls: seq<Action>, one: Action, kind: Kind, n: Name,
                    all: set<Name>, left: set<Name>)
    requires n in left && left <= all && Calling(one, kind, n) && EachOnce(calls, kind, all - left)
    ensures before + calls + [one] == before + (calls + [one])
    ensures EachOnce(calls + [one], kind, all - (left - {n}))
  {
    EachOnceMore(calls, one, kind, n, all - left);
    assert all - left + {n} == all - (left - {n});
  }

  function SetOf(names: seq<Name>): set<Name> { set n | n in names }

  lemma SetOfMore(names: seq<Name>, i: nat)
    requires i < |names|
    ensures SetOf(names[..i + 1]) == SetOf(names[..i]) + {names[i]}
  {
    assert names[..i + 1] == names[..i] + [names[i]];
  }

  lemma LooksMore(before: seq<Action>, looks: seq<Action>, more: seq<Action>, others: seq<Name>, i: nat)
    requires i < |others| && EachOnce(looks, Look, SetOf(others[..i]))
    requires if others[i] in others[..i] then more == [] else |more| == 1 && Calling(more[0], Look, others[i])
    ensures before + looks + more == before + (looks + more)
    ensures SetOf(others[..i]) + {others[i]} == SetOf(others[..i + 1])
    ensures EachOnce(looks + more, Look, SetOf(others[..i + 1]))
  {
    SetOfMore(others, i);
    if others[i] in others[..i] {
      assert looks + more == looks && SetOf(others[..i]) + {others[i]} == SetOf(others[..i]);
    } else {
      assert more == [more[0]];
      EachOnceMore(looks, more[0], Look, others[i], SetOf(others[..i]));
    }
  }

  // ----- the wait for the winner

  /** What a poll asked: the status, and the SQL thread's state if the answer was that it is done. */
  function Ask(r: Polling.PollRead): seq<Action> {
    [PollWinner(r.nv.reachable)] + (if r.sqlDone then [ReadSqlState] else [])
  }

  function AskCalls(polled: seq<Polling.PollRead>): seq<Action> {
    if polled == [] then [] else AskCalls(polled[..|polled| - 1]) + Ask(polled[|polled| - 1])
  }

  function Answer(polled: seq<Polling.PollRead>): Polling.Answer {
    if polled == [] then Polling.KeepWaiting else Polling.Judge(polled[|polled| - 1], None)
  }

  /** At least one status is read, none after one that ended the wait, and none after the deadline, which
      `polls` of them meet. */
  ghost predicate Waited(polled: seq<Polling.PollRead>, polls: nat) {
    1 <= |polled| && (|polled| > 1 ==> |polled| <= polls) &&
    OnlyLastEnds(polled) && (Answer(polled) == Polling.KeepWaiting ==> polls <= |polled|)
  }

  ghost predicate OnlyLastEnds(polled: seq<Polling.PollRead>) {
    forall i :: 0 <= i < |polled| - 1 ==> Polling.Judge(polled[i], None) == Polling.KeepWaiting
  }

  lemma NoneAsked(before: seq<Action>, seen: seq<Polling.PollRead>)
    ensures AskCalls([]) == [] && before + AskCalls([]) == before && seen + [] == seen
    ensures OnlyLastEnds([]) && Answer([]) == Polling.KeepWaiting
  {
  }

  lemma AskMore(before: seq<Action>, seen: seq<Polling.PollRead>, polled: seq<Polling.PollRead>, r: Polling.PollRead)
    ensures before + AskCalls(polled) + Ask(r) == before + AskCalls(polled + [r])
    ensures seen + polled + [r] == seen + (polled + [r]) && Answer(polled + [r]) == Polling.Judge(r, None)
    ensures OnlyLastEnds(polled) && Answer(polled) == Polling.KeepWaiting ==> OnlyLastEnds(polled + [r])
  {
    hide Ask, Polling.Judge;
    assert (polled + [r])[..|polled + [r]| - 1] == polled;
  }

  /** Where a status leaves the run. */
  function Stage(a: Polling.Answer): Phase {
    match a
    case CaughtUp => Repointing
    case Broken => Phase.Halted
    case KeepWaiting => CatchingUp
  }

  // ----- a whole failover

  /** The STOPs, the looks at the members, the statuses of the winner, the repoints, and what the promote
      met. */
  datatype Story = Story(stops: seq<Action>, looks: seq<Action>, polled: seq<Polling.PollRead>,
                         points: seq<Action>, took: bool, ok: bool)

  function Opening(stopList: seq<Name>, stops: seq<Action>, looks: seq<Action>): seq<Action> {
    [Begin(SetOf(stopList))] + stops + [Proceed] + looks + [Choose]
  }

  /** After a choice with a winner. */
  function Ending(s: Story): seq<Action> {
    AskCalls(s.polled) +
    match Answer(s.polled)
    case Broken => []
    case KeepWaiting => [GiveUp]
    case CaughtUp => s.points + [JoinFence, Failover.Promote(s.took, s.ok)]
  }

  lemma Reached(f: Fleet, n: Name, answered: bool)
    requires n in f.nodes
    ensures StatusOf(f, n, answered).reachable == answered
  {
  }

  lemma OpeningCalls(before: seq<Action>, stopList: seq<Name>, stops: seq<Action>, looks: seq<Action>)
    ensures before + [Begin(SetOf(stopList))] + stops + [Proceed] + looks + [Choose] ==
            before + Opening(stopList, stops, looks)
    ensures before + Opening(stopList, stops, looks) + [] == before + Opening(stopList, stops, looks)
  {
  }

  lemma EndingCalls(before: seq<Action>, s: Story)
    ensures Answer(s.polled) == Polling.KeepWaiting ==>
      before + AskCalls(s.polled) + [GiveUp] == before + Ending(s)
    ensures Answer(s.polled) == Polling.Broken ==> before + AskCalls(s.polled) + [] == before + Ending(s)
    ensures Answer(s.polled) == Polling.CaughtUp ==>
      before + AskCalls(s.polled) + [] + s.points + [JoinFence] + [Failover.Promote(s.took, s.ok)] ==
      before + Ending(s)
  {
    hide Answer, AskCalls;
  }

  lemma PolledAims(c: Config, m: Mgr, v: NodeView)
    requires m.winner.Some? && m.phase == CatchingUp
    ensures var p := Failover.Polled(c, m, v);
      p.views == m.views && p.winner == m.winner && p.fence == m.fence &&
      (p.phase == Repointing ==> p.toDo == Targets(c, p, m.winner.value))
  {
    SameTargets(c, m, Failover.Polled(c, m, v), m.winner.value);
  }

  lemma SameTargets(c: Config, m: Mgr, n: Mgr, w: Name)
    requires m.views == n.views
    ensures Targets(c, m, w) == Targets(c, n, w)
  {
    assert forall x :: x in Targets(c, m, w) <==> x in Targets(c, n, w);
  }

  class FailoverRun {
    const c: Config
    /** What the n-th call meets. */
    const script: nat -> Call
    var clock: nat
    var f: Fleet
    var phase: Phase
    var fence: FenceTask
    var landed: bool
    var toDo: set<Name>
    var stopFailed: bool
    var views: map<Name, NodeView>
    var winner: Option<Name>
    var ioSeenDown: bool
    ghost const start: Sys
    ghost var trace: seq<Action>
    /** The call each step of the trace met. */
    ghost var at: seq<nat>

    function View(): Sys
      reads this
    {
      Sys(f, Mgr(phase, fence, landed, toDo, stopFailed, views, winner, ioSeenDown))
    }

    /** What the object did is a run over what its calls met, and it stands where that run ends. */
    ghost predicate Valid()
      reads this
    {
      start.m == FailoverLossless.Unstarted() &&
      Run(c, start, trace) && After(c, start, trace) == View() && Known(c, View()) &&
      Scripted(c, start, trace, script, at) && forall k :: k in at ==> k <= clock
    }

    /** The statuses it has read. */
    ghost function Polled(): seq<Polling.PollRead>
      requires Valid()
      reads this
    {
      Statuses(c, start, trace, [])
    }

    /** The call under way. */
    function Latest(): nat
      reads this
    {
      if clock == 0 then 0 else clock - 1
    }

    constructor (c: Config, script: nat -> Call, f: Fleet)
      requires Members(c, f)
      ensures Valid() && this.c == c && this.script == script && View() == start && trace == []
      ensures start == Sys(f, FailoverLossless.Unstarted())
    {
      this.c, this.script, this.f := c, script, f;
      clock, phase, fence, landed, toDo := 0, Idle, NotStarted, false, {};
      stopFailed, views, winner, ioSeenDown := false, map[], None, false;
      start := Sys(f, FailoverLossless.Unstarted());
      trace, at := [], [];
    }

    method Act(a: Action)
      requires Valid() && Enabled(c, View(), a) && Heard(View(), a, script(Latest()))
      modifies this
      ensures Valid() && View() == Do(c, old(View()), a) && clock == old(clock)
      ensures Calls(trace) == Calls(old(trace)) + Own(a)
      ensures Polled() == Noted(old(View()), a, old(Polled()))
      ensures trace != [] && trace[|trace| - 1] == a
    {
      hide Run, After, Calls, Known, Do, Enabled, Heard, Scripted, Statuses, Noted;
      ghost var before := View();
      Acted(c, start, trace, before, a);
      CallsMore(trace, a);
      ScriptedMore(c, start, trace, script, at, a, Latest());
      StatusesMore(c, start, trace, a, []);
      Overwrite(Do(c, View(), a));
      trace, at := trace + [a], at + [Latest()];
    }

    method Overwrite(t: Sys)
      modifies this
      ensures View() == t && clock == old(clock) && trace == old(trace) && at == old(at)
    {
      f, phase, fence, landed, toDo := t.f, t.m.phase, t.m.fence, t.m.landed, t.m.toDo;
      stopFailed, views, winner, ioSeenDown := t.m.stopFailed, t.m.views, t.m.winner, t.m.ioSeenDown;
    }

    /** Time passes: the fleet moves, the fence task runs. The manager's own fields stay, and it
        makes no call. */
    method Wait()
      requires Valid()
      modifies this
      ensures Valid() && SameButFence(old(View()).m, View().m) && clock == old(clock)
      ensures Calls(trace) == Calls(old(trace)) && Polled() == old(Polled())
    {
      hide Run, After, Calls, Scripted, Statuses;
      var burst := script(Latest()).before;
      for i := 0 to |burst|
        invariant Valid() && SameButFence(old(View()).m, View().m) && clock == old(clock)
        invariant Calls(trace) == Calls(old(trace)) && Polled() == old(Polled())
      {
        if Background(burst[i]) && Enabled(c, View(), burst[i]) {
          Act(burst[i]);
        }
      }
    }

    method Next() returns (call: Call)
      requires Valid()
      modifies this
      ensures Valid() && SameButFence(old(View()).m, View().m) && call == script(Latest())
      ensures Calls(trace) == Calls(old(trace)) && Polled() == old(Polled())
    {
      hide Run, After, Calls, Scripted, Statuses;
      call := script(clock);
      clock := clock + 1;
      Wait();
    }

    /** `await_fence`: the task ends by its deadline, answered or given up on. */
    method AwaitFence()
      requires Valid() && fence != NotStarted
      modifies this
      ensures Valid() && FenceDone(View().m) && SameButFence(old(View()).m, View().m)
      ensures Calls(trace) == Calls(old(trace)) && Polled() == old(Polled())
    {
      hide Run, After, Calls, Scripted, Statuses;
      var call := Next();
      if fence == Running {
        Act(FenceReturns(call.ok && landed));
      }
    }

    /** Steps 1 and 2: start the fence, stop the IO thread of each member listed and of no other,
        wait for the fence if one failed. */
    method FenceAndStopIo(stopList: seq<Name>) returns (ghost stops: seq<Action>)
      requires Valid() && phase == Idle && forall n :: n in stopList ==> n in c.others
      modifies this
      ensures Valid() && phase == Viewing && fence != NotStarted && views == map[] && Polled() == old(Polled())
      ensures Calls(trace) == Calls(old(trace)) + [Begin(SetOf(stopList))] + stops + [Proceed]
      ensures EachOnce(stops, Stop, SetOf(stopList))
      ensures stopFailed ==> FenceDone(View().m)
    {
      hide Run, After, Calls, Scripted, Statuses;
      StartFence(SetOf(stopList));
      stops := StopAll();
      EndStops();
    }

    /** The calls run in parallel, so in any order. */
    method StopAll() returns (ghost stops: seq<Action>)
      requires Valid() && phase == StoppingIo && fence != NotStarted
      modifies this
      ensures Valid() && phase == StoppingIo && fence != NotStarted && toDo == {} && Polled() == old(Polled())
      ensures Calls(trace) == Calls(old(trace)) + stops && EachOnce(stops, Stop, old(toDo))
    {
      hide Run, After, Calls, Scripted, Statuses;
      stops := [];
      ghost var all, before := toDo, Calls(trace);
      while toDo != {}
        invariant Valid() && phase == StoppingIo && fence != NotStarted && Polled() == old(Polled())
        invariant toDo <= all && Calls(trace) == before + stops && EachOnce(stops, Stop, all - toDo)
        decreases |toDo|
      {
        var n :| n in toDo;
        ghost var left := toDo;
        ghost var one := StopOne(n);
        OneMoreCall(before, stops, one, Stop, n, all, left);
        stops := stops + [one];
      }
      assert all - toDo == all;
    }

    /** A STOP that failed makes the run wait for the fence before it looks at the members. */
    method EndStops()
      requires Valid() && phase == StoppingIo && fence != NotStarted && toDo == {}
      modifies this
      ensures Valid() && phase == Viewing && fence != NotStarted && views == map[] && Polled() == old(Polled())
      ensures Calls(trace) == Calls(old(trace)) + [Proceed] && (stopFailed ==> FenceDone(View().m))
    {
      hide Run, After, Calls, Scripted, Statuses;
      if stopFailed {
        AwaitFence();
      }
      Act(Proceed);
    }

    method StartFence(stopList: set<Name>)
      requires Valid() && phase == Idle && stopList <= SetOf(c.others)
      modifies this
      ensures Valid() && phase == StoppingIo && fence == Running && toDo == stopList && Polled() == old(Polled())
      ensures Calls(trace) == Calls(old(trace)) + [Begin(stopList)]
    {
      hide Run, After, Calls, Scripted, Statuses;
      Act(Begin(stopList));
    }

    /** One STOP REPLICA IO_THREAD. */
    method StopOne(n: Name) returns (ghost one: Action)
      requires Valid() && phase == StoppingIo && fence != NotStarted && n in toDo
      modifies this
      ensures Valid() && phase == StoppingIo && fence != NotStarted && toDo == old(toDo) - {n}
      ensures Calls(trace) == Calls(old(trace)) + [one] && Calling(one, Stop, n) && Polled() == old(Polled())
    {
      hide Run, After, Calls, Scripted, Statuses;
      var call := Next();
      var took := call.took && f.nodes[n].up;
      one := StopIo(n, took, call.ok && took);
      Act(StopIo(n, took, call.ok && took));
    }

    /** Step 3: read every other member once, then choose; a halt waits for the fence. */
    method ChooseWinner() returns (ghost looks: seq<Action>)
      requires Valid() && phase == Viewing && views == map[] && fence != NotStarted
      modifies this
      ensures Valid() && fence != NotStarted && Chosen(c, View().m)
      ensures phase == Halted ==> FenceDone(View().m)
      ensures Calls(trace) == Calls(old(trace)) + looks + [Choose] && EachOnce(looks, Look, SetOf(c.others))
      ensures Polled() == old(Polled())
    {
      hide Run, After, Calls, Scripted, Statuses;
      looks := LookAll();
      Decide();
    }

    method LookAll() returns (ghost looks: seq<Action>)
      requires Valid() && phase == Viewing && views == map[] && fence != NotStarted
      modifies this
      ensures Valid() && phase == Viewing && fence != NotStarted && views.Keys == SetOf(c.others)
      ensures Calls(trace) == Calls(old(trace)) + looks && EachOnce(looks, Look, SetOf(c.others))
      ensures Polled() == old(Polled())
    {
      hide Run, After, Calls, Scripted, Statuses;
      looks := [];
      ghost var before := Calls(trace);
      var i := 0;
      while i < |c.others|
        invariant Valid() && phase == Viewing && fence != NotStarted && 0 <= i <= |c.others|
        invariant views.Keys == SetOf(c.others[..i]) && Polled() == old(Polled())
        invariant Calls(trace) == before + looks && EachOnce(looks, Look, views.Keys)
      {
        ghost var more := LookOne(c.others[i]);
        LooksMore(before, looks, more, c.others, i);
        looks := looks + more;
        i := i + 1;
      }
      assert c.others[..i] == c.others;
    }

    /** One fresh /status. */
    method LookOne(n: Name) returns (ghost more: seq<Action>)
      requires Valid() && phase == Viewing && fence != NotStarted && n in c.others
      modifies this
      ensures Valid() && phase == Viewing && fence != NotStarted && views.Keys == old(views.Keys) + {n}
      ensures Calls(trace) == Calls(old(trace)) + more && Polled() == old(Polled())
      ensures if n in old(views) then more == [] else |more| == 1 && Calling(more[0], Look, n)
    {
      hide Run, After, Calls, Scripted, Statuses;
      var call := Next();
      more := [];
      if n !in views {
        more := [LookAt(n, call.ok)];
        Act(LookAt(n, call.ok));
      }
    }

    method Decide()
      requires Valid() && phase == Viewing && fence != NotStarted && views.Keys == SetOf(c.others)
      modifies this
      ensures Valid() && fence != NotStarted && Chosen(c, View().m)
      ensures phase == Halted ==> FenceDone(View().m)
      ensures Calls(trace) == Calls(old(trace)) + [Choose] && Polled() == old(Polled())
    {
      hide Run, After, Calls, Scripted, Statuses, ChoiceOf, ViewSeq;
      FailoverLossless.ChoiceKeepsFleet(c, View());
      Act(Choose);
      if phase == Halted {
        AwaitFence();
      }
    }

    /** Step 4, `wait_caught_up` with no target: it goes on exactly when a status ends the wait with a
        yes; a halt waits for the fence. */
    method CatchUp(polls: nat) returns (ghost polled: seq<Polling.PollRead>)
      requires Valid() && phase == CatchingUp && fence != NotStarted
      modifies this
      ensures Valid() && fence != NotStarted && views == old(views) && winner == old(winner)
      ensures Waited(polled, polls) && Polled() == old(Polled()) + polled
      ensures phase == (if Answer(polled) == Polling.CaughtUp then Repointing else Halted)
      ensures phase == Halted ==> FenceDone(View().m)
      ensures phase == Repointing ==> toDo == Targets(c, View().m, winner.value)
      ensures Calls(trace) == Calls(old(trace)) + AskCalls(polled) +
                              (if Answer(polled) == Polling.KeepWaiting then [GiveUp] else [])
    {
      hide Run, After, Calls, Scripted, Statuses, AskCalls, Polling.Judge;
      polled := PollAll(polls);
      EndCatchUp();
    }

    /** `polls` statuses fit before the deadline, and the first is read whatever the deadline. */
    method PollAll(polls: nat) returns (ghost polled: seq<Polling.PollRead>)
      requires Valid() && phase == CatchingUp && fence != NotStarted
      modifies this
      ensures Valid() && fence != NotStarted && views == old(views) && winner == old(winner)
      ensures Waited(polled, polls) && Polled() == old(Polled()) + polled && phase == Stage(Answer(polled))
      ensures phase == Repointing ==> toDo == Targets(c, View().m, winner.value)
      ensures Calls(trace) == Calls(old(trace)) + AskCalls(polled)
    {
      hide Run, After, Calls, Scripted, Statuses, Polling.Judge, Targets, AskCalls, Answer, OnlyLastEnds;
      ghost var before, seen := Calls(trace), Polled();
      NoneAsked(before, seen);
      ghost var read := PollOnce();
      AskMore(before, seen, [], read);
      polled := [] + [read];
      var i := 1;
      while phase == CatchingUp && i < polls
        invariant Valid() && fence != NotStarted && views == old(views) && winner == old(winner)
        invariant i == |polled| && 1 <= i && (1 < i ==> i <= polls)
        invariant phase == Stage(Answer(polled)) && OnlyLastEnds(polled)
        invariant phase == Repointing ==> toDo == Targets(c, View().m, winner.value)
        invariant Calls(trace) == before + AskCalls(polled) && Polled() == seen + polled
        decreases polls - i
      {
        read := PollOnce();
        AskMore(before, seen, polled, read);
        polled := polled + [read];
        i := i + 1;
      }
    }

    /** One status, and the SQL thread's state when the status leaves that open. */
    method PollOnce() returns (ghost read: Polling.PollRead)
      requires Valid() && phase == CatchingUp && fence != NotStarted
      modifies this
      ensures Valid() && fence != NotStarted && views == old(views) && winner == old(winner)
      ensures phase == Stage(Polling.Judge(read, None)) && Polled() == old(Polled()) + [read]
      ensures phase == Repointing ==> toDo == Targets(c, View().m, winner.value)
      ensures Calls(trace) == Calls(old(trace)) + Ask(read)
    {
      hide Run, After, Calls, Scripted, Statuses, Polling.Judge, Targets;
      read := PollStatus();
      if phase == CatchingUp && ioSeenDown {
        ghost var done := AskSqlState(read);
        assert old(Polled()) + [read][..0] + [done] == old(Polled()) + [done];
        read := done;
      }
    }

    method PollStatus() returns (ghost read: Polling.PollRead)
      requires Valid() && phase == CatchingUp && fence != NotStarted
      modifies this
      ensures Valid() && fence != NotStarted && views == old(views) && winner == old(winner)
      ensures phase == Stage(Polling.Judge(read, None)) && Polled() == old(Polled()) + [read] && !read.sqlDone
      ensures phase == CatchingUp ==>
        (ioSeenDown <==> Polling.Judge(read.(sqlDone := true), None) == Polling.CaughtUp)
      ensures phase == Repointing ==> toDo == Targets(c, View().m, winner.value)
      ensures Calls(trace) == Calls(old(trace)) + Ask(read)
    {
      hide Run, After, Calls, Scripted, Statuses, Polling.Judge, Targets, ViewOf;
      var call := Next();
      ghost var v := StatusOf(f, winner.value, call.ok);
      PolledIsJudged(c, View().m, v);
      PolledAims(c, View().m, v);
      Reached(f, winner.value, call.ok);
      read := Polling.PollRead(v, false);
      Act(PollWinner(call.ok));
    }

    /** The answer is yes only if the SQL thread has read all of the relay log. */
    method AskSqlState(ghost read: Polling.PollRead) returns (ghost done: Polling.PollRead)
      requires Valid() && phase == CatchingUp && fence != NotStarted && Polled() != []
      requires read == Polled()[|Polled()| - 1] && !read.sqlDone
      requires Polling.Judge(read.(sqlDone := true), None) == Polling.CaughtUp
      requires Polling.Judge(read, None) == Polling.KeepWaiting
      modifies this
      ensures Valid() && fence != NotStarted && views == old(views) && winner == old(winner)
      ensures done == read || done == read.(sqlDone := true)
      ensures phase == Stage(Polling.Judge(done, None)) && Polled() == old(Polled())[..|old(Polled())| - 1] + [done]
      ensures phase == Repointing ==> toDo == Targets(c, View().m, winner.value)
      ensures Calls(trace) == Calls(old(trace)) + (if done.sqlDone then [ReadSqlState] else [])
    {
      hide Run, After, Calls, Scripted, Statuses, Polling.Judge, Targets;
      var call := Next();
      done := read;
      if call.ok && Enabled(c, View(), ReadSqlState) {
        SameTargets(c, View().m, Do(c, View(), ReadSqlState).m, winner.value);
        done := read.(sqlDone := true);
        Act(ReadSqlState);
      }
    }

    method EndCatchUp()
      requires Valid() && fence != NotStarted && (phase == CatchingUp || phase == Repointing || phase == Halted)
      modifies this
      ensures Valid() && fence != NotStarted && views == old(views) && winner == old(winner)
      ensures phase == if old(phase) == Repointing then Repointing else Halted
      ensures phase == Repointing ==> View() == old(View())
      ensures phase == Halted ==> FenceDone(View().m)
      ensures Calls(trace) == Calls(old(trace)) + (if old(phase) == CatchingUp then [GiveUp] else [])
      ensures Polled() == old(Polled())
    {
      hide Run, After, Calls, Scripted, Statuses;
      if phase == CatchingUp {
        Act(GiveUp);
      }
      if phase == Halted {
        AwaitFence();
      }
    }

    /** Step 5: point every other usable member at the winner, one call each. */
    method RepointAll() returns (ghost points: seq<Action>)
      requires Valid() && phase == Repointing && fence != NotStarted
      modifies this
      ensures Valid() && phase == Repointing && toDo == {} && fence != NotStarted
      ensures views == old(views) && winner == old(winner) && Polled() == old(Polled())
      ensures Calls(trace) == Calls(old(trace)) + points && EachOnce(points, Point, old(toDo))
    {
      hide Run, After, Calls, Scripted, Statuses;
      points := [];
      ghost var all, before := toDo, Calls(trace);
      while toDo != {}
        invariant Valid() && phase == Repointing && fence != NotStarted
        invariant views == old(views) && winner == old(winner) && Polled() == old(Polled())
        invariant toDo <= all && Calls(trace) == before + points && EachOnce(points, Point, all - toDo)
        decreases |toDo|
      {
        var n :| n in toDo;
        ghost var left := toDo;
        ghost var one := RepointOne(n);
        OneMoreCall(before, points, one, Point, n, all, left);
        points := points + [one];
      }
      assert all - toDo == all;
    }

    method RepointOne(n: Name) returns (ghost one: Action)
      requires Valid() && phase == Repointing && fence != NotStarted && n in toDo
      modifies this
      ensures Valid() && phase == Repointing && fence != NotStarted && toDo == old(toDo) - {n}
      ensures views == old(views) && winner == old(winner) && Polled() == old(Polled())
      ensures Calls(trace) == Calls(old(trace)) + [one] && Calling(one, Point, n)
    {
      hide Run, After, Calls, Scripted, Statuses;
      var call := Next();
      var took := call.took && f.nodes[n].up;
      one := Repoint(n, took, call.ok && took);
      Act(Repoint(n, took, call.ok && took));
    }

    /** Step 6, after the fence has finished or given up: promoted exactly when the call was taken and
        confirmed. */
    method PromoteWinner() returns (ghost took: bool, ghost ok: bool)
      requires Valid() && phase == Repointing && toDo == {} && fence != NotStarted
      modifies this
      ensures Valid() && phase == (if ok then Promoted else Halted) && FenceDone(View().m)
      ensures views == old(views) && winner == old(winner) && Polled() == old(Polled())
      ensures took == (script(Latest()).took && f.nodes[winner.value].up) && ok == (took && script(Latest()).ok)
      ensures Calls(trace) == Calls(old(trace)) + [JoinFence] + [Failover.Promote(took, ok)]
      ensures trace != [] && trace[|trace| - 1] == Failover.Promote(took, ok)
    {
      hide Run, After, Calls, Scripted, Statuses;
      AwaitFence();
      Act(JoinFence);
      took, ok := SendPromote();
    }

    method SendPromote() returns (ghost took: bool, ghost ok: bool)
      requires Valid() && phase == Promoting && FenceDone(View().m)
      modifies this
      ensures Valid() && phase == (if ok then Promoted else Halted) && FenceDone(View().m)
      ensures views == old(views) && winner == old(winner) && Polled() == old(Polled())
      ensures took == (script(Latest()).took && f.nodes[winner.value].up) && ok == (took && script(Latest()).ok)
      ensures Calls(trace) == Calls(old(trace)) + [Failover.Promote(took, ok)]
      ensures trace != [] && trace[|trace| - 1] == Failover.Promote(took, ok)
    {
      hide Run, After, Calls, Scripted, Statuses;
      var call := Next();
      var did := call.took && f.nodes[winner.value].up;
      took, ok := did, call.ok && did;
      Act(Failover.Promote(did, call.ok && did));
    }

    /** Steps 4 to 6, once a winner is chosen. */
    method Finish(polls: nat, ghost half: Story) returns (ghost s: Story)
      requires Valid() && phase == CatchingUp && fence != NotStarted
      modifies this
      ensures Valid() && FenceDone(View().m) && views == old(views) && winner == old(winner)
      ensures s.stops == half.stops && s.looks == half.looks
      ensures Waited(s.polled, polls) && Polled() == old(Polled()) + s.polled
      ensures Calls(trace) == Calls(old(trace)) + Ending(s)
      ensures phase == if Answer(s.polled) == Polling.CaughtUp && s.ok then Promoted else Halted
      ensures Answer(s.polled) == Polling.CaughtUp ==>
        EachOnce(s.points, Point, Targets(c, View().m, winner.value)) &&
        s.took == (script(Latest()).took && f.nodes[winner.value].up) && s.ok == (s.took && script(Latest()).ok) &&
        trace != [] && trace[|trace| - 1] == Failover.Promote(s.took, s.ok)
    {
      hide Run, After, Calls, Scripted, Statuses, AskCalls, Polling.Judge, EachOnce, Targets, Waited, Answer,
           Ending;
      assert winner.Some?;
      hide Known;
      ghost var points, took, ok := [], false, false;
      ghost var polled := CatchUp(polls);
      if phase == Repointing {
        ghost var m := View().m;
        points := RepointAll();
        took, ok := PromoteWinner();
        SameTargets(c, m, View().m, winner.value);
      }
      s := Story(half.stops, half.looks, polled, points, took, ok);
      EndingCalls(old(Calls(trace)), s);
    }

    /** `failover`: the calls it makes, in order, and when it promotes. Every execution is a run of the
        transition system, so under the conditions of the lossless theorem no acknowledged write is lost;
        and a set that is ready, whose calls all go through, ends with a promoted winner. */
    method RunAll(stopList: seq<Name>, polls: nat) returns (ghost s: Story)
      requires Valid() && phase == Idle && forall n :: n in stopList ==> n in c.others
      modifies this
      ensures Valid() && (phase == Promoted || phase == Halted) && FenceDone(View().m)
      ensures EachOnce(s.stops, Stop, SetOf(stopList)) && EachOnce(s.looks, Look, SetOf(c.others))
      ensures AllSeen(c, View().m) && winner == ChoiceOf(ViewSeq(c, views), c.former).winner
      ensures Calls(trace) == Calls(old(trace)) + Opening(stopList, s.stops, s.looks) +
                              (if winner.Some? then Ending(s) else [])
      ensures Polled() == old(Polled()) + s.polled
      ensures if winner.Some? then Waited(s.polled, polls) else s.polled == []
      ensures Answer(s.polled) == Polling.CaughtUp ==>
        EachOnce(s.points, Point, Targets(c, View().m, winner.value)) &&
        s.took == (script(Latest()).took && f.nodes[winner.value].up) && s.ok == (s.took && script(Latest()).ok) &&
        trace != [] && trace[|trace| - 1] == Failover.Promote(s.took, s.ok)
      ensures phase == Promoted <==> Answer(s.polled) == Polling.CaughtUp && s.ok
      ensures FailoverLossless.SetOut(c, start) && FailoverLossless.CarefulRun(c, start, trace) ==>
        phase == Promoted ==>
          winner.Some? && winner.value in f.nodes && f.acked <= f.nodes[winner.value].executed
      ensures old(trace) == [] && Smooth(script) && Ready(c, start.f) ==>
        phase == Promoted && |s.polled| == 1 && Leads(f, winner.value) &&
        forall n :: n in c.others && n != winner.value ==> Trails(f, n, winner.value)
    {
      hide Run, After, Calls, Scripted, Statuses, AskCalls, Polling.Judge, EachOnce, Targets, Waited, ChoiceOf, ViewSeq,
           Opening, Ending, Known;
      if trace == [] {
        NothingPolled();
      }
      ghost var stops := FenceAndStopIo(stopList);
      ghost var looks := ChooseWinner();
      s := Story(stops, looks, [], [], false, false);
      OpeningCalls(old(Calls(trace)), stopList, stops, looks);
      if winner.Some? {
        s := Finish(polls, s);
      }
      Lossless();
      if old(trace) == [] && Smooth(script) && Ready(c, start.f) {
        SmoothPromotes(s, polls);
      }
    }

    lemma Lossless()
      requires Valid()
      ensures FailoverLossless.SetOut(c, start) && FailoverLossless.CarefulRun(c, start, trace) ==>
        phase == Promoted ==>
          winner.Some? && winner.value in f.nodes && f.acked <= f.nodes[winner.value].executed
    {
      hide Run, After, Scripted, Known;
      if FailoverLossless.SetOut(c, start) && FailoverLossless.CarefulRun(c, start, trace) {
        FailoverLossless.LosslessFailover(c, start, trace);
      }
    }

    lemma NothingPolled()
      requires Valid() && trace == []
      ensures Polled() == []
    {
    }

    lemma SmoothPromotes(s: Story, polls: nat)
      requires Valid() && Smooth(script) && Ready(c, start.f) && Polled() == s.polled
      requires AllSeen(c, View().m) && winner == ChoiceOf(ViewSeq(c, views), c.former).winner
      requires winner.Some? ==> Waited(s.polled, polls)
      requires Answer(s.polled) == Polling.CaughtUp ==>
        trace != [] && trace[|trace| - 1] == Failover.Promote(s.took, s.ok)
      requires phase == Promoted <==> Answer(s.polled) == Polling.CaughtUp && s.ok
      ensures phase == Promoted && |s.polled| == 1 && winner.Some? && Leads(f, winner.value)
      ensures forall n :: n in c.others && n != winner.value ==> Trails(f, n, winner.value)
    {
      hide Run, After, Scripted, Statuses, ChoiceOf, ViewSeq, Going, Ready, Known, Polling.Judge, Joining, Leads,
           Trails;
      StartsGoing(c, start.f);
      SmoothGoes(c, start.f, start, trace, script, at, []);
      GoingWinner(c, start.f, View());
      assert Polling.Judge(s.polled[0], None) == Polling.CaughtUp;
      GoneWell(c, start.f, View());
    }
  }

  /** The members stay the same nodes, views are filed under their names, and what is still to be
      called is a member. */
  ghost predicate Known(c: Config, s: Sys) {
    c.former in s.f.nodes && (forall n :: n in c.others ==> n in s.f.nodes) &&
    (forall n :: n in s.m.views ==> s.m.views[n].name == n) &&
    (forall n :: n in s.m.toDo ==> n in c.others) &&
    (s.m.winner.Some? ==> s.m.winner.value in c.others) && (BeforeChoice(s.m) ==> s.m.winner.None?) &&
    (PastChoice(s.m) && s.m.phase != Halted ==> s.m.winner.Some?)
  }

  /** Where a choice leaves the run. */
  ghost predicate Chosen(c: Config, m: Mgr) {
    AllSeen(c, m) && m.winner == ChoiceOf(ViewSeq(c, m.views), c.former).winner &&
    m.phase == if m.winner.Some? then CatchingUp else Halted
  }

  ghost predicate SameButFence(a: Mgr, b: Mgr) {
    b.(fence := a.fence, landed := a.landed) == a && (a.fence != NotStarted ==> b.fence != NotStarted) &&
    (FenceDone(a) ==> FenceDone(b))
  }

  lemma KnownStep(c: Config, s: Sys, a: Action)
    requires Known(c, s) && Enabled(c, s, a)
    ensures Known(c, Do(c, s, a))
  {
    hide Known;
    match a
    case Step(e) => KnownOutside(c, s, a);
    case FenceLands(_) => KnownOutside(c, s, a);
    case FenceReturns(_) => KnownOutside(c, s, a);
    case Choose => KnownChoice(c, s);
    case PollWinner(_) => KnownCatchUp(c, s, a);
    case ReadSqlState => KnownCatchUp(c, s, a);
    case GiveUp => KnownCatchUp(c, s, a);
    case Begin(_) => KnownBefore(c, s, a);
    case StopIo(_, _, _) => KnownBefore(c, s, a);
    case Proceed => KnownBefore(c, s, a);
    case LookAt(_, _) => KnownBefore(c, s, a);
    case Repoint(_, _, _) => KnownEnd(c, s, a);
    case JoinFence => KnownEnd(c, s, a);
    case Promote(_, _) => KnownEnd(c, s, a);
  }

  lemma KnownOutside(c: Config, s: Sys, a: Action)
    requires Known(c, s) && Enabled(c, s, a) && Background(a)
    ensures Known(c, Do(c, s, a))
  {
    if a.Step? {
      SameNodes(s.f, a.e);
    }
  }

  lemma KnownBefore(c: Config, s: Sys, a: Action)
    requires Known(c, s) && Enabled(c, s, a) && (a.Begin? || a.StopIo? || a.Proceed? || a.LookAt?)
    ensures Known(c, Do(c, s, a))
  {
  }

  lemma KnownChoice(c: Config, s: Sys)
    requires Known(c, s) && Enabled(c, s, Choose)
    ensures Known(c, Do(c, s, Choose))
  {
    hide ChoiceOf;
    WinnerIsMember(c, s);
  }

  lemma KnownCatchUp(c: Config, s: Sys, a: Action)
    requires Known(c, s) && Enabled(c, s, a) && (a.PollWinner? || a == ReadSqlState || a == GiveUp)
    ensures Known(c, Do(c, s, a))
  {
    WaitKeeps(c, s, a);
    hide Do, StatusOf;
  }

  lemma KnownEnd(c: Config, s: Sys, a: Action)
    requires Known(c, s) && Enabled(c, s, a) && (a.Repoint? || a == JoinFence || a.Promote?)
    ensures Known(c, Do(c, s, a))
  {
  }

  lemma WinnerIsMember(c: Config, s: Sys)
    requires Known(c, s) && Enabled(c, s, Choose)
    ensures var choice := ChoiceOf(ViewSeq(c, s.m.views), c.former);
      choice.winner.Some? ==> choice.winner.value in c.others
  {
    hide ChoiceOf;
    if ChoiceOf(ViewSeq(c, s.m.views), c.former).winner.Some? {
      FailoverLossless.WinnerOfViews(c, s.m);
    }
  }

  lemma Acted(c: Config, s: Sys, acts: seq<Action>, t: Sys, a: Action)
    requires Run(c, s, acts) && After(c, s, acts) == t && Known(c, t) && Enabled(c, t, a)
    ensures Run(c, s, acts + [a]) && After(c, s, acts + [a]) == Do(c, t, a) && Known(c, Do(c, t, a))
  {
    OneMore(c, s, acts, a);
    KnownStep(c, t, a);
  }

  lemma OneMore(c: Config, s: Sys, acts: seq<Action>, a: Action)
    requires Run(c, s, acts) && Enabled(c, After(c, s, acts), a)
    ensures Run(c, s, acts + [a]) && After(c, s, acts + [a]) == Do(c, After(c, s, acts), a)
  {
    var t := After(c, s, acts);
    assert [a][1..] == [] && Run(c, Do(c, t, a), []);
    assert After(c, t, [a]) == After(c, Do(c, t, a), []);
    RunConcat(c, s, acts, [a]);
  }
}
