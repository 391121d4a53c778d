/** What the calls of a failover meet, the statuses it reads while it waits for its winner, and where it
    ends when every call goes through and nothing else happens. */
module FailoverCalls {
  import opened Intervals
  import opened GtidSets
  import opened Selection
  import opened Fleet
  import opened Failover
  import FailoverLossless
  import CatchUp

  // ----- the statuses of a run

  /** A status of the winner is added to those read before, and the answer that the SQL thread is done is
      noted with the last of them. */
  ghost function Noted(s: Sys, a: Action, seen: seq<CatchUp.PollRead>): seq<CatchUp.PollRead> {
    if a.PollWinner? && HasWinner(s) then
      seen + [CatchUp.PollRead(StatusOf(s.f, s.m.winner.value, a.answered), false)]
    else if a == ReadSqlState && seen != [] then
      seen[..|seen| - 1] + [seen[|seen| - 1].(sqlDone := true)]
    else seen
  }

  ghost function Statuses(c: Config, s: Sys, acts: seq<Action>, before: seq<CatchUp.PollRead>): seq<CatchUp.PollRead>
    requires Run(c, s, acts)
    decreases |acts|
  {
    if acts == [] then before else Statuses(c, Do(c, s, acts[0]), acts[1..], Noted(s, acts[0], before))
  }

  lemma {:induction false} StatusesMore(c: Config, s: Sys, acts: seq<Action>, a: Action, before: seq<CatchUp.PollRead>)
    requires Run(c, s, acts) && Enabled(c, After(c, s, acts), a)
    ensures Run(c, s, acts + [a])
    ensures Statuses(c, s, acts + [a], before) == Noted(After(c, s, acts), a, Statuses(c, s, acts, before))
    decreases |acts|
  {
    hide Noted, Do, Enabled;
    if acts == [] {
      assert acts + [a] == [a] && [a][1..] == [];
      assert Run(c, Do(c, s, a), [a][1..]);
    } else {
      StatusesMore(c, Do(c, s, acts[0]), acts[1..], a, Noted(s, acts[0], before));
      assert (acts + [a])[1..] == acts[1..] + [a] && (acts + [a])[0] == acts[0];
    }
  }

  /** The manager does with a status what `wait_caught_up` does, and asks for the SQL thread's state
      exactly when the answer could end the wait. */
  lemma PolledIsJudged(c: Config, m: Mgr, v: NodeView)
    requires m.winner.Some? && m.phase == CatchingUp
    ensures var p := Polled(c, m, v);
      p.phase == match CatchUp.Judge(CatchUp.PollRead(v, false), None)
                 case CaughtUp => Repointing
                 case Broken => Phase.Halted
                 case KeepWaiting => CatchingUp
    ensures var p := Polled(c, m, v);
      p.phase == CatchingUp ==> (p.ioSeenDown <==> CatchUp.Judge(CatchUp.PollRead(v, true), None) == CatchUp.CaughtUp)
  {
  }

  // ----- what the calls meet

  /** What one agent call meets: what happens before it, whether it takes effect, whether the
      manager is told so. */
  datatype Call = Call(before: seq<Action>, took: bool, ok: bool)

  /** A node that is up takes the call the network lets through, and the manager is told what the
      network reports of a call that was taken. */
  predicate Meets(f: Fleet, n: Name, took: bool, ok: bool, call: Call) {
    n in f.nodes ==> took == (call.took && f.nodes[n].up) && ok == (took && call.ok)
  }

  ghost predicate Heard(s: Sys, a: Action, call: Call) {
    match a
    case Step(_) => a in call.before
    case FenceLands(_) => a in call.before
    case StopIo(n, took, ok) => Meets(s.f, n, took, ok, call)
    case LookAt(_, answered) => answered == call.ok
    case PollWinner(answered) => answered == call.ok
    case ReadSqlState => call.ok
    case Repoint(n, took, ok) => Meets(s.f, n, took, ok, call)
    case Promote(took, ok) => s.m.winner.Some? ==> Meets(s.f, s.m.winner.value, took, ok, call)
    case _ => true
  }

  /** Each step of the run is what call number `at` of the script met. */
  ghost predicate Scripted(c: Config, s: Sys, acts: seq<Action>, script: nat -> Call, at: seq<nat>)
    requires Run(c, s, acts)
    decreases |acts|
  {
    |at| == |acts| &&
    (acts == [] || (Heard(s, acts[0], script(at[0])) && Scripted(c, Do(c, s, acts[0]), acts[1..], script, at[1..])))
  }

  lemma {:induction false} ScriptedMore(c: Config, s: Sys, acts: seq<Action>, script: nat -> Call, at: seq<nat>,
                                        a: Action, k: nat)
    requires Run(c, s, acts) && Scripted(c, s, acts, script, at) && Enabled(c, After(c, s, acts), a)
    requires Heard(After(c, s, acts), a, script(k))
    ensures Run(c, s, acts + [a]) && Scripted(c, s, acts + [a], script, at + [k])
    decreases |acts|
  {
    hide Heard, Do, Enabled;
    if acts == [] {
      assert acts + [a] == [a] && [a][1..] == [] && at + [k] == [k] && [k][1..] == [];
      assert Run(c, Do(c, s, a), [a][1..]);
    } else {
      ScriptedMore(c, Do(c, s, acts[0]), acts[1..], script, at[1..], a, k);
      assert (acts + [a])[1..] == acts[1..] + [a] && (acts + [a])[0] == acts[0];
      assert (at + [k])[1..] == at[1..] + [k] && (at + [k])[0] == at[0];
    }
  }

  /** Nothing happens but the manager's calls and the end of its fence task, a node that is up takes its
      call and the manager is told. */
  ghost predicate Smooth(script: nat -> Call) {
    forall k :: script(k) == Call([], true, true)
  }

  ghost predicate SmoothAct(s: Sys, a: Action) { Heard(s, a, Call([], true, true)) }

  /** Once the failover has begun its fence may land at any time, at the first STOP or after the promote, and
      leaves the former primary up, read-only and flagged; only then can the task return an answer. */
  lemma FenceLandsWhenever(c: Config, s: Sys, killed: bool)
    requires c.former in s.f.nodes
    ensures Enabled(c, s, FenceLands(killed)) <==> s.m.fence != NotStarted
    ensures s.m.fence != NotStarted ==>
      var t := Do(c, s, FenceLands(killed));
      t.f.nodes[c.former].fenced && t.f.nodes[c.former].superReadOnly && t.f.nodes[c.former].up &&
      (killed ==> t.f.nodes[c.former].waiting == {}) && t.m == s.m.(landed := true) &&
      (s.m.fence == Running ==>
         Enabled(c, t, FenceReturns(true)) && Do(c, t, FenceReturns(true)).m == t.m.(fence := Answered))
    ensures !s.m.landed || s.m.fence != Running ==> !Enabled(c, s, FenceReturns(true))
    ensures s.m.fence == Running ==>
      Enabled(c, s, FenceReturns(false)) && Do(c, s, FenceReturns(false)).m == s.m.(fence := GaveUp)
  {
  }

  /** A node that is down takes no call, and a call that was not taken is not confirmed; STOPs and repoints go
      to nodes still to be called, and the repoints to every member, the winner apart, that answered with its
      mysqld responsive when it was looked at. */
  lemma CallsReach(c: Config, s: Sys, n: Name, took: bool, ok: bool)
    ensures Enabled(c, s, StopIo(n, took, ok)) ==>
      n in s.m.toDo && (took ==> s.f.nodes[n].up) && (ok ==> took)
    ensures Enabled(c, s, Repoint(n, took, ok)) ==>
      n in s.m.toDo && (took ==> s.f.nodes[n].up) && (ok ==> took)
    ensures Enabled(c, s, Promote(took, ok)) ==> (took ==> s.f.nodes[s.m.winner.value].up) && (ok ==> took)
    ensures s.m.winner.Some? ==>
      (n in CaughtUp(c, s.m).toDo <==>
         n in c.others && n != s.m.winner.value && n in s.m.views &&
         s.m.views[n].reachable && s.m.views[n].responsive)
  {
  }

  // ----- a set that can fail over

  /** A member that answers as a candidate and has applied its relay log. */
  predicate ReadyNode(node: Node) {
    node.up && node.source.Some? && !node.sqlError && node.semisyncReplica && node.retrieved <= node.executed
  }

  /** The other members are ready, and what they have executed forms a chain. */
  ghost predicate Ready(c: Config, f: Fleet) {
    c.others != [] && c.former !in c.others &&
    (forall n :: n in c.others ==> n in f.nodes && ReadyNode(f.nodes[n])) &&
    forall a, b :: a in c.others && b in c.others ==>
      f.nodes[a].executed <= f.nodes[b].executed || f.nodes[b].executed <= f.nodes[a].executed
  }

  predicate Alike(f: Fleet, g: Fleet, n: Name) {
    n in f.nodes && n in g.nodes && f.nodes[n] == g.nodes[n].(ioStopped := f.nodes[n].ioStopped)
  }

  /** The view of a ready member. */
  predicate Shows(v: NodeView, n: Name, executed: Trxs) {
    v.name == n && CandidateProblem(v).None? && v.Have() == executed && v.RelayApplied() && v.Usable()
  }

  lemma ReadyShows(f: Fleet, g: Fleet, n: Name)
    requires Alike(f, g, n) && ReadyNode(g.nodes[n])
    ensures Shows(ViewOf(f, n), n, g.nodes[n].executed)
  {
  }

  /** Every member but the winner follows it or is still to be pointed at it. */
  ghost predicate Joining(c: Config, g: Fleet, s: Sys, toDo: set<Name>) {
    s.m.winner.Some? && forall n :: n in c.others && n != s.m.winner.value ==>
      if n in toDo then Alike(s.f, g, n) else Trails(s.f, n, s.m.winner.value)
  }

  ghost predicate Going(c: Config, g: Fleet, s: Sys) {
    (forall n :: n in s.m.views ==> n in c.others && n in g.nodes && Shows(s.m.views[n], n, g.nodes[n].executed)) &&
    (BeforeChoice(s.m) || s.m.phase == CatchingUp ==> forall n :: n in c.others ==> Alike(s.f, g, n)) &&
    (s.m.winner.Some? ==> s.m.winner.value in c.others) &&
    (s.m.phase == CatchingUp || s.m.phase == Repointing || s.m.phase == Promoting ==> HasWinner(s)) &&
    (s.m.phase == CatchingUp ==> AllSeen(c, s.m)) &&
    (s.m.phase == Repointing || s.m.phase == Promoting ==> Alike(s.f, g, s.m.winner.value)) &&
    (s.m.phase == Repointing ==> s.m.winner.value !in s.m.toDo && Joining(c, g, s, s.m.toDo)) &&
    (s.m.phase == Promoting || s.m.phase == Promoted ==> Joining(c, g, s, {})) &&
    (s.m.phase == Promoted ==> Leads(s.f, s.m.winner.value))
  }

  lemma GoingStep(c: Config, g: Fleet, s: Sys, a: Action)
    requires Ready(c, g) && Going(c, g, s) && Enabled(c, s, a) && SmoothAct(s, a)
    ensures Going(c, g, Do(c, s, a))
  {
    hide Going;
    match a
    case LookAt(n, answered) => GoingLook(c, g, s, n);
    case Choose => GoingChoice(c, g, s);
    case PollWinner(_) => GoingWait(c, g, s, a);
    case ReadSqlState => GoingWait(c, g, s, a);
    case GiveUp => GoingWait(c, g, s, a);
    case Repoint(n, took, ok) => GoingPoint(c, g, s, n, took, ok);
    case JoinFence => GoingJoin(c, g, s);
    case Promote(took, ok) => GoingPromote(c, g, s, took, ok);
    case FenceReturns(_) => GoingBegin(c, g, s, a);
    case Begin(_) => GoingBegin(c, g, s, a);
    case StopIo(_, _, _) => GoingBegin(c, g, s, a);
    case Proceed => GoingBegin(c, g, s, a);
  }

  lemma GoingBegin(c: Config, g: Fleet, s: Sys, a: Action)
    requires Ready(c, g) && Going(c, g, s) && Enabled(c, s, a) && SmoothAct(s, a)
    requires a.FenceReturns? || a.Begin? || a.StopIo? || a == Proceed
    ensures Going(c, g, Do(c, s, a))
  {
    hide Shows, ReadyNode;
  }

  lemma GoingLook(c: Config, g: Fleet, s: Sys, n: Name)
    requires Ready(c, g) && Going(c, g, s) && Enabled(c, s, LookAt(n, true))
    ensures Going(c, g, Do(c, s, LookAt(n, true)))
  {
    ReadyShows(s.f, g, n);
    hide ViewOf, Shows, ReadyNode;
  }

  lemma GoingChoice(c: Config, g: Fleet, s: Sys)
    requires Ready(c, g) && Going(c, g, s) && Enabled(c, s, Choose)
    ensures Going(c, g, Do(c, s, Choose))
  {
    hide Do, ChoiceOf, ViewSeq, Ready, Going;
    GoingWinner(c, g, s);
    FailoverLossless.ChoiceKeepsFleet(c, s);
    GoingChosen(c, g, s, Do(c, s, Choose));
  }

  lemma GoingChosen(c: Config, g: Fleet, s: Sys, t: Sys)
    requires Ready(c, g) && Going(c, g, s) && BeforeChoice(s.m)
    requires t.f == s.f && t.m.views == s.m.views && t.m.phase == CatchingUp
    requires t.m.winner.Some? && t.m.winner.value in c.others && AllSeen(c, s.m)
    ensures Going(c, g, t)
  {
    assert AllSeen(c, t.m);
    hide Shows, ReadyNode, Ready;
    assert Alike(s.f, g, t.m.winner.value);
    hide Alike;
  }

  lemma GoingWait(c: Config, g: Fleet, s: Sys, a: Action)
    requires Ready(c, g) && Going(c, g, s) && Enabled(c, s, a) && (a.PollWinner? || a == ReadSqlState || a == GiveUp)
    ensures Going(c, g, Do(c, s, a))
  {
    WaitKeeps(c, s, a);
    var t := Do(c, s, a);
    assert Alike(s.f, g, s.m.winner.value);
    if t.m.phase == Repointing {
      AllTargets(c, g, s, t);
    }
    hide Do, StatusOf, Shows, ReadyNode, Alike, Ready, Targets, Joining;
  }

  lemma AllTargets(c: Config, g: Fleet, s: Sys, t: Sys)
    requires Going(c, g, s) && s.m.phase == CatchingUp && s.m.winner.Some?
    requires t.f == s.f && t.m.winner == s.m.winner && t.m.toDo == Targets(c, s.m, s.m.winner.value)
    ensures Joining(c, g, t, t.m.toDo) && t.m.winner.value !in t.m.toDo
  {
    hide Alike, ReadyNode;
    forall n | n in c.others ensures n in s.m.views && s.m.views[n].Usable() {
      var i :| 0 <= i < |c.others| && c.others[i] == n;
      assert Shows(s.m.views[n], n, g.nodes[n].executed);
    }
  }

  lemma WaitKeeps(c: Config, s: Sys, a: Action)
    requires Enabled(c, s, a) && (a.PollWinner? || a == ReadSqlState || a == GiveUp)
    ensures var t := Do(c, s, a);
      t.f == s.f && t.m.views == s.m.views && t.m.winner == s.m.winner &&
      (t.m.phase == CatchingUp || t.m.phase == Phase.Halted ||
       (t.m.phase == Repointing && HasWinner(s) && t.m.toDo == Targets(c, s.m, s.m.winner.value)))
  {
    hide StatusOf, Targets;
  }

  lemma GoingPoint(c: Config, g: Fleet, s: Sys, n: Name, took: bool, ok: bool)
    requires Ready(c, g) && Going(c, g, s) && Enabled(c, s, Repoint(n, took, ok)) && SmoothAct(s, Repoint(n, took, ok))
    ensures Going(c, g, Do(c, s, Repoint(n, took, ok)))
  {
    assert n in c.others ==> took by {
      hide Shows;
    }
    hide Shows, ReadyNode, Ready, ViewOf;
  }

  lemma GoingJoin(c: Config, g: Fleet, s: Sys)
    requires Going(c, g, s) && Enabled(c, s, JoinFence)
    ensures Going(c, g, Do(c, s, JoinFence))
  {
    hide Shows, ReadyNode, Alike, Trails;
  }

  lemma GoingPromote(c: Config, g: Fleet, s: Sys, took: bool, ok: bool)
    requires Ready(c, g) && Going(c, g, s) && Enabled(c, s, Promote(took, ok)) && SmoothAct(s, Promote(took, ok))
    ensures Going(c, g, Do(c, s, Promote(took, ok)))
  {
    assert took;
    hide Shows, ReadyNode, Ready, ViewOf;
  }

  lemma GoingWinner(c: Config, g: Fleet, s: Sys)
    requires Ready(c, g) && Going(c, g, s) && AllSeen(c, s.m)
    ensures var w := ChoiceOf(ViewSeq(c, s.m.views), c.former).winner; w.Some? && w.value in c.others
  {
    hide ChoiceOf, CandidateProblem;
    var nodes := ViewSeq(c, s.m.views);
    forall nv | nv in nodes ensures exists n :: n in c.others && Shows(nv, n, g.nodes[n].executed) {
      var i :| 0 <= i < |nodes| && nodes[i] == nv;
      assert c.others[i] in c.others && nv == s.m.views[c.others[i]];
    }
    assert nodes[0] in nodes && c.others[0] in c.others;
    assert IsCandidate(nodes, c.former, nodes[0]);
    ChainIsChosen(nodes, c.former);
    FailoverLossless.WinnerOfViews(c, s.m);
  }

  ghost predicate AllDone(seen: seq<CatchUp.PollRead>) {
    forall i :: 0 <= i < |seen| ==> CatchUp.Judge(seen[i], None) == CatchUp.CaughtUp
  }

  lemma ShowsDone(v: NodeView, n: Name, executed: Trxs, sqlDone: bool)
    requires Shows(v, n, executed)
    ensures CatchUp.Judge(CatchUp.PollRead(v, sqlDone), None) == CatchUp.CaughtUp
  {
  }

  lemma NotedDone(c: Config, g: Fleet, s: Sys, a: Action, seen: seq<CatchUp.PollRead>)
    requires Ready(c, g) && Going(c, g, s) && Enabled(c, s, a) && SmoothAct(s, a) && AllDone(seen)
    ensures AllDone(Noted(s, a, seen)) && (a.Promote? ==> a.ok)
  {
    match a
    case PollWinner(_) =>
      var w := s.m.winner.value;
      ReadyShows(s.f, g, w);
      ShowsDone(ViewOf(s.f, w), w, g.nodes[w].executed, false);
    case ReadSqlState =>
      if seen != [] {
        StillDone(seen[|seen| - 1]);
      }
    case _ =>
  }

  lemma StillDone(r: CatchUp.PollRead)
    requires CatchUp.Judge(r, None) == CatchUp.CaughtUp
    ensures CatchUp.Judge(r.(sqlDone := true), None) == CatchUp.CaughtUp
  {
  }

  /** On a ready set, whatever the manager calls next, every status ends the wait with a yes and a promote
      is confirmed. */
  lemma {:induction false} SmoothGoes(c: Config, g: Fleet, s: Sys, acts: seq<Action>, script: nat -> Call, at: seq<nat>,
                                      before: seq<CatchUp.PollRead>)
    requires Ready(c, g) && Going(c, g, s) && Run(c, s, acts) && AllDone(before)
    requires Smooth(script) && Scripted(c, s, acts, script, at)
    ensures Going(c, g, After(c, s, acts)) && AllDone(Statuses(c, s, acts, before))
    ensures forall i :: 0 <= i < |acts| && acts[i].Promote? ==> acts[i].ok
    decreases |acts|
  {
    hide Going, Heard, Do, Enabled, Noted, AllDone, Ready;
    if acts != [] {
      assert SmoothAct(s, acts[0]);
      GoingStep(c, g, s, acts[0]);
      NotedDone(c, g, s, acts[0], before);
      SmoothGoes(c, g, Do(c, s, acts[0]), acts[1..], script, at[1..], Noted(s, acts[0], before));
      assert forall i :: 0 < i < |acts| ==> acts[i] == acts[1..][i - 1];
    }
  }

  lemma StartsGoing(c: Config, g: Fleet)
    requires Ready(c, g)
    ensures Going(c, g, Sys(g, FailoverLossless.Unstarted())) && AllDone([])
  {
  }

  lemma GoneWell(c: Config, g: Fleet, s: Sys)
    requires Going(c, g, s) && s.m.phase == Promoted
    ensures s.m.winner.Some? && Leads(s.f, s.m.winner.value)
    ensures forall n :: n in c.others && n != s.m.winner.value ==> Trails(s.f, n, s.m.winner.value)
  {
    hide Shows, Trails, Leads;
  }
}
