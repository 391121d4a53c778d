/** The simulated fleet of dbguard/manager/fake.py as the objects it is: nodes whose fields the
    handlers and `step` overwrite. Each method is tied to the value model of module Fleet: a handler
    to the node function it performs, a step to a run of environment actions. */
module FakeFleet {
  import opened Intervals
  import opened GtidSets
  import opened Selection
  import opened Fleet
  import opened Errant

  class FakeNode {
    const name: Name
    const uuid: string
    var executed: Trxs
    var retrieved: Trxs
    var torn: Trxs
    var waiting: Trxs
    var source: Option<Name>
    var ioStopped: bool
    var superReadOnly: bool
    var fenced: bool
    var semisyncSource: bool
    var semisyncReplica: bool
    var up: bool
    var sqlError: bool

    function View(): Node
      reads this
    {
      Node(executed, retrieved, torn, waiting, source, ioStopped, superReadOnly, fenced,
           semisyncSource, semisyncReplica, up, sqlError)
    }

    constructor (name: Name, uuid: string, primary: Option<Name>)
      ensures this.name == name && this.uuid == uuid
      ensures View() == Node({}, {}, {}, {}, primary, false, primary.Some?, false,
                             primary.None?, primary.Some?, true, false)
    {
      this.name, this.uuid := name, uuid;
      executed, retrieved, torn, waiting := {}, {}, {}, {};
      source, ioStopped, superReadOnly, fenced := primary, false, primary.Some?, false;
      semisyncSource, semisyncReplica, up, sqlError := primary.None?, primary.Some?, true, false;
    }

    method Fence()
      modifies this
      ensures View() == FencedNode(old(View()), true)
    {
      fenced := true;
      if !up {
        up := true;
      }
      superReadOnly := true;
      waiting := {};
    }

    method Promote() returns (ok: bool)
      modifies this
      ensures ok == old(up)
      ensures View() == if ok then PromotedNode(old(View())) else old(View())
    {
      if !up {
        return false;
      }
      source := None;
      retrieved, torn := {}, {};
      ioStopped := false;
      semisyncReplica := false;
      semisyncSource := true;
      superReadOnly := false;
      fenced := false;
      return true;
    }

    method Repoint(to: Name) returns (ok: bool)
      modifies this
      ensures ok == old(up)
      ensures View() == if ok then RepointedNode(old(View()), to) else old(View())
    {
      if !up {
        return false;
      }
      superReadOnly := true;
      semisyncSource := false;
      semisyncReplica := true;
      source := Some(to);
      retrieved, torn := {}, {};
      ioStopped := false;
      sqlError := false;
      return true;
    }

    method Rebuild(donor: Node)
      modifies this
      ensures View() == RebuiltNode(old(View()), donor)
    {
      source := None;
      executed := donor.executed;
      retrieved := {};
      superReadOnly := true;
      sqlError := false;
      waiting := {};
    }

    method Kill()
      modifies this
      ensures View() == old(View()).(up := false)
    {
      up := false;
    }

    /** One transaction binlogged, its session waiting. */
    method Commit(g: Gtid)
      modifies this
      ensures View() == old(View()).(executed := old(executed) + {g}, waiting := old(waiting) + {g})
    {
      executed := executed + {g};
      waiting := waiting + {g};
    }

    method Receive(incoming: Trxs)
      modifies this
      ensures View() == old(View()).(retrieved := old(retrieved) + incoming)
    {
      retrieved := retrieved + incoming;
    }

    /** Up to `budget` relay-log transactions, never a torn one. */
    method Apply(budget: nat) returns (got: Trxs)
      modifies this
      ensures got <= old(retrieved - executed - torn) && |got| <= budget
      ensures |got| < budget ==> got == old(retrieved - executed - torn)
      ensures View() == old(View()).(executed := old(executed) + got)
    {
      var todo := retrieved - executed - torn;
      ghost var all := todo;
      got := {};
      while todo != {} && |got| < budget
        invariant got + todo == all && got !! todo && |got| <= budget
        modifies {}
        decreases |todo|
      {
        var g :| g in todo;
        TakeOne(all, got, todo, g);
        todo, got := todo - {g}, got + {g};
      }
      assert todo == {} ==> got == all;
      executed := executed + got;
    }

    method StopIo() returns (ok: bool)
      modifies this
      ensures ok == old(up)
      ensures View() == if ok then old(View()).(ioStopped := true) else old(View())
    {
      if !up {
        return false;
      }
      ioStopped := true;
      return true;
    }

    method Start()
      modifies this
      ensures View() == Restarted(old(View()))
    {
      up := true;
      superReadOnly := true;
      semisyncSource := false;
      retrieved := {};
      waiting := {};
    }
  }

  /** What one step did is a run of the environment from `f` to `g`. */
  ghost predicate Reaches(f: Fleet, es: seq<Env>, g: Fleet) {
    EnvRun(f, es) && EnvAfter(f, es) == g
  }

  lemma TakeOne(all: Trxs, got: Trxs, todo: Trxs, g: Gtid)
    requires got + todo == all && got !! todo && g in todo
    ensures got + {g} + (todo - {g}) == all && got + {g} !! todo - {g}
    ensures |got + {g}| == |got| + 1 && |todo - {g}| < |todo|
  {
  }

  lemma OneStep(f: Fleet, e: Env)
    requires EnvEnabled(f, e)
    ensures Reaches(f, [e], EnvDo(f, e))
  {
    assert [e][1..] == [];
    assert EnvRun(EnvDo(f, e), []) && EnvAfter(EnvDo(f, e), []) == EnvDo(f, e);
  }

  lemma ReachesOn(f: Fleet, x: seq<Env>, g: Fleet, y: seq<Env>, h: Fleet)
    requires Reaches(f, x, g) && Reaches(g, y, h)
    ensures Reaches(f, x + y, h)
  {
    EnvConcat(f, x, y);
  }

  /** Every transaction a server ever numbered is below its counter. */
  ghost predicate Numbered(f: Fleet, key: Key, next: nat) {
    (forall g :: g in f.acked && g.key == key ==> g.n < next) &&
    forall n, g :: n in f.nodes && g in f.nodes[n].Have() && g.key == key ==> g.n < next
  }

  lemma NumberedEnv(f: Fleet, e: Env, key: Key, next: nat)
    requires EnvEnabled(f, e) && Numbered(f, key, next) && !e.Commit?
    requires forall n :: n in f.nodes ==> f.nodes[n].waiting <= f.nodes[n].executed
    ensures Numbered(EnvDo(f, e), key, next)
    ensures forall n :: n in EnvDo(f, e).nodes ==> EnvDo(f, e).nodes[n].waiting <= EnvDo(f, e).nodes[n].executed
  {
    match e
    case Receive(r, got) =>
      var src := f.nodes[r].source.value;
      assert forall g :: g in got ==> g in f.nodes[src].Have();
      assert forall g :: g in Released(f, r, got) ==> g in f.nodes[src].Have();
    case Tear(r, g) =>
      var src := f.nodes[r].source.value;
      assert g in f.nodes[src].Have();
    case _ =>
  }

  lemma NumberedCommit(f: Fleet, p: Name, g: Gtid, key: Key, next: nat)
    requires EnvEnabled(f, Commit(p, g)) && Numbered(f, key, next)
    ensures Numbered(EnvDo(f, Commit(p, g)), key, if g.key == key && g.n >= next then g.n + 1 else next)
  {
  }

  lemma FreshNumber(f: Fleet, key: Key, next: nat)
    requires Numbered(f, key, next)
    ensures Fresh(f, Gtid(key, next))
  {
    var g := Gtid(key, next);
    forall n | n in f.nodes ensures g !in f.nodes[n].executed && g !in f.nodes[n].retrieved {
      assert g in f.nodes[n].executed || g in f.nodes[n].retrieved ==> g in f.nodes[n].Have();
    }
  }

  /** Server keys with their counters: everything numbered is below, and a session waits only for
      what its node has binlogged. */
  ghost predicate Sane(f: Fleet, counters: map<Key, nat>) {
    (forall key :: key in counters ==> Numbered(f, key, counters[key])) &&
    forall n :: n in f.nodes ==> f.nodes[n].waiting <= f.nodes[n].executed
  }

  /** A node that changed without gaining anything keeps the fleet sane. */
  lemma SanePut(f: Fleet, counters: map<Key, nat>, n: Name, node: Node)
    requires Sane(f, counters) && n in f.nodes && node.waiting <= node.executed
    requires node.Have() <= f.nodes[n].Have()
    ensures Sane(Put(f, n, node), counters)
  {
  }

  lemma PutSame<K, V>(m: map<K, V>, k: K)
    requires k in m
    ensures m[k := m[k]] == m
  {
  }

  lemma SaneSame(f: Fleet, g: Fleet, counters: map<Key, nat>)
    requires Sane(f, counters) && f.nodes == g.nodes && f.acked == g.acked
    ensures Sane(g, counters)
  {
    forall key | key in counters ensures Numbered(g, key, counters[key]) {
      assert Numbered(f, key, counters[key]);
    }
  }

  lemma SaneRebuilt(f: Fleet, counters: map<Key, nat>, n: Name, donor: Name)
    requires Sane(f, counters) && n in f.nodes && donor in f.nodes
    ensures Sane(Put(f, n, RebuiltNode(f.nodes[n], f.nodes[donor])), counters)
  {
    var g := Put(f, n, RebuiltNode(f.nodes[n], f.nodes[donor]));
    forall key | key in counters ensures Numbered(g, key, counters[key]) {
      assert Numbered(f, key, counters[key]);
      assert forall x :: x in g.nodes[n].Have() ==> x in f.nodes[donor].Have();
    }
  }

  lemma NothingWritten(f: Fleet, counters: map<Key, nat>)
    requires f.acked == {}
    requires forall n :: n in f.nodes ==> f.nodes[n].executed == f.nodes[n].retrieved == f.nodes[n].waiting == {}
    ensures Sane(f, counters)
  {
  }

  // ----- what one step does, on values

  predicate HasReplica(f: Fleet, n: Name) {
    exists r :: r in f.nodes && IoOk(f, r) && f.nodes[r].source == Some(n) && f.nodes[r].semisyncReplica
  }

  /** The workload commits on a writable node, unless semi-sync has no connected replica. */
  predicate Commits(f: Fleet, writing: bool, n: Name) {
    writing && n in f.nodes && f.nodes[n].up && !f.nodes[n].superReadOnly && !f.nodes[n].fenced &&
    (f.nodes[n].semisyncSource ==> HasReplica(f, n))
  }

  function CommitOf(f: Fleet, writing: bool, n: Name, g: Gtid): seq<Env> {
    if Commits(f, writing, n) then [Commit(n, g)] else []
  }

  /** A committing server moves its counter on. */
  function Counted(counters: map<Key, nat>, key: Key, es: seq<Env>): map<Key, nat> {
    if es == [] || key !in counters then counters else counters[key := counters[key] + 1]
  }

  /** A connected replica takes everything its source has. */
  function ReceiptOf(f: Fleet, r: Name): seq<Env> {
    if r in f.nodes && IoOk(f, r) then [Receive(r, Missing(f, r))] else []
  }

  predicate Applies(f: Fleet, r: Name) { r in f.nodes && f.nodes[r].up && !f.nodes[r].sqlError }

  /** What is not torn, as many as the budget allows. */
  predicate Fills(node: Node, budget: nat, got: Trxs) {
    var todo := node.retrieved - node.executed - node.torn;
    got <= todo && |got| <= budget && (|got| < budget ==> got == todo)
  }

  ghost predicate ApplyOf(f: Fleet, r: Name, budget: nat, es: seq<Env>) {
    if Applies(f, r) then |es| == 1 && es[0].Apply? && es[0].r == r && Fills(f.nodes[r], budget, es[0].got)
    else es == []
  }

  datatype Committing = Committing(f: Fleet, counters: map<Key, nat>, es: seq<Env>)

  /** The first `i` nodes commit, one after the other. */
  ghost function CommitAll(f: Fleet, counters: map<Key, nat>, writing: bool, names: seq<Name>,
                           keys: map<Name, Key>, i: nat): Committing
    requires i <= |names|
  {
    if i == 0 then Committing(f, counters, [])
    else
      var before := CommitAll(f, counters, writing, names, keys, i - 1);
      var n := names[i - 1];
      if Commits(before.f, writing, n) && n in keys && keys[n] in before.counters then
        var g := Gtid(keys[n], before.counters[keys[n]]);
        Committing(Committed(before.f, n, g), before.counters[g.key := g.n + 1], before.es + [Commit(n, g)])
      else before
  }

  /** Where a round of commits starts, and the servers' keys. */
  datatype Round = Round(f: Fleet, counters: map<Key, nat>, keys: map<Name, Key>)

  datatype Receiving = Receiving(f: Fleet, es: seq<Env>)

  /** The first `i` nodes receive, one after the other. */
  ghost function ReceiveAll(f: Fleet, names: seq<Name>, i: nat): Receiving
    requires i <= |names|
  {
    if i == 0 then Receiving(f, [])
    else
      var before := ReceiveAll(f, names, i - 1);
      var r := names[i - 1];
      if r in before.f.nodes && IoOk(before.f, r)
      then Receiving(EnvDo(before.f, Receive(r, Missing(before.f, r))), before.es + ReceiptOf(before.f, r))
      else before
  }

  /** The first `i` nodes applied, one after the other, each as much as its budget allowed. */
  ghost predicate ApplyAll(f: Fleet, names: seq<Name>, i: nat, budget: nat, es: seq<Env>)
    requires i <= |names|
  {
    if i == 0 then es == []
    else if Applies(f, names[i - 1]) then
      |es| > 0 && EnvRun(f, es[..|es| - 1]) && ApplyAll(f, names, i - 1, budget, es[..|es| - 1]) &&
      ApplyOf(EnvAfter(f, es[..|es| - 1]), names[i - 1], budget, es[|es| - 1..])
    else ApplyAll(f, names, i - 1, budget, es)
  }

  /** Applying decides nothing about who applies. */
  ghost predicate SameReadiness(f: Fleet, g: Fleet) {
    forall n :: Applies(f, n) <==> Applies(g, n)
  }

  /** The empty run. */
  lemma NothingYet(f: Fleet, names: seq<Name>, budget: nat)
    ensures Reaches(f, [], f) && ReceiveAll(f, names, 0) == Receiving(f, [])
    ensures ApplyAll(f, names, 0, budget, []) && SameReadiness(f, f)
  {
  }

  lemma NothingCommitted(all: Round, writing: bool, names: seq<Name>)
    ensures Reaches(all.f, [], all.f)
    ensures CommitAll(all.f, all.counters, writing, names, all.keys, 0) == Committing(all.f, all.counters, [])
  {
  }

  lemma OneReached(f: Fleet, e: Env, g: Fleet)
    requires Reaches(f, [e], g)
    ensures EnvEnabled(f, e) && g == EnvDo(f, e)
  {
    assert [e][1..] == [];
    assert EnvAfter(f, [e]) == EnvAfter(EnvDo(f, e), []);
  }

  lemma CommitMore(all: Round, writing: bool, names: seq<Name>, i: nat,
                   before: Committing, trx: Gtid, more: seq<Env>, after: Committing)
    requires i < |names| && before == CommitAll(all.f, all.counters, writing, names, all.keys, i)
    requires names[i] in all.keys && all.keys[names[i]] in before.counters && after.es == before.es + more
    requires trx == Gtid(all.keys[names[i]], before.counters[all.keys[names[i]]])
    requires more == CommitOf(before.f, writing, names[i], trx)
    requires after.counters == Counted(before.counters, trx.key, more)
    requires Reaches(all.f, before.es, before.f) && Reaches(before.f, more, after.f)
    ensures Reaches(all.f, after.es, after.f)
    ensures after == CommitAll(all.f, all.counters, writing, names, all.keys, i + 1)
  {
    ReachesOn(all.f, before.es, before.f, more, after.f);
    if Commits(before.f, writing, names[i]) {
      OneReached(before.f, more[0], after.f);
    } else {
      assert before.es + more == before.es;
    }
  }

  lemma ReceiveMore(f: Fleet, names: seq<Name>, i: nat, g: Fleet, es: seq<Env>, more: seq<Env>, h: Fleet)
    requires i < |names| && Receiving(g, es) == ReceiveAll(f, names, i)
    requires more == ReceiptOf(g, names[i]) && Reaches(f, es, g) && Reaches(g, more, h)
    ensures Reaches(f, es + more, h) && Receiving(h, es + more) == ReceiveAll(f, names, i + 1)
  {
    ReachesOn(f, es, g, more, h);
    if names[i] in g.nodes && IoOk(g, names[i]) {
      OneReached(g, more[0], h);
    } else {
      assert es + more == es;
    }
  }

  lemma ApplyLands(f: Fleet, counters: map<Key, nat>, r: Name, got: Trxs)
    requires Sane(f, counters) && EnvEnabled(f, Apply(r, got))
    ensures var g := Put(f, r, f.nodes[r].(executed := f.nodes[r].executed + got));
      Reaches(f, [Apply(r, got)], g) && Sane(g, counters) && SameReadiness(f, g)
  {
    OneStep(f, Apply(r, got));
    SaneEnv(f, counters, Apply(r, got));
  }

  lemma ApplyMore(f: Fleet, names: seq<Name>, i: nat, budget: nat, g: Fleet, es: seq<Env>, more: seq<Env>, h: Fleet)
    requires i < |names| && Reaches(f, es, g) && Reaches(g, more, h) && ApplyAll(f, names, i, budget, es)
    requires SameReadiness(f, g) && ApplyOf(g, names[i], budget, more)
    ensures Reaches(f, es + more, h) && ApplyAll(f, names, i + 1, budget, es + more)
  {
    ReachesOn(f, es, g, more, h);
    if Applies(f, names[i]) {
      assert (es + more)[..|es + more| - 1] == es && (es + more)[|es + more| - 1..] == more;
    } else {
      assert es + more == es;
    }
  }

  class FakeFleet {
    const names: seq<Name>
    const nodes: map<Name, FakeNode>
    var cut: set<(Name, Name)>
    var acked: Trxs
    var writing: bool
    /** `FakeNode.next_gno`, by server uuid. */
    var counters: map<Key, nat>

    ghost predicate Wired() {
      (forall n :: n in names <==> n in nodes) &&
      (forall n :: n in nodes ==> nodes[n].name == n) &&
      forall a, b :: a in nodes && b in nodes && (nodes[a] == nodes[b] || nodes[a].uuid == nodes[b].uuid) ==> a == b
    }

    ghost predicate Valid()
      reads this, nodes.Values
    {
      Wired() && Sane(View(), counters) && forall n :: n in nodes ==> KeyOf(n) in counters
    }

    function KeyOf(n: Name): Key
      requires n in nodes
    {
      Key(nodes[n].uuid, "")
    }

    function View(): Fleet
      reads this, nodes.Values
    {
      Fleet(NodeViews(), cut, acked)
    }

    function NodeViews(): map<Name, Node>
      reads nodes.Values
    {
      map n | n in nodes :: nodes[n].View()
    }

    /** One node changed. */
    twostate lemma OneChanged(n: Name)
      requires Wired() && n in nodes
      requires forall m :: m in nodes && m != n ==> nodes[m].View() == old(nodes[m].View())
      ensures NodeViews() == old(NodeViews())[n := nodes[n].View()]
    {
    }

    /** New nodes, nothing written yet. */
    constructor (names: seq<Name>, nodes: map<Name, FakeNode>)
      requires forall n :: n in names <==> n in nodes
      requires forall n :: n in nodes ==>
        nodes[n].name == n && nodes[n].executed == nodes[n].retrieved == nodes[n].waiting == {}
      requires forall a, b :: (a in nodes && b in nodes && (nodes[a] == nodes[b] || nodes[a].uuid == nodes[b].uuid)) ==>
        a == b
      ensures Valid() && this.names == names && this.nodes == nodes && acked == {} && cut == {} && !writing
    {
      this.names, this.nodes, cut, acked, writing := names, nodes, {}, {}, false;
      counters := map n | n in nodes :: Key(nodes[n].uuid, "") := 1;
      new;
      NothingWritten(View(), counters);
    }

    // ----- faults and handlers: one node changes, as module Fleet says

    method Partition(a: Name, b: Name)
      requires Valid()
      modifies this`cut
      ensures Valid() && View() == old(View()).(cut := old(cut) + {(a, b)})
    {
      hide Sane;
      ghost var f := View();
      cut := cut + {(a, b)};
      SaneSame(f, View(), counters);
    }

    method HealAll()
      requires Valid()
      modifies this`cut
      ensures Valid() && View() == old(View()).(cut := {})
    {
      hide Sane;
      ghost var f := View();
      cut := {};
      SaneSame(f, View(), counters);
    }

    method Kill(n: Name)
      requires Valid() && n in nodes
      modifies nodes[n]
      ensures Valid() && View() == Put(old(View()), n, old(View()).nodes[n].(up := false))
    {
      ghost var f := View();
      nodes[n].Kill();
      OneChanged(n);
      SanePut(f, counters, n, nodes[n].View());
      assert View() == Put(f, n, nodes[n].View());
    }

    method Start(n: Name)
      requires Valid() && n in nodes
      modifies nodes[n]
      ensures Valid() && View() == Put(old(View()), n, Restarted(old(View()).nodes[n]))
    {
      hide Sane;
      ghost var f := View();
      nodes[n].Start();
      OneChanged(n);
      SanePut(f, counters, n, nodes[n].View());
      assert View() == Put(f, n, nodes[n].View());
    }

    method Fence(n: Name)
      requires Valid() && n in nodes
      modifies nodes[n]
      ensures Valid() && View() == Put(old(View()), n, FencedNode(old(View()).nodes[n], true))
    {
      hide Sane;
      ghost var f := View();
      nodes[n].Fence();
      OneChanged(n);
      SanePut(f, counters, n, nodes[n].View());
      assert View() == Put(f, n, nodes[n].View());
    }

    method Promote(n: Name) returns (ok: bool)
      requires Valid() && n in nodes
      modifies nodes[n]
      ensures Valid() && ok == old(View()).nodes[n].up
      ensures View() == if ok then Put(old(View()), n, PromotedNode(old(View()).nodes[n])) else old(View())
    {
      ghost var f := View();
      ok := nodes[n].Promote();
      OneChanged(n);
      SanePut(f, counters, n, nodes[n].View());
      assert View() == Put(f, n, nodes[n].View());
      if !ok { PutSame(f.nodes, n); }
    }

    method Repoint(n: Name, source: Name) returns (ok: bool)
      requires Valid() && n in nodes
      modifies nodes[n]
      ensures Valid() && ok == old(View()).nodes[n].up
      ensures View() == if ok then Put(old(View()), n, RepointedNode(old(View()).nodes[n], source)) else old(View())
    {
      ghost var f := View();
      ok := nodes[n].Repoint(source);
      OneChanged(n);
      SanePut(f, counters, n, nodes[n].View());
      assert View() == Put(f, n, nodes[n].View());
      if !ok { PutSame(f.nodes, n); }
    }

    method StopIo(n: Name) returns (ok: bool)
      requires Valid() && n in nodes
      modifies nodes[n]
      ensures Valid() && ok == old(View()).nodes[n].up
      ensures View() == if ok then Put(old(View()), n, old(View()).nodes[n].(ioStopped := true)) else old(View())
    {
      ghost var f := View();
      ok := nodes[n].StopIo();
      OneChanged(n);
      SanePut(f, counters, n, nodes[n].View());
      assert View() == Put(f, n, nodes[n].View());
      if !ok { PutSame(f.nodes, n); }
    }

    method Rebuild(n: Name, donor: Name)
      requires Valid() && n in nodes && donor in nodes
      modifies nodes[n]
      ensures Valid() && View() == Put(old(View()), n, RebuiltNode(old(View()).nodes[n], old(View()).nodes[donor]))
    {
      hide Sane;
      ghost var f := View();
      nodes[n].Rebuild(nodes[donor].View());
      OneChanged(n);
      SaneRebuilt(f, counters, n, donor);
    }

    // ----- time moves forward

    predicate IoReady(r: Name)
      requires r in nodes
      reads this, nodes.Values
    {
      nodes[r].up && !nodes[r].ioStopped && nodes[r].source.Some? && nodes[r].source.value in nodes &&
      nodes[nodes[r].source.value].up && (r, nodes[r].source.value) !in cut && (nodes[r].source.value, r) !in cut
    }

    lemma IoReadyIsIoOk(r: Name)
      requires r in nodes
      ensures IoReady(r) <==> IoOk(View(), r)
    {
    }

    /** A connected semi-sync replica can take a transaction of `n`. */
    predicate ReplicaReady(n: Name)
      reads this, nodes.Values
      ensures ReplicaReady(n) <==> HasReplica(View(), n)
    {
      ReadyReplicas(n);
      exists r :: r in nodes && IoReady(r) && nodes[r].source == Some(n) && nodes[r].semisyncReplica
    }

    lemma ReadyReplicas(n: Name)
      ensures (exists r :: r in nodes && IoReady(r) && nodes[r].source == Some(n) && nodes[r].semisyncReplica)
        <==> HasReplica(View(), n)
    {
      forall r | r in nodes ensures IoReady(r) <==> IoOk(View(), r) { IoReadyIsIoOk(r); }
    }

    /** The node is writable, and with semi-sync on some replica can take a transaction. */
    predicate CommitReady(n: Name)
      requires n in nodes
      reads this, nodes.Values
      ensures CommitReady(n) <==> Commits(View(), writing, n)
    {
      var p := nodes[n];
      writing && p.up && !p.superReadOnly && !p.fenced && (p.semisyncSource ==> ReplicaReady(n))
    }

    /** The workload commits one transaction on a writable node, unless semi-sync has no replica:
        the next number of its server. */
    method CommitOn(n: Name) returns (ghost es: seq<Env>)
      requires Valid() && n in nodes
      modifies this`acked, this`counters, nodes[n]
      ensures Valid() && Reaches(old(View()), es, View())
      ensures es == CommitOf(old(View()), writing, n, Gtid(KeyOf(n), old(counters[KeyOf(n)])))
      ensures counters == Counted(old(counters), KeyOf(n), es)
    {
      hide Sane, Commits, Reaches, Fresh;
      NothingYet(View(), names, 0);
      if CommitReady(n) {
        es := CommitNow(n, Gtid(KeyOf(n), counters[KeyOf(n)]));
      } else {
        es := [];
      }
    }

    method CommitNow(n: Name, g: Gtid) returns (ghost es: seq<Env>)
      requires Valid() && n in nodes && nodes[n].up && !nodes[n].superReadOnly
      requires g == Gtid(KeyOf(n), counters[KeyOf(n)])
      modifies this`acked, this`counters, nodes[n]
      ensures Valid() && Reaches(old(View()), es, View()) && es == [Commit(n, g)]
      ensures counters == old(counters)[g.key := g.n + 1]
    {
      hide Reaches, Committed;
      FreshNumber(View(), g.key, counters[g.key]);
      CommitLands(View(), counters, n, g);
      Binlog(n, g);
      es := [Commit(n, g)];
    }

    /** Binlogged and counted; without semi-sync acknowledged at once. */
    method Binlog(n: Name, g: Gtid)
      requires Wired() && n in nodes && g.n >= 0
      modifies this`acked, this`counters, nodes[n]
      ensures View() == Committed(old(View()), n, g) && counters == old(counters)[g.key := g.n + 1]
    {
      nodes[n].Commit(g);
      OneChanged(n);
      if !nodes[n].semisyncSource {
        acked := acked + {g};
      }
      counters := counters[g.key := g.n + 1];
    }

    /** The IO thread of `r` takes everything its source has; waiting sessions are acknowledged. */
    method ReceiveOn(r: Name) returns (ghost es: seq<Env>)
      requires Valid() && r in nodes
      modifies this`acked, nodes[r]
      ensures Valid() && Reaches(old(View()), es, View()) && es == ReceiptOf(old(View()), r)
    {
      hide Sane, Reaches;
      NothingYet(View(), names, 0);
      IoReadyIsIoOk(r);
      if IoReady(r) {
        es := ReceiveNow(r);
      } else {
        es := [];
      }
    }

    method ReceiveNow(r: Name) returns (ghost es: seq<Env>)
      requires Valid() && r in nodes && IoReady(r)
      modifies this`acked, nodes[r]
      ensures Valid() && Reaches(old(View()), es, View()) && es == [Receive(r, Missing(old(View()), r))]
    {
      hide Sane, Reaches, Received;
      ghost var f := View();
      ghost var incoming, released := Deliver(r);
      es := [Receive(r, incoming)];
      ReceiveLands(f, counters, r, incoming, released);
    }

    /** Everything the source executed and the node lacks; waiting sessions it releases are
        acknowledged. */
    method Deliver(r: Name) returns (ghost incoming: Trxs, ghost released: Trxs)
      requires Wired() && r in nodes && IoReady(r)
      modifies this`acked, nodes[r]
      ensures IoOk(old(View()), r) && incoming == Missing(old(View()), r)
      ensures released == Released(old(View()), r, incoming)
      ensures View() == Received(old(View()), r, incoming, released)
    {
      var src := nodes[nodes[r].source.value];
      var missing := src.executed - nodes[r].executed - nodes[r].retrieved;
      var freed := if src.semisyncSource && nodes[r].semisyncReplica then missing * src.waiting else {};
      IoReadyIsIoOk(r);
      incoming, released := missing, freed;
      assert incoming == Missing(View(), r) && released == Released(View(), r, incoming);
      hide Missing, Released, IoOk;
      nodes[r].Receive(missing);
      OneChanged(r);
      acked := acked + freed;
    }

    /** The SQL thread of `r` applies what is not torn, as much as `budget` allows. */
    method ApplyOn(r: Name, budget: nat) returns (ghost es: seq<Env>)
      requires Valid() && r in nodes
      modifies nodes[r]
      ensures Valid() && Reaches(old(View()), es, View()) && ApplyOf(old(View()), r, budget, es)
      ensures SameReadiness(old(View()), View())
    {
      hide Sane, Reaches, SameReadiness;
      NothingYet(View(), names, 0);
      if nodes[r].up && !nodes[r].sqlError {
        es := ApplyNow(r, budget);
      } else {
        es := [];
      }
    }

    method ApplyNow(r: Name, budget: nat) returns (ghost es: seq<Env>)
      requires Valid() && r in nodes && nodes[r].up && !nodes[r].sqlError
      modifies nodes[r]
      ensures Valid() && Reaches(old(View()), es, View()) && ApplyOf(old(View()), r, budget, es)
      ensures SameReadiness(old(View()), View())
    {
      ghost var f := View();
      ghost var got := TakeUp(r, budget);
      es := [Apply(r, got)];
      ApplyLands(f, counters, r, got);
    }

    /** At most `budget` transactions of the relay log, never a torn one. */
    method TakeUp(r: Name, budget: nat) returns (ghost got: Trxs)
      requires Wired() && r in nodes
      modifies nodes[r]
      ensures Fills(old(View()).nodes[r], budget, got)
      ensures View() == Put(old(View()), r, old(View()).nodes[r].(executed := old(View()).nodes[r].executed + got))
    {
      got := nodes[r].Apply(budget);
      OneChanged(r);
    }

    ghost function Keys(): map<Name, Key> {
      map n | n in nodes :: KeyOf(n)
    }

    /** Where a round of commits from here leads. */
    ghost function CommitsNow(): Committing
      reads this, nodes.Values
    {
      CommitAll(View(), counters, writing, names, Keys(), |names|)
    }

    /** Every node commits. */
    method CommitRound() returns (ghost es: seq<Env>)
      requires Valid()
      modifies this`acked, this`counters, nodes.Values
      ensures Valid() && Reaches(old(View()), es, View())
      ensures Committing(View(), counters, es) == old(CommitsNow())
    {
      es := CommitEach(Round(View(), counters, Keys()));
    }

    ghost predicate CommittedSo(all: Round, i: nat, es: seq<Env>)
      reads this, nodes.Values
    {
      i <= |names| && Reaches(all.f, es, View()) &&
      Committing(View(), counters, es) == CommitAll(all.f, all.counters, writing, names, all.keys, i)
    }

    method CommitEach(ghost all: Round) returns (ghost es: seq<Env>)
      requires Valid() && all == Round(View(), counters, Keys())
      modifies this`acked, this`counters, nodes.Values
      ensures Valid() && CommittedSo(all, |names|, es)
    {
      hide Reaches, CommitAll, Sane;
      NothingCommitted(all, writing, names);
      es := [];
      for i := 0 to |names|
        invariant Valid() && CommittedSo(all, i, es)
      {
        es := CommitNext(all, i, es);
      }
    }

    method CommitNext(ghost all: Round, i: nat, ghost es: seq<Env>) returns (ghost more: seq<Env>)
      requires Valid() && i < |names| && CommittedSo(all, i, es) && all.keys == Keys()
      modifies this`acked, this`counters, nodes.Values
      ensures Valid() && CommittedSo(all, i + 1, more)
    {
      hide Sane, Reaches, CommitAll, CommitOf;
      ghost var before := Committing(View(), counters, es);
      ghost var trx := Gtid(KeyOf(names[i]), counters[KeyOf(names[i])]);
      ghost var one := CommitOn(names[i]);
      CommitMore(all, writing, names, i, before, trx, one, Committing(View(), counters, es + one));
      more := es + one;
    }

    /** Every node receives. */
    method ReceiveRound() returns (ghost es: seq<Env>)
      requires Valid()
      modifies this`acked, nodes.Values
      ensures Valid() && Reaches(old(View()), es, View())
      ensures Receiving(View(), es) == ReceiveAll(old(View()), names, |names|)
    {
      hide Reaches, ReceiveAll, Sane;
      ghost var f := View();
      NothingYet(f, names, 0);
      es := [];
      for i := 0 to |names|
        invariant Valid() && Reaches(f, es, View())
        invariant Receiving(View(), es) == ReceiveAll(f, names, i)
      {
        es := ReceiveNext(f, i, es);
      }
    }

    method ReceiveNext(ghost f: Fleet, i: nat, ghost es: seq<Env>) returns (ghost all: seq<Env>)
      requires Valid() && i < |names| && Reaches(f, es, View()) && Receiving(View(), es) == ReceiveAll(f, names, i)
      modifies this`acked, nodes.Values
      ensures Valid() && Reaches(f, all, View()) && Receiving(View(), all) == ReceiveAll(f, names, i + 1)
    {
      hide Sane, Reaches, ReceiveAll, ReceiptOf;
      ghost var g := View();
      ghost var more := ReceiveOn(names[i]);
      ReceiveMore(f, names, i, g, es, more, View());
      all := es + more;
    }

    /** Every node applies. */
    method ApplyRound(budget: nat) returns (ghost es: seq<Env>)
      requires Valid()
      modifies nodes.Values
      ensures Valid() && Reaches(old(View()), es, View()) && ApplyAll(old(View()), names, |names|, budget, es)
    {
      hide Reaches, ApplyAll, SameReadiness, Sane;
      ghost var f := View();
      NothingYet(f, names, budget);
      es := [];
      for i := 0 to |names|
        invariant Valid() && Reaches(f, es, View()) && SameReadiness(f, View())
        invariant ApplyAll(f, names, i, budget, es)
      {
        es := ApplyNext(f, i, budget, es);
      }
    }

    method ApplyNext(ghost f: Fleet, i: nat, budget: nat, ghost es: seq<Env>) returns (ghost all: seq<Env>)
      requires Valid() && i < |names| && Reaches(f, es, View()) && SameReadiness(f, View())
      requires ApplyAll(f, names, i, budget, es)
      modifies nodes.Values
      ensures Valid() && Reaches(f, all, View()) && SameReadiness(f, View())
      ensures ApplyAll(f, names, i + 1, budget, all)
    {
      hide Sane, Reaches, ApplyAll, ApplyOf;
      ghost var g := View();
      ghost var more := ApplyOn(names[i], budget);
      ApplyMore(f, names, i, budget, g, es, more, View());
      all := es + more;
    }

    /** `step`: every node commits, then every node receives all it can, then every node applies its
        budget; together a run of the environment's actions. */
    method Step(budget: nat) returns (ghost commits: seq<Env>, ghost receipts: seq<Env>, ghost applies: seq<Env>)
      requires Valid()
      modifies this`acked, this`counters, nodes.Values
      ensures Valid() && Reaches(old(View()), commits + receipts + applies, View())
      ensures Stepped(old(CommitsNow()), names, budget, commits, receipts, applies)
    {
      ghost var f := View();
      commits := CommitRound();
      ghost var g := Committing(View(), counters, commits);
      receipts := ReceiveRound();
      ghost var h := Receiving(View(), receipts);
      applies := ApplyRound(budget);
      ThreeRounds(f, g, h, names, budget, applies, View());
    }
  }

  /** The commits, then what everybody receives after them, then what everybody applies after that. */
  ghost predicate Stepped(committed: Committing, names: seq<Name>, budget: nat,
                          commits: seq<Env>, receipts: seq<Env>, applies: seq<Env>) {
    var received := ReceiveAll(committed.f, names, |names|);
    commits == committed.es && receipts == received.es && ApplyAll(received.f, names, |names|, budget, applies)
  }

  lemma ThreeRounds(f: Fleet, g: Committing, h: Receiving, names: seq<Name>, budget: nat, applies: seq<Env>, k: Fleet)
    requires Reaches(f, g.es, g.f) && Reaches(g.f, h.es, h.f) && Reaches(h.f, applies, k)
    requires h == ReceiveAll(g.f, names, |names|) && ApplyAll(h.f, names, |names|, budget, applies)
    ensures Reaches(f, g.es + h.es + applies, k) && Stepped(g, names, budget, g.es, h.es, applies)
  {
    ReachesOn(f, g.es, g.f, h.es, h.f);
    ReachesOn(f, g.es + h.es, h.f, applies, k);
  }

  ghost function Committed(f: Fleet, n: Name, g: Gtid): Fleet
    requires n in f.nodes
  {
    var node := f.nodes[n];
    Fleet(f.nodes[n := node.(executed := node.executed + {g}, waiting := node.waiting + {g})], f.cut,
          if node.semisyncSource then f.acked else f.acked + {g})
  }

  lemma CommitLands(f: Fleet, counters: map<Key, nat>, n: Name, g: Gtid)
    requires Sane(f, counters) && EnvEnabled(f, Commit(n, g)) && g.key in counters && counters[g.key] == g.n
    ensures Reaches(f, [Commit(n, g)], Committed(f, n, g)) && Sane(Committed(f, n, g), counters[g.key := g.n + 1])
  {
    OneStep(f, Commit(n, g));
    SaneCommit(f, counters, n, g, counters[g.key := g.n + 1]);
  }

  ghost function Received(f: Fleet, r: Name, incoming: Trxs, released: Trxs): Fleet
    requires r in f.nodes
  {
    Fleet(f.nodes[r := f.nodes[r].(retrieved := f.nodes[r].retrieved + incoming)], f.cut, f.acked + released)
  }

  lemma ReceiveLands(f: Fleet, counters: map<Key, nat>, r: Name, incoming: Trxs, released: Trxs)
    requires Sane(f, counters) && r in f.nodes && IoOk(f, r)
    requires incoming == Missing(f, r) && released == Released(f, r, incoming)
    ensures Reaches(f, [Receive(r, incoming)], Received(f, r, incoming, released))
    ensures Sane(Received(f, r, incoming, released), counters)
  {
    OneStep(f, Receive(r, incoming));
    SaneEnv(f, counters, Receive(r, incoming));
  }

  lemma SaneEnv(f: Fleet, counters: map<Key, nat>, e: Env)
    requires Sane(f, counters) && EnvEnabled(f, e) && !e.Commit?
    ensures Sane(EnvDo(f, e), counters)
  {
    forall key | key in counters ensures Numbered(EnvDo(f, e), key, counters[key]) {
      NumberedEnv(f, e, key, counters[key]);
    }
    forall n | n in EnvDo(f, e).nodes ensures EnvDo(f, e).nodes[n].waiting <= EnvDo(f, e).nodes[n].executed {
      assert n in f.nodes;
    }
  }

  lemma SaneCommit(f: Fleet, counters: map<Key, nat>, p: Name, g: Gtid, after: map<Key, nat>)
    requires Sane(f, counters) && EnvEnabled(f, Commit(p, g))
    requires after.Keys == counters.Keys && g.key in counters && after[g.key] == g.n + 1 == counters[g.key] + 1
    requires forall key :: key in counters && key != g.key ==> after[key] == counters[key]
    ensures Sane(EnvDo(f, Commit(p, g)), after)
  {
    hide Numbered;
    forall key | key in after ensures Numbered(EnvDo(f, Commit(p, g)), key, after[key]) {
      assert Numbered(f, key, counters[key]);
      NumberedCommit(f, p, g, key, counters[key]);
    }
  }
}
