/** A replica set as dbguard/manager/fake.py simulates it, cut into atomic steps: commit,
    receive and acknowledge, tear, apply, go down, wake, restart, cut, heal. Semi-sync is
    AFTER_SYNC (MySQL 8.4 Reference Manual section 19.4.10): a transaction is acknowledged once
    a semi-sync replica holds it and the committing session still waits. */
module Fleet {
  import opened Intervals
  import opened GtidSets
  import opened Selection

  /** `waiting` holds the transactions whose client session still waits for an acknowledgement;
      a fence kills those sessions and a restart loses them. `torn` is FakeNode.partial. */
  datatype Node = Node(executed: Trxs, retrieved: Trxs, torn: Trxs, waiting: Trxs,
                       source: Option<Name>, ioStopped: bool, superReadOnly: bool, fenced: bool,
                       semisyncSource: bool, semisyncReplica: bool, up: bool, sqlError: bool)
  {
    function Have(): Trxs { executed + retrieved }
  }

  datatype Fleet = Fleet(nodes: map<Name, Node>, cut: set<(Name, Name)>, acked: Trxs)

  predicate CanTalk(f: Fleet, a: Name, b: Name) {
    (a, b) !in f.cut && (b, a) !in f.cut
  }

  /** `io_ok`: the node's IO thread can receive from its source now. */
  predicate IoOk(f: Fleet, r: Name)
    requires r in f.nodes
  {
    var node := f.nodes[r];
    node.up && !node.ioStopped && node.source.Some? && node.source.value in f.nodes
    && f.nodes[node.source.value].up && CanTalk(f, r, node.source.value)
  }

  predicate Fresh(f: Fleet, g: Gtid) {
    g !in f.acked && forall n :: n in f.nodes ==> g !in f.nodes[n].executed && g !in f.nodes[n].retrieved
  }

  datatype Env =
    | Commit(p: Name, g: Gtid)
    | Receive(r: Name, got: Trxs)
    | Tear(r: Name, g: Gtid)
    | Apply(r: Name, got: Trxs)
    | Down(n: Name)
    | Wake(n: Name)
    | Restart(n: Name)
    | SqlFails(n: Name)
    | Cut(a: Name, b: Name)
    | Heal

  /** What a replica's source has that the replica does not. */
  function Missing(f: Fleet, r: Name): Trxs
    requires r in f.nodes
  {
    var node := f.nodes[r];
    if node.source.Some? && node.source.value in f.nodes
    then f.nodes[node.source.value].executed - node.executed - node.retrieved else {}
  }

  predicate EnvEnabled(f: Fleet, e: Env) {
    match e
    case Commit(p, g) => p in f.nodes && f.nodes[p].up && !f.nodes[p].superReadOnly && Fresh(f, g)
    case Receive(r, got) => r in f.nodes && IoOk(f, r) && got <= Missing(f, r)
    case Tear(r, g) => r in f.nodes && IoOk(f, r) && g in Missing(f, r)
    case Apply(r, got) => r in f.nodes && f.nodes[r].up && !f.nodes[r].sqlError
                          && got <= f.nodes[r].retrieved - f.nodes[r].executed - f.nodes[r].torn
    case Down(n) => n in f.nodes
    case Wake(n) => n in f.nodes
    case Restart(n) => n in f.nodes
    case SqlFails(n) => n in f.nodes
    case Cut(a, b) => true
    case Heal => true
  }

  function Put(f: Fleet, n: Name, node: Node): Fleet {
    f.(nodes := f.nodes[n := node])
  }

  /** The waiting sessions that `got` reaching replica `r` releases. */
  function Released(f: Fleet, r: Name, got: Trxs): Trxs
    requires r in f.nodes && IoOk(f, r)
  {
    var src := f.nodes[f.nodes[r].source.value];
    if src.semisyncSource && f.nodes[r].semisyncReplica then got * src.waiting else {}
  }

  /** A semi-sync replica of `n` whose IO thread is not stopped. Cuts heal and nodes wake, so
      whether the two can talk now is no part of it. */
  predicate AckLink(f: Fleet, n: Name, r: Name) {
    n in f.nodes && r in f.nodes && f.nodes[r].source == Some(n) && !f.nodes[r].ioStopped &&
    f.nodes[r].semisyncReplica && f.nodes[n].semisyncSource
  }

  /** Container restart: read-only, the relay log discarded, the sessions gone. */
  function Restarted(node: Node): Node {
    node.(up := true, superReadOnly := true, semisyncSource := false, retrieved := {}, waiting := {})
  }

  function EnvDo(f: Fleet, e: Env): Fleet
    requires EnvEnabled(f, e)
  {
    match e
    case Commit(p, g) =>
      var node := f.nodes[p];
      var after := Put(f, p, node.(executed := node.executed + {g}, waiting := node.waiting + {g}));
      if node.semisyncSource then after else after.(acked := f.acked + {g})
    case Receive(r, got) =>
      var node := f.nodes[r];
      Put(f, r, node.(retrieved := node.retrieved + got)).(acked := f.acked + Released(f, r, got))
    case Tear(r, g) =>
      var node := f.nodes[r];
      Put(f, r, node.(retrieved := node.retrieved + {g}, torn := node.torn + {g}))
    case Apply(r, got) =>
      var node := f.nodes[r];
      Put(f, r, node.(executed := node.executed + got))
    case Down(n) => Put(f, n, f.nodes[n].(up := false))
    case Wake(n) => Put(f, n, f.nodes[n].(up := true))
    case Restart(n) => Put(f, n, Restarted(f.nodes[n]))
    case SqlFails(n) => Put(f, n, f.nodes[n].(sqlError := true))
    case Cut(a, b) => f.(cut := f.cut + {(a, b)})
    case Heal => f.(cut := {})
  }

  /** Takes no writes, and no session waits. */
  predicate Passive(node: Node) {
    node.superReadOnly && node.waiting == {}
  }

  lemma PassiveEnv(f: Fleet, n: Name, e: Env)
    requires n in f.nodes && Passive(f.nodes[n]) && EnvEnabled(f, e)
    ensures n in EnvDo(f, e).nodes && Passive(EnvDo(f, e).nodes[n])
  {
  }

  /** A node's executed set never shrinks, what it holds shrinks only when it restarts, and the
      fleet's own steps leave replication links alone. */
  lemma EnvGrows(f: Fleet, e: Env, n: Name)
    requires n in f.nodes && EnvEnabled(f, e)
    ensures n in EnvDo(f, e).nodes && f.nodes[n].executed <= EnvDo(f, e).nodes[n].executed
    ensures e != Restart(n) ==> f.nodes[n].Have() <= EnvDo(f, e).nodes[n].Have()
    ensures EnvDo(f, e).nodes[n].ioStopped == f.nodes[n].ioStopped
    ensures EnvDo(f, e).nodes[n].source == f.nodes[n].source
  {
  }

  lemma SqlStaysFailed(f: Fleet, e: Env, n: Name)
    requires EnvEnabled(f, e) && n in f.nodes
    ensures n in EnvDo(f, e).nodes && (f.nodes[n].sqlError ==> EnvDo(f, e).nodes[n].sqlError)
  {
  }

  lemma SameNodes(f: Fleet, e: Env)
    requires EnvEnabled(f, e)
    ensures EnvDo(f, e).nodes.Keys == f.nodes.Keys
  {
  }

  // ----- a transaction nobody knows yet

  ghost function Everywhere(f: Fleet): Trxs {
    f.acked + (set n, g | n in f.nodes && g in f.nodes[n].Have() + f.nodes[n].torn :: g)
  }

  lemma {:induction false} NumberAbove(all: Trxs) returns (k: int)
    ensures forall g :: g in all ==> g.n < k
    decreases |all|
  {
    k := 0;
    if all != {} {
      var x :| x in all;
      var j := NumberAbove(all - {x});
      k := if x.n < j then j else x.n + 1;
      assert forall g :: g in all ==> g == x || g in all - {x};
    }
  }

  lemma NewTransaction(f: Fleet) returns (g: Gtid)
    ensures Fresh(f, g) && forall n :: n in f.nodes ==> g !in f.nodes[n].torn
  {
    var k := NumberAbove(Everywhere(f));
    g := Gtid(Key("", ""), k);
    forall n | n in f.nodes
      ensures g !in f.nodes[n].executed && g !in f.nodes[n].retrieved && g !in f.nodes[n].torn
    {
      assert g in f.nodes[n].Have() + f.nodes[n].torn ==> g in Everywhere(f);
    }
  }

  // ----- who leads and who follows

  /** The node is up and replicates from `w`, over semi-sync. */
  predicate Trails(f: Fleet, n: Name, w: Name) {
    n in f.nodes && f.nodes[n].up && f.nodes[n].source == Some(w) && !f.nodes[n].ioStopped &&
    f.nodes[n].semisyncReplica && f.nodes[n].superReadOnly
  }

  /** The node is up and takes writes behind semi-sync, replicating from nobody. */
  predicate Leads(f: Fleet, w: Name) {
    w in f.nodes && f.nodes[w].up && !f.nodes[w].superReadOnly && !f.nodes[w].fenced &&
    f.nodes[w].semisyncSource && f.nodes[w].source.None?
  }

  /** Such a primary takes a write, and the first follower that receives it has it acknowledged. */
  lemma WritesGoOn(f: Fleet, w: Name, n: Name, g: Gtid)
    requires Leads(f, w) && Trails(f, n, w) && CanTalk(f, n, w) && Fresh(f, g)
    ensures EnvEnabled(f, Commit(w, g))
    ensures var h := EnvDo(f, Commit(w, g));
      h.acked == f.acked && EnvEnabled(h, Receive(n, {g})) &&
      EnvDo(h, Receive(n, {g})).acked == f.acked + {g} && g in EnvDo(h, Receive(n, {g})).nodes[n].Have()
  {
    assert n != w;
    var h := EnvDo(f, Commit(w, g));
    assert g in Missing(h, n) && Released(h, n, {g}) == {g};
  }

  // ----- the agent handlers

  /** `/fence`: read-only and flagged, a stopped mysqld restarted. The client sessions are killed,
      unless the KILLs failed: the agent answers all the same. */
  function FencedNode(node: Node, killed: bool): Node {
    node.(fenced := true, superReadOnly := true, waiting := if killed then {} else node.waiting, up := true)
  }

  /** `/promote`. */
  function PromotedNode(node: Node): Node {
    node.(source := None, retrieved := {}, torn := {}, ioStopped := false, semisyncReplica := false,
          semisyncSource := true, superReadOnly := false, fenced := false)
  }

  /** `/repoint`: the relay log is purged and the IO thread started again. */
  function RepointedNode(node: Node, source: Name): Node {
    node.(superReadOnly := true, semisyncSource := false, semisyncReplica := true, source := Some(source),
          retrieved := {}, torn := {}, ioStopped := false, sqlError := false)
  }

  /** `/rebuild`: the node's data replaced by the donor's, its sessions gone with its mysqld. */
  function RebuiltNode(node: Node, donor: Node): Node {
    node.(executed := donor.executed, retrieved := {}, source := None, superReadOnly := true,
          sqlError := false, waiting := {})
  }

  /** `/status` as the manager parses it. */
  function ViewOf(f: Fleet, n: Name): NodeView
    requires n in f.nodes
  {
    var node := f.nodes[n];
    var answers := node.source.Some? && node.up;
    var io := if !answers then Unknown else if node.ioStopped then No
              else if IoOk(f, n) then Yes else Connecting;
    var sql := if !answers then Unknown else if node.sqlError then No else Yes;
    NodeView(n, true, node.up, node.fenced, if node.up then Some(node.superReadOnly) else None,
             if node.up then node.executed else {},
             ReplicaView(answers, if node.up then node.source else None, io, sql,
                         if node.up then node.retrieved else {}, if node.up then node.executed else {},
                         node.sqlError),
             node.semisyncReplica)
  }
}
