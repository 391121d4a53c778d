/** What the steps of the fleet do to replication (dbguard/manager/fake.py): cuts and crashes stop it, a torn
    transaction and a failed SQL thread hold it up, a restart forgets. */
module FleetLaws {
  import opened Intervals
  import opened GtidSets
  import opened Selection
  import opened Fleet

  /** A cut stops both directions until the links heal. */
  lemma CutStopsBoth(f: Fleet, a: Name, b: Name)
    ensures var g := EnvDo(f, Cut(a, b));
      g.nodes == f.nodes && g.acked == f.acked && !CanTalk(g, a, b) && !CanTalk(g, b, a)
    ensures forall x, y :: CanTalk(EnvDo(f, Heal), x, y)
    ensures EnvDo(f, Heal).nodes == f.nodes && EnvDo(f, Heal).acked == f.acked
  {
  }

  /** A replica receives only while it and its source are up, its IO thread runs and the two can talk; then it
      can receive everything the source executed and it does not hold. */
  lemma ReceivesWhen(f: Fleet, r: Name, got: Trxs)
    requires r in f.nodes
    ensures EnvEnabled(f, Receive(r, got)) <==>
      var node := f.nodes[r];
      node.up && !node.ioStopped && node.source.Some? && node.source.value in f.nodes &&
      f.nodes[node.source.value].up &&
      (r, node.source.value) !in f.cut && (node.source.value, r) !in f.cut &&
      got <= f.nodes[node.source.value].executed - node.executed - node.retrieved
  {
  }

  /** What a replica received it holds, and a write waiting on its source is acknowledged exactly if both sides
      run semi-sync. */
  lemma ReceiptAcknowledges(f: Fleet, r: Name, got: Trxs, g: Gtid)
    requires EnvEnabled(f, Receive(r, got)) && g in got
    ensures var t := EnvDo(f, Receive(r, got));
      g in t.nodes[r].retrieved && g !in t.nodes[r].executed &&
      var src := f.nodes[f.nodes[r].source.value];
      (g in t.acked <==> g in f.acked || (g in src.waiting && src.semisyncSource && f.nodes[r].semisyncReplica))
  {
  }

  /** A node that went down takes no write and feeds nobody until it wakes, as it was. */
  lemma DownStopsAll(f: Fleet, n: Name, r: Name, g: Gtid, got: Trxs)
    requires n in f.nodes
    ensures var t := EnvDo(f, Down(n));
      !EnvEnabled(t, Commit(n, g)) && !EnvEnabled(t, Receive(n, got)) && !EnvEnabled(t, Apply(n, got)) &&
      (r in f.nodes && f.nodes[r].source == Some(n) ==> !EnvEnabled(t, Receive(r, got))) &&
      EnvEnabled(t, Wake(n)) && EnvDo(t, Wake(n)).nodes[n] == f.nodes[n].(up := true)
  {
  }

  /** A torn transaction shows in what the replica received and is never applied; the rest of the relay log is,
      unless the SQL thread failed. */
  lemma TornNeverApplies(f: Fleet, r: Name, g: Gtid, got: Trxs)
    requires EnvEnabled(f, Tear(r, g))
    ensures var t := EnvDo(f, Tear(r, g));
      g in t.nodes[r].retrieved && (g in got ==> !EnvEnabled(t, Apply(r, got))) && t.acked == f.acked &&
      (!f.nodes[r].sqlError && got <= f.nodes[r].retrieved - f.nodes[r].executed - f.nodes[r].torn && g !in got ==>
         EnvEnabled(t, Apply(r, got)) && got <= EnvDo(t, Apply(r, got)).nodes[r].executed)
  {
  }

  lemma FailedThreadAppliesNothing(f: Fleet, n: Name, got: Trxs)
    requires n in f.nodes
    ensures !EnvEnabled(EnvDo(f, SqlFails(n)), Apply(n, got))
  {
  }

  /** A restart leaves the node up and read-only, its semi-sync source side off, its relay log and its sessions
      gone, what it executed kept. */
  lemma RestartForgets(f: Fleet, n: Name)
    requires n in f.nodes
    ensures var node := EnvDo(f, Restart(n)).nodes[n];
      node.up && node.superReadOnly && !node.semisyncSource && node.retrieved == {} && node.waiting == {} &&
      node.executed == f.nodes[n].executed && node.source == f.nodes[n].source && node.fenced == f.nodes[n].fenced
  {
  }

  /** A write is acknowledged at once exactly if its node runs without semi-sync; with it the session waits. */
  lemma CommitWaits(f: Fleet, p: Name, g: Gtid)
    requires EnvEnabled(f, Commit(p, g))
    ensures var t := EnvDo(f, Commit(p, g));
      g in t.nodes[p].executed && g in t.nodes[p].waiting && (g in t.acked <==> !f.nodes[p].semisyncSource) &&
      f.acked <= t.acked && f.nodes[p].up && !f.nodes[p].superReadOnly
  {
  }

  // ----- what a handler leaves, and what a status shows

  /** A promoted node has no source and no relay log, its semi-sync sides changed over; what it executed, and
      the sessions that wait, stay. */
  lemma PromotedMeans(node: Node)
    ensures var n := PromotedNode(node);
      n.source.None? && n.retrieved == {} && n.torn == {} && !n.ioStopped && n.semisyncSource && !n.semisyncReplica &&
      !n.superReadOnly && !n.fenced && n.executed == node.executed && n.waiting == node.waiting && n.up == node.up
  {
  }

  /** A repointed node starts over with an empty relay log and both threads running; the fence flag stays. */
  lemma RepointedMeans(node: Node, source: Name)
    ensures var n := RepointedNode(node, source);
      n.source == Some(source) && n.retrieved == {} && n.torn == {} && !n.ioStopped && !n.sqlError &&
      !n.semisyncSource && n.semisyncReplica && n.superReadOnly && n.fenced == node.fenced &&
      n.executed == node.executed && n.waiting == node.waiting && n.up == node.up
  {
  }

  lemma RebuiltMeans(node: Node, donor: Node)
    ensures var n := RebuiltNode(node, donor);
      n.executed == donor.executed && n.retrieved == {} && n.waiting == {} && n.source.None? && n.superReadOnly &&
      !n.sqlError && n.fenced == node.fenced && n.up == node.up
  {
  }

  /** A node whose mysqld is up shows what it has executed and received, its threads and its source; of one that
      is down only the agent answers. */
  lemma StatusShows(f: Fleet, n: Name)
    requires n in f.nodes
    ensures var v, node := ViewOf(f, n), f.nodes[n];
      v.name == n && v.reachable && v.responsive == node.up && v.fenced == node.fenced &&
      (!node.up ==> v.Have() == {} && !v.replica.configured && v.replica.ioRunning == Unknown &&
                    v.replica.sqlRunning == Unknown && v.superReadOnly.None?) &&
      (node.up ==>
         v.superReadOnly == Some(node.superReadOnly) && v.replica.sourceHost == node.source &&
         v.executed == v.replica.executed == node.executed && v.replica.retrieved == node.retrieved &&
         (v.replica.configured <==> node.source.Some?)) &&
      (node.up && node.source.Some? ==>
         (v.replica.ioRunning == No <==> node.ioStopped) && (v.replica.ioRunning == Yes <==> IoOk(f, n)) &&
         (v.replica.sqlRunning == No <==> node.sqlError)) &&
      v.replica.lastSqlError == node.sqlError && v.semisyncReplica == node.semisyncReplica
  {
  }
}
