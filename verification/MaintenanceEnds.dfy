/** Where one rejoin and one rebuild end (dbguard/manager/rejoin.py): which of the two a node gets, and how
    it leaves the node. */
module MaintenanceEnds {
  import opened Intervals
  import opened GtidSets
  import opened Selection
  import opened Fleet
  import opened Errant
  import opened Supply
  import opened Maintenance

  /** Nothing read of the node, or restored on it, is still on the desk. */
  predicate Forgotten(d: Desk, n: Name) { n !in d.stable && n !in d.passed && n !in d.cloned }

  ghost predicate OthersKept(d: Desk, e: Desk, n: Name) {
    e.p == d.p && (forall m :: m in d.f.nodes && m != n ==> m in e.f.nodes && e.f.nodes[m] == d.f.nodes[m]) &&
    (forall m :: m != n ==> (m in e.stable <==> m in d.stable) && (m in e.passed <==> m in d.passed) &&
                            (m in e.cloned <==> m in d.cloned)) &&
    forall m :: m != n && m in e.stable && m in d.stable ==> e.stable[m] == d.stable[m]
  }

  /** Read the node, then the primary: the check passes exactly if the primary has executed everything the
      node has, and an answer from an earlier rejoin does not count. */
  lemma CheckDecides(d: Desk, n: Name)
    requires Can(d, ReadStable(n))
    ensures Can(Perform(d, ReadStable(n)), ReadPrimary(n))
    ensures var e := Perform(Perform(d, ReadStable(n)), ReadPrimary(n));
      e.f == d.f && OthersKept(d, e, n) &&
      (Can(e, Repoint(n, true)) <==> d.f.nodes[n].executed <= d.f.nodes[d.p].executed)
  {
  }

  /** A second writer is fenced: read-only, flagged, its sessions gone if they could be killed. */
  lemma FenceEnds(d: Desk, n: Name, killed: bool)
    requires Can(d, FenceWriter(n, killed))
    ensures var e := Perform(d, FenceWriter(n, killed));
      OthersKept(d, e, n) && e.f.nodes[n].fenced && e.f.nodes[n].superReadOnly && e.f.nodes[n].up &&
      e.f.nodes[n].executed == d.f.nodes[n].executed && (killed ==> e.f.nodes[n].waiting == {})
  {
  }

  /** A repoint that was taken leaves the node following the primary with what it had executed, one that was
      not leaves it as it was; either way the next rejoin starts from new reads. */
  lemma RepointEnds(d: Desk, n: Name, took: bool)
    requires Can(d, Repoint(n, took)) && d.f.nodes[n].up
    ensures var e := Perform(d, Repoint(n, took));
      OthersKept(d, e, n) && Forgotten(e, n) && e.f.nodes[n].executed == d.f.nodes[n].executed &&
      if took then Trails(e.f, n, d.p) && e.f.nodes[n].retrieved == {} else e.f.nodes[n] == d.f.nodes[n]
  {
  }

  /** A rebuild that goes through replaces the node's data by the donor's and leaves it following the
      primary; one whose clone failed changes nothing. */
  lemma RebuildEnds(d: Desk, n: Name, donor: Name)
    requires Can(d, Clone(n, donor, true)) && d.f.nodes[n].up
    ensures Can(Perform(d, Clone(n, donor, true)), RepointClone(n, true))
    ensures var e := Perform(Perform(d, Clone(n, donor, true)), RepointClone(n, true));
      OthersKept(d, e, n) && Forgotten(e, n) && Trails(e.f, n, d.p) &&
      e.f.nodes[n].executed == d.f.nodes[donor].executed && e.f.nodes[n].waiting == {}
    ensures var e := Perform(d, Clone(n, donor, false)); e.f == d.f && OthersKept(d, e, n) && Forgotten(e, n)
  {
    var e := Perform(d, Clone(n, donor, true));
    CloneEnds(d, n, donor);
    hide Contained, Follower, OthersKept;
    JoinEnds(e, n);
    KeptOn(d, e, Perform(e, RepointClone(n, true)), n);
  }

  lemma CloneEnds(d: Desk, n: Name, donor: Name)
    requires Can(d, Clone(n, donor, true)) && d.f.nodes[n].up
    ensures var e := Perform(d, Clone(n, donor, true));
      OthersKept(d, e, n) && n in e.cloned && n in e.f.nodes && e.f.nodes[n].up &&
      e.f.nodes[n].executed == d.f.nodes[donor].executed && e.f.nodes[n].waiting == {}
    ensures var e := Perform(d, Clone(n, donor, false)); e.f == d.f && OthersKept(d, e, n) && Forgotten(e, n)
  {
    hide Contained, Follower;
  }

  lemma JoinEnds(e: Desk, n: Name)
    requires n in e.cloned && n in e.f.nodes && e.f.nodes[n].up
    ensures Can(e, RepointClone(n, true))
    ensures var t := Perform(e, RepointClone(n, true));
      OthersKept(e, t, n) && Forgotten(t, n) && Trails(t.f, n, e.p) &&
      t.f.nodes[n].executed == e.f.nodes[n].executed && t.f.nodes[n].waiting == e.f.nodes[n].waiting
  {
  }

  lemma KeptOn(d: Desk, e: Desk, t: Desk, n: Name)
    requires OthersKept(d, e, n) && OthersKept(e, t, n)
    ensures OthersKept(d, t, n)
  {
  }

  /** A node the check refuses is not repointed, and can be rebuilt from the primary itself. */
  lemma RefusedIsRebuilt(d: Desk, n: Name)
    requires Can(d, ReadStable(n)) && !(d.f.nodes[n].executed <= d.f.nodes[d.p].executed)
    ensures var e := Perform(Perform(d, ReadStable(n)), ReadPrimary(n));
      !Can(e, Repoint(n, true)) && !Can(e, Repoint(n, false)) && Can(e, Clone(n, d.p, true))
  {
    CheckDecides(d, n);
  }

  /** What the fleet does by itself changes nothing on the desk. */
  lemma TickKeepsDesk(d: Desk, e: Env)
    requires Can(d, Tick(e))
    ensures Perform(d, Tick(e)) == d.(f := EnvDo(d.f, e))
  {
  }
}
