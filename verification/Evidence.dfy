/** What the witnesses' evidence means (dbguard/manager/detector.py): which replicas vote the primary lost,
    and the histories on which it is declared dead or never is. */
module Evidence {
  import opened Intervals
  import opened GtidSets
  import opened Selection
  import opened Detector

  /** The replica is connected and can reach its source, so only its heartbeat row can speak against the
      primary. */
  predicate Connected(v: Seen) {
    v.nv.replica.ioRunning == Yes && v.sourceReachable != Some(false)
  }

  /** How old the row was when the replica received it. */
  function RowAge(v: Seen): real
    requires v.heartbeatAge.Some?
  {
    v.heartbeatAge.value - (if v.secondsBehind.None? then 0.0 else v.secondsBehind.value as real)
  }

  /** A replica that is down, or is no replica of this primary, does not vote; one that lost its
      connection does; a connected one votes exactly when its row was written more than one and at most
      ten windows ago, apply lag not counted. */
  lemma VoteMeans(nodes: map<Name, Seen>, m: Name, primary: Name, window: real)
    requires m in nodes
    ensures (!nodes[m].nv.Usable() || !nodes[m].nv.replica.configured ||
             nodes[m].nv.replica.sourceHost != Some(primary)) ==> !Votes(nodes, m, primary, window)
    ensures IsWitness(nodes, m, primary) && !Connected(nodes[m]) ==> Votes(nodes, m, primary, window)
    ensures IsWitness(nodes, m, primary) && Connected(nodes[m]) ==>
      (Votes(nodes, m, primary, window) <==>
         nodes[m].heartbeatAge.Some? && window < RowAge(nodes[m]) <= 10.0 * window)
  {
  }

  /** The members that replicate from the primary all say the same. */
  ghost predicate AllWitnesses(ob: Observation, members: seq<Name>, primary: Name, window: real, vote: bool) {
    forall m :: m in Witnesses(ob, members, primary) ==> (Votes(ob.nodes, m, primary, window) <==> vote)
  }

  lemma Unanimous(ob: Observation, members: seq<Name>, primary: Name, window: real, vote: bool)
    requires AllWitnesses(ob, members, primary, window, vote)
    ensures Voters(ob, members, primary, window) == if vote then Witnesses(ob, members, primary) else {}
    ensures StrictMajority(ob, members, primary, window) <==> vote && Witnesses(ob, members, primary) != {}
  {
    assert forall m :: m in Voters(ob, members, primary, window) ==> m in Witnesses(ob, members, primary);
    var voters, all := Voters(ob, members, primary, window), Witnesses(ob, members, primary);
    assert voters == if vote then all else {};
    if all != {} {
      var m :| m in all;
      assert all == {m} + (all - {m});
    }
  }

  /** Every witness is connected, and the row it applied was received when it was between one and ten
      windows old: the primary answers nobody, but its connections stand. */
  ghost predicate Hung(ob: Observation, members: seq<Name>, primary: Name, window: real) {
    ProbeDown(ob, primary) && Witnesses(ob, members, primary) != {} &&
    forall m :: m in Witnesses(ob, members, primary) ==>
      Connected(ob.nodes[m]) && ob.nodes[m].heartbeatAge.Some? && window < RowAge(ob.nodes[m]) <= 10.0 * window
  }

  /** A hung primary is declared dead once it has been hung for a window and enough probes. */
  lemma HungIsDead(h: seq<Observation>, members: seq<Name>, p: Params, primary: Name, k: nat)
    requires k < |h| && (forall j :: k <= j < |h| ==> Hung(h[j], members, primary, p.window))
    requires |h| - k >= p.probeFailures && h[|h| - 1].ts - h[k].ts >= p.window
    ensures IsDead(h, members, p)
  {
    forall j | k <= j < |h| ensures ProbeDown(h[j], primary) && QuorumDown(h[j], members, primary, p.window) {
      assert Hung(h[j], members, primary, p.window);
      forall m | m in Witnesses(h[j], members, primary) ensures Votes(h[j].nodes, m, primary, p.window) {
        VoteMeans(h[j].nodes, m, primary, p.window);
      }
      Unanimous(h[j], members, primary, p.window, true);
    }
    assert LostSince(h, members, primary, p.window, k);
    assert ProbeStart(h, primary) <= k;
  }

  /** Every witness is connected, and its row is recent but for its apply lag, or left over from before a
      restart of the whole set. */
  ghost predicate Explained(ob: Observation, members: seq<Name>, primary: Name, window: real) {
    forall m :: m in Witnesses(ob, members, primary) ==>
      Connected(ob.nodes[m]) &&
      (ob.nodes[m].heartbeatAge.None? || RowAge(ob.nodes[m]) <= window || RowAge(ob.nodes[m]) > 10.0 * window)
  }

  /** Replicas that lag, and rows left over from before a restart, never make a primary dead, however long
      its probes fail. */
  lemma LaggingIsNotDead(h: seq<Observation>, members: seq<Name>, p: Params)
    requires h != [] && h[|h| - 1].primary.Some?
    requires Explained(h[|h| - 1], members, h[|h| - 1].primary.value, p.window)
    ensures !IsDead(h, members, p)
  {
    var last := h[|h| - 1];
    var primary := last.primary.value;
    forall m | m in Witnesses(last, members, primary) ensures !Votes(last.nodes, m, primary, p.window) {
      VoteMeans(last.nodes, m, primary, p.window);
    }
    Unanimous(last, members, primary, p.window, false);
    assert forall k :: LostSince(h, members, primary, p.window, k) ==> QuorumDown(last, members, primary, p.window);
  }

  /** Probes that fail alone make nobody dead: without a witness, or with half of them still connected to the
      primary, the manager is the one cut off. */
  lemma HalfIsNotDead(h: seq<Observation>, members: seq<Name>, p: Params)
    requires h != [] && h[|h| - 1].primary.Some?
    requires var ob, primary := h[|h| - 1], h[|h| - 1].primary.value;
      2 * |Voters(ob, members, primary, p.window)| <= |Witnesses(ob, members, primary)|
    ensures !IsDead(h, members, p)
  {
    var last := h[|h| - 1];
    var primary := last.primary.value;
    assert forall k :: LostSince(h, members, primary, p.window, k) ==> QuorumDown(last, members, primary, p.window);
  }
}
