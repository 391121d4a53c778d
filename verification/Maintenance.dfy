/** Rejoins and rebuilds under one primary as a transition system: fencing a second writer, the
    stable read, the primary's read, the repoint, the clone and the repoint after it, of any
    number of nodes, interleaved with every step of the fleet (dbguard/manager/rejoin.py). */
module Maintenance {
  import opened Intervals
  import opened GtidSets
  import opened Selection
  import opened Fleet
  import opened Errant
  import opened Supply

  /** `stable` holds the set each node under rejoin was last read with, `passed` those the subset
      check accepted, `cloned` those restored from a donor and not yet repointed. */
  datatype Desk = Desk(f: Fleet, p: Name, stable: map<Name, Trxs>, passed: set<Name>, cloned: set<Name>)

  datatype Job =
    | Tick(e: Env)
    | FenceWriter(n: Name, killed: bool)
    | ReadStable(n: Name)
    | ReadPrimary(n: Name)
    | Repoint(n: Name, took: bool)
    | Clone(n: Name, donor: Name, took: bool)
    | RepointClone(n: Name, took: bool)

  /** A donor streams from the primary, or is the primary; one chosen under an earlier primary must
      still be contained in this one. `ReadStable` is where the guarantee's condition enters, the exact
      one of SubsetCheckDecides: the check fails anyway, or the node can come to execute nothing the
      primary lacks. */
  ghost predicate Can(d: Desk, j: Job) {
    match j
    case Tick(e) => EnvEnabled(d.f, e)
    case FenceWriter(n, _) => n in d.f.nodes && n != d.p
    case ReadStable(n) =>
      n != d.p && n in d.f.nodes && d.p in d.f.nodes && n !in d.cloned &&
      (d.f.nodes[n].executed <= d.f.nodes[d.p].executed ==> Contained(d.f, n, d.p))
    case ReadPrimary(n) => n in d.stable && d.p in d.f.nodes
    case Repoint(n, took) => n in d.passed && n in d.f.nodes
    case Clone(n, donor, took) =>
      n in d.f.nodes && n != d.p && n != donor && donor in d.f.nodes &&
      (donor == d.p || Follower(d.f, donor, d.p) || Contained(d.f, donor, d.p))
    case RepointClone(n, took) => n in d.cloned && n in d.f.nodes
  }

  ghost function Forget(d: Desk, n: Name): Desk {
    d.(stable := d.stable - {n}, passed := d.passed - {n}, cloned := d.cloned - {n})
  }

  ghost function Perform(d: Desk, j: Job): Desk
    requires Can(d, j)
  {
    match j
    case Tick(e) => d.(f := EnvDo(d.f, e))
    case FenceWriter(n, killed) => d.(f := Put(d.f, n, FencedNode(d.f.nodes[n], killed)))
    case ReadStable(n) => d.(stable := d.stable[n := d.f.nodes[n].executed], passed := d.passed - {n})
    case ReadPrimary(n) =>
      if d.stable[n] <= d.f.nodes[d.p].executed then d.(passed := d.passed + {n}) else d
    case Repoint(n, took) =>
      if took then Forget(d, n).(f := Attached(d.f, n, d.p)) else Forget(d, n)
    case Clone(n, donor, took) =>
      if took then
        var e := Forget(d, n);
        e.(f := Put(d.f, n, RebuiltNode(d.f.nodes[n], d.f.nodes[donor])), cloned := e.cloned + {n})
      else Forget(d, n)
    case RepointClone(n, took) =>
      if took then Forget(d, n).(f := Attached(d.f, n, d.p)) else Forget(d, n)
  }

  /** A node about to be attached: it will be within the primary when it is. */
  ghost predicate Joinable(f: Fleet, n: Name, p: Name) {
    n != p && Contained(f, n, p)
  }

  /** What was read stays executed, and if the primary holds it the node is contained. */
  ghost predicate Reading(f: Fleet, n: Name, p: Name, shown: Trxs) {
    n != p && n in f.nodes && p in f.nodes && shown <= f.nodes[n].executed &&
    (shown <= f.nodes[p].executed ==> Contained(f, n, p))
  }

  ghost predicate Sane(d: Desk) {
    Primary(d.f, d.p) && Clean(d.f, d.p) &&
    (forall n :: n in d.stable ==> Reading(d.f, n, d.p, d.stable[n])) &&
    (forall n :: n in d.passed ==> Joinable(d.f, n, d.p)) &&
    (forall n :: n in d.cloned ==> Joinable(d.f, n, d.p))
  }

  // ----- single jobs

  lemma ReadingEnv(f: Fleet, n: Name, p: Name, shown: Trxs, e: Env)
    requires Reading(f, n, p, shown) && Primary(f, p) && EnvEnabled(f, e)
    ensures Reading(EnvDo(f, e), n, p, shown)
  {
    ExcessEnv(f, n, p, e);
    if shown <= f.nodes[p].executed {
      ContainedEnv(f, n, p, f.nodes[p].executed, e);
    } else {
      var g :| g in shown && g !in f.nodes[p].executed;
      assert g in Excess(f, n, p);
    }
  }

  lemma SaneTick(d: Desk, e: Env)
    requires Sane(d) && EnvEnabled(d.f, e)
    ensures Sane(d.(f := EnvDo(d.f, e)))
  {
    ExcessEnv(d.f, d.p, d.p, e);
    CleanEnv(d.f, d.p, e);
    forall n | n in d.stable ensures Reading(EnvDo(d.f, e), n, d.p, d.stable[n]) {
      ReadingEnv(d.f, n, d.p, d.stable[n], e);
    }
    forall n | n in d.passed ensures Joinable(EnvDo(d.f, e), n, d.p) {
      ContainedEnv(d.f, n, d.p, d.f.nodes[d.p].executed, e);
    }
    forall n | n in d.cloned ensures Joinable(EnvDo(d.f, e), n, d.p) {
      ContainedEnv(d.f, n, d.p, d.f.nodes[d.p].executed, e);
    }
  }

  /** What another job does to one node leaves the nodes under rejoin contained. */
  lemma OthersPut(d: Desk, m: Name, node: Node)
    requires Sane(d) && Mild(d.f, d.p, m, node, d.f.nodes[d.p].executed)
    ensures forall n :: n in d.passed || n in d.cloned ==> Joinable(Put(d.f, m, node), n, d.p)
    ensures forall n :: (n in d.stable && (n == m ==> d.f.nodes[m].executed <= node.executed)) ==>
      Reading(Put(d.f, m, node), n, d.p, d.stable[n])
  {
    forall n | n in d.passed || n in d.cloned ensures Joinable(Put(d.f, m, node), n, d.p) {
      ContainedPut(d.f, n, d.p, d.f.nodes[d.p].executed, m, node);
    }
    forall n | n in d.stable && (n == m ==> d.f.nodes[m].executed <= node.executed)
      ensures Reading(Put(d.f, m, node), n, d.p, d.stable[n])
    {
      if d.stable[n] <= d.f.nodes[d.p].executed { ContainedPut(d.f, n, d.p, d.f.nodes[d.p].executed, m, node); }
    }
  }

  lemma SaneFence(d: Desk, n: Name, killed: bool)
    requires Sane(d) && Can(d, FenceWriter(n, killed))
    ensures Sane(Perform(d, FenceWriter(n, killed)))
  {
    CleanSame(d.f, d.p, n, FencedNode(d.f.nodes[n], killed));
    OthersPut(d, n, FencedNode(d.f.nodes[n], killed));
  }

  lemma SaneAttach(d: Desk, n: Name)
    requires Sane(d) && Joinable(d.f, n, d.p)
    ensures Sane(Forget(d, n).(f := Attached(d.f, n, d.p)))
  {
    ContainedNow(d.f, n, d.p, d.f.nodes[d.p].executed);
    var node := RepointedNode(d.f.nodes[n], d.p);
    CleanAfterPut(d.f, d.p, n, node);
    assert node.executed + Pending(node) == d.f.nodes[n].executed;
    OthersPut(d, n, node);
  }

  lemma SaneClone(d: Desk, n: Name, donor: Name)
    requires Sane(d) && Can(d, Clone(n, donor, true))
    ensures Sane(Perform(d, Clone(n, donor, true)))
  {
    var node := RebuiltNode(d.f.nodes[n], d.f.nodes[donor]);
    if donor != d.p && Contained(d.f, donor, d.p) {
      ContainedNow(d.f, donor, d.p, d.f.nodes[d.p].executed);
    }
    assert d.f.nodes[donor].executed <= d.f.nodes[d.p].executed;
    assert node.executed + Pending(node) == node.executed;
    CleanAfterPut(d.f, d.p, n, node);
    OthersPut(d, n, node);
    QuietContained(Put(d.f, n, node), n, d.p, d.f.nodes[d.p].executed);
  }

  /** Every job keeps every follower of the primary within the primary. */
  lemma SaneStep(d: Desk, j: Job)
    requires Sane(d) && Can(d, j)
    ensures Sane(Perform(d, j))
  {
    match j
    case Tick(e) => SaneTick(d, e);
    case FenceWriter(n, killed) => SaneFence(d, n, killed);
    case Repoint(n, took) => if took { SaneAttach(d, n); }
    case Clone(n, donor, took) => if took { SaneClone(d, n, donor); }
    case RepointClone(n, took) => if took { SaneAttach(d, n); }
    case _ =>
  }

  ghost predicate Jobs(d: Desk, js: seq<Job>)
    decreases |js|
  {
    js == [] || (Can(d, js[0]) && Jobs(Perform(d, js[0]), js[1..]))
  }

  ghost function Done(d: Desk, js: seq<Job>): Desk
    requires Jobs(d, js)
    decreases |js|
  {
    if js == [] then d else Done(Perform(d, js[0]), js[1..])
  }

  /** No errant transactions: from a clean set, over any interleaving of commits, replication,
      restarts, fences, subset-checked repoints and clone rebuilds, every node replicating from
      the primary has executed only what the primary has executed. */
  lemma {:induction false} NoErrantTransactions(d: Desk, js: seq<Job>)
    requires Sane(d) && Jobs(d, js)
    ensures Sane(Done(d, js)) && Done(d, js).p == d.p
    ensures var t := Done(d, js);
      forall n :: Follower(t.f, n, t.p) ==> t.f.nodes[n].executed <= t.f.nodes[t.p].executed
    decreases |js|
  {
    if js != [] {
      SaneStep(d, js[0]);
      NoErrantTransactions(Perform(d, js[0]), js[1..]);
    }
  }
}
