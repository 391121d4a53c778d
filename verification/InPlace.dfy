/** What a promotion in place does to the fleet its views were read from (dbguard/manager/bootstrap.py): one
    writer, holding all that anybody who answered holds. */
module InPlace {
  import opened Intervals
  import opened GtidSets
  import opened Selection
  import opened Fleet
  import opened ColdStart

  /** The views are what the members show now; a member may have failed to answer. */
  ghost predicate ViewsNow(f: Fleet, members: seq<Name>, views: Views) {
    forall m :: m in views ==>
      m in f.nodes && (views[m] == ViewOf(f, m) || views[m] == Unreachable(m))
  }

  predicate Answers(views: Views, members: seq<Name>, m: Name) {
    m in members && m in views && views[m].reachable && views[m].responsive
  }

  /** Nobody who answered takes writes, fenced nodes apart, before the promotion; afterwards exactly the
      promoted node does, and it has executed whatever a member that answered has executed or received. */
  lemma OneWriterInPlace(f: Fleet, members: seq<Name>, views: Views, believed: Option<Name>, n: Name)
    requires ViewsNow(f, members, views) && WholeSetRestart(views, members, believed) && Keeps(views, members, n)
    ensures Answers(views, members, n) && f.nodes[n].up && f.nodes[n].superReadOnly && !f.nodes[n].fenced
    ensures forall m :: Answers(views, members, m) ==> f.nodes[m].superReadOnly || f.nodes[m].fenced
    ensures var t := Put(f, n, PromotedNode(f.nodes[n]));
      Leads(t, n) &&
      (forall m :: Answers(views, members, m) && m != n ==> t.nodes[m].superReadOnly || t.nodes[m].fenced) &&
      forall m :: Answers(views, members, m) ==>
        f.nodes[m].executed <= t.nodes[n].executed && f.nodes[m].retrieved <= t.nodes[n].executed
  {
    assert Reached(views, members, n);
    forall m | Answers(views, members, m)
      ensures f.nodes[m].superReadOnly || f.nodes[m].fenced
      ensures f.nodes[m].executed <= f.nodes[n].executed && f.nodes[m].retrieved <= f.nodes[n].executed
    {
      assert Reached(views, members, m) && views[m] == ViewOf(f, m);
      assert f.nodes[m].executed <= views[m].Have() && f.nodes[m].retrieved <= views[m].Have();
    }
  }

  /** When the whole set counts as restarted: nobody who answered is writable, and the believed primary
      answered, read-only and unfenced; with no primary believed in, every member answered and some member
      replicates. */
  lemma RestartMeans(f: Fleet, members: seq<Name>, views: Views, believed: Option<Name>)
    requires ViewsNow(f, members, views)
    ensures WholeSetRestart(views, members, believed) <==>
      (forall m :: Answers(views, members, m) ==> f.nodes[m].superReadOnly || f.nodes[m].fenced) &&
      (if believed.Some? then
         Answers(views, members, believed.value) &&
         f.nodes[believed.value].superReadOnly && !f.nodes[believed.value].fenced
       else
         (exists m :: Answers(views, members, m) && f.nodes[m].source.Some?) &&
         forall m :: m in members ==> Answers(views, members, m))
  {
    forall m ensures Answers(views, members, m) <==> Reached(views, members, m) {
    }
    forall m | Answers(views, members, m)
      ensures views[m].Writable() <==> !f.nodes[m].superReadOnly && !f.nodes[m].fenced
      ensures views[m].replica.configured <==> f.nodes[m].source.Some?
      ensures Eligible(views, members, m) <==> f.nodes[m].superReadOnly && !f.nodes[m].fenced
    {
      assert views[m] == ViewOf(f, m);
    }
    hide ViewOf, Reached;
  }
}
