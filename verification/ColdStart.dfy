/** `cold_start_choice` of dbguard/manager/bootstrap.py: after a whole-set restart, which
    read-only node may be promoted in place. */
module ColdStart {
  import opened Intervals
  import opened GtidSets
  import opened Selection

  type Views = map<Name, NodeView>

  datatype Decision = NotColdStart | PromoteInPlace(node: Name) | Halt

  predicate Reached(views: Views, members: seq<Name>, m: Name) {
    m in members && m in views && views[m].Usable()
  }

  predicate Eligible(views: Views, members: seq<Name>, m: Name) {
    Reached(views, members, m) && !views[m].fenced && views[m].superReadOnly == Some(true)
  }

  /** The whole set rebooted: nobody writable, and the believed primary answers unfenced and
      read-only, or without one every member answers and some member replicates. */
  ghost predicate WholeSetRestart(views: Views, members: seq<Name>, believed: Option<Name>) {
    (forall m :: Reached(views, members, m) ==> !views[m].Writable()) &&
    match believed
    case Some(b) => Eligible(views, members, b)
    case None =>
      (exists m :: Reached(views, members, m) && views[m].replica.configured) &&
      forall m :: m in members ==> Reached(views, members, m)
  }

  /** Eligible, and its executed set holds all any reachable member holds, applied or not. */
  ghost predicate Keeps(views: Views, members: seq<Name>, m: Name) {
    Eligible(views, members, m) &&
    forall r :: Reached(views, members, r) ==> views[r].Have() <= views[m].executed
  }

  /** Qualifying nodes hold the same set, so choosing between them never chooses between data. */
  lemma KeepersAgree(views: Views, members: seq<Name>, a: Name, b: Name)
    requires Keeps(views, members, a) && Keeps(views, members, b)
    ensures views[a].executed == views[b].executed && views[a].Have() == views[b].executed
  {
    assert views[a].Have() <= views[b].executed && views[b].Have() <= views[a].executed;
  }

  ghost predicate FirstKeeper(views: Views, members: seq<Name>, i: int) {
    0 <= i < |members| && Keeps(views, members, members[i]) &&
    forall j :: 0 <= j < i ==> !Keeps(views, members, members[j])
  }

  // ----- the loops

  function Everything(views: Views, members: seq<Name>): Trxs {
    if members == [] then {}
    else
      var m := members[|members| - 1];
      var rest := Everything(views, members[..|members| - 1]);
      if m in views && views[m].Usable() then rest + views[m].Have() else rest
  }

  lemma {:induction false} EverythingWithin(views: Views, members: seq<Name>, s: Trxs)
    ensures Everything(views, members) <= s <==>
      forall r :: Reached(views, members, r) ==> views[r].Have() <= s
  {
    if members != [] {
      var init, m := members[..|members| - 1], members[|members| - 1];
      EverythingWithin(views, init, s);
      assert members == init + [m];
      assert forall r ::
        Reached(views, members, r) <==> Reached(views, init, r) || (r == m && Reached(views, members, m));
    }
  }

  predicate CanKeep(views: Views, m: Name, everything: Trxs)
    requires m in views
  {
    !views[m].fenced && views[m].superReadOnly == Some(true) && everything <= views[m].executed
  }

  /** `max(full, key=(count, -index))`: a larger set first, then the earlier member. */
  method PickFull(views: Views, members: seq<Name>, everything: Trxs) returns (best: Option<Name>)
    requires everything == Everything(views, members)
    ensures best.Some? <==> exists m :: Keeps(views, members, m)
    ensures best.Some? ==> exists i :: FirstKeeper(views, members, i) && members[i] == best.value
  {
    best := None;
    ghost var at := 0;
    var i := 0;
    while i < |members|
      invariant 0 <= i <= |members|
      invariant best.None? ==> forall j :: 0 <= j < i ==> !Keeps(views, members, members[j])
      invariant best.Some? ==> at < i && FirstKeeper(views, members, at) && members[at] == best.value
    {
      var m := members[i];
      if m in views && views[m].Usable() {
        assert Reached(views, members, m);
        EverythingWithin(views, members, views[m].executed);
        if CanKeep(views, m, everything) {
          if best.Some? {
            KeepersAgree(views, members, m, best.value);
          }
          if best.None? || |views[m].executed| > |views[best.value].executed| {
            best, at := Some(m), i;
          }
        }
      }
      i := i + 1;
    }
  }

  method AnyWritable(views: Views, members: seq<Name>) returns (any: bool)
    ensures any <==> exists m :: Reached(views, members, m) && views[m].Writable()
  {
    for i := 0 to |members|
      invariant forall j :: 0 <= j < i && members[j] in views ==> !views[members[j]].Writable()
    {
      var m := members[i];
      if m in views && views[m].Writable() {
        assert Reached(views, members, m);
        return true;
      }
    }
    return false;
  }

  method AllAnswerAndReplicate(views: Views, members: seq<Name>) returns (yes: bool)
    ensures yes <==>
      (exists m :: Reached(views, members, m) && views[m].replica.configured) &&
      forall m :: m in members ==> Reached(views, members, m)
  {
    var configured := false;
    for i := 0 to |members|
      invariant configured <==> exists j :: 0 <= j < i && members[j] in views && views[members[j]].replica.configured
      invariant forall j :: 0 <= j < i ==> Reached(views, members, members[j])
    {
      var m := members[i];
      if m !in views || !views[m].Usable() {
        assert m in members && !Reached(views, members, m);
        return false;
      }
      configured := configured || views[m].replica.configured;
    }
    if configured {
      var j :| 0 <= j < |members| && members[j] in views && views[members[j]].replica.configured;
      assert Reached(views, members, members[j]);
    }
    return configured;
  }

  /** Cold start keeps everything: it promotes a read-only, unfenced node that holds all that any
      reachable member holds, the believed primary if it qualifies, else the first that does; it
      halts exactly when the whole set restarted and nobody qualifies. */
  method ColdStartChoice(views: Views, members: seq<Name>, believed: Option<Name>) returns (d: Decision)
    ensures d.NotColdStart? <==> !WholeSetRestart(views, members, believed)
    ensures d.Halt? <==> WholeSetRestart(views, members, believed) && forall m :: !Keeps(views, members, m)
    ensures d.PromoteInPlace? ==> Keeps(views, members, d.node)
    ensures d.PromoteInPlace? && believed.Some? && Keeps(views, members, believed.value) ==>
      d.node == believed.value
    ensures d.PromoteInPlace? && !(believed.Some? && Keeps(views, members, believed.value)) ==>
      exists i :: FirstKeeper(views, members, i) && members[i] == d.node
  {
    var writable := AnyWritable(views, members);
    if writable {
      return NotColdStart;
    }
    if believed.Some? {
      if !Eligible(views, members, believed.value) {
        return NotColdStart;
      }
    } else {
      var whole := AllAnswerAndReplicate(views, members);
      if !whole {
        return NotColdStart;
      }
    }
    var everything: Trxs := {};
    for i := 0 to |members|
      invariant everything == Everything(views, members[..i])
    {
      assert members[..i + 1][..i] == members[..i];
      var m := members[i];
      if m in views && views[m].Usable() {
        everything := everything + views[m].Have();
      }
    }
    assert members[..|members|] == members;
    if believed.Some? {
      EverythingWithin(views, members, views[believed.value].executed);
      if everything <= views[believed.value].executed {
        assert Keeps(views, members, believed.value);
        return PromoteInPlace(believed.value);
      }
    }
    var best := PickFull(views, members, everything);
    d := if best.Some? then PromoteInPlace(best.value) else Halt;
  }
}
