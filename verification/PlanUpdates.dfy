/** Collecting the updates of all components into one plan. */
module PlanUpdates {
  import opened Wrappers
  import opened Collections
  import opened Sorting

  datatype Change = Change(variable: string, before: string, after: string, details: string)

  datatype Component = Component(outdated: bool, updates: seq<Change>)

  /** The updates of the outdated components, in order. */
  function Proposed(components: seq<Component>): seq<Change> {
    if components == [] then []
    else
      var last := components[|components| - 1];
      Proposed(components[..|components| - 1]) + if last.outdated then last.updates else []
  }

  predicate Agree(changes: seq<Change>) {
    forall a, b | a in changes && b in changes && a.variable == b.variable :: a == b
  }

  /** The dictionary of the proposals so far, with its keys. */
  ghost predicate Collected(updates: map<string, Change>, names: seq<string>, changes: seq<Change>) {
    && Distinct(names) && (forall v :: v in names <==> v in updates)
    && (forall c | c in changes :: c.variable in updates && updates[c.variable] == c)
    && (forall v | v in updates :: updates[v].variable == v && updates[v] in changes)
  }

  method AddUpdates(updates0: map<string, Change>, names0: seq<string>, more: seq<Change>, ghost before: seq<Change>)
    returns (ok: bool, updates: map<string, Change>, names: seq<string>)
    requires Collected(updates0, names0, before)
    ensures ok ==> Collected(updates, names, before + more)
    ensures !ok ==> !Agree(before + more)
  {
    hide Distinct;
    ok, updates, names := true, updates0, names0;
    assert before + more[..0] == before;
    for i := 0 to |more|
      invariant Collected(updates, names, before + more[..i])
    {
      var c := more[i];
      assert before + more[..i + 1] == (before + more[..i]) + [c];
      if c.variable in updates && updates[c.variable] != c {
        ghost var known := updates[c.variable];
        assert known in before + more[..i];
        assert c in more && known in before + more;
        return false, updates, names;
      }
      if c.variable !in updates { DistinctSnoc(names, c.variable); }
      names := if c.variable in updates then names else names + [c.variable];
      updates := updates[c.variable := c];
    }
    assert more[..|more|] == more;
  }

  lemma AgreeingPart(a: seq<Change>, b: seq<Change>)
    requires Agree(a + b)
    ensures Agree(a)
  {
    assert forall c | c in a :: c in a + b;
  }

  lemma {:induction false} AgreeingPrefix(components: seq<Component>, k: nat)
    requires k <= |components| && Agree(Proposed(components))
    ensures Agree(Proposed(components[..k]))
    decreases |components|
  {
    hide Agree;
    if k < |components| {
      var n := |components| - 1;
      AgreeingPart(Proposed(components[..n]), if components[n].outdated then components[n].updates else []);
      AgreeingPrefix(components[..n], k);
      assert components[..n][..k] == components[..k];
    } else {
      assert components[..k] == components;
    }
  }

  lemma CollectedAgrees(updates: map<string, Change>, names: seq<string>, changes: seq<Change>)
    requires Collected(updates, names, changes)
    ensures Agree(changes)
  {
  }

  /** The plan in order of its variables. */
  ghost predicate IsPlan(plan: seq<Change>, changes: seq<Change>) {
    && (forall c :: c in plan <==> c in changes)
    && (forall i | 0 < i < |plan| :: StringLeq(plan[i - 1].variable, plan[i].variable))
    && (forall i, j | 0 <= i < j < |plan| :: plan[i].variable != plan[j].variable)
  }

  lemma ListedByName(updates: map<string, Change>, order: seq<string>, changes: seq<Change>, plan: seq<Change>)
    requires Collected(updates, order, changes) && Ascending(order, StringLeq)
    requires |plan| == |order| && forall i | 0 <= i < |plan| :: order[i] in updates && plan[i] == updates[order[i]]
    ensures IsPlan(plan, changes)
  {
    hide StringLeq;
    assert forall i | 0 <= i < |plan| :: plan[i].variable == order[i];
    forall c
      ensures c in plan <==> c in changes
    {
      if c in changes {
        assert c.variable in order;
        var i :| 0 <= i < |order| && order[i] == c.variable;
        assert plan[i] == c;
      }
    }
  }

  lemma Listed(updates: map<string, Change>, names: seq<string>, changes: seq<Change>, plan: seq<Change>)
    requires Collected(updates, names, changes)
    requires var order := Sort(names, StringLeq);
             |plan| == |order| && forall i | 0 <= i < |plan| :: order[i] in updates && plan[i] == updates[order[i]]
    ensures IsPlan(plan, changes)
  {
    var order := Sort(names, StringLeq);
    SortKeepsDistinct(names, order);
    SameMembers(names, order);
    StringTotal();
    SortAscends(names, StringLeq);
    hide Sort, StringLeq, Total, Distinct, Ascending, IsPlan;
    ListedByName(updates, order, changes, plan);
  }

  function Variables(plan: seq<Change>): (r: seq<string>)
    ensures |r| == |plan| && forall i | 0 <= i < |r| :: r[i] == plan[i].variable
  {
    seq(|plan|, i requires 0 <= i < |plan| => plan[i].variable)
  }

  lemma VariablesOf(plan: seq<Change>, changes: seq<Change>)
    requires IsPlan(plan, changes)
    ensures Distinct(Variables(plan)) && Ascending(Variables(plan), StringLeq)
    ensures forall v :: v in Variables(plan) <==> exists c :: c in changes && c.variable == v
  {
    hide StringLeq;
    var vs := Variables(plan);
    forall v
      ensures v in vs <==> exists c :: c in changes && c.variable == v
    {
      if v in vs {
        var i :| 0 <= i < |vs| && vs[i] == v;
        assert plan[i] in plan;
      }
      if c :| c in changes && c.variable == v {
        assert c in plan;
        var i :| 0 <= i < |plan| && plan[i] == c;
        assert vs[i] == v;
      }
    }
  }

  /** The plan depends on what is proposed only, not on the order of the components. */
  lemma PlanIsUnique(p: seq<Change>, a: seq<Change>, q: seq<Change>, b: seq<Change>)
    requires IsPlan(p, a) && IsPlan(q, b) && forall c :: c in a <==> c in b
    ensures p == q
  {
    VariablesOf(p, a);
    VariablesOf(q, b);
    hide StringLeq, Ascending;
    SameDistinctContents(Variables(p), Variables(q));
    AscendingIsUnique(Variables(p), Variables(q));
    forall i | 0 <= i < |p|
      ensures p[i] == q[i]
    {
      assert p[i] in q;
      var j :| 0 <= j < |q| && q[j] == p[i];
      assert Variables(p)[i] == Variables(q)[i];
    }
  }

  /**
    One update for each variable, in order of the variables: the plan holds exactly what the outdated
    components propose, and there is one exactly when no two of them disagree on a variable.
   */
  method UniqueUpdates(components: seq<Component>) returns (r: Option<seq<Change>>)
    ensures r.Some? <==> Agree(Proposed(components))
    ensures r.Some? ==> IsPlan(r.value, Proposed(components))
  {
    hide Agree, Collected, IsPlan;
    var updates: map<string, Change> := map[];
    var names: seq<string> := [];
    NothingCollected();
    for k := 0 to |components|
      invariant Collected(updates, names, Proposed(components[..k]))
    {
      assert components[..k + 1][..k] == components[..k];
      if components[k].outdated {
        var ok;
        ok, updates, names := AddUpdates(updates, names, components[k].updates, Proposed(components[..k]));
        if !ok {
          if Agree(Proposed(components)) { AgreeingPrefix(components, k + 1); }
          return None;
        }
      } else {
        assert Proposed(components[..k]) + [] == Proposed(components[..k]);
      }
    }
    assert components[..|components|] == components;
    CollectedAgrees(updates, names, Proposed(components));
    var plan := Values(updates, names, Proposed(components));
    r := Some(plan);
  }

  lemma NothingCollected()
    ensures Collected(map[], [], [])
  {
  }

  method Values(updates: map<string, Change>, names: seq<string>, ghost changes: seq<Change>)
      returns (plan: seq<Change>)
    requires Collected(updates, names, changes)
    ensures IsPlan(plan, changes)
  {
    var order := Sort(names, StringLeq);
    SameMembers(names, order);
    hide Sort;
    assert forall i | 0 <= i < |order| :: order[i] in order;
    plan := seq(|order|, i requires 0 <= i < |order| => updates[order[i]]);
    Listed(updates, names, changes, plan);
  }
}
