/**
 * Two definitions of "ready for sign-off" agree in every reachable state: the loop of loadHandoff
 * (internal/web/portal.go), which guards the sign-off, and the nested query of the staff overview
 * (internal/web/home.go). They agree because numbers are unique and waivers carry a reason.
 */
module Handoff {
  import opened Basics
  import opened Timestamps
  import opened JobTable
  import opened Domain
  import opened Schema
  import opened Requests
  import opened Identity
  import opened Approval

  // ---- the loop ----

  datatype Line = Line(row: Row, satisfied: bool)

  /** Ready starts true, is folded over the rows, and an empty list is not ready. */
  method LoadHandoff(selected: seq<Row>) returns (ready: bool, lines: seq<Line>)
    ensures ready <==> AllSatisfied(selected)
    ensures |lines| == |selected|
    ensures forall i | 0 <= i < |lines| :: lines[i].row == selected[i] && (lines[i].satisfied <==> selected[i].Satisfied())
  {
    ready, lines := true, [];
    var i := 0;
    while i < |selected|
      invariant 0 <= i <= |selected| && |lines| == i
      invariant ready <==> forall k | 0 <= k < i :: selected[k].Satisfied()
      invariant forall k | 0 <= k < i :: lines[k].row == selected[k] && (lines[k].satisfied <==> selected[k].Satisfied())
    {
      var row := selected[i];
      var satisfied := row.state == Some(Approved) || row.waiver != "";
      ready := ready && satisfied;
      lines := lines + [Line(row, satisfied)];
      i := i + 1;
    }
    if |lines| == 0 {
      ready := false;
    }
  }

  // ---- the overview query ----

  ghost predicate Waived(db: Db, d: Id) { exists w :: w in db.waivers && db.waivers[w].deliverable == d }

  /** ORDER BY number DESC LIMIT 1. */
  ghost predicate LatestApproved(db: Db, d: Id) {
    NewestOf(db, d).Some? && db.versions[NewestOf(db, d).value].state.Approved?
  }

  /** The WHERE clause: active, something required, and nothing required that is neither waived nor approved. */
  ghost predicate OnOverview(db: Db, p: Id) {
    && Writable(db, p)
    && (exists d :: Required(db, d, p))
    && !exists d :: Required(db, d, p) && !Waived(db, d) && !LatestApproved(db, d)
  }

  // ---- the two queries pick the same version and the same waiver ----

  /** The join on max(number) finds one version at most, the one the ORDER BY finds. */
  lemma JoinFindsNewest(db: Db, v: Id, d: Id)
    requires Unique(db.versions)
    ensures Newest(db, v, d) <==> NewestOf(db, d) == Some(v)
  {
    NewestExists(db, d);
    if Newest(db, v, d) {
      assert Belongs(db, v, d);
      var u := NewestOf(db, d).value;
      assert Belongs(db, u, d) && db.versions[u].number == db.versions[v].number;
    }
  }

  /** Some waiver of d is newest in text order. */
  lemma {:induction false} LatestOf(db: Db, ids: set<Id>) returns (w: Id)
    requires ids != {} && ids <= db.waivers.Keys
    ensures w in ids && forall u | u in ids :: !Before(db.waivers[w].at, db.waivers[u].at)
    decreases |ids|
  {
    hide Time;
    var u :| u in ids;
    NotBeforeItself(db.waivers[u].at);
    if ids == {u} {
      w := u;
    } else {
      var rest := LatestOf(db, ids - {u});
      var a, b := Time(db.waivers[rest].at), Time(db.waivers[u].at);
      if Less(a, b) {
        w := u;
        forall x | x in ids
          ensures !Before(db.waivers[w].at, db.waivers[x].at)
        {
          if x != u && Less(b, Time(db.waivers[x].at)) {
            LessTransitive(a, b, Time(db.waivers[x].at));
          }
        }
      } else {
        w := rest;
      }
    }
  }

  /** The text of a waiver is there exactly when there is one, since reasons are not empty. */
  lemma WaiverShown(db: Db, d: Id)
    requires Linked(db)
    ensures WaiverOf(db, d) != "" <==> Waived(db, d)
  {
    hide Before;
    if w :| w in db.waivers && db.waivers[w].deliverable == d {
      var ids := set u | u in db.waivers && db.waivers[u].deliverable == d;
      assert w in ids;
      var top := LatestOf(db, ids);
      assert LastWaiver(db, top, d) by {
        forall u | u in db.waivers && db.waivers[u].deliverable == d
          ensures !Before(db.waivers[top].at, db.waivers[u].at)
        {
          assert u in ids;
        }
      }
    }
  }

  lemma RowSatisfied(db: Db, d: Id)
    requires Linked(db)
    ensures RowOf(db, d).Satisfied() <==> Waived(db, d) || LatestApproved(db, d)
  {
    hide WaiverOf, NewestOf, Waived;
    WaiverShown(db, d);
  }

  lemma RowsMean(db: Db, order: seq<Id>, p: Id)
    requires Linked(db) && Lists(db, order, p)
    ensures AllSatisfied(RowsOf(db, order)) <==>
      (exists d :: Required(db, d, p)) && !exists d :: Required(db, d, p) && !Waived(db, d) && !LatestApproved(db, d)
  {
    hide Linked, RowOf, Waived, LatestApproved, Required;
    var rows := RowsOf(db, order);
    forall i | 0 <= i < |order|
      ensures rows[i] in rows && (rows[i].Satisfied() <==> Waived(db, order[i]) || LatestApproved(db, order[i]))
      ensures Required(db, order[i], p)
    {
      RowSatisfied(db, order[i]);
      assert order[i] in order;
    }
    if order != [] {
      assert Required(db, order[0], p);
    }
    if AllSatisfied(rows) {
      forall d | Required(db, d, p)
        ensures Waived(db, d) || LatestApproved(db, d)
      {
        assert d in order;
        var i :| 0 <= i < |order| && order[i] == d;
        assert rows[i] in rows;
      }
    }
  }

  /** Every project has such a list: the query always has a result. */
  lemma {:induction false} ListExists(ids: set<Id>) returns (order: seq<Id>)
    ensures forall d :: d in order <==> d in ids
    ensures forall i, j | 0 <= i < j < |order| :: order[i] != order[j]
    decreases |ids|
  {
    if ids == {} {
      order := [];
    } else {
      var d :| d in ids;
      var rest := ListExists(ids - {d});
      order := [d] + rest;
    }
  }

  /**
   * In every reachable state, and for every order in which the checklist may list the required
   * deliverables, the overview shows a project as ready for sign-off exactly when the sign-off
   * guard lets the client sign.
   */
  lemma DefinitionsAgree(clock: Moment, steps: seq<Step>, p: Id)
    ensures
      var db := Run(Start(clock), steps).db;
      && (exists order :: Lists(db, order, p))
      && forall order | Lists(db, order, p) :: OnOverview(db, p) <==> Writable(db, p) && AllSatisfied(RowsOf(db, order))
  {
    hide Run, Distinct, Checked, RowsOf, AllSatisfied, LatestApproved, Waived, Linked, Numbered, Decided;
    StartReachable(clock);
    ReachableRun(Start(clock), steps);
    var db := Run(Start(clock), steps).db;
    var ids := set d | d in db.deliverables && Required(db, d, p);
    var order := ListExists(ids);
    assert Lists(Run(Start(clock), steps).db, order, p);
    forall order | Lists(db, order, p)
      ensures OnOverview(db, p) <==> Writable(db, p) && AllSatisfied(RowsOf(db, order))
    {
      RowsMean(db, order, p);
    }
  }

  /** And the version each of them looks at is the same one, the only one with the highest number. */
  lemma SameNewest(clock: Moment, steps: seq<Step>, v: Id, d: Id)
    ensures
      var db := Run(Start(clock), steps).db;
      Newest(db, v, d) <==> NewestOf(db, d) == Some(v)
  {
    hide Run, Distinct, Checked, Linked, GapFree, OpenLast, Decided;
    StartReachable(clock);
    ReachableRun(Start(clock), steps);
    JoinFindsNewest(Run(Start(clock), steps).db, v, d);
  }

  // ---- what a line shows ----

  /** A line shows the number and state of the version that no other one of the deliverable is above. */
  lemma RowShowsNewest(db: Db, d: Id, v: Id)
    requires Unique(db.versions) && v in db.versions && db.versions[v].deliverable == d
    requires forall u | u in db.versions && db.versions[u].deliverable == d :: db.versions[u].number <= db.versions[v].number
    ensures RowOf(db, d).deliverable == d && RowOf(db, d).number == db.versions[v].number && RowOf(db, d).state == Some(db.versions[v].state)
  {
    hide NewestOf, WaiverOf;
    JoinFindsNewest(db, v, d);
    assert forall u | u in db.versions :: Belongs(db, u, d) <==> db.versions[u].deliverable == d;
  }

  /** And number 0 while there is none. */
  lemma RowShowsNone(db: Db, d: Id)
    requires forall u | u in db.versions :: db.versions[u].deliverable != d
    ensures RowOf(db, d).deliverable == d && RowOf(db, d).number == 0 && RowOf(db, d).state == None
  {
    hide NewestOf, WaiverOf;
    NewestExists(db, d);
  }

  /** The waiver that it shows is the one given in a later second than all others. */
  lemma RowShowsWaiver(db: Db, d: Id, w: Id)
    requires w in db.waivers && db.waivers[w].deliverable == d
    requires forall u | u in db.waivers && u != w && db.waivers[u].deliverable == d :: db.waivers[u].at / SECOND < db.waivers[w].at / SECOND
    ensures RowOf(db, d).waiver == db.waivers[w].reason
  {
    hide Less, Time;
    forall u | u in db.waivers && u != w && db.waivers[u].deliverable == d
      ensures Before(db.waivers[u].at, db.waivers[w].at) && !Before(db.waivers[w].at, db.waivers[u].at)
    {
      EarlierSecondSortsFirst(db.waivers[u].at, db.waivers[w].at);
      LessAsymmetric(Time(db.waivers[u].at), Time(db.waivers[w].at));
    }
    NotBeforeItself(db.waivers[w].at);
    assert LastWaiver(db, w, d);
    forall x | LastWaiver(db, x, d)
      ensures x == w
    {
    }
  }
}
