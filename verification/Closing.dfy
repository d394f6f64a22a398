/**
 * What closing a project promises (internal/web/authz.go, internal/web/portal.go). A request checks
 * that its project is open when it reads, and not again when it commits. So a closed project is
 * read-only, and signed off once per closing, when requests run one at a time; interleaved requests
 * break both, for every project that can be signed off.
 */
module Closing {
  import opened Basics
  import opened Timestamps
  import opened JobTable
  import opened Domain
  import opened Schema
  import opened Requests
  import opened Identity
  import opened Approval
  import opened Folders
  import opened Guards
  import Signoffs

  // ---- one request at a time ----

  /** A request that commits right after it read, or a step that neither reads nor commits. */
  datatype Turn = Serve(ticket: nat, intent: Intent) | Other(step: Step)

  ghost predicate Allowed(w: World, x: Turn) {
    match x
    case Serve(t, _) => t !in w.pending || w.pending[t].Uploaded?
    case Other(s) => !s.Read? && !s.Commit?
  }

  ghost function TakeTurn(w: World, x: Turn): World {
    if !Allowed(w, x) then w
    else match x
      case Serve(t, intent) => Do(Do(w, Read(t, intent)), Commit(t))
      case Other(s) => Do(w, s)
  }

  ghost function Serial(w: World, turns: seq<Turn>): World
    decreases |turns|
  {
    if turns == [] then w else Serial(TakeTurn(w, turns[0]), turns[1..])
  }

  /** Only reopening and deleting are for closed projects. */
  predicate OnClosed(intent: Intent, p: Id) { intent == ReopenProject(p) || (intent.DropProject? && intent.project == p) }

  predicate ForClosed(x: Turn, p: Id) { x.Serve? && OnClosed(x.intent, p) }

  /** A request that was let through is not about a closed project. */
  lemma NotOnClosed(w: World, intent: Intent, p: Id)
    requires See(w, intent).Some? && p in w.db.projects && w.db.projects[p].closed
    requires !OnClosed(intent, p) && !intent.AddProject?
    ensures Target(w.db, intent) != Some(p)
  {
    hide Lists, RowsOf, AllSatisfied;
  }

  lemma TurnReachable(w: World, x: Turn)
    requires Reachable(w)
    ensures Reachable(TakeTurn(w, x))
  {
    hide Reachable, Do;
    if Allowed(w, x) {
      match x
      case Serve(t, intent) => ReachableDo(w, Read(t, intent)); ReachableDo(Do(w, Read(t, intent)), Commit(t));
      case Other(s) => ReachableDo(w, s);
    }
  }

  lemma FolderOfFiles(db: Db, db': Db, p: Id)
    requires db' == db.(files := db'.files)
    ensures FolderOf(db', p) == FolderOf(db, p)
  {
    hide Apart, FolderOf;
    InvoicesApart(db, db', p);
    ApartMeans(db, db', p);
  }

  lemma OtherKeepsFolder(w: World, s: Step, p: Id)
    requires !s.Commit?
    ensures FolderOf(Do(w, s).db, p) == FolderOf(w.db, p)
  {
    hide Do, FolderOf;
    if s.PurgeRow? {
      PurgeRowFiles(w, s.purger);
      FolderOfFiles(w.db, Do(w, s).db, p);
    } else {
      OtherKeepsDb(w, s);
    }
  }

  lemma PurgeRowFiles(w: World, t: nat)
    ensures Do(w, PurgeRow(t)).db == w.db.(files := Do(w, PurgeRow(t)).db.files)
  {
    hide Held;
  }

  lemma OtherKeepsDb(w: World, s: Step)
    requires !s.Commit? && !s.PurgeRow?
    ensures Do(w, s).db == w.db
  {
    hide See, Due, NewIds;
  }

  /** What a read leaves behind, when it was let through. */
  lemma ReadLets(w: World, t: nat, intent: Intent)
    requires t !in w.pending || w.pending[t].Uploaded?
    ensures
      var v := Do(w, Read(t, intent));
      && v.db == w.db && v.clock == w.clock
      && (t in v.pending && v.pending[t].Request? ==> v.pending[t].intent == intent && See(w, intent).Some? && NewIds(intent) !! w.usedIds)
  {
    hide See, NewIds;
  }

  /** One turn leaves a closed project as it is, unless it reopens or deletes it. */
  lemma TurnKeepsClosed(w: World, x: Turn, p: Id)
    requires Reachable(w) && p in w.db.projects && w.db.projects[p].closed && !ForClosed(x, p)
    ensures FolderOf(TakeTurn(w, x).db, p) == FolderOf(w.db, p)
  {
    hide Reachable, Do, FolderOf, See, Transact;
    if Allowed(w, x) {
      match x
      case Other(s) => OtherKeepsFolder(w, s, p);
      case Serve(t, intent) =>
        var v := Do(w, Read(t, intent));
        ReadLets(w, t, intent);
        ReachableDo(w, Read(t, intent));
        if t in v.pending && v.pending[t].Request? {
          if intent.AddProject? {
            ProjectsUsed(w, p);
          } else {
            NotOnClosed(w, intent, p);
          }
          TransactApart(v, t, p);
          CommitDb(v, t);
        } else {
          NoCommit(v, t);
        }
    }
  }

  lemma ProjectsUsed(w: World, p: Id)
    requires Reachable(w) && p in w.db.projects
    ensures p in w.usedIds
  {
    hide Sound;
  }

  lemma CommitDb(w: World, t: nat)
    requires t in w.pending && w.pending[t].Request?
    ensures Do(w, Commit(t)).db == Transact(w.db, w.pending[t], w.clock).Else(w.db)
  {
    hide Transact, NoticeOf;
  }

  lemma NoCommit(w: World, t: nat)
    requires !(t in w.pending && w.pending[t].Request?)
    ensures Do(w, Commit(t)) == w
  {
  }

  /**
   * While requests run one at a time, everything recorded about a closed project stays exactly as it
   * is until the project is reopened or deleted; in particular no further sign-off is recorded.
   */
  lemma {:induction false} ClosedIsReadOnly(w: World, turns: seq<Turn>, p: Id)
    requires Reachable(w) && p in w.db.projects && w.db.projects[p].closed
    requires forall x | x in turns :: !ForClosed(x, p)
    ensures FolderOf(Serial(w, turns).db, p) == FolderOf(w.db, p)
    decreases |turns|
  {
    hide Reachable, TakeTurn;
    if turns != [] {
      var v := TakeTurn(w, turns[0]);
      TurnKeepsClosed(w, turns[0], p);
      TurnReachable(w, turns[0]);
      assert FolderOf(v.db, p).project == FolderOf(w.db, p).project;
      ClosedIsReadOnly(v, turns[1..], p);
    }
  }

  predicate IsClosed(db: Db, p: Id) { p in db.projects && db.projects[p].closed }

  // ---- interleaved requests ----

  /** Which requests are about p can be read off p's folder. */
  lemma TargetByFolder(db: Db, db': Db, p: Id, intent: Intent)
    requires FolderOf(db', p) == FolderOf(db, p)
    ensures Target(db, intent) == Some(p) <==> Target(db', intent) == Some(p)
  {
    hide FolderOf, OfDeliverable, OfVersion, OfInvoice;
    match intent
    case ChangeDeliverable(d, _) => SameDeliverable(db, db', p, d);
    case DropDeliverable(d) => SameDeliverable(db, db', p, d);
    case AddWaiver(d, _, _) => SameDeliverable(db, db', p, d);
    case AddVersion(d, _, _, _) => SameDeliverable(db, db', p, d);
    case Share(v) => SameVersion(db, db', p, v);
    case Withdraw(v) => SameVersion(db, db', p, v);
    case DropVersion(v) => SameVersion(db, db', p, v);
    case Answer(v, _, _) => SameVersion(db, db', p, v);
    case ChangeInvoice(i, _) => SameInvoice(db, db', p, i);
    case MoveInvoice(i, _) => SameInvoice(db, db', p, i);
    case _ =>
  }

  lemma SameDeliverable(db: Db, db': Db, p: Id, d: Id)
    requires FolderOf(db', p) == FolderOf(db, p)
    ensures OfDeliverable(db, d) == Some(p) <==> OfDeliverable(db', d) == Some(p)
  {
    assert d in FolderOf(db, p).deliverables <==> d in FolderOf(db', p).deliverables;
  }

  lemma SameVersion(db: Db, db': Db, p: Id, v: Id)
    requires FolderOf(db', p) == FolderOf(db, p)
    ensures OfVersion(db, v) == Some(p) <==> OfVersion(db', v) == Some(p)
  {
    assert v in FolderOf(db, p).versions <==> v in FolderOf(db', p).versions;
  }

  lemma SameInvoice(db: Db, db': Db, p: Id, i: Id)
    requires FolderOf(db', p) == FolderOf(db, p)
    ensures OfInvoice(db, i) == Some(p) <==> OfInvoice(db', i) == Some(p)
  {
    assert i in FolderOf(db, p).invoices <==> i in FolderOf(db', p).invoices;
  }

  /** Every request that has read and is about p would change nothing of it now. */
  ghost predicate Harmless(w: World, p: Id) {
    forall t | t in w.pending && w.pending[t].Request? && Target(w.db, w.pending[t].intent) == Some(p) ::
      !Changes(FolderOf(w.db, p), w.pending[t])
  }

  /** The step does not start reopening or deleting p. */
  predicate LeavesClosed(s: Step, p: Id) { s.Read? ==> !OnClosed(s.intent, p) }

  /** Requests after a step were there before, or were just let through. */
  lemma RequestsAfter(w: World, s: Step, t: nat)
    ensures
      var v := Do(w, s);
      t in v.pending && v.pending[t].Request? ==>
        || (t in w.pending && v.pending[t] == w.pending[t])
        || (s.Read? && v.pending[t].intent == s.intent && See(w, s.intent).Some? && NewIds(s.intent) !! w.usedIds)
  {
    hide See, Transact, NewIds, NoticeOf, Due, Held, ValidKey;
  }

  lemma HarmlessStep(w: World, s: Step, p: Id)
    requires Reachable(w) && IsClosed(w.db, p) && Harmless(w, p) && LeavesClosed(s, p)
    ensures FolderOf(Do(w, s).db, p) == FolderOf(w.db, p) && Harmless(Do(w, s), p)
  {
    hide Reachable, Do, FolderOf, See, Transact, Target, Changes;
    var v := Do(w, s);
    if s.Commit? {
      if s.ticket in w.pending && w.pending[s.ticket].Request? {
        if Target(w.db, w.pending[s.ticket].intent) == Some(p) {
          ChangesExactly(w, s.ticket, p);
        } else {
          TransactApart(w, s.ticket, p);
        }
        CommitDb(w, s.ticket);
      } else {
        NoCommit(w, s.ticket);
      }
    } else {
      OtherKeepsFolder(w, s, p);
    }
    forall t | t in v.pending && v.pending[t].Request? && Target(v.db, v.pending[t].intent) == Some(p)
      ensures !Changes(FolderOf(v.db, p), v.pending[t])
    {
      RequestsAfter(w, s, t);
      TargetByFolder(w.db, v.db, p, v.pending[t].intent);
      if !(t in w.pending && v.pending[t] == w.pending[t]) {
        ReadElsewhere(w, s.intent, p);
      }
    }
  }

  lemma ReadElsewhere(w: World, intent: Intent, p: Id)
    requires Reachable(w) && IsClosed(w.db, p) && See(w, intent).Some? && NewIds(intent) !! w.usedIds
    requires !OnClosed(intent, p)
    ensures Target(w.db, intent) != Some(p)
  {
    hide Reachable, See;
    ProjectsUsed(w, p);
    if !intent.AddProject? {
      NotOnClosed(w, intent, p);
    }
  }

  lemma {:induction false} HarmlessRun(w: World, steps: seq<Step>, p: Id)
    requires Reachable(w) && IsClosed(w.db, p) && Harmless(w, p)
    requires forall s | s in steps :: LeavesClosed(s, p)
    ensures FolderOf(Run(w, steps).db, p) == FolderOf(w.db, p)
    decreases |steps|
  {
    hide Reachable, Do, Harmless;
    if steps != [] {
      var v := Do(w, steps[0]);
      HarmlessStep(w, steps[0], p);
      ReachableDo(w, steps[0]);
      assert FolderOf(v.db, p).project == FolderOf(w.db, p).project;
      HarmlessRun(v, steps[1..], p);
    }
  }

  /** Whatever follows, short of a request to reopen or delete p, leaves p as it is. */
  ghost predicate StaysAsItIs(w: World, p: Id) {
    forall steps: seq<Step> | forall s | s in steps :: LeavesClosed(s, p) :: FolderOf(Run(w, steps).db, p) == FolderOf(w.db, p)
  }

  /** The commit of a request whose guard holds is a step that changes the project. */
  lemma CommitChanges(w: World, t: nat, p: Id)
    requires Reachable(w) && t in w.pending && w.pending[t].Request? && Target(w.db, w.pending[t].intent) == Some(p)
    requires Changes(FolderOf(w.db, p), w.pending[t])
    ensures FolderOf(Run(w, [Commit(t)]).db, p) != FolderOf(w.db, p)
  {
    hide Reachable, Do, FolderOf, Transact, Target, Changes;
    ChangesExactly(w, t, p);
    CommitDb(w, t);
    assert [Commit(t)][1..] == [];
    assert Run(w, [Commit(t)]) == Run(Do(w, Commit(t)), []);
  }

  /**
   * In every reachable state a closed project is read-only under any interleaving, until a request to
   * reopen or delete it starts, exactly when none of the requests that read before it closed, and are about
   * it, would still change something: the guard of each is read off what the project holds now.
   */
  lemma ClosedExactly(w: World, p: Id)
    requires Reachable(w) && IsClosed(w.db, p)
    ensures StaysAsItIs(w, p) <==> Harmless(w, p)
  {
    hide Reachable, Run, FolderOf, Changes, Target;
    if Harmless(w, p) {
      forall steps: seq<Step> | forall s | s in steps :: LeavesClosed(s, p)
        ensures FolderOf(Run(w, steps).db, p) == FolderOf(w.db, p)
      {
        HarmlessRun(w, steps, p);
      }
    } else {
      var t :| t in w.pending && w.pending[t].Request? && Target(w.db, w.pending[t].intent) == Some(p)
        && Changes(FolderOf(w.db, p), w.pending[t]);
      CommitChanges(w, t, p);
      assert forall s | s in [Commit(t)] :: LeavesClosed(s, p);
    }
  }

  /** A step records a sign-off of p that was not there. */
  ghost predicate SignsOff(w: World, s: Step, p: Id) {
    exists id :: SignoffIn(Do(w, s).db, id, p) && !SignoffIn(w.db, id, p)
  }

  /** The step commits a sign-off of p that was read before. */
  predicate CommitsSignOf(w: World, s: Step, p: Id) {
    s.Commit? && s.ticket in w.pending && w.pending[s.ticket].Request? && w.pending[s.ticket].intent.Sign? && w.pending[s.ticket].intent.project == p
  }

  /**
   * A further sign-off of a closed project is recorded by a step exactly when the step commits one that had
   * read before; with none pending there is one sign-off per closing.
   */
  lemma FurtherSignoffExactly(w: World, s: Step, p: Id)
    requires Reachable(w) && IsClosed(w.db, p)
    ensures SignsOff(w, s, p) <==> CommitsSignOf(w, s, p)
  {
    hide Reachable, Do, Transact;
    if s.Commit? && s.ticket in w.pending && w.pending[s.ticket].Request? {
      CommitDb(w, s.ticket);
      if CommitsSignOf(w, s, p) {
        SignAdds(w, s.ticket, p);
      } else {
        Signoffs.RecordsAfter(w.db, w.pending[s.ticket], w.clock);
      }
    } else if s.Commit? {
      NoCommit(w, s.ticket);
    } else {
      OtherSignoffs(w, s);
    }
  }

  lemma OtherSignoffs(w: World, s: Step)
    requires !s.Commit?
    ensures Do(w, s).db.signoffs == w.db.signoffs
  {
    hide Do;
    if s.PurgeRow? {
      PurgeRowFiles(w, s.purger);
    } else {
      OtherKeepsDb(w, s);
    }
  }

  lemma SignAdds(w: World, t: nat, p: Id)
    requires Reachable(w) && p in w.db.projects
    requires t in w.pending && w.pending[t].Request? && w.pending[t].intent.Sign? && w.pending[t].intent.project == p
    ensures
      var id, db' := w.pending[t].intent.id, Transact(w.db, w.pending[t], w.clock).Else(w.db);
      SignoffIn(db', id, p) && !SignoffIn(w.db, id, p)
  {
    hide Sound;
    assert Checked(w.pending[t]) && Fresh(w, t);
  }

  // ---- requests that read before the closing ----

  /** The sign-off intent passes its read, under a new id. */
  ghost predicate CanSign(w: World, p: Id, order: seq<Id>, id: Id) {
    See(w, Sign(p, order, id)).Some? && id !in w.usedIds
  }

  lemma ReadSign(w: World, t: nat, p: Id, order: seq<Id>, id: Id)
    requires CanSign(w, p, order, id) && t !in w.pending
    ensures
      var intent := Sign(p, order, id);
      Do(w, Read(t, intent)) ==
        w.(pending := w.pending[t := Request(intent, None, SeenRows(RowsOf(w.db, order)))], usedIds := w.usedIds + {id})
  {
    hide Lists, RowsOf, AllSatisfied;
  }

  /** A sign-off that was read goes through as long as its project exists, closed or not. */
  lemma CommitSign(w: World, t: nat, p: Id, order: seq<Id>, id: Id, rows: seq<Row>)
    requires t in w.pending && w.pending[t] == Request(Sign(p, order, id), None, SeenRows(rows)) && p in w.db.projects
    ensures
      var v := Do(w, Commit(t));
      && v.db == w.db.(signoffs := w.db.signoffs[id := Signoff(p, rows)], projects := w.db.projects[p := w.db.projects[p].(closed := true)])
      && v.pending == w.pending - {t} && v.usedIds == w.usedIds
  {
  }

  /**
   * Two sign-offs of one project that both read before either commits are both recorded, for one
   * closing, whatever project can be signed off at all.
   */
  lemma DoubleSignoff(w: World, p: Id, order: seq<Id>, a: nat, b: nat, id: Id, id': Id)
    requires CanSign(w, p, order, id) && CanSign(w, p, order, id') && id != id'
    requires a !in w.pending && b !in w.pending && a != b
    ensures
      var db := Run(w, [Read(a, Sign(p, order, id)), Read(b, Sign(p, order, id')), Commit(a), Commit(b)]).db;
      && Writable(w.db, p) && SignoffIn(db, id, p) && SignoffIn(db, id', p) && IsClosed(db, p)
  {
    hide Do, RowsOf, Lists, AllSatisfied;
    ReadSign(w, a, p, order, id);
    var w1 := Do(w, Read(a, Sign(p, order, id)));
    assert CanSign(w1, p, order, id');
    ReadSign(w1, b, p, order, id');
    var w2 := Do(w1, Read(b, Sign(p, order, id')));
    CommitSign(w2, a, p, order, id, RowsOf(w.db, order));
    var w3 := Do(w2, Commit(a));
    CommitSign(w3, b, p, order, id', RowsOf(w.db, order));
    RunFour(w, Read(a, Sign(p, order, id)), Read(b, Sign(p, order, id')), Commit(a), Commit(b));
  }

  lemma RunFour(w: World, s0: Step, s1: Step, s2: Step, s3: Step)
    ensures Run(w, [s0, s1, s2, s3]) == Do(Do(Do(Do(w, s0), s1), s2), s3)
  {
    hide Do;
    var w1 := Do(w, s0);
    var w2 := Do(w1, s1);
    assert [s0, s1, s2, s3][1..] == [s1, s2, s3] && [s1, s2, s3][1..] == [s2, s3] && [s2, s3][1..] == [s3] && [s3][1..] == [];
    assert Run(w, [s0, s1, s2, s3]) == Run(w1, [s1, s2, s3]);
    assert Run(w1, [s1, s2, s3]) == Run(w2, [s2, s3]);
    assert Run(w2, [s2, s3]) == Run(Do(w2, s2), [s3]);
    assert Run(Do(w2, s2), [s3]) == Run(Do(Do(w2, s2), s3), []);
  }

  /**
   * And a sign-off is recorded although its project stopped being ready after the checklist was read:
   * here a required deliverable without any version was added meanwhile.
   */
  lemma SignedWhenNotReady(w: World, p: Id, order: seq<Id>, a: nat, b: nat, id: Id, d: Id)
    requires CanSign(w, p, order, id) && d !in w.usedIds && id != d && Reachable(w)
    requires a !in w.pending && b !in w.pending && a != b
    ensures
      var db := Run(w, [Read(a, Sign(p, order, id)), Read(b, AddDeliverable(p, true, d)), Commit(b), Commit(a)]).db;
      && SignoffIn(db, id, p) && IsClosed(db, p)
      && Required(db, d, p) && !RowOf(db, d).Satisfied()
  {
    hide Do, RowsOf, Lists, AllSatisfied, Reachable;
    var add := AddDeliverable(p, true, d);
    ReadSign(w, a, p, order, id);
    var w1 := Do(w, Read(a, Sign(p, order, id)));
    ReadAdd(w1, b, p, d);
    var w2 := Do(w1, Read(b, add));
    CommitAdd(w2, b, p, d);
    var w3 := Do(w2, Commit(b));
    CommitSign(w3, a, p, order, id, RowsOf(w.db, order));
    RunFour(w, Read(a, Sign(p, order, id)), Read(b, add), Commit(b), Commit(a));
    NewIsUnsatisfied(w, Do(w3, Commit(a)).db, d);
  }

  lemma ReadAdd(w: World, t: nat, p: Id, d: Id)
    requires Writable(w.db, p) && d !in w.usedIds && t !in w.pending
    ensures
      var intent := AddDeliverable(p, true, d);
      Do(w, Read(t, intent)) == w.(pending := w.pending[t := Request(intent, None, Nothing)], usedIds := w.usedIds + {d})
  {
  }

  lemma CommitAdd(w: World, t: nat, p: Id, d: Id)
    requires t in w.pending && w.pending[t] == Request(AddDeliverable(p, true, d), None, Nothing) && p in w.db.projects
    ensures Do(w, Commit(t)) == w.(db := w.db.(deliverables := w.db.deliverables[d := Deliverable(p, true)]), pending := w.pending - {t})
  {
    assert w.notices + [] == w.notices;
  }

  lemma NewIsUnsatisfied(w: World, db: Db, d: Id)
    requires Reachable(w) && d !in w.usedIds && db.versions == w.db.versions && db.waivers == w.db.waivers
    ensures !RowOf(db, d).Satisfied()
  {
    hide Numbered, Decided, WaiverOf;
    NewestExists(db, d);
    NoWaiver(db, d);
  }

  lemma NoWaiver(db: Db, d: Id)
    requires forall w | w in db.waivers :: db.waivers[w].deliverable != d
    ensures WaiverOf(db, d) == ""
  {
  }

  // ---- such projects exist ----

  /** Adding a project, a required deliverable and a waiver makes a project that can be signed off. */
  lemma SomeProjectCanSign(clock: Moment)
    ensures
      var steps := [Read(0, AddProject(1, 1)), Commit(0), Read(0, AddDeliverable(1, true, 2)), Commit(0)]
        + [Read(0, AddWaiver(2, "by phone", 3)), Commit(0)];
      CanSign(Run(Start(clock), steps), 1, [2], 4)
  {
    hide Do, CanSign;
    var s1 := [Read(0, AddProject(1, 1)), Commit(0), Read(0, AddDeliverable(1, true, 2)), Commit(0)];
    var s2 := [Read(0, AddWaiver(2, "by phone", 3)), Commit(0)];
    RunAppend(Start(clock), s1, s2);
    RunFour(Start(clock), s1[0], s1[1], s1[2], s1[3]);
    var w0 := Start(clock);
    ReadProject(w0);
    CommitProject(Do(w0, s1[0]));
    var w2 := Do(Do(w0, s1[0]), s1[1]);
    ReadAdd(w2, 0, 1, 2);
    CommitAdd(Do(w2, s1[2]), 0, 1, 2);
    var w4 := Do(Do(w2, s1[2]), s1[3]);
    ReadWaiver(w4);
    CommitWaiver(Do(w4, s2[0]));
    var w6 := Do(Do(w4, s2[0]), s2[1]);
    assert Run(w4, s2) == w6 by { RunTwo(w4, s2[0], s2[1]); }
    Signable(w6);
  }

  lemma RunTwo(w: World, s0: Step, s1: Step)
    ensures Run(w, [s0, s1]) == Do(Do(w, s0), s1)
  {
    hide Do;
    assert [s0, s1][1..] == [s1] && [s1][1..] == [];
    assert Run(w, [s0, s1]) == Run(Do(w, s0), [s1]);
    assert Run(Do(w, s0), [s1]) == Run(Do(Do(w, s0), s1), []);
  }

  lemma ReadProject(w: World)
    requires 0 !in w.pending && 1 !in w.usedIds
    ensures Do(w, Read(0, AddProject(1, 1))) ==
      w.(pending := w.pending[0 := Request(AddProject(1, 1), None, Nothing)], usedIds := w.usedIds + {1})
  {
  }

  lemma CommitProject(w: World)
    requires 0 in w.pending && w.pending[0] == Request(AddProject(1, 1), None, Nothing)
    ensures Do(w, Commit(0)) == w.(db := w.db.(projects := w.db.projects[1 := Project(1, false)]), pending := w.pending - {0})
  {
    assert w.notices + [] == w.notices;
  }

  lemma ReadWaiver(w: World)
    requires 0 !in w.pending && 3 !in w.usedIds && WritableDeliverable(w.db, 2)
    ensures
      var intent := AddWaiver(2, "by phone", 3);
      Do(w, Read(0, intent)) == w.(pending := w.pending[0 := Request(intent, None, Nothing)], usedIds := w.usedIds + {3})
  {
  }

  lemma CommitWaiver(w: World)
    requires 0 in w.pending && w.pending[0] == Request(AddWaiver(2, "by phone", 3), None, Nothing) && 2 in w.db.deliverables
    ensures Do(w, Commit(0)) ==
      w.(db := w.db.(waivers := w.db.waivers[3 := Waiver(2, "by phone", w.clock)]), pending := w.pending - {0})
  {
    assert w.notices + [] == w.notices;
  }

  lemma Signable(w: World)
    requires w.usedIds == {1, 2, 3}
    requires w.db.projects == map[1 := Project(1, false)] && w.db.deliverables == map[2 := Deliverable(1, true)]
    requires w.db.waivers == map[3 := Waiver(2, "by phone", w.clock)]
    ensures CanSign(w, 1, [2], 4)
  {
    hide NewestOf, WaiverOf;
    OnlyWaiver(w.db, w.clock);
    var rows := RowsOf(w.db, [2]);
    assert rows == [RowOf(w.db, 2)] && RowOf(w.db, 2).Satisfied();
    assert Lists(w.db, [2], 1);
  }

  lemma OnlyWaiver(db: Db, at: Moment)
    requires db.waivers == map[3 := Waiver(2, "by phone", at)]
    ensures WaiverOf(db, 2) == "by phone"
  {
    hide Before;
    NotBeforeItself(at);
    assert LastWaiver(db, 3, 2);
  }
}
