/**
 * Organizations, their portal users, and what those users write (internal/web/clients.go, admin.go,
 * authz.go, export.go). A client user belongs to one organization for good and can only write into its
 * projects; so deleting an organization for good takes every row that names its users with it, never
 * meets a foreign key, and touches nothing of another organization.
 */
module Clients {
  import opened Basics

  type Id = nat

  datatype Role = StaffUser | ClientUser
  datatype Contact = Contact(org: Id, user: Option<Id>, removed: bool)
  datatype Project = Project(org: Id, closedBy: Option<Id>)
  /** Decisions, comments, briefs and sign-offs: rows of a project that name the user who wrote them. */
  datatype Kind = DecisionRow | CommentRow | BriefRow | SignoffRow | WaiverRow
  datatype Written = Written(kind: Kind, project: Id, author: Id)
  datatype Invitation = Invitation(contact: Option<Id>, createdBy: Id)

  datatype Db = Db(
    orgs: map<Id, bool>,  // archived?
    contacts: map<Id, Contact>,
    users: map<Id, Role>,
    projects: map<Id, Project>,
    rows: map<Id, Written>,
    invitations: map<Id, Invitation>)

  datatype Outcome = Committed(db: Db) | ForeignKey {
    function Else(before: Db): Db { if Committed? then db else before }
  }

  // ---- foreign keys ----

  predicate UserNamed(db: Db, u: Id) {
    || (exists r :: r in db.rows && db.rows[r].author == u)
    || (exists p :: p in db.projects && db.projects[p].closedBy == Some(u))
    || (exists i :: i in db.invitations && db.invitations[i].createdBy == u)
    || (exists c :: c in db.contacts && db.contacts[c].user == Some(u))
  }

  /** Every reference names a row that is there. */
  ghost predicate Referential(db: Db) {
    && (forall c | c in db.contacts :: db.contacts[c].org in db.orgs)
    && (forall c | c in db.contacts && db.contacts[c].user.Some? :: db.contacts[c].user.value in db.users)
    && (forall p | p in db.projects :: db.projects[p].org in db.orgs)
    && (forall p | p in db.projects && db.projects[p].closedBy.Some? :: db.projects[p].closedBy.value in db.users)
    && (forall r | r in db.rows :: db.rows[r].project in db.projects && db.rows[r].author in db.users)
    && (forall i | i in db.invitations :: db.invitations[i].createdBy in db.users)
    && (forall i | i in db.invitations && db.invitations[i].contact.Some? :: db.invitations[i].contact.value in db.contacts)
  }

  // ---- the delete ----

  predicate OfOrg(db: Db, p: Id, org: Id) { p in db.projects && db.projects[p].org == org }

  function UsersOf(db: Db, org: Id): set<Id> {
    set c | c in db.contacts && db.contacts[c].org == org && db.contacts[c].user.Some? :: db.contacts[c].user.value
  }

  /** deleteProjects: the rows of the organization's projects, then the projects. */
  function WithoutProjects(db: Db, org: Id): Db {
    db.(rows := map r | r in db.rows && !OfOrg(db, db.rows[r].project, org) :: db.rows[r],
        projects := map p | p in db.projects && db.projects[p].org != org :: db.projects[p])
  }

  /** Its contacts' invitations, the organization and, by cascade, its contacts. */
  function WithoutOrg(db: Db, org: Id): Db {
    db.(invitations := map i | i in db.invitations && !InvitesInto(db, i, org) :: db.invitations[i],
        orgs := db.orgs - {org},
        contacts := map c | c in db.contacts && db.contacts[c].org != org :: db.contacts[c])
  }

  predicate InvitesInto(db: Db, i: Id, org: Id) {
    && i in db.invitations && db.invitations[i].contact.Some?
    && db.invitations[i].contact.value in db.contacts && db.contacts[db.invitations[i].contact.value].org == org
  }

  /**
   * The statements of clientDelete. No project of the organization is left to hold it back, so the one
   * delete that a foreign key may refuse is that of a user.
   */
  function DeleteOrg(db: Db, org: Id): Outcome {
    var db1 := WithoutProjects(db, org);
    var db2 := WithoutOrg(db1, org);
    if exists u :: u in UsersOf(db, org) && UserNamed(db2, u) then ForeignKey
    else Committed(db2.(users := db2.users - UsersOf(db, org)))
  }

  class Store {
    var db: Db

    constructor (db: Db)
      ensures this.db == db
    {
      this.db := db;
    }

    /** The transaction, statement by statement; on an error it is rolled back. */
    method ClientDelete(org: Id) returns (ok: bool)
      modifies this
      ensures ok <==> DeleteOrg(old(db), org).Committed?
      ensures db == DeleteOrg(old(db), org).Else(old(db))
    {
      hide UserNamed, WithoutProjects, WithoutOrg, UsersOf, DeleteOrg;
      var before := db;
      var users := UsersOf(db, org);
      db := WithoutProjects(db, org);
      db := WithoutOrg(db, org);
      ghost var stripped := db;
      ghost var gone: set<Id> := {};
      var todo := users;
      assert stripped.users - gone == stripped.users;
      while todo != {}
        invariant todo + gone == users && todo !! gone
        invariant db == stripped.(users := stripped.users - gone)
        invariant forall u | u in gone :: !UserNamed(stripped, u)
        decreases |todo|
      {
        var u :| u in todo;
        todo := todo - {u};
        SameNames(stripped, db, u);
        if UserNamed(db, u) {
          UserInTheWay(before, org, u);
          db := before;
          return false;
        }
        db := db.(users := db.users - {u});
        assert stripped.users - gone - {u} == stripped.users - (gone + {u});
        gone := gone + {u};
      }
      NothingInTheWay(before, org);
      return true;
    }
  }

  lemma UserInTheWay(db: Db, org: Id, u: Id)
    requires u in UsersOf(db, org) && UserNamed(WithoutOrg(WithoutProjects(db, org), org), u)
    ensures DeleteOrg(db, org) == ForeignKey
  {
    hide UserNamed, UsersOf, WithoutOrg, WithoutProjects;
  }

  lemma NothingInTheWay(db: Db, org: Id)
    requires forall u | u in UsersOf(db, org) :: !UserNamed(WithoutOrg(WithoutProjects(db, org), org), u)
    ensures
      var stripped := WithoutOrg(WithoutProjects(db, org), org);
      DeleteOrg(db, org) == Committed(stripped.(users := stripped.users - UsersOf(db, org)))
  {
    hide UserNamed, UsersOf, WithoutOrg, WithoutProjects;
  }

  /** Who is named does not depend on the users table. */
  lemma SameNames(db: Db, db': Db, u: Id)
    requires db' == db.(users := db'.users)
    ensures UserNamed(db', u) <==> UserNamed(db, u)
  {
  }

  // ---- the requests around it ----

  /** A request that passed its authorization read and has not committed yet. */
  datatype Pending = Writing(user: Id, project: Id) | Deleting(org: Id)

  datatype World = World(db: Db, pending: map<nat, Pending>, usedIds: set<Id>)

  datatype Step =
    | AddOrg(id: Id)
    | Archive(org: Id, archived: bool)
    | AddContact(id: Id, org: Id)
    | RemoveContact(contact: Id)
    | Invite(id: Id, invitee: Option<Id>, inviter: Id)
    | Accept(contact: Id, user: Id)
    | AddStaff(user: Id)
    | AddProject(id: Id, org: Id)
    | DropProject(project: Id)
    | Reopen(project: Id)
    | ReadWrite(ticket: nat, user: Id, project: Id)
    | CommitWrite(ticket: nat, id: Id, kind: Kind)
    | ReadDelete(ticket: nat, org: Id)
    | CommitDelete(ticket: nat)
    | Drop(ticket: nat)

  const EMPTY: Db := Db(map[], map[], map[], map[], map[], map[])

  function Start(): World { World(EMPTY, map[], {}) }

  /** projectScope: a client user sees the projects of the organization of its contact, while not removed. */
  predicate Sees(db: Db, u: Id, p: Id) {
    && u in db.users && p in db.projects
    && (db.users[u].StaffUser? || exists c :: c in db.contacts && db.contacts[c] == Contact(db.projects[p].org, Some(u), false))
  }

  /** The insert of a row, and closed_by for a sign-off of an open project. */
  function WriteRow(db: Db, id: Id, kind: Kind, u: Id, p: Id): Outcome {
    if u !in db.users || p !in db.projects then ForeignKey
    else
      var db1 := db.(rows := db.rows[id := Written(kind, p, u)]);
      Committed(if kind.SignoffRow? && db.projects[p].closedBy.None?
                then db1.(projects := db.projects[p := db.projects[p].(closedBy := Some(u))]) else db1)
  }

  ghost function Do(w: World, s: Step): World {
    var db := w.db;
    match s
    case AddOrg(id) =>
      if id in w.usedIds then w else w.(db := db.(orgs := db.orgs[id := false]), usedIds := w.usedIds + {id})
    case Archive(org, archived) => if org in db.orgs then w.(db := db.(orgs := db.orgs[org := archived])) else w
    case AddContact(id, org) =>
      if id in w.usedIds || org !in db.orgs then w
      else w.(db := db.(contacts := db.contacts[id := Contact(org, None, false)]), usedIds := w.usedIds + {id})
    case RemoveContact(c) =>
      if c in db.contacts then w.(db := db.(contacts := db.contacts[c := db.contacts[c].(removed := true)])) else w
    case Invite(id, contact, inviter) =>
      if id in w.usedIds || inviter !in db.users || !db.users[inviter].StaffUser? || (contact.Some? && contact.value !in db.contacts) then w
      else w.(db := db.(invitations := db.invitations[id := Invitation(contact, inviter)]), usedIds := w.usedIds + {id})
    case Accept(c, u) =>
      if u in w.usedIds || c !in db.contacts || db.contacts[c].user.Some? || db.contacts[c].removed then w
      else w.(db := db.(users := db.users[u := ClientUser], contacts := db.contacts[c := db.contacts[c].(user := Some(u))]),
              usedIds := w.usedIds + {u})
    case AddStaff(u) => if u in w.usedIds then w else w.(db := db.(users := db.users[u := StaffUser]), usedIds := w.usedIds + {u})
    case AddProject(id, org) =>
      if id in w.usedIds || org !in db.orgs then w
      else w.(db := db.(projects := db.projects[id := Project(org, None)]), usedIds := w.usedIds + {id})
    case DropProject(p) =>
      w.(db := db.(rows := map r | r in db.rows && db.rows[r].project != p :: db.rows[r], projects := db.projects - {p}))
    case Reopen(p) =>
      if p in db.projects then w.(db := db.(projects := db.projects[p := db.projects[p].(closedBy := None)])) else w
    case ReadWrite(t, u, p) =>
      if t !in w.pending && Sees(db, u, p) then w.(pending := w.pending[t := Writing(u, p)]) else w
    case CommitWrite(t, id, kind) =>
      if t in w.pending && w.pending[t].Writing? && id !in w.usedIds
      then w.(db := WriteRow(db, id, kind, w.pending[t].user, w.pending[t].project).Else(db),
              pending := w.pending - {t}, usedIds := w.usedIds + {id})
      else w
    case ReadDelete(t, org) =>
      if t !in w.pending && org in db.orgs && db.orgs[org] then w.(pending := w.pending[t := Deleting(org)]) else w
    case CommitDelete(t) =>
      if t in w.pending && w.pending[t].Deleting?
      then w.(db := DeleteOrg(db, w.pending[t].org).Else(db), pending := w.pending - {t})
      else w
    case Drop(t) => w.(pending := w.pending - {t})
  }

  ghost function Run(w: World, steps: seq<Step>): World
    decreases |steps|
  {
    if steps == [] then w else Run(Do(w, steps[0]), steps[1..])
  }

  // ---- the invariant ----

  /** A client user has its one contact, and that contact's organization owns project p. */
  ghost predicate Insider(db: Db, u: Id, p: Id)
    requires p in db.projects
  {
    exists c :: c in db.contacts && db.contacts[c].user == Some(u) && db.contacts[c].org == db.projects[p].org
  }

  predicate IsClient(db: Db, u: Id) { u in db.users && db.users[u].ClientUser? }

  /** Contacts share no user, and their users are clients. */
  ghost predicate OneContact(db: Db) {
    && (forall c | c in db.contacts && db.contacts[c].user.Some? :: IsClient(db, db.contacts[c].user.value))
    && (forall c, e | c in db.contacts && e in db.contacts && db.contacts[c].user.Some? && db.contacts[c].user == db.contacts[e].user :: c == e)
  }

  /** What names a client user lies in a project of its organization; invitations name staff. */
  ghost predicate Inside(db: Db) {
    && (forall r | r in db.rows && db.rows[r].project in db.projects && IsClient(db, db.rows[r].author) ::
          Insider(db, db.rows[r].author, db.rows[r].project))
    && (forall p | p in db.projects && db.projects[p].closedBy.Some? && IsClient(db, db.projects[p].closedBy.value) ::
          Insider(db, db.projects[p].closedBy.value, p))
    && (forall i | i in db.invitations :: !IsClient(db, db.invitations[i].createdBy))
  }

  /** Nothing uses an id that was not drawn. */
  ghost predicate Drawn(w: World) {
    && w.db.orgs.Keys <= w.usedIds && w.db.contacts.Keys <= w.usedIds && w.db.users.Keys <= w.usedIds
    && w.db.projects.Keys <= w.usedIds && w.db.rows.Keys <= w.usedIds && w.db.invitations.Keys <= w.usedIds
    && forall t | t in w.pending && w.pending[t].Writing? :: w.pending[t].user in w.usedIds && w.pending[t].project in w.usedIds
  }

  /** A pending write of a client is into its own organization, if user and project are still there. */
  ghost predicate PendingInside(w: World, t: nat)
    requires t in w.pending
  {
    var x := w.pending[t];
    x.Writing? && x.project in w.db.projects && IsClient(w.db, x.user) ==> Insider(w.db, x.user, x.project)
  }

  ghost predicate Ok(w: World) {
    && Referential(w.db) && OneContact(w.db) && Inside(w.db) && Drawn(w)
    && forall t | t in w.pending :: PendingInside(w, t)
  }

  // ---- deleting an organization ----

  /** After the projects and contacts are gone nothing names the organization's users any more. */
  lemma NobodyNamed(db: Db, org: Id, u: Id)
    requires Referential(db) && OneContact(db) && Inside(db) && u in UsersOf(db, org)
    ensures !UserNamed(WithoutOrg(WithoutProjects(db, org), org), u)
  {
    var c :| c in db.contacts && db.contacts[c].org == org && db.contacts[c].user == Some(u);
    assert IsClient(db, u);
    forall r | r in db.rows && db.rows[r].author == u
      ensures OfOrg(db, db.rows[r].project, org)
    {
      RowNotInside(db, org, r);
    }
    forall p | p in db.projects && db.projects[p].closedBy == Some(u)
      ensures OfOrg(db, p, org)
    {
      ProjectNotInside(db, org, p);
    }
  }

  lemma DeleteCommits(db: Db, org: Id)
    requires Referential(db) && OneContact(db) && Inside(db)
    ensures DeleteOrg(db, org).Committed?
  {
    hide UserNamed, Referential, OneContact, Inside;
    forall u | u in UsersOf(db, org)
      ensures !UserNamed(WithoutOrg(WithoutProjects(db, org), org), u)
    {
      NobodyNamed(db, org, u);
    }
  }

  /** What is left of the tables when the delete goes through. */
  ghost predicate Deleted(db: Db, db': Db, org: Id) {
    && (forall r :: r in db'.rows <==> r in db.rows && !OfOrg(db, db.rows[r].project, org))
    && (forall r | r in db'.rows && r in db.rows :: db'.rows[r] == db.rows[r])
    && (forall p :: p in db'.projects <==> p in db.projects && db.projects[p].org != org)
    && (forall p | p in db'.projects && p in db.projects :: db'.projects[p] == db.projects[p])
    && db'.orgs == db.orgs - {org}
    && (forall c :: c in db'.contacts <==> c in db.contacts && db.contacts[c].org != org)
    && (forall c | c in db'.contacts && c in db.contacts :: db'.contacts[c] == db.contacts[c])
    && (forall i :: i in db'.invitations <==> i in db.invitations && !InvitesInto(db, i, org))
    && (forall i | i in db'.invitations && i in db.invitations :: db'.invitations[i] == db.invitations[i])
    && db'.users == db.users - UsersOf(db, org)
  }

  lemma DeleteIs(db: Db, org: Id)
    requires DeleteOrg(db, org).Committed?
    ensures Deleted(db, DeleteOrg(db, org).db, org)
  {
    hide UserNamed, UsersOf;
    var db1 := WithoutProjects(db, org);
    assert forall i :: InvitesInto(db1, i, org) <==> InvitesInto(db, i, org);
  }

  lemma DeletedReferential(db: Db, db': Db, org: Id)
    requires Referential(db) && OneContact(db) && Inside(db) && Deleted(db, db', org)
    ensures Referential(db')
  {
    hide Inside;
    forall r | r in db'.rows
      ensures db'.rows[r].author in db'.users
    {
      if db.rows[r].author in UsersOf(db, org) {
        RowNotInside(db, org, r);
      }
    }
    forall p | p in db'.projects && db'.projects[p].closedBy.Some?
      ensures db'.projects[p].closedBy.value in db'.users
    {
      if db.projects[p].closedBy.value in UsersOf(db, org) {
        ProjectNotInside(db, org, p);
      }
    }
    forall i | i in db'.invitations
      ensures db'.invitations[i].createdBy in db'.users
    {
      InviterStays(db, org, i);
    }
  }

  lemma RowNotInside(db: Db, org: Id, r: Id)
    requires Referential(db) && OneContact(db) && Inside(db) && r in db.rows && db.rows[r].author in UsersOf(db, org)
    ensures OfOrg(db, db.rows[r].project, org)
  {
    assert Insider(db, db.rows[r].author, db.rows[r].project);
  }

  lemma ProjectNotInside(db: Db, org: Id, p: Id)
    requires Referential(db) && OneContact(db) && Inside(db)
    requires p in db.projects && db.projects[p].closedBy.Some? && db.projects[p].closedBy.value in UsersOf(db, org)
    ensures OfOrg(db, p, org)
  {
    assert Insider(db, db.projects[p].closedBy.value, p);
  }

  lemma InviterStays(db: Db, org: Id, i: Id)
    requires Referential(db) && OneContact(db) && Inside(db) && i in db.invitations
    ensures db.invitations[i].createdBy !in UsersOf(db, org)
  {
  }

  lemma InsiderStays(db: Db, db': Db, org: Id, u: Id, p: Id)
    requires Deleted(db, db', org) && p in db.projects && p in db'.projects && Insider(db, u, p)
    ensures Insider(db', u, p)
  {
    var c :| c in db.contacts && db.contacts[c].user == Some(u) && db.contacts[c].org == db.projects[p].org;
    assert c in db'.contacts;
  }

  lemma DeletedInside(db: Db, db': Db, org: Id)
    requires Referential(db) && OneContact(db) && Inside(db) && Deleted(db, db', org)
    ensures OneContact(db') && Inside(db')
  {
    hide UsersOf;
    DeletedContacts(db, db', org);
    forall r | r in db'.rows && db'.rows[r].project in db'.projects && IsClient(db', db'.rows[r].author)
      ensures Insider(db', db'.rows[r].author, db'.rows[r].project)
    {
      InsiderStays(db, db', org, db.rows[r].author, db.rows[r].project);
    }
    forall p | p in db'.projects && db'.projects[p].closedBy.Some? && IsClient(db', db'.projects[p].closedBy.value)
      ensures Insider(db', db'.projects[p].closedBy.value, p)
    {
      InsiderStays(db, db', org, db.projects[p].closedBy.value, p);
    }
  }

  /** A contact of another organization keeps its user. */
  lemma DeletedContacts(db: Db, db': Db, org: Id)
    requires OneContact(db) && Deleted(db, db', org)
    ensures OneContact(db')
  {
    forall c | c in db'.contacts && db'.contacts[c].user.Some?
      ensures IsClient(db', db'.contacts[c].user.value)
    {
      assert db.contacts[c].user.value !in UsersOf(db, org);
    }
  }

  lemma DeleteOk(w: World, t: nat)
    requires Ok(w) && t in w.pending && w.pending[t].Deleting?
    ensures Ok(Do(w, CommitDelete(t)))
  {
    hide Referential, OneContact, Inside, DeleteOrg;
    var org, v := w.pending[t].org, Do(w, CommitDelete(t));
    DeleteCommits(w.db, org);
    DeleteIs(w.db, org);
    DeletedReferential(w.db, v.db, org);
    DeletedInside(w.db, v.db, org);
    forall u | u in v.pending
      ensures PendingInside(v, u)
    {
      DeletedPending(w, v, org, u);
    }
    assert Drawn(v) by { DeletedDrawn(w, v, org); }
  }

  lemma DeletedDrawn(w: World, v: World, org: Id)
    requires Drawn(w) && Deleted(w.db, v.db, org) && v.usedIds == w.usedIds
    requires forall t | t in v.pending :: t in w.pending && v.pending[t] == w.pending[t]
    ensures Drawn(v)
  {
    hide UsersOf, InvitesInto, OfOrg;
  }

  lemma DeletedPending(w: World, v: World, org: Id, u: nat)
    requires Deleted(w.db, v.db, org) && u in v.pending && u in w.pending && v.pending[u] == w.pending[u] && PendingInside(w, u)
    ensures PendingInside(v, u)
  {
    hide UsersOf, Deleted;
    DeletedLess(w.db, v.db, org);
    var x := v.pending[u];
    if x.Writing? && x.project in v.db.projects && IsClient(v.db, x.user) {
      InsiderStays(w.db, v.db, org, x.user, x.project);
    }
  }

  lemma DeletedLess(db: Db, db': Db, org: Id)
    requires Deleted(db, db', org)
    ensures forall p | p in db'.projects :: p in db.projects
    ensures forall u | u in db'.users :: u in db.users && db'.users[u] == db.users[u]
  {
    hide UsersOf;
  }

  // ---- the other steps ----

  /** Tables grow under new ids, contacts gain users, and who is inside stays inside. */
  ghost predicate Grows(w: World, v: World) {
    && w.usedIds <= v.usedIds
    && (forall c | c in w.db.contacts :: c in v.db.contacts && v.db.contacts[c].org == w.db.contacts[c].org
          && (w.db.contacts[c].user.Some? ==> v.db.contacts[c].user == w.db.contacts[c].user))
    && (forall p | p in v.db.projects && p in w.usedIds :: p in w.db.projects && v.db.projects[p].org == w.db.projects[p].org)
    && (forall u | u in v.db.users && u in w.usedIds :: u in w.db.users && v.db.users[u] == w.db.users[u])
  }

  lemma InsiderGrows(w: World, v: World, u: Id, p: Id)
    requires Grows(w, v) && p in w.db.projects && p in v.db.projects && p in w.usedIds && Insider(w.db, u, p)
    ensures Insider(v.db, u, p)
  {
    var c :| c in w.db.contacts && w.db.contacts[c].user == Some(u) && w.db.contacts[c].org == w.db.projects[p].org;
    assert c in v.db.contacts && v.db.contacts[c].user == Some(u);
  }

  lemma PendingGrows(w: World, v: World, t: nat)
    requires Ok(w) && Grows(w, v) && t in w.pending && t in v.pending && v.pending[t] == w.pending[t]
    ensures PendingInside(v, t)
  {
    hide Referential, OneContact, Inside;
    var x := w.pending[t];
    assert PendingInside(w, t);
    if x.Writing? && x.project in v.db.projects && IsClient(v.db, x.user) {
      InsiderGrows(w, v, x.user, x.project);
    }
  }

  predicate RowKept(db: Db, db': Db, r: Id) { r in db.rows && r in db'.rows && db'.rows[r] == db.rows[r] }

  ghost predicate RowInside(db: Db, r: Id) {
    r in db.rows && db.rows[r].project in db.projects
      && (IsClient(db, db.rows[r].author) ==> Insider(db, db.rows[r].author, db.rows[r].project))
  }

  predicate ClosingKept(db: Db, db': Db, p: Id) {
    p in db.projects && p in db'.projects && db'.projects[p].closedBy == db.projects[p].closedBy
  }

  ghost predicate ClosingInside(db: Db, p: Id) {
    p in db.projects && (db.projects[p].closedBy.Some? && IsClient(db, db.projects[p].closedBy.value) ==>
      Insider(db, db.projects[p].closedBy.value, p))
  }

  predicate InvitationKept(db: Db, db': Db, i: Id) {
    i in db'.invitations && ((i in db.invitations && db'.invitations[i] == db.invitations[i]) || !IsClient(db', db'.invitations[i].createdBy))
  }

  /** Rows and closings that were there, or name insiders or staff. */
  ghost predicate RecordsOk(db: Db, db': Db) {
    && (forall r | r in db'.rows :: RowKept(db, db', r) || RowInside(db', r))
    && (forall p | p in db'.projects :: ClosingKept(db, db', p) || ClosingInside(db', p))
    && (forall i | i in db'.invitations :: InvitationKept(db, db', i))
  }

  lemma InsideGrows(w: World, v: World)
    requires Ok(w) && Grows(w, v) && Referential(v.db)
    requires RecordsOk(w.db, v.db)
    ensures Inside(v.db)
  {
    hide OneContact;
    forall r | r in v.db.rows && v.db.rows[r].project in v.db.projects && IsClient(v.db, v.db.rows[r].author)
      ensures Insider(v.db, v.db.rows[r].author, v.db.rows[r].project)
    {
      if RowKept(w.db, v.db, r) {
        InsiderGrows(w, v, v.db.rows[r].author, v.db.rows[r].project);
      }
    }
    forall p | p in v.db.projects && v.db.projects[p].closedBy.Some? && IsClient(v.db, v.db.projects[p].closedBy.value)
      ensures Insider(v.db, v.db.projects[p].closedBy.value, p)
    {
      if ClosingKept(w.db, v.db, p) {
        InsiderGrows(w, v, v.db.projects[p].closedBy.value, p);
      }
    }
  }

  lemma GrowOk(w: World, v: World)
    requires Ok(w) && Grows(w, v) && Referential(v.db) && OneContact(v.db) && Drawn(v)
    requires forall t | t in v.pending :: t in w.pending && v.pending[t] == w.pending[t]
    requires RecordsOk(w.db, v.db)
    ensures Ok(v)
  {
    hide Referential, OneContact, Inside, Grows;
    InsideGrows(w, v);
    forall t | t in v.pending
      ensures PendingInside(v, t)
    {
      PendingGrows(w, v, t);
    }
  }

  /** Steps on organizations, contacts, users and projects. */
  predicate Simple(s: Step) {
    || s.AddOrg? || s.Archive? || s.AddContact? || s.RemoveContact? || s.Invite? || s.Accept? || s.AddStaff? || s.AddProject?
    || s.DropProject? || s.Reopen?
  }

  lemma SimpleReferential(w: World, s: Step)
    requires Ok(w) && Simple(s)
    ensures Referential(Do(w, s).db)
  {
    hide PendingInside, Inside, OneContact, Drawn, Sees, WriteRow, DeleteOrg;
  }

  lemma SimpleContacts(w: World, s: Step)
    requires Ok(w) && Simple(s)
    ensures OneContact(Do(w, s).db)
  {
    hide PendingInside, Inside, Sees, WriteRow, DeleteOrg;
  }

  lemma SimpleDrawn(w: World, s: Step)
    requires Ok(w) && Simple(s)
    ensures Drawn(Do(w, s)) && Do(w, s).pending == w.pending
  {
    hide PendingInside, Inside, OneContact, Referential, Sees, WriteRow, DeleteOrg;
  }

  lemma SimpleGrows(w: World, s: Step)
    requires Ok(w) && Simple(s)
    ensures Grows(w, Do(w, s))
  {
    hide PendingInside, Inside, OneContact, Referential, Sees, WriteRow, DeleteOrg;
  }

  lemma SimpleRows(w: World, s: Step)
    requires Simple(s)
    ensures forall r | r in Do(w, s).db.rows :: RowKept(w.db, Do(w, s).db, r)
  {
    hide Sees, WriteRow, DeleteOrg;
  }

  lemma SimpleClosings(w: World, s: Step)
    requires Simple(s)
    ensures forall p | p in Do(w, s).db.projects :: ClosingKept(w.db, Do(w, s).db, p) || ClosingInside(Do(w, s).db, p)
  {
    hide Sees, WriteRow, DeleteOrg, Insider, IsClient;
  }

  lemma SimpleInvitations(w: World, s: Step)
    requires Simple(s)
    ensures forall i | i in Do(w, s).db.invitations :: InvitationKept(w.db, Do(w, s).db, i)
  {
    hide Sees, WriteRow, DeleteOrg;
  }

  lemma SimpleOk(w: World, s: Step)
    requires Ok(w) && Simple(s)
    ensures Ok(Do(w, s))
  {
    hide Ok, Do, RowKept, RowInside, ClosingKept, ClosingInside, InvitationKept, Grows, Referential, OneContact, Drawn;
    SimpleReferential(w, s);
    SimpleContacts(w, s);
    SimpleDrawn(w, s);
    SimpleGrows(w, s);
    SimpleRows(w, s);
    SimpleClosings(w, s);
    SimpleInvitations(w, s);
    GrowOk(w, Do(w, s));
  }

  /** The write is into the client's own organization, so what it adds names an insider. */
  lemma CommitWriteOk(w: World, t: nat, id: Id, kind: Kind)
    requires Ok(w)
    ensures Ok(Do(w, CommitWrite(t, id, kind)))
  {
    hide Inside, Referential, OneContact, RecordsOk, WriteRow, Grows;
    var v := Do(w, CommitWrite(t, id, kind));
    if v != w {
      var u, p := w.pending[t].user, w.pending[t].project;
      assert PendingInside(w, t);
      WriteKeepsKeys(w.db, id, kind, u, p);
      WriteReferential(w.db, id, kind, u, p);
      WriteContacts(w.db, v.db);
      WriteGrows(w, v, id, kind, u, p);
      WriteRecords(w.db, v.db, id, kind, u, p);
      GrowOk(w, v);
    }
  }

  lemma WriteKeepsKeys(db: Db, id: Id, kind: Kind, u: Id, p: Id)
    ensures
      var db' := WriteRow(db, id, kind, u, p).Else(db);
      && db'.orgs == db.orgs && db'.contacts == db.contacts && db'.users == db.users && db'.invitations == db.invitations
      && db'.projects.Keys == db.projects.Keys && db'.rows.Keys <= db.rows.Keys + {id}
  {
  }

  lemma WriteReferential(db: Db, id: Id, kind: Kind, u: Id, p: Id)
    requires Referential(db)
    ensures Referential(WriteRow(db, id, kind, u, p).Else(db))
  {
  }

  lemma WriteContacts(db: Db, db': Db)
    requires OneContact(db) && db'.contacts == db.contacts && db'.users == db.users
    ensures OneContact(db')
  {
  }

  lemma WriteGrows(w: World, v: World, id: Id, kind: Kind, u: Id, p: Id)
    requires v.db == WriteRow(w.db, id, kind, u, p).Else(w.db) && w.usedIds <= v.usedIds
    ensures Grows(w, v)
  {
  }

  lemma WriteRecords(db: Db, db': Db, id: Id, kind: Kind, u: Id, p: Id)
    requires db' == WriteRow(db, id, kind, u, p).Else(db)
    requires p in db.projects && IsClient(db, u) ==> Insider(db, u, p)
    ensures RecordsOk(db, db')
  {
    if db' != db && IsClient(db, u) {
      var c :| c in db.contacts && db.contacts[c].user == Some(u) && db.contacts[c].org == db.projects[p].org;
      assert Insider(db', u, p);
    }
  }

  lemma ReadWriteOk(w: World, t: nat, u: Id, p: Id)
    requires Ok(w)
    ensures Ok(Do(w, ReadWrite(t, u, p)))
  {
    hide Referential, OneContact, Inside;
    var v := Do(w, ReadWrite(t, u, p));
    forall x | x in v.pending
      ensures PendingInside(v, x)
    {
      if x in w.pending && v.pending[x] == w.pending[x] {
        assert PendingInside(w, x);
      }
    }
  }

  lemma OtherOk(w: World, s: Step)
    requires Ok(w) && (s.ReadDelete? || s.Drop?)
    ensures Ok(Do(w, s))
  {
    hide Referential, OneContact, Inside;
    var v := Do(w, s);
    forall x | x in v.pending
      ensures PendingInside(v, x)
    {
      if x in w.pending && v.pending[x] == w.pending[x] {
        assert PendingInside(w, x);
      }
    }
  }

  lemma OkDo(w: World, s: Step)
    requires Ok(w)
    ensures Ok(Do(w, s))
  {
    hide Ok, Sees, WriteRow, DeleteOrg;
    match s
    case ReadWrite(t, u, p) => ReadWriteOk(w, t, u, p);
    case CommitWrite(t, id, kind) => CommitWriteOk(w, t, id, kind);
    case ReadDelete(_, _) => OtherOk(w, s);
    case CommitDelete(t) => if t in w.pending && w.pending[t].Deleting? { DeleteOk(w, t); }
    case Drop(_) => OtherOk(w, s);
    case _ => SimpleOk(w, s);
  }

  lemma {:induction false} OkRun(w: World, steps: seq<Step>)
    requires Ok(w)
    ensures Ok(Run(w, steps))
    decreases |steps|
  {
    hide Ok, Do;
    if steps != [] {
      OkDo(w, steps[0]);
      OkRun(Do(w, steps[0]), steps[1..]);
    }
  }

  // ---- the promises ----

  /** Everything of one organization: contacts, users, projects, their rows, and invitations. */
  datatype Holdings = Holdings(
    contacts: map<Id, Contact>, users: map<Id, Role>, projects: map<Id, Project>, rows: map<Id, Written>, invitations: map<Id, Invitation>)

  function HoldingsOf(db: Db, org: Id): Holdings {
    Holdings(
      map c | c in db.contacts && db.contacts[c].org == org :: db.contacts[c],
      map u | u in db.users && u in UsersOf(db, org) :: db.users[u],
      map p | p in db.projects && OfOrg(db, p, org) :: db.projects[p],
      map r | r in db.rows && OfOrg(db, db.rows[r].project, org) :: db.rows[r],
      map i | i in db.invitations && InvitesInto(db, i, org) :: db.invitations[i])
  }

  lemma DeletedElsewhere(db: Db, db': Db, org: Id, other: Id)
    requires OneContact(db) && Deleted(db, db', org) && other != org
    ensures HoldingsOf(db', other) == HoldingsOf(db, other)
  {
    hide HoldingsOf, Deleted, OneContact;
    DeletedUsers(db, db', org, other);
    DeletedProjects(db, db', org, other);
    DeletedInvitations(db, db', org, other);
  }

  lemma DeletedProjects(db: Db, db': Db, org: Id, other: Id)
    requires Deleted(db, db', org) && other != org
    ensures HoldingsOf(db', other).projects == HoldingsOf(db, other).projects
    ensures HoldingsOf(db', other).rows == HoldingsOf(db, other).rows
  {
    hide UsersOf, InvitesInto;
  }

  lemma DeletedInvitations(db: Db, db': Db, org: Id, other: Id)
    requires Deleted(db, db', org) && other != org
    ensures HoldingsOf(db', other).contacts == HoldingsOf(db, other).contacts
    ensures HoldingsOf(db', other).invitations == HoldingsOf(db, other).invitations
  {
    hide UsersOf, OfOrg;
    assert forall i :: InvitesInto(db', i, other) <==> InvitesInto(db, i, other);
  }

  lemma DeletedUsers(db: Db, db': Db, org: Id, other: Id)
    requires OneContact(db) && Deleted(db, db', org) && other != org
    ensures UsersOf(db', other) == UsersOf(db, other) && UsersOf(db, other) !! UsersOf(db, org)
    ensures HoldingsOf(db', other).users == HoldingsOf(db, other).users
  {
  }

  /**
   * In every reachable state, whatever requests and deletes interleave, deleting an organization for good
   * never meets a foreign key; afterwards no reference dangles, nothing of the organization is left, and
   * everything of every other organization is exactly as it was.
   */
  lemma ClientDeleteIsClosed(steps: seq<Step>, org: Id, other: Id)
    ensures
      var db := Run(Start(), steps).db;
      var r := DeleteOrg(db, org);
      && r.Committed? && Referential(r.db)
      && org !in r.db.orgs && HoldingsOf(r.db, org) == Holdings(map[], map[], map[], map[], map[])
      && UsersOf(db, org) !! r.db.users.Keys
      && (other != org ==> HoldingsOf(r.db, other) == HoldingsOf(db, other))
  {
    hide Run, DeleteOrg, Referential, OneContact, Inside, Drawn, PendingInside, HoldingsOf;
    StartOk();
    OkRun(Start(), steps);
    var db := Run(Start(), steps).db;
    DeleteCommits(db, org);
    DeleteIs(db, org);
    var db' := DeleteOrg(db, org).db;
    DeletedReferential(db, db', org);
    NothingLeft(db, db', org);
    if other != org {
      DeletedElsewhere(db, db', org, other);
    }
  }

  lemma StartOk()
    ensures Ok(Start())
  {
  }

  lemma NothingLeft(db: Db, db': Db, org: Id)
    requires Deleted(db, db', org)
    ensures HoldingsOf(db', org) == Holdings(map[], map[], map[], map[], map[])
  {
    assert UsersOf(db', org) == {};
  }

  /** Every row that names a client user of an organization lies under that organization's projects. */
  lemma ClientRowsInside(steps: seq<Step>, org: Id, r: Id)
    ensures
      var db := Run(Start(), steps).db;
      r in db.rows && db.rows[r].author in UsersOf(db, org) ==> OfOrg(db, db.rows[r].project, org)
  {
    hide Run, Referential, OneContact, Inside, Drawn, PendingInside, UsersOf;
    StartOk();
    OkRun(Start(), steps);
    var db := Run(Start(), steps).db;
    if r in db.rows && db.rows[r].author in UsersOf(db, org) {
      RowNotInside(db, org, r);
    }
  }

  // ---- who may write, and what may be deleted ----

  /**
   * In every reachable state a client user may read and write exactly the projects of its contact's
   * organization, and none once the contact was removed.
   */
  lemma SeesExactly(steps: seq<Step>, u: Id, c: Id, p: Id, t: nat)
    ensures
      var w := Run(Start(), steps);
      && (c in w.db.contacts && w.db.contacts[c].user == Some(u) ==>
            (Sees(w.db, u, p) <==> p in w.db.projects && w.db.projects[p].org == w.db.contacts[c].org && !w.db.contacts[c].removed))
      && (t !in w.pending ==> (Do(w, ReadWrite(t, u, p)).pending == w.pending[t := Writing(u, p)] <==> Sees(w.db, u, p)))
  {
    hide Run, Inside, Drawn, PendingInside;
    StartOk();
    OkRun(Start(), steps);
    var w := Run(Start(), steps);
    assert t in w.pending[t := Writing(u, p)];
  }

  /** An organization goes only by a delete that was read while it was archived. */
  lemma ArchivedFirst(w: World, s: Step, org: Id)
    ensures org in w.db.orgs && org !in Do(w, s).db.orgs ==>
      s.CommitDelete? && s.ticket in w.pending && w.pending[s.ticket] == Deleting(org)
    ensures s.ReadDelete? && Do(w, s) != w ==> s.org in w.db.orgs && w.db.orgs[s.org]
  {
    hide UserNamed, Sees;
  }

  // ---- an organization from first to last ----

  lemma OneStep(w: World, s: Step, more: seq<Step>)
    ensures Run(w, [s] + more) == Run(Do(w, s), more)
  {
    hide Do;
    assert ([s] + more)[1..] == more;
  }

  const INVITES: seq<Step> := [AddStaff(1), AddOrg(2), AddContact(3, 2)]
  const JOINS: seq<Step> := [Invite(4, Some(3), 1), Accept(3, 5), AddProject(6, 2)]
  const WRITES: seq<Step> := [ReadWrite(0, 5, 6), CommitWrite(0, 7, SignoffRow)]
  const LEAVES: seq<Step> := [Reopen(6), RemoveContact(3)]
  const GOES: seq<Step> := [Archive(2, true), ReadDelete(0, 2), CommitDelete(0)]

  const INVITED: Db := Db(map[2 := false], map[3 := Contact(2, None, false)], map[1 := StaffUser], map[], map[], map[])
  const JOINED: Db := Db(map[2 := false], map[3 := Contact(2, Some(5), false)], map[1 := StaffUser, 5 := ClientUser],
                         map[6 := Project(2, None)], map[], map[4 := Invitation(Some(3), 1)])

  lemma Three(w: World, s: seq<Step>)
    requires |s| == 3
    ensures Run(w, s) == Do(Do(Do(w, s[0]), s[1]), s[2])
  {
    hide Do;
    assert s == [s[0]] + ([s[1]] + ([s[2]] + []));
    OneStep(w, s[0], [s[1]] + ([s[2]] + []));
    OneStep(Do(w, s[0]), s[1], [s[2]] + []);
    OneStep(Do(Do(w, s[0]), s[1]), s[2], []);
  }

  lemma Two(w: World, s: seq<Step>)
    requires |s| == 2
    ensures Run(w, s) == Do(Do(w, s[0]), s[1])
  {
    hide Do;
    assert s == [s[0]] + ([s[1]] + []);
    OneStep(w, s[0], [s[1]] + []);
    OneStep(Do(w, s[0]), s[1], []);
  }

  lemma Invites()
    ensures Run(Start(), INVITES) == World(INVITED, map[], {1, 2, 3})
  {
    hide Run, UserNamed, Sees;
    Three(Start(), INVITES);
  }

  lemma Joins(w: World)
    requires w == World(INVITED, map[], {1, 2, 3})
    ensures Run(w, JOINS) == World(JOINED, map[], {1, 2, 3, 4, 5, 6})
  {
    hide Run, UserNamed, Sees;
    Three(w, JOINS);
    var w1 := Do(w, JOINS[0]);
    assert w1 == World(INVITED.(invitations := map[4 := Invitation(Some(3), 1)]), map[], {1, 2, 3, 4});
    var w2 := Do(w1, JOINS[1]);
    assert w2 == World(w1.db.(users := map[1 := StaffUser, 5 := ClientUser], contacts := map[3 := Contact(2, Some(5), false)]), map[], {1, 2, 3, 4, 5});
  }

  lemma Writes(w: World)
    requires w == World(JOINED, map[], {1, 2, 3, 4, 5, 6})
    ensures Run(w, WRITES) ==
      World(JOINED.(rows := map[7 := Written(SignoffRow, 6, 5)], projects := map[6 := Project(2, Some(5))]), map[], {1, 2, 3, 4, 5, 6, 7})
  {
    hide Run, UserNamed;
    Two(w, WRITES);
    assert Sees(w.db, 5, 6) by { assert w.db.contacts[3] == Contact(2, Some(5), false); }
    var w1 := Do(w, WRITES[0]);
    assert w1 == World(JOINED, map[0 := Writing(5, 6)], {1, 2, 3, 4, 5, 6});
    assert w1.pending - {0} == map[];
  }

  lemma Leaves(w: World)
    requires w.db == JOINED.(rows := map[7 := Written(SignoffRow, 6, 5)], projects := map[6 := Project(2, Some(5))]) && w.pending == map[]
    ensures
      var v := Run(w, LEAVES);
      v.db == w.db.(projects := map[6 := Project(2, None)], contacts := map[3 := Contact(2, Some(5), true)]) && v.pending == map[]
  {
    hide Run, UserNamed, DeleteOrg, Sees;
    Two(w, LEAVES);
    assert Do(w, LEAVES[0]).db == w.db.(projects := map[6 := Project(2, None)]);
  }

  lemma Goes(w: World)
    requires w.db == JOINED.(rows := map[7 := Written(SignoffRow, 6, 5)], contacts := map[3 := Contact(2, Some(5), true)]) && w.pending == map[]
    ensures Run(w, GOES).db == EMPTY.(users := map[1 := StaffUser])
  {
    hide Run, UserNamed, DeleteOrg, Sees;
    Three(w, GOES);
    var w1 := Do(w, GOES[0]);
    assert w1.db == w.db.(orgs := map[2 := true]);
    var w2 := Do(w1, GOES[1]);
    assert w2.db == w1.db && w2.pending == map[0 := Deleting(2)];
    Gone(w2.db);
  }

  lemma Gone(db: Db)
    requires db == Db(map[2 := true], map[3 := Contact(2, Some(5), true)], map[1 := StaffUser, 5 := ClientUser],
                      map[6 := Project(2, None)], map[7 := Written(SignoffRow, 6, 5)], map[4 := Invitation(Some(3), 1)])
    ensures DeleteOrg(db, 2) == Committed(EMPTY.(users := map[1 := StaffUser]))
  {
    hide UserNamed;
    var db1 := WithoutProjects(db, 2);
    assert db1 == db.(rows := map[], projects := map[]);
    var db2 := WithoutOrg(db1, 2);
    assert InvitesInto(db1, 4, 2);
    assert db2 == EMPTY.(users := db.users);
    assert UsersOf(db, 2) == {5} by { assert db.contacts[3].user == Some(5); }
    NobodyIn(db2, 5);
    assert db2.users - {5} == map[1 := StaffUser];
  }

  lemma NobodyIn(db: Db, u: Id)
    requires db == EMPTY.(users := db.users)
    ensures !UserNamed(db, u)
  {
  }

  /**
   * A run: an organization's contact accepts its invitation, signs off a project, and is removed; the archived
   * organization is deleted for good, and with it everything but the staff user.
   */
  lemma OrganizationStory()
    ensures
      var a := Run(Start(), INVITES + JOINS + WRITES);
      a.db.rows == map[7 := Written(SignoffRow, 6, 5)] && a.db.projects == map[6 := Project(2, Some(5))]
    ensures Run(Start(), INVITES + JOINS + WRITES + LEAVES).db.contacts == map[3 := Contact(2, Some(5), true)]
    ensures Run(Start(), INVITES + JOINS + WRITES + LEAVES + GOES).db == EMPTY.(users := map[1 := StaffUser])
  {
    hide Run, Start;
    RunAppend(Start(), INVITES, JOINS);
    RunAppend(Start(), INVITES + JOINS, WRITES);
    RunAppend(Start(), INVITES + JOINS + WRITES, LEAVES);
    RunAppend(Start(), INVITES + JOINS + WRITES + LEAVES, GOES);
    Invites();
    Joins(Run(Start(), INVITES));
    var a := Run(Start(), INVITES + JOINS);
    Writes(a);
    Leaves(Run(a, WRITES));
    Goes(Run(Run(a, WRITES), LEAVES));
  }

  lemma {:induction false} RunAppend(w: World, a: seq<Step>, b: seq<Step>)
    ensures Run(w, a + b) == Run(Run(w, a), b)
    decreases |a|
  {
    hide Do;
    if a == [] {
      assert a + b == b;
    } else {
      assert (a + b)[1..] == a[1..] + b;
      RunAppend(Do(w, a[0]), a[1..], b);
    }
  }
}
