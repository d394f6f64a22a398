/**
 * Importing clients from a spreadsheet (internal/web/export.go, clientsImport): every row finds or adds
 * its organization, then finds or adds its contact, and nothing is overwritten. Importing the same file
 * again adds nothing.
 */
module Import {
  import opened Basics
  import Like

  type Id = nat

  datatype Org = Org(name: string, email: string, phone: string)
  datatype Contact = Contact(org: Id, email: string, name: string, title: string)

  /** The organizations and contacts of the workspace; ids come from next on. */
  datatype Book = Book(orgs: map<Id, Org>, contacts: map<Id, Contact>, next: Id)

  /** A line of the file: not CSV, or its trimmed columns with the contact's e-mail in lower case. */
  datatype Line = Broken | Row(name: string, email: string, phone: string, contactName: string, contactEmail: string, title: string)

  const MAX_ROWS: nat := 5000

  /** SQL's lower(): ASCII letters only. */
  function Lower(s: string): string { seq(|s|, i requires 0 <= i < |s| => Like.Fold(s[i])) }

  function Named(b: Book, name: string): set<Id> { set o | o in b.orgs && Lower(b.orgs[o].name) == Lower(name) }

  /** LIMIT 1 without an order: one of the candidates, the same one each time. */
  type Pick = set<Id> -> Id

  ghost predicate Picks(pick: Pick) { forall c: set<Id> | c != {} :: pick(c) in c }

  predicate HasContact(b: Book, org: Id, email: string) {
    exists c :: c in b.contacts && b.contacts[c].org == org && b.contacts[c].email == email
  }

  predicate GoodName(s: string) { 1 <= |s| <= 200 }

  predicate GoodEmail(s: string) { '@' in s && |s| <= 254 }

  /** What an import did so far. */
  datatype Added = Added(book: Book, orgs: nat, contacts: nat)

  /** The row's organization, found or added. */
  function OrgOf(a: Added, l: Line, pick: Pick): (Added, Id)
    requires l.Row?
  {
    var candidates := Named(a.book, l.name);
    if candidates != {} then (a, pick(candidates))
    else
      var b := a.book;
      (Added(b.(orgs := b.orgs[b.next := Org(l.name, l.email, l.phone)], next := b.next + 1), a.orgs + 1, a.contacts), b.next)
  }

  function AddContact(a: Added, l: Line, org: Id): Added
    requires l.Row?
  {
    var b := a.book;
    var name := if l.contactName == "" then l.contactEmail else l.contactName;
    Added(b.(contacts := b.contacts[b.next := Contact(org, l.contactEmail, name, l.title)], next := b.next + 1), a.orgs, a.contacts + 1)
  }

  /** One line; None is an error that refuses the whole file. */
  function AddLine(a: Added, l: Line, pick: Pick): Option<Added> {
    if l.Broken? || !GoodName(l.name) then None
    else
      var (found, org) := OrgOf(a, l, pick);
      if l.contactEmail == "" then Some(found)
      else if !GoodEmail(l.contactEmail) then None
      else if HasContact(found.book, org, l.contactEmail) then Some(found)
      else Some(AddContact(found, l, org))
  }

  function AddLines(a: Added, lines: seq<Line>, pick: Pick): Option<Added> {
    if lines == [] then Some(a)
    else
      var before :- AddLines(a, lines[..|lines| - 1], pick);
      if |lines| > MAX_ROWS then None else AddLine(before, lines[|lines| - 1], pick)
  }

  class Directory {
    var book: Book

    constructor (book: Book)
      ensures this.book == book
    {
      this.book := book;
    }

    /** The transaction around the loop over the file; on an error it is rolled back. */
    method Import(lines: seq<Line>, pick: Pick) returns (r: Option<(nat, nat)>)
      modifies this
      ensures
        var done := AddLines(Added(old(book), 0, 0), lines, pick);
        && book == (if done.Some? then done.value.book else old(book))
        && r == if done.Some? then Some((done.value.orgs, done.value.contacts)) else None
    {
      hide AddLines, Named, HasContact;
      var before := book;
      ghost var start := Added(book, 0, 0);
      var orgs, contacts := 0, 0;
      var i := 0;
      NoLines(start, lines, pick);
      while i < |lines|
        invariant 0 <= i <= |lines|
        invariant AddLines(start, lines[..i], pick) == Some(Added(book, orgs, contacts))
      {
        var l := lines[i];
        NextLine(start, lines, i, pick);
        if i >= MAX_ROWS || l.Broken? || !GoodName(l.name) {
          book := before;
          return None;
        }
        ghost var found := OrgOf(Added(book, orgs, contacts), l, pick);
        var candidates := Named(book, l.name);
        var org := book.next;
        if candidates != {} {
          org := pick(candidates);
        } else {
          book := book.(orgs := book.orgs[org := Org(l.name, l.email, l.phone)], next := org + 1);
          orgs := orgs + 1;
        }
        assert found == (Added(book, orgs, contacts), org);
        i := i + 1;
        if l.contactEmail == "" {
          continue;
        }
        if !GoodEmail(l.contactEmail) {
          book := before;
          return None;
        }
        if HasContact(book, org, l.contactEmail) {
          continue;
        }
        var name := l.contactName;
        if name == "" {
          name := l.contactEmail;
        }
        book := book.(contacts := book.contacts[book.next := Contact(org, l.contactEmail, name, l.title)], next := book.next + 1);
        contacts := contacts + 1;
      }
      assert lines[..i] == lines;
      return Some((orgs, contacts));
    }
  }

  lemma NoLines(a: Added, lines: seq<Line>, pick: Pick)
    ensures AddLines(a, lines[..0], pick) == Some(a)
  {
  }

  /** What line i does, and that an error there refuses the file. */
  lemma NextLine(a: Added, lines: seq<Line>, i: nat, pick: Pick)
    requires i < |lines| && AddLines(a, lines[..i], pick).Some?
    ensures AddLines(a, lines[..i + 1], pick) == if i >= MAX_ROWS then None else AddLine(AddLines(a, lines[..i], pick).value, lines[i], pick)
    ensures AddLines(a, lines[..i + 1], pick).None? ==> AddLines(a, lines, pick).None?
  {
    hide AddLine;
    assert lines[..i + 1][..i] == lines[..i];
    if AddLines(a, lines[..i + 1], pick).None? {
      RefusedStays(a, lines, i + 1, pick);
    }
  }

  lemma {:induction false} RefusedStays(a: Added, lines: seq<Line>, n: nat, pick: Pick)
    requires n <= |lines| && AddLines(a, lines[..n], pick).None?
    ensures AddLines(a, lines, pick).None?
    decreases |lines| - n
  {
    hide AddLine;
    if n == |lines| {
      assert lines[..n] == lines;
    } else {
      assert lines[..n + 1][..n] == lines[..n];
      RefusedStays(a, lines, n + 1, pick);
    }
  }

  // ---- nothing is overwritten ----

  ghost predicate Fits(b: Book) { (forall o | o in b.orgs :: o < b.next) && (forall c | c in b.contacts :: c < b.next) }

  /** The book grew by what the counters say. */
  ghost predicate Grown(a: Added, b: Added) {
    && (forall o | o in a.book.orgs :: o in b.book.orgs && b.book.orgs[o] == a.book.orgs[o])
    && (forall c | c in a.book.contacts :: c in b.book.contacts && b.book.contacts[c] == a.book.contacts[c])
    && |b.book.orgs| - |a.book.orgs| == b.orgs - a.orgs && |b.book.contacts| - |a.book.contacts| == b.contacts - a.contacts
  }

  lemma LineGrows(a: Added, l: Line, pick: Pick)
    requires Fits(a.book) && AddLine(a, l, pick).Some?
    ensures Fits(AddLine(a, l, pick).value.book) && Grown(a, AddLine(a, l, pick).value)
  {
    hide Named, HasContact;
    var (found, org) := OrgOf(a, l, pick);
    assert Fits(found.book) && Grown(a, found);
  }

  lemma {:induction false} LinesGrow(a: Added, lines: seq<Line>, pick: Pick)
    requires Fits(a.book) && AddLines(a, lines, pick).Some?
    ensures Fits(AddLines(a, lines, pick).value.book) && Grown(a, AddLines(a, lines, pick).value)
  {
    hide AddLine, Fits;
    if lines != [] {
      var init := lines[..|lines| - 1];
      LinesGrow(a, init, pick);
      LineGrows(AddLines(a, init, pick).value, lines[|lines| - 1], pick);
    }
  }

  /** An import only adds, and it reports exactly how many organizations and contacts it added. */
  lemma ImportOnlyAdds(b: Book, lines: seq<Line>, pick: Pick)
    requires Fits(b)
    ensures
      var done := AddLines(Added(b, 0, 0), lines, pick);
      done.Some? ==>
        && (forall o | o in b.orgs :: o in done.value.book.orgs && done.value.book.orgs[o] == b.orgs[o])
        && (forall c | c in b.contacts :: c in done.value.book.contacts && done.value.book.contacts[c] == b.contacts[c])
        && |done.value.book.orgs| == |b.orgs| + done.value.orgs && |done.value.book.contacts| == |b.contacts| + done.value.contacts
  {
    if AddLines(Added(b, 0, 0), lines, pick).Some? {
      LinesGrow(Added(b, 0, 0), lines, pick);
    }
  }

  // ---- importing again ----

  /** A line that would add nothing. */
  predicate Known(b: Book, l: Line, pick: Pick) {
    && l.Row? && GoodName(l.name) && Named(b, l.name) != {}
    && (l.contactEmail == "" || (GoodEmail(l.contactEmail) && HasContact(b, pick(Named(b, l.name)), l.contactEmail)))
  }

  lemma KnownAddsNothing(a: Added, l: Line, pick: Pick)
    requires Known(a.book, l, pick)
    ensures AddLine(a, l, pick) == Some(a)
  {
  }

  /** A line is known once it was added. */
  lemma AddedIsKnown(a: Added, l: Line, pick: Pick)
    requires Fits(a.book) && Picks(pick) && AddLine(a, l, pick).Some?
    ensures Known(AddLine(a, l, pick).value.book, l, pick)
  {
    hide HasContact, Lower;
    var (found, org) := OrgOf(a, l, pick);
    NamedAfter(a, l, l.name, pick);
    var b := AddLine(a, l, pick).value.book;
    assert Named(b, l.name) == Named(found.book, l.name);
    assert pick(Named(found.book, l.name)) == org;
    if b != found.book {
      ContactIsThere(found, l, org);
    } else if l.contactEmail != "" {
      assert HasContact(b, org, l.contactEmail);
    }
  }

  lemma ContactIsThere(a: Added, l: Line, org: Id)
    requires l.Row?
    ensures HasContact(AddContact(a, l, org).book, org, l.contactEmail)
  {
    assert AddContact(a, l, org).book.contacts[a.book.next].email == l.contactEmail;
  }

  /** Who has a name changes only from nobody to the row's new organization. */
  lemma NamedAfter(a: Added, l: Line, name: string, pick: Pick)
    requires l.Row? && Fits(a.book)
    ensures
      var (found, org) := OrgOf(a, l, pick);
      && Named(found.book, name) ==
           (if Named(a.book, l.name) == {} && Lower(name) == Lower(l.name) then {org} else Named(a.book, name))
      && (Named(a.book, l.name) == {} && Lower(name) == Lower(l.name) ==> Named(a.book, name) == {})
  {
    hide Lower;
    if Lower(name) == Lower(l.name) {
      assert Named(a.book, name) == Named(a.book, l.name);
    }
  }

  /** A known line stays known while other lines are added. */
  lemma KnownStays(a: Added, l: Line, k: Line, pick: Pick)
    requires Fits(a.book) && Known(a.book, k, pick) && AddLine(a, l, pick).Some?
    ensures Known(AddLine(a, l, pick).value.book, k, pick)
  {
    hide Lower, HasContact;
    var (found, org) := OrgOf(a, l, pick);
    NamedAfter(a, l, k.name, pick);
    var b := AddLine(a, l, pick).value.book;
    assert Named(b, k.name) == Named(a.book, k.name);
    LineGrows(a, l, pick);
    if k.contactEmail != "" {
      ContactStays(a.book, b, pick(Named(a.book, k.name)), k.contactEmail);
    }
  }

  lemma ContactStays(b: Book, b': Book, org: Id, email: string)
    requires HasContact(b, org, email) && forall c | c in b.contacts :: c in b'.contacts && b'.contacts[c] == b.contacts[c]
    ensures HasContact(b', org, email)
  {
    var c :| c in b.contacts && b.contacts[c].org == org && b.contacts[c].email == email;
    assert c in b'.contacts;
  }

  lemma {:induction false} LinesKnown(a: Added, lines: seq<Line>, pick: Pick)
    requires Fits(a.book) && Picks(pick) && AddLines(a, lines, pick).Some?
    ensures forall l | l in lines :: Known(AddLines(a, lines, pick).value.book, l, pick)
  {
    hide AddLine, Known, Fits, Picks;
    if lines != [] {
      var init, last := lines[..|lines| - 1], lines[|lines| - 1];
      assert lines == init + [last];
      LinesKnown(a, init, pick);
      LinesGrow(a, init, pick);
      var before := AddLines(a, init, pick).value;
      AddedIsKnown(before, last, pick);
      forall l | l in init
        ensures Known(AddLines(a, lines, pick).value.book, l, pick)
      {
        KnownStays(before, last, l, pick);
      }
    }
  }

  lemma {:induction false} KnownLinesAddNothing(a: Added, lines: seq<Line>, pick: Pick)
    requires |lines| <= MAX_ROWS && forall l | l in lines :: Known(a.book, l, pick)
    ensures AddLines(a, lines, pick) == Some(a)
  {
    hide AddLine, Known;
    if lines != [] {
      KnownLinesAddNothing(a, lines[..|lines| - 1], pick);
      assert lines[|lines| - 1] in lines;
      KnownAddsNothing(a, lines[|lines| - 1], pick);
    }
  }

  lemma {:induction false} WithinLimit(a: Added, lines: seq<Line>, pick: Pick)
    requires AddLines(a, lines, pick).Some?
    ensures |lines| <= MAX_ROWS
  {
  }

  /** A file that was imported can be imported again: the second time it adds nothing at all. */
  lemma ImportTwice(b: Book, lines: seq<Line>, pick: Pick)
    requires Fits(b) && Picks(pick)
    ensures
      var done := AddLines(Added(b, 0, 0), lines, pick);
      done.Some? ==> AddLines(Added(done.value.book, 0, 0), lines, pick) == Some(Added(done.value.book, 0, 0))
  {
    hide Fits, Picks, Known;
    var done := AddLines(Added(b, 0, 0), lines, pick);
    if done.Some? {
      WithinLimit(Added(b, 0, 0), lines, pick);
      LinesKnown(Added(b, 0, 0), lines, pick);
      KnownLinesAddNothing(Added(done.value.book, 0, 0), lines, pick);
    }
  }

  // ---- which files are accepted, and what is there afterwards ----

  predicate GoodLine(l: Line) {
    l.Row? && 1 <= |l.name| <= 200 && (l.contactEmail == "" || ('@' in l.contactEmail && |l.contactEmail| <= 254))
  }

  lemma LineAccepted(a: Added, l: Line, pick: Pick)
    ensures AddLine(a, l, pick).Some? <==> GoodLine(l)
  {
    hide HasContact, OrgOf, AddContact;
  }

  /** A file is accepted exactly when it has 5000 lines at most, each with a name and no bad e-mail. */
  lemma {:induction false} AcceptedExactly(a: Added, lines: seq<Line>, pick: Pick)
    ensures AddLines(a, lines, pick).Some? <==> |lines| <= 5000 && forall l | l in lines :: GoodLine(l)
  {
    hide AddLine, GoodLine;
    if lines != [] {
      var init, last := lines[..|lines| - 1], lines[|lines| - 1];
      assert lines == init + [last];
      AcceptedExactly(a, init, pick);
      if AddLines(a, init, pick).Some? {
        LineAccepted(AddLines(a, init, pick).value, last, pick);
      }
      assert (forall l | l in lines :: GoodLine(l)) <==> GoodLine(last) && forall l | l in init :: GoodLine(l);
    }
  }

  /** Two names that the import takes for one: letter by letter the same, up to the case of ASCII letters. */
  predicate SameName(x: string, y: string) { |x| == |y| && forall i | 0 <= i < |x| :: Like.SameLetter(x[i], y[i]) }

  /** Afterwards every line's organization is there, and its contact in an organization of that name. */
  lemma EveryLineIsThere(b: Book, lines: seq<Line>, pick: Pick, l: Line)
    requires Fits(b) && Picks(pick) && l in lines && l.Row?
    ensures
      var done := AddLines(Added(b, 0, 0), lines, pick);
      done.Some? ==>
        && (exists o :: o in done.value.book.orgs && SameName(done.value.book.orgs[o].name, l.name))
        && (l.contactEmail != "" ==>
              exists c :: c in done.value.book.contacts && done.value.book.contacts[c].email == l.contactEmail
                && done.value.book.contacts[c].org in done.value.book.orgs
                && SameName(done.value.book.orgs[done.value.book.contacts[c].org].name, l.name))
  {
    hide AddLines, SameName, Fits;
    var done := AddLines(Added(b, 0, 0), lines, pick);
    if done.Some? {
      LinesKnown(Added(b, 0, 0), lines, pick);
      var book := done.value.book;
      forall o | o in Named(book, l.name)
        ensures o in book.orgs && SameName(book.orgs[o].name, l.name)
      {
        SameLower(book.orgs[o].name, l.name);
      }
      var some :| some in Named(book, l.name);
      assert pick(Named(book, l.name)) in Named(book, l.name);
    }
  }

  lemma SameLower(x: string, y: string)
    ensures Lower(x) == Lower(y) <==> SameName(x, y)
  {
    if Lower(x) == Lower(y) {
      assert |Lower(x)| == |Lower(y)|;
      forall i | 0 <= i < |x|
        ensures Like.SameLetter(x[i], y[i])
      {
        assert Lower(x)[i] == Lower(y)[i];
      }
    }
  }
}
