/**
 * Adding and removing a contact (node/node_contacts.go): each call touches two stores, one after the other, and
 * removal also purges the peer's messages.
 */
module ContactBook {
  import MS = MessageStore
  import Deletion
  import C = Contacts

  /** The contact as it is stored, with what its signature comes to; valid is the outcome of the signature check. */
  function Checked(c: C.Contact, valid: bool): C.Contact {
    c.(verified := c.signature != "" && c.ed25519Pub != "" && c.x25519Pub != "" && valid)
  }

  class ContactBook {
    const self: string
    const contacts: C.ContactsStore
    const deleted: C.DeletedStore
    const memory: MS.Memory

    constructor (self: string, contacts: C.ContactsStore, deleted: C.DeletedStore, memory: MS.Memory)
      ensures this.self == self && this.contacts == contacts && this.deleted == deleted && this.memory == memory
    {
      this.self, this.contacts, this.deleted, this.memory := self, contacts, deleted, memory;
    }

    ghost function Book(): Book
      reads contacts, deleted
    {
      Pair(contacts.contacts, deleted.deleted)
    }

    /** A peer cannot add itself; otherwise the peer leaves the deleted list and its contact is added or updated. */
    method AddContact(c: C.Contact, valid: bool, now: string, saves: bool) returns (ok: bool)
      requires now != "" && !c.confirmed
      modifies contacts, deleted
      ensures Book() == Step(old(Book()), self, AddContactOp(c, valid, now))
      ensures ok <==> c.peerID != self && c.peerID != "" && saves
    {
      if c.peerID == self {
        return false;
      }
      var cleared := deleted.RemoveFromDeleted(c.peerID, saves);
      var verified := false;
      if c.signature != "" && c.ed25519Pub != "" && c.x25519Pub != "" && valid {
        verified := true;
      }
      ok := contacts.Add(c.(verified := verified), now, saves);
    }

    /** The contact goes, its peer is marked deleted, and every message from or to the peer is purged; no other is. */
    method RemoveContact(p: string, saves: bool)
      requires memory.Valid()
      modifies contacts, deleted, memory
      ensures Book() == Step(old(Book()), self, RemoveContactOp(p))
      ensures memory.Valid()
      ensures MS.View(memory.messages) ==
              MS.KeptMap(MS.View(old(memory.messages)), (m: MS.Message) => m.sender != p && m.recipient != p)
    {
      RemoveFromBook(p, saves);
      Purge(p);
    }

    method RemoveFromBook(p: string, saves: bool)
      modifies contacts, deleted
      ensures Book() == Step(old(Book()), self, RemoveContactOp(p))
    {
      var gone := contacts.Remove(p, saves);
      var marked := deleted.Add(p, saves);
    }

    method Purge(p: string)
      requires memory.Valid()
      modifies memory
      ensures memory.Valid()
      ensures MS.View(memory.messages) ==
              MS.KeptMap(MS.View(old(memory.messages)), (m: MS.Message) => m.sender != p && m.recipient != p)
    {
      hide MS.View;
      var removed := Deletion.RemoveMatching(memory, (m: MS.Message) => m.sender == p || m.recipient == p);
    }
  }

  // ---------- atomic calls ----------

  datatype Book = Pair(contacts: seq<C.Contact>, deleted: set<string>)

  datatype Op =
    | AddContactOp(c: C.Contact, valid: bool, now: string)
    | RemoveContactOp(p: string)
    | SetConfirmedOp(p: string)
    | RenameOp(p: string, name: string)
    | SetReadEnabledOp(p: string, on: bool)
    | UndeleteOp(p: string)

  function Step(b: Book, self: string, op: Op): Book {
    match op
    case AddContactOp(c, valid, now) =>
      if c.peerID == self then b else Half(Half(b, ClearDeleted(c.peerID)), PutContact(Checked(c, valid), now))
    case RemoveContactOp(p) => Half(Half(b, DropContact(p)), MarkDeleted(p))
    case SetConfirmedOp(p) => b.(contacts := C.Step(b.contacts, C.SetConfirmed(p)))
    case RenameOp(p, name) => b.(contacts := C.Step(b.contacts, C.Rename(p, name)))
    case SetReadEnabledOp(p, on) => b.(contacts := C.Step(b.contacts, C.UpdateReadEnabled(p, on)))
    case UndeleteOp(p) => Half(b, ClearDeleted(p))
  }

  function Run(b: Book, self: string, ops: seq<Op>): Book {
    if ops == [] then b else Step(Run(b, self, ops[..|ops| - 1]), self, ops[|ops| - 1])
  }

  /** No peer is both a contact and deleted. */
  ghost predicate Disjoint(b: Book) {
    forall p :: p in b.deleted ==> !C.Has(b.contacts, p)
  }

  // ---------- the halves of a call ----------

  datatype HalfStep =
    | ClearDeleted(p: string)
    | PutContact(c: C.Contact, now: string)
    | DropContact(p: string)
    | MarkDeleted(p: string)

  function Half(b: Book, h: HalfStep): Book {
    match h
    case ClearDeleted(p) => b.(deleted := if p == "" then b.deleted else b.deleted - {p})
    case PutContact(c, now) => b.(contacts := C.Added(b.contacts, c, now))
    case DropContact(p) => b.(contacts := C.Without(b.contacts, p))
    case MarkDeleted(p) => b.(deleted := if p == "" then b.deleted else b.deleted + {p})
  }

  function HalfRun(b: Book, hs: seq<HalfStep>): Book {
    if hs == [] then b else Half(HalfRun(b, hs[..|hs| - 1]), hs[|hs| - 1])
  }

  lemma HasAfterChange(cs: seq<C.Contact>, p: string, f: C.Contact -> C.Contact, q: string)
    requires forall c :: f(c).peerID == c.peerID
    ensures C.Has(C.Changed(cs, p, f), q) <==> C.Has(cs, q)
  {
    var r := C.Changed(cs, p, f);
    if C.Has(cs, q) {
      assert r[C.Find(cs, q)].peerID == q;
    }
  }

  lemma HasAfterAdd(cs: seq<C.Contact>, c: C.Contact, now: string, q: string)
    ensures C.Has(C.Added(cs, c, now), q) <==> C.Has(cs, q) || (q == c.peerID && q != "")
  {
    var r := C.Added(cs, c, now);
    if C.Has(cs, q) {
      assert r[C.Find(cs, q)].peerID == q;
    } else if q == c.peerID && q != "" {
      assert r[|cs|].peerID == q;
    }
  }

  lemma HasAfterDrop(cs: seq<C.Contact>, p: string, q: string)
    ensures C.Has(C.Without(cs, p), q) <==> C.Has(cs, q) && q != p
  {
    var r := C.Without(cs, p);
    if C.Has(cs, q) && q != p {
      assert C.Of(cs, q) in r;
    }
    if C.Has(r, q) {
      assert C.Of(r, q) in r;
    }
  }

  lemma StepKeepsDisjoint(b: Book, self: string, op: Op)
    requires Disjoint(b)
    ensures Disjoint(Step(b, self, op))
  {
    var b' := Step(b, self, op);
    hide C.Added, C.Find;
    forall q | q in b'.deleted ensures !C.Has(b'.contacts, q) {
      match op
      case AddContactOp(c, valid, now) => HasAfterAdd(b.contacts, Checked(c, valid), now, q);
      case RemoveContactOp(p) => HasAfterDrop(b.contacts, p, q); assert p == "" ==> q in b.deleted;
      case SetConfirmedOp(p) => HasAfterChange(b.contacts, p, C.Confirm(), q);
      case RenameOp(p, name) => HasAfterChange(b.contacts, p, C.WithName(name), q);
      case SetReadEnabledOp(p, on) => HasAfterChange(b.contacts, p, C.WithRead(on), q);
      case UndeleteOp(p) =>
    }
  }

  /** Over any run of whole calls no peer is ever both a contact and deleted. */
  lemma {:induction false} RunKeepsDisjoint(b: Book, self: string, ops: seq<Op>)
    requires Disjoint(b)
    ensures Disjoint(Run(b, self, ops))
  {
    if ops != [] {
      RunKeepsDisjoint(b, self, ops[..|ops| - 1]);
      hide Disjoint, Step;
      StepKeepsDisjoint(Run(b, self, ops[..|ops| - 1]), self, ops[|ops| - 1]);
    }
  }

  /** No call ever makes a node its own contact. */
  lemma {:induction false} NeverOneself(b: Book, self: string, ops: seq<Op>)
    requires !C.Has(b.contacts, self)
    ensures !C.Has(Run(b, self, ops).contacts, self)
  {
    if ops != [] {
      var before := Run(b, self, ops[..|ops| - 1]);
      NeverOneself(b, self, ops[..|ops| - 1]);
      match ops[|ops| - 1]
      case AddContactOp(c, valid, now) => HasAfterAdd(before.contacts, Checked(c, valid), now, self);
      case RemoveContactOp(p) => HasAfterDrop(before.contacts, p, self);
      case SetConfirmedOp(p) => HasAfterChange(before.contacts, p, C.Confirm(), self);
      case RenameOp(p, name) => HasAfterChange(before.contacts, p, C.WithName(name), self);
      case SetReadEnabledOp(p, on) => HasAfterChange(before.contacts, p, C.WithRead(on), self);
      case UndeleteOp(p) =>
    }
  }

  // ---------- verified contacts ----------

  /** One of the calls added the contact with these keys and a signature that was found valid for them. */
  ghost predicate Signed(ops: seq<Op>, c: C.Contact) {
    exists op :: op in ops && op.AddContactOp? && op.valid && op.c.peerID == c.peerID
                 && op.c.signature == c.signature != "" && op.c.ed25519Pub == c.ed25519Pub != ""
                 && op.c.x25519Pub == c.x25519Pub != ""
  }

  lemma SignedStays(ops: seq<Op>, c: C.Contact, d: C.Contact)
    requires ops != [] && Signed(ops[..|ops| - 1], c) && d.peerID == c.peerID
    requires d.signature == c.signature && d.ed25519Pub == c.ed25519Pub && d.x25519Pub == c.x25519Pub
    ensures Signed(ops, d)
  {
    var op :| op in ops[..|ops| - 1] && op.AddContactOp? && op.valid && op.c.peerID == c.peerID
              && op.c.signature == c.signature != "" && op.c.ed25519Pub == c.ed25519Pub != ""
              && op.c.x25519Pub == c.x25519Pub != "";
    assert op in ops;
  }

  /** Over any run of calls, a contact that counts as verified was added with its keys and a valid signature of them. */
  lemma {:induction false} VerifiedIsSigned(b: Book, self: string, ops: seq<Op>, i: nat)
    requires b.contacts == [] && i < |Run(b, self, ops).contacts| && Run(b, self, ops).contacts[i].verified
    ensures Signed(ops, Run(b, self, ops).contacts[i])
  {
    assert ops != [];
    var before, op := Run(b, self, ops[..|ops| - 1]), ops[|ops| - 1];
    var d := Run(b, self, ops).contacts[i];
    hide Signed;
    if !IsNew(op, d) {
      var j := WhereFrom(before, self, op, i);
      VerifiedIsSigned(b, self, ops[..|ops| - 1], j);
      SignedStays(ops, before.contacts[j], d);
    } else {
      assert op in ops;
      NewIsSigned(ops, d);
    }
  }

  predicate IsNew(op: Op, d: C.Contact) {
    op.AddContactOp? && op.valid && op.c.peerID == d.peerID && op.c.signature == d.signature != ""
    && op.c.ed25519Pub == d.ed25519Pub != "" && op.c.x25519Pub == d.x25519Pub != ""
  }

  lemma NewIsSigned(ops: seq<Op>, d: C.Contact)
    requires ops != [] && IsNew(ops[|ops| - 1], d)
    ensures Signed(ops, d)
  {
    assert ops[|ops| - 1] in ops;
  }

  /** A verified contact the operation has not just added was there before, verified, with the same keys. */
  lemma WhereFrom(b: Book, self: string, op: Op, i: nat) returns (j: nat)
    requires i < |Step(b, self, op).contacts| && Step(b, self, op).contacts[i].verified
    requires !IsNew(op, Step(b, self, op).contacts[i])
    ensures j < |b.contacts|
    ensures var c, d := b.contacts[j], Step(b, self, op).contacts[i];
            c.verified && d.peerID == c.peerID && d.signature == c.signature && d.ed25519Pub == c.ed25519Pub
            && d.x25519Pub == c.x25519Pub
  {
    var d := Step(b, self, op).contacts[i];
    if op.RemoveContactOp? {
      assert d in b.contacts;
      j :| j < |b.contacts| && b.contacts[j] == d;
    } else {
      j := i;
    }
  }

  /** And a call with a valid signature of both keys does make it so. */
  lemma SignedIsVerified(b: Book, self: string, c: C.Contact, now: string)
    requires c.peerID != "" && c.peerID != self && c.signature != "" && c.ed25519Pub != "" && c.x25519Pub != ""
    ensures var b' := Step(b, self, AddContactOp(c, true, now));
            C.Has(b'.contacts, c.peerID) && C.Of(b'.contacts, c.peerID).verified
  {
    HasAfterAdd(b.contacts, Checked(c, true), now, c.peerID);
    var r := Step(b, self, AddContactOp(c, true, now)).contacts;
    if C.Has(b.contacts, c.peerID) {
      assert r[C.Find(b.contacts, c.peerID)].peerID == c.peerID;
      assert C.Find(r, c.peerID) == C.Find(b.contacts, c.peerID);
    } else {
      assert r[|b.contacts|].peerID == c.peerID;
    }
  }

  // ---------- overlapping calls ----------

  function AddHalves(c: C.Contact, now: string): seq<HalfStep> {
    [ClearDeleted(c.peerID), PutContact(c, now)]
  }

  function RemoveHalves(p: string): seq<HalfStep> {
    [DropContact(p), MarkDeleted(p)]
  }

  /** s runs a and b side by side: each in its own order. */
  predicate Interleaves<T(==)>(s: seq<T>, a: seq<T>, b: seq<T>)
    decreases |s|
  {
    if s == [] then a == [] && b == []
    else
      (a != [] && s[0] == a[0] && Interleaves(s[1..], a[1..], b))
      || (b != [] && s[0] == b[0] && Interleaves(s[1..], a, b[1..]))
  }

  lemma {:induction false} NoneLeft<T>(s: seq<T>, b: seq<T>)
    ensures Interleaves(s, [], b) ==> s == b
    ensures Interleaves(s, b, []) ==> s == b
  {
    if s != [] && b != [] {
      NoneLeft(s[1..], b[1..]);
    }
  }

  lemma OneByOne<T>(s: seq<T>, a: T, b: T)
    ensures Interleaves(s, [a], [b]) ==> s == [a, b] || s == [b, a]
  {
    if s != [] {
      assert [a][1..] == [] && [b][1..] == [] && s == [s[0]] + s[1..];
      NoneLeft(s[1..], [a]);
      NoneLeft(s[1..], [b]);
    }
  }

  lemma OneByTwo<T>(s: seq<T>, a: T, b0: T, b1: T)
    ensures Interleaves(s, [a], [b0, b1]) || Interleaves(s, [b0, b1], [a]) ==>
              s == [a, b0, b1] || s == [b0, a, b1] || s == [b0, b1, a]
  {
    if s != [] {
      assert [b0, b1][1..] == [b1] && [a][1..] == [] && s == [s[0]] + s[1..];
      NoneLeft(s[1..], [b0, b1]);
      OneByOne(s[1..], a, b1);
      OneByOne(s[1..], b1, a);
    }
  }

  /** The six ways to run two calls of two halves side by side. */
  lemma TwoByTwo<T>(s: seq<T>, a0: T, a1: T, b0: T, b1: T)
    requires Interleaves(s, [a0, a1], [b0, b1])
    ensures || s == [a0, a1, b0, b1] || s == [b0, b1, a0, a1]
            || s == [a0, b0, a1, b1] || s == [a0, b0, b1, a1] || s == [b0, a0, a1, b1] || s == [b0, a0, b1, a1]
  {
    assert [a0, a1][1..] == [a1] && [b0, b1][1..] == [b1];
    OneByTwo(s[1..], a1, b0, b1);
    OneByTwo(s[1..], b1, a0, a1);
  }

  /**
   * Adding and removing the same peer side by side: the peer ends up in one list only exactly when the calls do not
   * overlap. Each of the four overlaps leaves it a contact and deleted at once.
   */
  lemma OverlapBreaksDisjoint(b: Book, c: C.Contact, now: string, s: seq<HalfStep>)
    requires Disjoint(b) && c.peerID != ""
    requires Interleaves(s, AddHalves(c, now), RemoveHalves(c.peerID))
    ensures Disjoint(HalfRun(b, s)) <==>
              s == AddHalves(c, now) + RemoveHalves(c.peerID) || s == RemoveHalves(c.peerID) + AddHalves(c, now)
  {
    var p := c.peerID;
    TwoByTwo(s, ClearDeleted(p), PutContact(c, now), DropContact(p), MarkDeleted(p));
    var r := HalfRun(b, s);
    FourHalves(b, s, p);
    assert C.Has(r.contacts, p) && p in r.deleted <==>
      !(s == AddHalves(c, now) + RemoveHalves(p) || s == RemoveHalves(p) + AddHalves(c, now));
    forall q | q != p ensures C.Has(r.contacts, q) == C.Has(b.contacts, q) && (q in r.deleted <==> q in b.deleted) {
      FourHalves(b, s, q);
    }
  }

  predicate HasAfter(had: bool, h: HalfStep, q: string) {
    match h
    case PutContact(c, now) => had || (q == c.peerID && q != "")
    case DropContact(p) => had && q != p
    case _ => had
  }

  predicate DeletedAfter(was: bool, h: HalfStep, q: string) {
    match h
    case MarkDeleted(p) => was || (q == p && q != "")
    case ClearDeleted(p) => was && (q != p || q == "")
    case _ => was
  }

  lemma AfterHalf(b: Book, h: HalfStep, q: string)
    ensures C.Has(Half(b, h).contacts, q) <==> HasAfter(C.Has(b.contacts, q), h, q)
    ensures q in Half(b, h).deleted <==> DeletedAfter(q in b.deleted, h, q)
  {
    match h
    case PutContact(c, now) => HasAfterAdd(b.contacts, c, now, q);
    case DropContact(p) => HasAfterDrop(b.contacts, p, q);
    case _ =>
  }

  lemma FourHalves(b: Book, s: seq<HalfStep>, q: string)
    requires |s| == 4
    ensures C.Has(HalfRun(b, s).contacts, q) <==>
              HasAfter(HasAfter(HasAfter(HasAfter(C.Has(b.contacts, q), s[0], q), s[1], q), s[2], q), s[3], q)
    ensures q in HalfRun(b, s).deleted <==>
              DeletedAfter(DeletedAfter(DeletedAfter(DeletedAfter(q in b.deleted, s[0], q), s[1], q), s[2], q), s[3], q)
  {
    assert s[..3][..2] == s[..2] && s[..2][..1] == s[..1];
    assert HalfRun(b, s[..1]) == Half(b, s[0]);
    assert HalfRun(b, s[..2]) == Half(HalfRun(b, s[..1]), s[1]);
    assert HalfRun(b, s[..3]) == Half(HalfRun(b, s[..2]), s[2]);
    hide Half, HasAfter, DeletedAfter;
    AfterHalf(b, s[0], q);
    AfterHalf(HalfRun(b, s[..1]), s[1], q);
    AfterHalf(HalfRun(b, s[..2]), s[2], q);
    AfterHalf(HalfRun(b, s[..3]), s[3], q);
  }

  // ---------- any number of calls at once ----------

  /** tasks: the second halves that calls under way have still to run. */
  datatype State = State(book: Book, tasks: multiset<HalfStep>)

  datatype Event =
    | AddBegins(c: C.Contact, now: string)
    | RemoveBegins(p: string)
    | Continue(task: HalfStep)
    // calls of one section
    | Whole(op: Op)

  predicate Enabled(s: State, e: Event) {
    match e
    case Continue(task) => task in s.tasks
    case Whole(op) => !op.AddContactOp? && !op.RemoveContactOp?
    case _ => true
  }

  function Next(s: State, self: string, e: Event): State {
    if !Enabled(s, e) then s
    else match e
      case AddBegins(c, now) =>
        if c.peerID == self then s
        else State(Half(s.book, ClearDeleted(c.peerID)), s.tasks + multiset{PutContact(c, now)})
      case RemoveBegins(p) => State(Half(s.book, DropContact(p)), s.tasks + multiset{MarkDeleted(p)})
      case Continue(task) => State(Half(s.book, task), s.tasks - multiset{task})
      case Whole(op) => s.(book := Step(s.book, self, op))
  }

  function RunAll(s: State, self: string, events: seq<Event>): State
    decreases |events|
  {
    if events == [] then s else Next(RunAll(s, self, events[..|events| - 1]), self, events[|events| - 1])
  }

  /** The pending half puts p into the contacts. */
  predicate Puts(task: HalfStep, p: string) {
    task.PutContact? && task.c.peerID == p
  }

  predicate Adding(s: State, p: string) {
    exists task | task in s.tasks :: Puts(task, p)
  }

  predicate Removing(s: State, p: string) {
    MarkDeleted(p) in s.tasks
  }

  /** An add does not begin while a removal of the same peer is under way, nor a removal during an add. */
  predicate NoOverlap(s: State, e: Event) {
    match e
    case AddBegins(c, now) => !Removing(s, c.peerID)
    case RemoveBegins(p) => !Adding(s, p)
    case _ => true
  }

  predicate NoOverlaps(s: State, self: string, events: seq<Event>)
    decreases |events|
  {
    events == [] ||
    (var front := events[..|events| - 1];
     NoOverlaps(s, self, front) && NoOverlap(RunAll(s, self, front), events[|events| - 1]))
  }

  /** p is in at most one list, and the half a call on p has still to run does not change that. */
  predicate PeerOk(s: State, p: string) {
    && !(p in s.book.deleted && C.Has(s.book.contacts, p))
    && (p != "" && Adding(s, p) ==> p !in s.book.deleted && !Removing(s, p))
    && (p != "" && Removing(s, p) ==> !C.Has(s.book.contacts, p))
  }

  ghost predicate Inv(s: State) {
    && (forall p :: PeerOk(s, p))
    && (forall task :: task in s.tasks ==> task.PutContact? || task.MarkDeleted?)
  }

  lemma HalfKeepsPeer(s: State, s': State, h: HalfStep, p: string)
    requires PeerOk(s, p) && s'.book == Half(s.book, h)
    requires Adding(s', p) ==> Adding(s, p) || (h == ClearDeleted(p) && !Removing(s, p))
    requires Removing(s', p) ==> Removing(s, p) || (h == DropContact(p) && !Adding(s, p))
    requires Puts(h, p) ==> Adding(s, p)
    requires h == MarkDeleted(p) ==> Removing(s, p)
    ensures PeerOk(s', p)
  {
    AfterHalf(s.book, h, p);
    hide Half, C.Has, Adding, Removing;
  }

  lemma WholeKeepsPeer(s: State, self: string, op: Op, p: string)
    requires PeerOk(s, p) && !op.AddContactOp? && !op.RemoveContactOp?
    ensures PeerOk(s.(book := Step(s.book, self, op)), p)
  {
    match op
    case SetConfirmedOp(q) => HasAfterChange(s.book.contacts, q, C.Confirm(), p);
    case RenameOp(q, name) => HasAfterChange(s.book.contacts, q, C.WithName(name), p);
    case SetReadEnabledOp(q, on) => HasAfterChange(s.book.contacts, q, C.WithRead(on), p);
    case UndeleteOp(q) =>
  }

  lemma NextKeepsInv(s: State, self: string, e: Event)
    requires Inv(s) && NoOverlap(s, e)
    ensures Inv(Next(s, self, e))
  {
    if Enabled(s, e) {
      var s' := Next(s, self, e);
      forall p ensures PeerOk(s', p) {
        assert PeerOk(s, p);
        match e
        case AddBegins(c, now) => if c.peerID != self { HalfKeepsPeer(s, s', ClearDeleted(c.peerID), p); }
        case RemoveBegins(q) => HalfKeepsPeer(s, s', DropContact(q), p);
        case Continue(task) => HalfKeepsPeer(s, s', task, p);
        case Whole(op) => WholeKeepsPeer(s, self, op, p);
      }
    }
  }

  lemma {:induction false} RunAllKeepsInv(s: State, self: string, events: seq<Event>)
    requires Inv(s) && NoOverlaps(s, self, events)
    ensures Inv(RunAll(s, self, events))
    decreases |events|
  {
    if events != [] {
      RunAllKeepsInv(s, self, events[..|events| - 1]);
      hide Inv, Next, NoOverlap;
      NextKeepsInv(RunAll(s, self, events[..|events| - 1]), self, events[|events| - 1]);
    }
  }

  /**
   * Any number of calls, overlapping in any way, leaves no peer in both lists at any moment, as long as an add and a
   * removal of the same peer do not overlap.
   */
  lemma NeverInBothLists(b: Book, self: string, events: seq<Event>)
    requires Disjoint(b) && NoOverlaps(State(b, multiset{}), self, events)
    ensures Disjoint(RunAll(State(b, multiset{}), self, events).book)
  {
    InvAtRest(b);
    hide Inv, Disjoint, NoOverlaps, RunAll;
    RunAllKeepsInv(State(b, multiset{}), self, events);
    InvIsDisjoint(RunAll(State(b, multiset{}), self, events));
  }

  lemma InvAtRest(b: Book)
    requires Disjoint(b)
    ensures Inv(State(b, multiset{}))
  {
    hide C.Has;
  }

  lemma InvIsDisjoint(s: State)
    requires Inv(s)
    ensures Disjoint(s.book)
  {
    hide C.Has;
    forall p | p in s.book.deleted ensures !C.Has(s.book.contacts, p) {
      assert PeerOk(s, p);
    }
  }

  /** It takes no more than such an overlap: with both calls under way, finishing them puts the peer in both lists. */
  lemma OverlapCanBreak(s: State, self: string, c: C.Contact, now: string)
    requires c.peerID != "" && PutContact(c, now) in s.tasks && MarkDeleted(c.peerID) in s.tasks
    ensures var b := Next(Next(s, self, Continue(PutContact(c, now))), self, Continue(MarkDeleted(c.peerID))).book;
            c.peerID in b.deleted && C.Has(b.contacts, c.peerID)
  {
    AfterHalf(s.book, PutContact(c, now), c.peerID);
    hide C.Has, C.Added;
  }
}
