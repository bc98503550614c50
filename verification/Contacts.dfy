/**
 * Contacts and deleted peers (node/contacts.go, node/deleted.go): the two stores and what their operations keep.
 * Whether the file could be written is a parameter; the list in memory changes all the same.
 */
module Contacts {
  import opened Common

  datatype Contact = Contact(
    peerID: string,
    ed25519Pub: string,
    x25519Pub: string,
    signature: string,
    verified: bool,
    confirmed: bool,
    name: string,
    remoteName: string,
    addedAt: string,
    readEnabled: bool)

  /** The position of a peer's contact, or -1. */
  function Find(cs: seq<Contact>, p: string): (pos: int)
    ensures -1 <= pos < |cs|
    ensures pos >= 0 ==> cs[pos].peerID == p && forall j :: 0 <= j < pos ==> cs[j].peerID != p
    ensures pos < 0 ==> forall j :: 0 <= j < |cs| ==> cs[j].peerID != p
  {
    if cs == [] then -1
    else if cs[0].peerID == p then 0
    else
      var pos := Find(cs[1..], p);
      assert forall j :: 0 < j < |cs| ==> cs[j] == cs[1..][j - 1];
      if pos < 0 then -1 else pos + 1
  }

  predicate Has(cs: seq<Contact>, p: string) {
    Find(cs, p) >= 0
  }

  function Of(cs: seq<Contact>, p: string): (c: Contact)
    requires Has(cs, p)
    ensures c.peerID == p
  {
    cs[Find(cs, p)]
  }

  predicate IsConfirmed(cs: seq<Contact>, p: string) {
    Has(cs, p) && Of(cs, p).confirmed
  }

  /** One contact per peer, and none without a peer id. */
  ghost predicate UniquePeers(cs: seq<Contact>) {
    && (forall i, j :: 0 <= i < j < |cs| ==> cs[i].peerID != cs[j].peerID)
    && (forall i :: 0 <= i < |cs| ==> cs[i].peerID != "")
  }

  // ---------- what each operation does to the list ----------

  /** A repeated add takes the new fields over, but keeps a name, a consent to read receipts and a confirmation. */
  function Merged(known: Contact, c: Contact): Contact {
    c.(name := if known.name != "" && c.name == "" then known.name else c.name,
       readEnabled := c.readEnabled || known.readEnabled,
       confirmed := c.confirmed || known.confirmed)
  }

  function Dated(c: Contact, now: string): Contact {
    if c.addedAt == "" then c.(addedAt := now) else c
  }

  function Added(cs: seq<Contact>, c: Contact, now: string): seq<Contact> {
    if c.peerID == "" then cs
    else if Has(cs, c.peerID) then cs[Find(cs, c.peerID) := Merged(Of(cs, c.peerID), Dated(c, now))]
    else cs + [Dated(c, now)]
  }

  function Changed(cs: seq<Contact>, p: string, f: Contact -> Contact): seq<Contact> {
    if Has(cs, p) then cs[Find(cs, p) := f(Of(cs, p))] else cs
  }

  function Confirm(): Contact -> Contact { (c: Contact) => c.(confirmed := true) }
  function WithName(name: string): Contact -> Contact { (c: Contact) => c.(name := name) }
  function WithRead(on: bool): Contact -> Contact { (c: Contact) => c.(readEnabled := on) }

  function Without(cs: seq<Contact>, p: string): (r: seq<Contact>)
    ensures |r| <= |cs|
    ensures forall c :: c in r <==> c in cs && c.peerID != p
    ensures !Has(cs, p) <==> |r| == |cs|
  {
    if cs == [] then []
    else
      var n := |cs| - 1;
      var front := Without(cs[..n], p);
      assert cs == cs[..n] + [cs[n]];
      if cs[n].peerID != p then front + [cs[n]] else front
  }

  // ---------- the operations as changes of a map ----------

  /** The list as a map from peer id to contact. */
  ghost predicate Represents(cs: seq<Contact>, v: map<string, Contact>) {
    UniquePeers(cs) && forall p :: (p in v <==> Has(cs, p)) && (p in v ==> v[p] == Of(cs, p))
  }

  lemma ReplacedRepresents(cs: seq<Contact>, v: map<string, Contact>, pos: nat, c: Contact)
    requires Represents(cs, v) && pos < |cs| && c.peerID == cs[pos].peerID
    ensures Represents(cs[pos := c], v[c.peerID := c])
  {
    var r := cs[pos := c];
    forall p ensures Has(r, p) == Has(cs, p) && (Has(r, p) ==> Of(r, p) == if p == c.peerID then c else Of(cs, p)) {
      if Has(cs, p) {
        assert r[Find(cs, p)].peerID == p;
      }
    }
  }

  lemma AppendedRepresents(cs: seq<Contact>, v: map<string, Contact>, c: Contact)
    requires Represents(cs, v) && c.peerID != "" && !Has(cs, c.peerID)
    ensures Represents(cs + [c], v[c.peerID := c])
  {
    var r := cs + [c];
    assert r[|cs|] == c;
    forall p ensures Has(r, p) == (Has(cs, p) || p == c.peerID)
             ensures Has(r, p) ==> Of(r, p) == if p == c.peerID then c else Of(cs, p) {
      if Has(cs, p) {
        assert r[Find(cs, p)].peerID == p;
      }
    }
  }

  lemma AddedRepresents(cs: seq<Contact>, v: map<string, Contact>, c: Contact, now: string)
    requires Represents(cs, v) && c.peerID != ""
    ensures Represents(Added(cs, c, now),
                       v[c.peerID := if c.peerID in v then Merged(v[c.peerID], Dated(c, now)) else Dated(c, now)])
  {
    if Has(cs, c.peerID) {
      ReplacedRepresents(cs, v, Find(cs, c.peerID), Merged(Of(cs, c.peerID), Dated(c, now)));
    } else {
      AppendedRepresents(cs, v, Dated(c, now));
    }
    hide UniquePeers, Find, Merged, Dated;
  }

  lemma ChangedRepresents(cs: seq<Contact>, v: map<string, Contact>, p: string, f: Contact -> Contact)
    requires Represents(cs, v) && forall c :: f(c).peerID == c.peerID
    ensures Represents(Changed(cs, p, f), if p in v then v[p := f(v[p])] else v)
  {
    if Has(cs, p) {
      ReplacedRepresents(cs, v, Find(cs, p), f(Of(cs, p)));
    }
    hide UniquePeers, Find;
  }

  lemma SnocUnique(cs: seq<Contact>, c: Contact)
    requires UniquePeers(cs) && c.peerID != "" && forall i :: 0 <= i < |cs| ==> cs[i].peerID != c.peerID
    ensures UniquePeers(cs + [c])
  {
  }

  lemma FrontUnique(cs: seq<Contact>)
    requires UniquePeers(cs) && cs != []
    ensures UniquePeers(cs[..|cs| - 1])
    ensures forall c :: c in cs[..|cs| - 1] ==> c.peerID != cs[|cs| - 1].peerID
  {
  }

  lemma {:induction false} WithoutUnique(cs: seq<Contact>, p: string)
    requires UniquePeers(cs)
    ensures UniquePeers(Without(cs, p))
  {
    if cs != [] {
      var n := |cs| - 1;
      var front := Without(cs[..n], p);
      assert Without(cs, p) == if cs[n].peerID != p then front + [cs[n]] else front;
      assert cs[n].peerID != "";
      hide Without, UniquePeers, Has;
      FrontUnique(cs);
      WithoutUnique(cs[..n], p);
      forall i | 0 <= i < |front| ensures front[i].peerID != cs[n].peerID {
        assert front[i] in front;
      }
      if cs[n].peerID != p {
        SnocUnique(front, cs[n]);
      }
    }
  }

  lemma WithoutRepresents(cs: seq<Contact>, v: map<string, Contact>, p: string)
    requires Represents(cs, v)
    ensures Represents(Without(cs, p), v - {p})
  {
    var r := Without(cs, p);
    WithoutUnique(cs, p);
    forall q ensures Has(r, q) == (Has(cs, q) && q != p) && (Has(r, q) ==> Of(r, q) == Of(cs, q)) {
      if Has(cs, q) && q != p {
        assert Of(cs, q) in r;
      }
      if Has(r, q) {
        assert Of(r, q) in cs;
      }
    }
  }

  // ---------- runs ----------

  datatype Op =
    | Add(c: Contact, now: string)
    | SetConfirmed(p: string)
    | Rename(p: string, name: string)
    | UpdateReadEnabled(p: string, on: bool)
    | Remove(p: string)

  function Step(cs: seq<Contact>, op: Op): seq<Contact> {
    match op
    case Add(c, now) => Added(cs, c, now)
    case SetConfirmed(p) => Changed(cs, p, Confirm())
    case Rename(p, name) => Changed(cs, p, WithName(name))
    case UpdateReadEnabled(p, on) => Changed(cs, p, WithRead(on))
    case Remove(p) => Without(cs, p)
  }

  function MapStep(v: map<string, Contact>, op: Op): map<string, Contact> {
    match op
    case Add(c, now) =>
      if c.peerID == "" then v
      else v[c.peerID := if c.peerID in v then Merged(v[c.peerID], Dated(c, now)) else Dated(c, now)]
    case SetConfirmed(p) => if p in v then v[p := v[p].(confirmed := true)] else v
    case Rename(p, name) => if p in v then v[p := v[p].(name := name)] else v
    case UpdateReadEnabled(p, on) => if p in v then v[p := v[p].(readEnabled := on)] else v
    case Remove(p) => v - {p}
  }

  function Run(cs: seq<Contact>, ops: seq<Op>): seq<Contact> {
    if ops == [] then cs else Step(Run(cs, ops[..|ops| - 1]), ops[|ops| - 1])
  }

  function MapRun(v: map<string, Contact>, ops: seq<Op>): map<string, Contact> {
    if ops == [] then v else MapStep(MapRun(v, ops[..|ops| - 1]), ops[|ops| - 1])
  }

  lemma StepRepresents(cs: seq<Contact>, v: map<string, Contact>, op: Op)
    requires Represents(cs, v)
    ensures Represents(Step(cs, op), MapStep(v, op))
  {
    hide Represents;
    match op
    case Add(c, now) => if c.peerID != "" { AddedRepresents(cs, v, c, now); }
    case SetConfirmed(p) => ChangedRepresents(cs, v, p, Confirm());
    case Rename(p, name) => ChangedRepresents(cs, v, p, WithName(name));
    case UpdateReadEnabled(p, on) => ChangedRepresents(cs, v, p, WithRead(on));
    case Remove(p) => WithoutRepresents(cs, v, p);
  }

  /** After any run the list holds one contact per peer, and is what the same run makes of a map. */
  lemma {:induction false} RunRepresents(cs: seq<Contact>, v: map<string, Contact>, ops: seq<Op>)
    requires Represents(cs, v)
    ensures Represents(Run(cs, ops), MapRun(v, ops))
  {
    if ops != [] {
      var n := |ops| - 1;
      RunRepresents(cs, v, ops[..n]);
      hide Represents;
      StepRepresents(Run(cs, ops[..n]), MapRun(v, ops[..n]), ops[n]);
    }
  }

  /** A confirmation is undone by nothing but removal, and so is a name by nothing but removal or another name. */
  lemma {:induction false} ConfirmedStays(v: map<string, Contact>, p: string, ops: seq<Op>)
    requires p in v && v[p].confirmed && Remove(p) !in ops
    ensures p in MapRun(v, ops) && MapRun(v, ops)[p].confirmed
  {
    if ops != [] {
      ConfirmedStays(v, p, ops[..|ops| - 1]);
      assert ops[|ops| - 1] in ops;
    }
  }

  predicate SetsName(op: Op, p: string) {
    || op == Remove(p)
    || (op.Rename? && op.p == p)
    || (op.Add? && op.c.peerID == p && op.c.name != "")
  }

  lemma {:induction false} NameStays(v: map<string, Contact>, p: string, ops: seq<Op>)
    requires p in v && v[p].name != "" && forall op :: op in ops ==> !SetsName(op, p)
    ensures p in MapRun(v, ops) && MapRun(v, ops)[p].name == v[p].name
  {
    if ops != [] {
      NameStays(v, p, ops[..|ops| - 1]);
      assert !SetsName(ops[|ops| - 1], p);
    }
  }

  /** Consent to read receipts is taken back by nothing but removal or the peer's own change of it. */
  lemma {:induction false} ConsentStays(v: map<string, Contact>, p: string, ops: seq<Op>)
    requires p in v && v[p].readEnabled && Remove(p) !in ops && UpdateReadEnabled(p, false) !in ops
    ensures p in MapRun(v, ops) && MapRun(v, ops)[p].readEnabled
  {
    if ops != [] {
      ConsentStays(v, p, ops[..|ops| - 1]);
      assert ops[|ops| - 1] in ops;
    }
  }

  /** The last add of the peer since its last removal. */
  function LatestAdd(ops: seq<Op>, p: string): Option<Contact> {
    if ops == [] then None
    else
      match ops[|ops| - 1]
      case Add(c, now) => if c.peerID == p then Some(c) else LatestAdd(ops[..|ops| - 1], p)
      case Remove(q) => if q == p then None else LatestAdd(ops[..|ops| - 1], p)
      case _ => LatestAdd(ops[..|ops| - 1], p)
  }

  /** A peer is a contact exactly if it has been added since its last removal; and the last add decides on its keys. */
  lemma {:induction false} KeysAreLatest(ops: seq<Op>, p: string)
    requires p != "" && forall op :: op in ops && op.Add? ==> op.now != ""
    ensures var v := MapRun(map[], ops);
            && (p in v <==> LatestAdd(ops, p).Some?)
            && (p in v ==>
                  var c := LatestAdd(ops, p).value;
                  && v[p].peerID == p && v[p].ed25519Pub == c.ed25519Pub && v[p].x25519Pub == c.x25519Pub
                  && v[p].signature == c.signature && v[p].verified == c.verified && v[p].remoteName == c.remoteName
                  && v[p].addedAt != "" && (c.addedAt != "" ==> v[p].addedAt == c.addedAt))
  {
    if ops != [] {
      KeysAreLatest(ops[..|ops| - 1], p);
      assert ops[|ops| - 1] in ops;
    }
  }

  // ---------- the stores ----------

  class ContactsStore {
    var contacts: seq<Contact>

    /** Fails without a peer id, or if the file cannot be written. */
    method Add(c: Contact, now: string, saves: bool) returns (ok: bool)
      requires now != ""
      modifies this
      ensures contacts == Added(old(contacts), c, now)
      ensures ok <==> c.peerID != "" && saves
    {
      if c.peerID == "" {
        return false;
      }
      var dated := if c.addedAt == "" then c.(addedAt := now) else c;
      for i := 0 to |contacts|
        invariant contacts == old(contacts)
        invariant forall j :: 0 <= j < i ==> contacts[j].peerID != c.peerID
      {
        if contacts[i].peerID == c.peerID {
          assert Find(contacts, c.peerID) == i;
          Overwrite(i, dated);
          return saves;
        }
      }
      contacts := contacts + [dated];
      return saves;
    }

    /** Puts the new contact in the place of the known one, keeping what a repeated add must not take away. */
    method Overwrite(i: nat, c: Contact)
      requires i < |contacts|
      modifies this
      ensures contacts == old(contacts)[i := Merged(old(contacts)[i], c)]
    {
      var known := contacts[i];
      var merged := c;
      if known.name != "" && c.name == "" {
        merged := merged.(name := known.name);
      }
      if known.readEnabled {
        merged := merged.(readEnabled := true);
      }
      if known.confirmed {
        merged := merged.(confirmed := true);
      }
      contacts := contacts[i := merged];
    }

    method Get(p: string) returns (c: Contact, found: bool)
      ensures found == Has(contacts, p) && (found ==> c == Of(contacts, p))
    {
      for i := 0 to |contacts|
        invariant forall j :: 0 <= j < i ==> contacts[j].peerID != p
      {
        if contacts[i].peerID == p {
          return contacts[i], true;
        }
      }
      return Contact("", "", "", "", false, false, "", "", "", false), false;
    }

    /** Nothing is saved when the contact is already confirmed. */
    method SetConfirmed(p: string, saves: bool) returns (ok: bool)
      modifies this
      ensures contacts == Changed(old(contacts), p, Confirm())
      ensures ok <==> Has(old(contacts), p) && (saves || IsConfirmed(old(contacts), p))
    {
      for i := 0 to |contacts|
        invariant contacts == old(contacts)
        invariant forall j :: 0 <= j < i ==> contacts[j].peerID != p
      {
        if contacts[i].peerID == p {
          if contacts[i].confirmed {
            return true;
          }
          contacts := contacts[i := contacts[i].(confirmed := true)];
          return saves;
        }
      }
      return false;
    }

    method Remove(p: string, saves: bool) returns (ok: bool)
      modifies this
      ensures contacts == Without(old(contacts), p)
      ensures ok <==> Has(old(contacts), p) && saves
    {
      var kept: seq<Contact> := [];
      for i := 0 to |contacts|
        invariant contacts == old(contacts)
        invariant kept == Without(contacts[..i], p)
      {
        assert contacts[..i + 1][..i] == contacts[..i];
        if contacts[i].peerID != p {
          kept := kept + [contacts[i]];
        }
      }
      assert contacts[..|contacts|] == contacts;
      if |kept| == |contacts| {
        WithoutNothing(contacts, p);
        return false;
      }
      contacts := kept;
      return saves;
    }
  }

  lemma FrontLacks(cs: seq<Contact>, p: string)
    requires cs != [] && !Has(cs, p)
    ensures !Has(cs[..|cs| - 1], p) && cs[|cs| - 1].peerID != p
  {
    hide Without;
    var front := cs[..|cs| - 1];
    assert forall j :: 0 <= j < |front| ==> front[j] == cs[j];
  }

  lemma {:induction false} WithoutNothing(cs: seq<Contact>, p: string)
    requires !Has(cs, p)
    ensures Without(cs, p) == cs
  {
    if cs != [] {
      var n := |cs| - 1;
      var front := cs[..n];
      assert Without(cs, p) == if cs[n].peerID != p then Without(front, p) + [cs[n]] else Without(front, p);
      hide Without, Has, Find;
      FrontLacks(cs, p);
      WithoutNothing(front, p);
      assert cs == front + [cs[n]];
    }
  }

  class DeletedStore {
    var deleted: set<string>

    method Add(p: string, saves: bool) returns (ok: bool)
      modifies this
      ensures deleted == if p == "" then old(deleted) else old(deleted) + {p}
      ensures ok <==> p != "" && (saves || p in old(deleted))
    {
      if p == "" {
        return false;
      }
      if p in deleted {
        return true;
      }
      deleted := deleted + {p};
      return saves;
    }

    method RemoveFromDeleted(p: string, saves: bool) returns (ok: bool)
      modifies this
      ensures deleted == if p == "" then old(deleted) else old(deleted) - {p}
      ensures ok <==> p != "" && (saves || p !in old(deleted))
    {
      if p == "" {
        return false;
      }
      if p !in deleted {
        return true;
      }
      deleted := deleted - {p};
      return saves;
    }
  }
}
