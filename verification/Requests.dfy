/**
 * Incoming contact requests (node/requests.go): a request replaces the one with its id, else the pending one of its
 * peer, else it is appended.
 */
module Requests {
  datatype Status = Pending | Accepted | Rejected

  datatype Request = Request(id: string, peerID: string, name: string, keys: string, receivedAt: string, status: Status)

  /** The first position whose request has the id, or -1. */
  function FindID(rs: seq<Request>, id: string): (pos: int)
    ensures -1 <= pos < |rs|
    ensures pos >= 0 ==> rs[pos].id == id
    ensures pos < 0 ==> forall j :: 0 <= j < |rs| ==> rs[j].id != id
  {
    if rs == [] then -1
    else if rs[0].id == id then 0
    else
      var pos := FindID(rs[1..], id);
      assert forall j :: 0 < j < |rs| ==> rs[j] == rs[1..][j - 1];
      if pos < 0 then -1 else pos + 1
  }

  /** The first position with a pending request of the peer, or -1. */
  function FindPending(rs: seq<Request>, p: string): (pos: int)
    ensures -1 <= pos < |rs|
    ensures pos >= 0 ==> IsPendingOf(rs[pos], p)
    ensures pos < 0 ==> forall j :: 0 <= j < |rs| ==> !IsPendingOf(rs[j], p)
  {
    if rs == [] then -1
    else if IsPendingOf(rs[0], p) then 0
    else
      var pos := FindPending(rs[1..], p);
      assert forall j :: 0 < j < |rs| ==> rs[j] == rs[1..][j - 1];
      if pos < 0 then -1 else pos + 1
  }

  predicate IsPendingOf(r: Request, p: string) {
    r.peerID == p && r.status == Pending
  }

  ghost predicate UniqueIDs(rs: seq<Request>) {
    forall i, j :: 0 <= i < j < |rs| ==> rs[i].id != rs[j].id
  }

  ghost predicate OnePendingPerPeer(rs: seq<Request>) {
    forall i, j :: 0 <= i < j < |rs| && rs[i].status == Pending && rs[j].status == Pending ==>
      rs[i].peerID != rs[j].peerID
  }

  function Added(rs: seq<Request>, r: Request): seq<Request> {
    if r.id == "" || r.peerID == "" then rs
    else if FindID(rs, r.id) >= 0 then rs[FindID(rs, r.id) := r]
    else if r.status == Pending && FindPending(rs, r.peerID) >= 0 then rs[FindPending(rs, r.peerID) := r]
    else rs + [r]
  }

  function Without(rs: seq<Request>, id: string): (r: seq<Request>)
    ensures |r| <= |rs|
    ensures forall q :: q in r <==> q in rs && q.id != id
    ensures FindID(rs, id) < 0 <==> |r| == |rs|
  {
    if rs == [] then []
    else
      var n := |rs| - 1;
      var front := Without(rs[..n], id);
      assert rs == rs[..n] + [rs[n]];
      if rs[n].id != id then front + [rs[n]] else front
  }

  function WithStatus(rs: seq<Request>, id: string, status: Status): seq<Request> {
    if FindID(rs, id) >= 0 then rs[FindID(rs, id) := rs[FindID(rs, id)].(status := status)] else rs
  }

  // ---------- what an add keeps ----------

  /** Ids stay unique, and the request is there afterwards. */
  lemma AddKeepsIDs(rs: seq<Request>, r: Request)
    requires UniqueIDs(rs)
    ensures UniqueIDs(Added(rs, r))
    ensures r.id != "" && r.peerID != "" ==>
              FindID(Added(rs, r), r.id) >= 0 && Added(rs, r)[FindID(Added(rs, r), r.id)] == r
  {
    var after := Added(rs, r);
    if r.id != "" && r.peerID != "" {
      var at := if FindID(rs, r.id) >= 0 then FindID(rs, r.id)
                else if r.status == Pending && FindPending(rs, r.peerID) >= 0 then FindPending(rs, r.peerID)
                else |rs|;
      assert after[at] == r;
    }
  }

  /** The add finds its id on a request that is not its peer's pending one, while the peer has a pending one. */
  predicate HitsAnotherRequest(rs: seq<Request>, r: Request) {
    && r.id != "" && r.peerID != "" && r.status == Pending
    && FindID(rs, r.id) >= 0 && !IsPendingOf(rs[FindID(rs, r.id)], r.peerID)
    && FindPending(rs, r.peerID) >= 0
  }

  /**
   * The second level keeps one pending request per peer unless the first level gets in its way: the property is kept
   * exactly when the add does not overwrite, by id, a request other than its peer's pending one.
   */
  lemma AddKeepsOnePending(rs: seq<Request>, r: Request)
    requires UniqueIDs(rs) && OnePendingPerPeer(rs)
    ensures OnePendingPerPeer(Added(rs, r)) <==> !HitsAnotherRequest(rs, r)
  {
    var after := Added(rs, r);
    if HitsAnotherRequest(rs, r) {
      var i, j := FindID(rs, r.id), FindPending(rs, r.peerID);
      assert after[i] == r && after[j] == rs[j] && i != j;
    } else {
      AddOnePending(rs, r);
    }
  }

  lemma AddOnePending(rs: seq<Request>, r: Request)
    requires UniqueIDs(rs) && OnePendingPerPeer(rs) && !HitsAnotherRequest(rs, r)
    ensures OnePendingPerPeer(Added(rs, r))
  {
    var after := Added(rs, r);
    var at := if FindID(rs, r.id) >= 0 then FindID(rs, r.id)
              else if r.status == Pending && FindPending(rs, r.peerID) >= 0 then FindPending(rs, r.peerID)
              else |rs|;
    if r.id != "" && r.peerID != "" && r.status == Pending {
      assert forall j :: 0 <= j < |rs| && j != at ==> !IsPendingOf(rs[j], r.peerID);
    }
  }

  /** The state in which it is broken: a peer reuses the id of another peer's request. */
  lemma ReusedIDBreaksOnePending()
    ensures var rs := [Request("1", "B", "", "", "", Pending), Request("2", "A", "", "", "", Pending)];
            && UniqueIDs(rs) && OnePendingPerPeer(rs)
            && !OnePendingPerPeer(Added(rs, Request("1", "A", "", "", "", Pending)))
  {
    var rs := [Request("1", "B", "", "", "", Pending), Request("2", "A", "", "", "", Pending)];
    var after := Added(rs, Request("1", "A", "", "", "", Pending));
    assert after[0].peerID == after[1].peerID;
  }

  /** A request of a peer that has a pending one is made pending as well. */
  predicate RevivesSecond(rs: seq<Request>, id: string, status: Status) {
    && status == Pending && FindID(rs, id) >= 0
    && rs[FindID(rs, id)].status != Pending && FindPending(rs, rs[FindID(rs, id)].peerID) >= 0
  }

  /** Setting a status keeps one pending request per peer exactly unless it makes a second one pending. */
  lemma SetKeepsOnePending(rs: seq<Request>, id: string, status: Status)
    requires UniqueIDs(rs) && OnePendingPerPeer(rs)
    ensures UniqueIDs(WithStatus(rs, id, status))
    ensures OnePendingPerPeer(WithStatus(rs, id, status)) <==> !RevivesSecond(rs, id, status)
  {
    var after := WithStatus(rs, id, status);
    if RevivesSecond(rs, id, status) {
      var i := FindID(rs, id);
      var j := FindPending(rs, rs[i].peerID);
      assert after[i].status == Pending && after[j] == rs[j] && i != j;
    } else if FindID(rs, id) >= 0 {
      var i := FindID(rs, id);
      assert forall j :: 0 <= j < |rs| && j != i ==> after[j] == rs[j];
      assert status == Pending && rs[i].status != Pending ==>
          forall j :: 0 <= j < |rs| ==> !IsPendingOf(rs[j], rs[i].peerID);
    }
  }

  ghost predicate WellKept(rs: seq<Request>) {
    UniqueIDs(rs) && OnePendingPerPeer(rs)
  }

  predicate Compatible(a: Request, b: Request) {
    a.id != b.id && (a.status == Pending && b.status == Pending ==> a.peerID != b.peerID)
  }

  lemma FrontWellKept(rs: seq<Request>)
    requires WellKept(rs) && rs != []
    ensures var front, last := rs[..|rs| - 1], rs[|rs| - 1];
            WellKept(front) && forall q :: q in front ==> Compatible(q, last)
  {
  }

  lemma SnocWellKept(rs: seq<Request>, r: Request)
    requires WellKept(rs) && forall i :: 0 <= i < |rs| ==> Compatible(rs[i], r)
    ensures WellKept(rs + [r])
  {
  }

  lemma {:induction false} RemoveKeepsAll(rs: seq<Request>, id: string)
    requires WellKept(rs)
    ensures WellKept(Without(rs, id))
  {
    if rs != [] {
      var n := |rs| - 1;
      var front := Without(rs[..n], id);
      assert Without(rs, id) == if rs[n].id != id then front + [rs[n]] else front;
      hide Without, WellKept, Compatible;
      FrontWellKept(rs);
      RemoveKeepsAll(rs[..n], id);
      forall i | 0 <= i < |front| ensures Compatible(front[i], rs[n]) {
        assert front[i] in front;
      }
      if rs[n].id != id {
        SnocWellKept(front, rs[n]);
      }
    }
  }

  lemma FrontLacks(rs: seq<Request>, id: string)
    requires rs != [] && FindID(rs, id) < 0
    ensures FindID(rs[..|rs| - 1], id) < 0 && rs[|rs| - 1].id != id
  {
    hide Without;
    var front := rs[..|rs| - 1];
    assert forall j :: 0 <= j < |front| ==> front[j] == rs[j];
  }

  lemma {:induction false} WithoutNothing(rs: seq<Request>, id: string)
    requires FindID(rs, id) < 0
    ensures Without(rs, id) == rs
  {
    if rs != [] {
      var n := |rs| - 1;
      var front := rs[..n];
      assert Without(rs, id) == if rs[n].id != id then Without(front, id) + [rs[n]] else Without(front, id);
      hide Without, FindID;
      FrontLacks(rs, id);
      WithoutNothing(front, id);
      assert rs == front + [rs[n]];
    }
  }

  // ---------- runs ----------

  datatype Op = Add(r: Request) | Remove(id: string) | SetStatus(id: string, status: Status)

  function Run(rs: seq<Request>, ops: seq<Op>): seq<Request> {
    if ops == [] then rs
    else
      var before := Run(rs, ops[..|ops| - 1]);
      match ops[|ops| - 1]
      case Add(r) => Added(before, r)
      case Remove(id) => Without(before, id)
      case SetStatus(id, status) => WithStatus(before, id, status)
  }

  /** The operation overwrites another request by id, or makes a second request of a peer pending. */
  predicate Disturbs(rs: seq<Request>, op: Op) {
    match op
    case Add(r) => HitsAnotherRequest(rs, r)
    case Remove(id) => false
    case SetStatus(id, status) => RevivesSecond(rs, id, status)
  }

  predicate Undisturbed(rs: seq<Request>, ops: seq<Op>) {
    ops == [] ||
    (Undisturbed(rs, ops[..|ops| - 1]) && !Disturbs(Run(rs, ops[..|ops| - 1]), ops[|ops| - 1]))
  }

  lemma {:induction false} RunKeepsAll(rs: seq<Request>, ops: seq<Op>)
    requires WellKept(rs) && Undisturbed(rs, ops)
    ensures WellKept(Run(rs, ops))
  {
    if ops != [] {
      var before := Run(rs, ops[..|ops| - 1]);
      RunKeepsAll(rs, ops[..|ops| - 1]);
      hide Added, Without, WithStatus, HitsAnotherRequest, RevivesSecond, UniqueIDs, OnePendingPerPeer;
      match ops[|ops| - 1]
      case Add(r) => AddKeepsIDs(before, r); AddKeepsOnePending(before, r);
      case Remove(id) => RemoveKeepsAll(before, id);
      case SetStatus(id, status) => SetKeepsOnePending(before, id, status);
    }
  }

  class RequestsStore {
    var requests: seq<Request>

    /** Fails without an id or a peer id, or if the file cannot be written. */
    method Add(req: Request, now: string, saves: bool) returns (ok: bool)
      modifies this
      ensures requests == Added(old(requests), req.(receivedAt := if req.receivedAt == "" then now else req.receivedAt))
      ensures ok <==> req.id != "" && req.peerID != "" && saves
    {
      if req.id == "" || req.peerID == "" {
        return false;
      }
      var r := if req.receivedAt == "" then req.(receivedAt := now) else req;
      var pos := FirstWithID(r.id);
      if pos < 0 && r.status == Pending {
        pos := FirstPending(r.peerID);
      }
      requests := if pos >= 0 then requests[pos := r] else requests + [r];
      return saves;
    }

    method FirstWithID(id: string) returns (pos: int)
      ensures pos == FindID(requests, id)
    {
      for i := 0 to |requests|
        invariant FindID(requests, id) == if FindID(requests[i..], id) < 0 then -1 else i + FindID(requests[i..], id)
      {
        if requests[i].id == id {
          return i;
        }
        assert requests[i..][1..] == requests[i + 1..];
      }
      return -1;
    }

    method FirstPending(p: string) returns (pos: int)
      ensures pos == FindPending(requests, p)
    {
      for i := 0 to |requests|
        invariant FindPending(requests, p) ==
          if FindPending(requests[i..], p) < 0 then -1 else i + FindPending(requests[i..], p)
      {
        if IsPendingOf(requests[i], p) {
          return i;
        }
        assert requests[i..][1..] == requests[i + 1..];
      }
      return -1;
    }

    method SetStatus(id: string, status: Status, saves: bool) returns (ok: bool)
      modifies this
      ensures requests == WithStatus(old(requests), id, status)
      ensures ok <==> FindID(old(requests), id) >= 0 && saves
    {
      var pos := FirstWithID(id);
      if pos < 0 {
        return false;
      }
      requests := requests[pos := requests[pos].(status := status)];
      return saves;
    }

    method Remove(id: string, saves: bool) returns (ok: bool)
      modifies this
      ensures requests == Without(old(requests), id)
      ensures ok <==> FindID(old(requests), id) >= 0 && saves
    {
      var kept: seq<Request> := [];
      for i := 0 to |requests|
        invariant requests == old(requests)
        invariant kept == Without(requests[..i], id)
      {
        assert requests[..i + 1][..i] == requests[..i];
        if requests[i].id != id {
          kept := kept + [requests[i]];
        }
      }
      assert requests[..|requests|] == requests;
      if |kept| == |requests| {
        WithoutNothing(requests, id);
        return false;
      }
      requests := kept;
      return saves;
    }
  }
}
