/**
 * Deleting by predicate (node/node_files.go DeleteFile, node/node_contacts.go RemoveContact): the loop runs
 * over a snapshot while every removal reorders the live slice.
 */
module Deletion {
  import opened Common
  import opened MessageStore

  /** v holds what is left of the snapshot when its first i matches have been removed. */
  ghost predicate Left(all: seq<Message>, match': Message -> bool, i: nat, v: map<string, Message>) {
    forall id :: if HasId(all, id) && !(match'(all[IndexOf(all, id)]) && IndexOf(all, id) < i)
                 then id in v && v[id] == all[IndexOf(all, id)] else id !in v
  }

  lemma LeftStep(all: seq<Message>, match': Message -> bool, i: nat, v: map<string, Message>)
    requires Distinct(all) && i < |all| && Left(all, match', i, v)
    ensures all[i].id in v
    ensures Left(all, match', i + 1, if match'(all[i]) then v - {all[i].id} else v)
  {
    assert IndexOf(all, all[i].id) == i;
  }

  lemma LeftAtEnd(all: seq<Message>, match': Message -> bool, v: map<string, Message>)
    requires Distinct(all) && Left(all, match', |all|, v)
    ensures v == KeptMap(View(all), m => !match'(m))
  {
    ViewFacts(all);
    hide View;
  }

  /** Removes exactly the matching messages: every other one is still stored, unchanged, whatever moved. */
  method RemoveMatching(mem: Memory, match': Message -> bool) returns (removed: nat)
    requires mem.Valid()
    modifies mem
    ensures mem.Valid()
    ensures View(mem.messages) == KeptMap(View(old(mem.messages)), m => !match'(m))
    ensures removed == |old(mem.messages)| - |mem.messages|
  {
    var all := mem.messages;
    IndexedDistinct(mem.messages, mem.byID);
    ViewFacts(all);
    hide View;
    removed := 0;
    for i := 0 to |all|
      invariant mem.Valid()
      invariant Left(all, match', i, View(mem.messages))
      invariant removed == |all| - |mem.messages|
    {
      LeftStep(all, match', i, View(mem.messages));
      if match'(all[i]) {
        var ok := RemoveStored(mem, all[i].id);
        if ok {
          removed := removed + 1;
        }
      }
    }
    LeftAtEnd(all, match', View(mem.messages));
  }

  method RemoveStored(mem: Memory, id: string) returns (ok: bool)
    requires mem.Valid() && id in View(mem.messages)
    modifies mem
    ensures mem.Valid() && ok
    ensures |mem.messages| == |old(mem.messages)| - 1
    ensures View(mem.messages) == View(old(mem.messages)) - {id}
  {
    hide View;
    IndexedDistinct(mem.messages, mem.byID);
    ViewFacts(mem.messages);
    SwapRemovedView(mem.messages, IndexOf(mem.messages, id));
    ok := mem.Remove(id);
  }

  /** Deletes a file's chunks; the empty media id deletes nothing. */
  method DeleteFile(mem: Memory, mediaID: string) returns (removed: nat)
    requires mem.Valid()
    modifies mem
    ensures mem.Valid()
    ensures mediaID == "" ==> removed == 0 && mem.messages == old(mem.messages)
    ensures mediaID != "" ==>
      View(mem.messages) == KeptMap(View(old(mem.messages)), (m: Message) => m.mediaID != mediaID)
    ensures removed == |old(mem.messages)| - |mem.messages|
  {
    if mediaID == "" {
      return 0;
    }
    removed := RemoveMatching(mem, (m: Message) => m.mediaID == mediaID);
  }
}
