/**
 * The user record of the page and the pure transformations the page applies
 * to its in-memory list of users: reversal of a fetched list, prepending a
 * created record, patching the records with a given id, and filtering out
 * the records with a given id.
 */
module Users {

  /** A user record as the API returns it. */
  datatype User = User(id: int, name: string, email: string)

  /** No two entries of the list share an id. */
  ghost predicate UniqueIds(s: seq<User>)
  {
    forall i, j :: 0 <= i < j < |s| ==> s[i].id != s[j].id
  }

  /** No entry of the list carries the id. */
  ghost predicate NoEntryWithId(s: seq<User>, id: int)
  {
    forall i :: 0 <= i < |s| ==> s[i].id != id
  }

  /** r is s with some entries dropped, the rest kept in their relative order. */
  ghost predicate IsSubsequence(r: seq<User>, s: seq<User>)
    decreases |s|
  {
    if r == [] then true
    else if s == [] then false
    else (r[0] == s[0] && IsSubsequence(r[1..], s[1..])) || IsSubsequence(r, s[1..])
  }

  // ---------------------------------------------------------------------------
  // Load: the fetched list is shown in reverse order.

  /** The list in reverse order, as `Array.prototype.reverse` leaves it. */
  function Reverse(s: seq<User>): (r: seq<User>)
    ensures |r| == |s|
    ensures forall k :: 0 <= k < |s| ==> r[k] == s[|s| - 1 - k]
  {
    if s == [] then [] else Reverse(s[1..]) + [s[0]]
  }

  /** Reversing holds exactly the same records, with the same multiplicities. */
  lemma {:induction false} ReverseSameRecords(s: seq<User>)
    ensures multiset(Reverse(s)) == multiset(s)
  {
    if s != [] {
      ReverseSameRecords(s[1..]);
      assert s == [s[0]] + s[1..];
    }
  }

  /** Reversing twice gives back the server's order. */
  lemma ReverseInvolutive(s: seq<User>)
    ensures Reverse(Reverse(s)) == s
  {
    var r := Reverse(Reverse(s));
    assert forall k :: 0 <= k < |s| ==> r[k] == s[k];
  }

  /** A list with unique ids keeps them unique once reversed. */
  lemma ReverseUniqueIds(s: seq<User>)
    requires UniqueIds(s)
    ensures UniqueIds(Reverse(s))
  {
    var r := Reverse(s);
    forall i, j | 0 <= i < j < |r| ensures r[i].id != r[j].id {
      assert r[i] == s[|s| - 1 - i] && r[j] == s[|s| - 1 - j];
    }
  }

  // ---------------------------------------------------------------------------
  // Create: the returned record goes in front of the list.

  /** The created record followed by the previous list, unchanged. */
  function Prepend(u: User, s: seq<User>): (r: seq<User>)
    ensures |r| == |s| + 1
    ensures r[0] == u && r[1..] == s
    ensures forall k :: 0 <= k < |s| ==> r[k + 1] == s[k]
  {
    [u] + s
  }

  /** Prepending a record whose id is not yet in the list keeps ids unique. */
  lemma PrependUniqueIds(u: User, s: seq<User>)
    requires UniqueIds(s) && NoEntryWithId(s, u.id)
    ensures UniqueIds(Prepend(u, s))
  {
    var r := Prepend(u, s);
    forall i, j | 0 <= i < j < |r| ensures r[i].id != r[j].id {
      assert r[j] == s[j - 1];
      if i > 0 {
        assert r[i] == s[i - 1];
      }
    }
  }

  // ---------------------------------------------------------------------------
  // Update: the entries with the id get the new name and email.

  /** One entry after the update: `{...user, name, email}` when its id matches. */
  function PatchEntry(u: User, id: int, name: string, email: string): (r: User)
    ensures r.id == u.id
  {
    if u.id == id then u.(name := name, email := email) else u
  }

  /** The list with every entry whose id matches patched, in the same order. */
  function PatchById(s: seq<User>, id: int, name: string, email: string): (r: seq<User>)
    ensures |r| == |s|
    ensures forall i :: 0 <= i < |s| ==> r[i].id == s[i].id
    ensures forall i :: 0 <= i < |s| && s[i].id == id ==> r[i] == User(id, name, email)
    ensures forall i :: 0 <= i < |s| && s[i].id != id ==> r[i] == s[i]
  {
    if s == [] then []
    else [PatchEntry(s[0], id, name, email)] + PatchById(s[1..], id, name, email)
  }

  /** If no entry carries the id, the update leaves the list as it was. */
  lemma PatchByIdNoMatch(s: seq<User>, id: int, name: string, email: string)
    requires NoEntryWithId(s, id)
    ensures PatchById(s, id, name, email) == s
  {
    var r := PatchById(s, id, name, email);
    assert forall i :: 0 <= i < |s| ==> r[i] == s[i];
  }

  /** Applying the same update twice gives the list of applying it once. */
  lemma PatchByIdIdempotent(s: seq<User>, id: int, name: string, email: string)
    ensures PatchById(PatchById(s, id, name, email), id, name, email) == PatchById(s, id, name, email)
  {
    var once := PatchById(s, id, name, email);
    var twice := PatchById(once, id, name, email);
    assert forall i :: 0 <= i < |s| ==> twice[i] == once[i];
  }

  /** The update keeps every id in place, so unique ids stay unique. */
  lemma PatchByIdUniqueIds(s: seq<User>, id: int, name: string, email: string)
    requires UniqueIds(s)
    ensures UniqueIds(PatchById(s, id, name, email))
  {
  }

  // ---------------------------------------------------------------------------
  // Delete: the entries with the id are filtered out.

  /** The list without the entries whose id matches, as `filter` leaves it. */
  function RemoveById(s: seq<User>, id: int): (r: seq<User>)
    ensures |r| <= |s|
    ensures NoEntryWithId(r, id)
    ensures forall u :: u in r ==> u in s
    ensures forall u :: u in s && u.id != id ==> u in r
    ensures IsSubsequence(r, s)
  {
    if s == [] then []
    else if s[0].id == id then RemoveById(s[1..], id)
    else [s[0]] + RemoveById(s[1..], id)
  }

  /** If no entry carries the id, deleting it leaves the list as it was. */
  lemma {:induction false} RemoveByIdNoMatch(s: seq<User>, id: int)
    requires NoEntryWithId(s, id)
    ensures RemoveById(s, id) == s
  {
    if s != [] {
      RemoveByIdNoMatch(s[1..], id);
      assert s == [s[0]] + s[1..];
    }
  }

  /** Deleting the same id again changes nothing. */
  lemma RemoveByIdIdempotent(s: seq<User>, id: int)
    ensures RemoveById(RemoveById(s, id), id) == RemoveById(s, id)
  {
    RemoveByIdNoMatch(RemoveById(s, id), id);
  }

  /** Any order-preserving selection of entries without the id is no longer than the filter. */
  lemma {:induction false} AvoidingSubsequenceBound(r: seq<User>, s: seq<User>, id: int)
    requires IsSubsequence(r, s) && NoEntryWithId(r, id)
    ensures |r| <= |RemoveById(s, id)|
    decreases |s|
  {
    if r != [] {
      if r[0] == s[0] && IsSubsequence(r[1..], s[1..]) {
        AvoidingSubsequenceBound(r[1..], s[1..], id);
      } else {
        AvoidingSubsequenceBound(r, s[1..], id);
      }
    }
  }

  /**
   * The filter is the ONE longest order-preserving selection of entries
   * without the id: nothing else is removed and the order is the original one.
   */
  lemma {:induction false} RemoveByIdIsLongestAvoiding(r: seq<User>, s: seq<User>, id: int)
    requires IsSubsequence(r, s) && NoEntryWithId(r, id)
    requires |r| >= |RemoveById(s, id)|
    ensures r == RemoveById(s, id)
    decreases |s|
  {
    if s == [] {
    } else if s[0].id == id {
      if r != [] {
        assert r[0] != s[0];
        RemoveByIdIsLongestAvoiding(r, s[1..], id);
      }
    } else {
      assert RemoveById(s, id) == [s[0]] + RemoveById(s[1..], id);
      if r[0] == s[0] && IsSubsequence(r[1..], s[1..]) {
        RemoveByIdIsLongestAvoiding(r[1..], s[1..], id);
        assert r == [r[0]] + r[1..];
      } else {
        AvoidingSubsequenceBound(r, s[1..], id);
        assert false;
      }
    }
  }

  /** Deleting keeps ids unique. */
  lemma {:induction false} RemoveByIdUniqueIds(s: seq<User>, id: int)
    requires UniqueIds(s)
    ensures UniqueIds(RemoveById(s, id))
  {
    if s != [] {
      assert UniqueIds(s[1..]);
      RemoveByIdUniqueIds(s[1..], id);
      if s[0].id != id {
        var tail := RemoveById(s[1..], id);
        var r := [s[0]] + tail;
        forall i, j | 0 <= i < j < |r| ensures r[i].id != r[j].id {
          if i == 0 {
            assert r[j] == tail[j - 1] && r[j] in s[1..];
          }
        }
      }
    }
  }

  // ---------------------------------------------------------------------------
  // How the operations combine.

  /** Deleting the id of a record just created (with a fresh id) restores the list. */
  lemma PrependThenRemove(u: User, s: seq<User>)
    requires NoEntryWithId(s, u.id)
    ensures RemoveById(Prepend(u, s), u.id) == s
  {
    assert Prepend(u, s)[1..] == s;
    RemoveByIdNoMatch(s, u.id);
  }

  /** Updating an id that was just deleted changes nothing. */
  lemma PatchAfterRemove(s: seq<User>, id: int, name: string, email: string)
    ensures PatchById(RemoveById(s, id), id, name, email) == RemoveById(s, id)
  {
    PatchByIdNoMatch(RemoveById(s, id), id, name, email);
  }

  /** Deleting an id after updating it gives the same list as deleting it directly. */
  lemma {:induction false} RemoveAfterPatch(s: seq<User>, id: int, name: string, email: string)
    ensures RemoveById(PatchById(s, id, name, email), id) == RemoveById(s, id)
  {
    if s != [] {
      RemoveAfterPatch(s[1..], id, name, email);
      var p := PatchById(s, id, name, email);
      assert p[1..] == PatchById(s[1..], id, name, email);
    }
  }
}
