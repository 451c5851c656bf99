/** The `Recommendation` ledger: one (userId, board) entry per "like". The
    repository table is a sequence, not a set, because nothing stops the same
    user from recommending the same board twice. A board's `recommendations`
    collection (`mappedBy = "board"`) is the part of the ledger that refers to
    it. */
module Recommendations {

  datatype Recommendation = Recommendation(userId: string, postId: int)

  /** `Board.recommendations`: the ledger entries of board `postId`, in order. */
  function EntriesOf(ledger: seq<Recommendation>, postId: int): (r: seq<Recommendation>)
    ensures forall e :: e in r <==> e in ledger && e.postId == postId
    ensures |r| <= |ledger|
  {
    if ledger == [] then []
    else (if ledger[0].postId == postId then [ledger[0]] else []) + EntriesOf(ledger[1..], postId)
  }

  /** The collection keeps every copy of each of the board's entries:
      duplicates are kept, and counted by `CountFor`. */
  lemma {:induction false} EntriesOfMultiset(ledger: seq<Recommendation>, postId: int, e: Recommendation)
    ensures multiset(EntriesOf(ledger, postId))[e] == if e.postId == postId then multiset(ledger)[e] else 0
  {
    if ledger != [] {
      assert ledger == [ledger[0]] + ledger[1..];
      EntriesOfMultiset(ledger[1..], postId, e);
    }
  }

  /** How many recommendations board `postId` has in the ledger. */
  function CountFor(ledger: seq<Recommendation>, postId: int): nat
  {
    |EntriesOf(ledger, postId)|
  }

  /** `existsByUserIdAndBoard`. */
  predicate Has(ledger: seq<Recommendation>, userId: string, postId: int)
  {
    Recommendation(userId, postId) in ledger
  }

  /** `delete(findByUserIdAndBoard(..))`: removes the first entry equal to `e`;
      a ledger without `e` is returned as it is. */
  function RemoveOne(ledger: seq<Recommendation>, e: Recommendation): (r: seq<Recommendation>)
    ensures e !in ledger ==> r == ledger
  {
    if ledger == [] then []
    else if ledger[0] == e then ledger[1..]
    else [ledger[0]] + RemoveOne(ledger[1..], e)
  }

  /** `RemoveOne` deletes exactly one copy of `e` when there is one, and
      nothing else. */
  lemma {:induction false} RemoveOneMultiset(ledger: seq<Recommendation>, e: Recommendation)
    ensures multiset(RemoveOne(ledger, e)) == multiset(ledger) - multiset{e}
  {
    if ledger != [] {
      assert ledger == [ledger[0]] + ledger[1..];
      if ledger[0] != e {
        RemoveOneMultiset(ledger[1..], e);
      }
    }
  }

  /** The cascade of deleting board `postId`: every entry of that board goes,
      every other entry stays, in order. */
  function Cascade(ledger: seq<Recommendation>, postId: int): (r: seq<Recommendation>)
    ensures forall e :: e in r <==> e in ledger && e.postId != postId
  {
    if ledger == [] then []
    else (if ledger[0].postId == postId then [] else [ledger[0]]) + Cascade(ledger[1..], postId)
  }

  /** The cascade deletes every copy of the board's entries and keeps every
      copy of the others'. */
  lemma {:induction false} CascadeMultiset(ledger: seq<Recommendation>, postId: int, e: Recommendation)
    ensures multiset(Cascade(ledger, postId))[e] == if e.postId == postId then 0 else multiset(ledger)[e]
  {
    if ledger != [] {
      assert ledger == [ledger[0]] + ledger[1..];
      CascadeMultiset(ledger[1..], postId, e);
    }
  }

  /** Saving one more entry adds it at the end of its own board's collection
      and leaves every other board's collection as it was. */
  lemma {:induction false} EntriesOfAppend(ledger: seq<Recommendation>, e: Recommendation, postId: int)
    ensures EntriesOf(ledger + [e], postId)
         == EntriesOf(ledger, postId) + (if e.postId == postId then [e] else [])
  {
    if ledger == [] {
      assert ledger + [e] == [e];
      assert [e][1..] == [];
    } else {
      assert (ledger + [e])[0] == ledger[0];
      assert (ledger + [e])[1..] == ledger[1..] + [e];
      EntriesOfAppend(ledger[1..], e, postId);
    }
  }

  lemma EntriesOfCons(h: Recommendation, tail: seq<Recommendation>, postId: int)
    ensures EntriesOf([h] + tail, postId) == (if h.postId == postId then [h] else []) + EntriesOf(tail, postId)
  {
    assert ([h] + tail)[0] == h;
    assert ([h] + tail)[1..] == tail;
  }

  lemma RemoveOneCons(h: Recommendation, tail: seq<Recommendation>, e: Recommendation)
    requires h != e
    ensures RemoveOne([h] + tail, e) == [h] + RemoveOne(tail, e)
  {
    assert ([h] + tail)[0] == h;
    assert ([h] + tail)[1..] == tail;
  }

  /** Orphan removal: deleting an entry from the ledger is the same as
      removing it from its board's collection, and other boards' collections
      do not change. */
  lemma {:induction false} EntriesOfRemoveOne(ledger: seq<Recommendation>, e: Recommendation, postId: int)
    ensures EntriesOf(RemoveOne(ledger, e), postId)
         == if e.postId == postId then RemoveOne(EntriesOf(ledger, postId), e) else EntriesOf(ledger, postId)
  {
    if ledger == [] {
    } else if ledger[0] == e {
      assert ledger == [e] + ledger[1..];
      EntriesOfCons(e, ledger[1..], postId);
    } else {
      var h, tail := ledger[0], ledger[1..];
      assert ledger == [h] + tail;
      var rest := RemoveOne(tail, e);
      assert RemoveOne(ledger, e) == [h] + rest;
      var head := if h.postId == postId then [h] else [];
      EntriesOfCons(h, rest, postId);
      EntriesOfCons(h, tail, postId);
      assert EntriesOf(RemoveOne(ledger, e), postId) == head + EntriesOf(rest, postId);
      assert EntriesOf(ledger, postId) == head + EntriesOf(tail, postId);
      EntriesOfRemoveOne(tail, e, postId);
      if e.postId == postId {
        if h.postId == postId {
          RemoveOneCons(h, EntriesOf(tail, postId), e);
        } else {
          assert head + EntriesOf(tail, postId) == EntriesOf(tail, postId);
          assert head + EntriesOf(rest, postId) == EntriesOf(rest, postId);
        }
      }
    }
  }

  /** After the cascade for `postId` that board has no entries left, and
      every other board keeps its collection unchanged. */
  lemma {:induction false} EntriesOfCascade(ledger: seq<Recommendation>, gone: int, postId: int)
    ensures EntriesOf(Cascade(ledger, gone), postId)
         == if postId == gone then [] else EntriesOf(ledger, postId)
  {
    if ledger != [] {
      EntriesOfCascade(ledger[1..], gone, postId);
      var head := if ledger[0].postId == gone then [] else [ledger[0]];
      var tail := Cascade(ledger[1..], gone);
      if head == [] {
        assert head + tail == tail;
      } else {
        assert (head + tail)[0] == ledger[0];
        assert (head + tail)[1..] == tail;
      }
    }
  }

  /** One recommendation more: the board's count rises by exactly one and
      every other board's count is unchanged. */
  lemma CountForAppend(ledger: seq<Recommendation>, e: Recommendation, postId: int)
    ensures CountFor(ledger + [e], postId) == CountFor(ledger, postId) + (if e.postId == postId then 1 else 0)
  {
    EntriesOfAppend(ledger, e, postId);
  }

  /** Deleting an entry the ledger holds lowers its board's count by exactly
      one; deleting one it does not hold changes nothing. */
  lemma CountForRemoveOne(ledger: seq<Recommendation>, e: Recommendation, postId: int)
    ensures CountFor(RemoveOne(ledger, e), postId)
         == if e.postId == postId && e in ledger then CountFor(ledger, postId) - 1 else CountFor(ledger, postId)
  {
    EntriesOfRemoveOne(ledger, e, postId);
    if e.postId == postId {
      var es := EntriesOf(ledger, postId);
      RemoveOneMultiset(es, e);
      assert |multiset(RemoveOne(es, e))| == |multiset(es) - multiset{e}|;
      if e in ledger {
        assert e in es;
      }
    }
  }

  /** A board with no entry in the ledger has count zero. */
  lemma CountForAbsent(ledger: seq<Recommendation>, postId: int)
    requires forall e :: e in ledger ==> e.postId != postId
    ensures CountFor(ledger, postId) == 0
  {
    EntriesOfAbsent(ledger, postId);
  }

  /** A board no entry refers to has an empty collection. */
  lemma {:induction false} EntriesOfAbsent(ledger: seq<Recommendation>, postId: int)
    requires forall e :: e in ledger ==> e.postId != postId
    ensures EntriesOf(ledger, postId) == []
  {
    if ledger != [] {
      assert ledger[0] in ledger;
      EntriesOfAbsent(ledger[1..], postId);
    }
  }

  /** Removing an entry just appended, from a ledger that did not hold it,
      gives back that ledger. */
  lemma {:induction false} RemoveOneAppended(ledger: seq<Recommendation>, e: Recommendation)
    requires e !in ledger
    ensures RemoveOne(ledger + [e], e) == ledger
  {
    if ledger == [] {
      assert [] + [e] == [e];
    } else {
      assert (ledger + [e])[0] == ledger[0];
      assert (ledger + [e])[1..] == ledger[1..] + [e];
      RemoveOneAppended(ledger[1..], e);
      assert ledger == [ledger[0]] + ledger[1..];
    }
  }
}
