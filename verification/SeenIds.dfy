/** The first-in first-out cache of recently seen message ids that drops duplicate deliveries. */
module SeenIds {

  function Last<T>(capacity: nat, items: seq<T>): seq<T> {
    if |items| <= capacity then items else items[|items| - capacity..]
  }

  /** The history of freshly accepted ids after one more id: an empty id is never recorded, and an id
      among the last `capacity` accepted ones is suppressed. */
  function Accept(capacity: nat, accepted: seq<string>, id: string): seq<string> {
    if id == "" || id in Last(capacity, accepted) then accepted else accepted + [id]
  }

  function AcceptAll(capacity: nat, ids: seq<string>): seq<string> {
    if ids == [] then [] else Accept(capacity, AcceptAll(capacity, ids[..|ids| - 1]), ids[|ids| - 1])
  }

  /** Two acceptances of one id have at least `capacity` acceptances from the one to the other. */
  ghost predicate NoRepeatWithin(capacity: nat, accepted: seq<string>) {
    forall i, j :: 0 <= i < j < |accepted| && accepted[i] == accepted[j] ==> capacity <= j - i
  }

  class SeenIdCache {
    const capacity: nat
    var seen: set<string>
    var order: seq<string>

    /** Every id freshly accepted so far. */
    ghost var accepted: seq<string>

    ghost predicate Valid()
      reads this
    {
      && order == Last(capacity, accepted)
      && seen == (set id | id in order)
      && (forall i, j :: 0 <= i < j < |order| ==> order[i] != order[j])
      && "" !in order
    }

    constructor (capacity: nat)
      ensures Valid() && accepted == [] && this.capacity == capacity
    {
      this.capacity := capacity;
      seen, order, accepted := {}, [], [];
    }

    /** Answers from the set and keeps set and queue in step; an empty id leaves both alone. */
    method MarkSeen(id: string) returns (already: bool)
      requires Valid()
      modifies this
      ensures Valid()
      ensures already <==> id != "" && id in Last(capacity, old(accepted))
      ensures accepted == Accept(capacity, old(accepted), id)
    {
      if id == "" {
        return false;
      }
      if id in seen {
        return true;
      }
      LastAppend(capacity, accepted, id);
      SetOfAppend(order, id);
      seen := seen + {id};
      order := order + [id];
      accepted := accepted + [id];
      if |order| > capacity {
        SetOfTail(order);
        var evicted := order[0];
        order := order[1..];
        if evicted != "" {
          seen := seen - {evicted};
        }
      }
      already := false;
    }

    method Size() returns (n: nat)
      requires Valid()
      ensures n == |order| <= capacity
    {
      n := |seen|;
      DistinctCount(order);
    }
  }

  lemma SetOfAppend(ids: seq<string>, id: string)
    ensures (set x | x in ids + [id]) == (set x | x in ids) + {id}
  {
  }

  lemma SetOfTail(ids: seq<string>)
    requires ids != [] && forall i, j :: 0 <= i < j < |ids| ==> ids[i] != ids[j]
    ensures (set x | x in ids[1..]) == (set x | x in ids) - {ids[0]}
  {
    assert ids == [ids[0]] + ids[1..];
  }

  lemma LastAppend<T>(capacity: nat, items: seq<T>, x: T)
    ensures var last := Last(capacity, items) + [x];
            Last(capacity, items + [x]) == if capacity < |last| then last[1..] else last
  {
  }

  lemma {:induction false} DistinctCount(s: seq<string>)
    requires forall i, j :: 0 <= i < j < |s| ==> s[i] != s[j]
    ensures |set x | x in s| == |s|
  {
    if s == [] {
      assert (set x | x in s) == {};
    } else {
      DistinctCount(s[1..]);
      assert (set x | x in s) == {s[0]} + set x | x in s[1..];
    }
  }

  lemma {:induction false} AcceptedIdsRepeatLate(capacity: nat, ids: seq<string>)
    ensures NoRepeatWithin(capacity, AcceptAll(capacity, ids))
  {
    if ids != [] {
      AcceptedIdsRepeatLate(capacity, ids[..|ids| - 1]);
    }
  }

  /** Over every stream of ids, the next non-empty id is suppressed exactly when it was accepted before
      and fewer than `capacity` ids were accepted after that. */
  lemma SuppressedIffRecentlyAccepted(capacity: nat, ids: seq<string>, id: string)
    requires id != ""
    ensures var accepted := AcceptAll(capacity, ids);
            AcceptAll(capacity, ids + [id]) == accepted
            <==> exists i :: 0 <= i < |accepted| && accepted[i] == id && |accepted| - 1 - i < capacity
  {
  }
}
