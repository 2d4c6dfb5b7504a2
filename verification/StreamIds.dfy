/** Stream ids in the order of sort.Strings, and what "the alphabetically last ones" means. */
module StreamIds {
  type StreamId = string

  predicate Before(a: StreamId, b: StreamId) {
    if b == "" then false
    else if a == "" then true
    else if a[0] != b[0] then a[0] < b[0]
    else Before(a[1..], b[1..])
  }

  /** Where two ids part decides: the smaller byte comes first, and an end before any byte. */
  lemma {:induction false} FirstDifferenceDecides(a: StreamId, b: StreamId, k: nat)
    requires k <= |a| && k <= |b| && a[..k] == b[..k]
    requires k == |a| || k == |b| || a[k] != b[k]
    ensures Before(a, b) <==> k < |b| && (k == |a| || a[k] < b[k])
  {
    if k != 0 {
      assert a[..k][0] == b[..k][0];
      assert a[1..][..k - 1] == a[..k][1..] && b[1..][..k - 1] == b[..k][1..];
      FirstDifferenceDecides(a[1..], b[1..], k - 1);
    }
  }

  lemma {:induction false} BeforeIsTotal(a: StreamId, b: StreamId)
    ensures Before(a, b) || Before(b, a) || a == b
    ensures !(Before(a, b) && Before(b, a)) && !Before(a, a)
  {
    if a != "" && b != "" && a[0] == b[0] {
      BeforeIsTotal(a[1..], b[1..]);
      assert a == [a[0]] + a[1..] && b == [b[0]] + b[1..];
    } else if a != "" {
      BeforeIsTotal(a[1..], a[1..]);
    }
  }

  lemma {:induction false} BeforeIsTransitive(a: StreamId, b: StreamId, c: StreamId)
    requires Before(a, b) && Before(b, c)
    ensures Before(a, c)
  {
    if a != "" && a[0] == b[0] == c[0] {
      BeforeIsTransitive(a[1..], b[1..], c[1..]);
    }
  }

  ghost predicate Ascending(ids: seq<StreamId>) {
    forall i, j :: 0 <= i < j < |ids| ==> Before(ids[i], ids[j])
  }

  function Elements(ids: seq<StreamId>): set<StreamId> { set x | x in ids }

  function Inserted(x: StreamId, ids: seq<StreamId>): (r: seq<StreamId>)
    ensures |r| == |ids| + 1
    ensures Elements(r) == Elements(ids) + {x}
  {
    if ids == [] then [x]
    else if Before(x, ids[0]) then [x] + ids
    else
      var rest := Inserted(x, ids[1..]);
      assert Elements(ids) == {ids[0]} + Elements(ids[1..]);
      assert Elements([ids[0]] + rest) == {ids[0]} + Elements(rest);
      [ids[0]] + rest
  }

  /** What sort.Strings returns. */
  function Sorted(ids: seq<StreamId>): (r: seq<StreamId>)
    ensures |r| == |ids|
    ensures Elements(r) == Elements(ids)
  {
    if ids == [] then [] else
      assert Elements(ids) == {ids[0]} + Elements(ids[1..]);
      Inserted(ids[0], Sorted(ids[1..]))
  }

  lemma {:induction false} InsertedAscends(x: StreamId, ids: seq<StreamId>)
    requires Ascending(ids) && x !in ids
    ensures Ascending(Inserted(x, ids))
  {
    if ids != [] {
      BeforeIsTotal(x, ids[0]);
      if Before(x, ids[0]) {
        forall j | 1 <= j < |ids| ensures Before(x, ids[j]) {
          BeforeIsTransitive(x, ids[0], ids[j]);
        }
      } else {
        InsertedAscends(x, ids[1..]);
        var rest := Inserted(x, ids[1..]);
        forall j | 0 <= j < |rest| ensures Before(ids[0], rest[j]) {
          assert rest[j] in Elements(rest);
        }
      }
    }
  }

  lemma {:induction false} SortedAscends(ids: seq<StreamId>)
    requires forall i, j :: 0 <= i < j < |ids| ==> ids[i] != ids[j]
    ensures Ascending(Sorted(ids))
  {
    if ids != [] {
      SortedAscends(ids[1..]);
      assert ids[0] !in Elements(Sorted(ids[1..]));
      InsertedAscends(ids[0], Sorted(ids[1..]));
    }
  }

  /** An ascending list is determined by its elements, so sorting forgets the iteration order. */
  lemma {:induction false} AscendingIsUnique(a: seq<StreamId>, b: seq<StreamId>)
    requires Ascending(a) && Ascending(b) && Elements(a) == Elements(b)
    ensures a == b
  {
    assert b == [] || b[0] in Elements(b);
    if a != [] {
      assert a[0] in Elements(b);
      assert b != [];
      assert b[0] in Elements(a);
      BeforeIsTotal(a[0], b[0]);
      assert a[0] == b[0];
      forall x ensures x in Elements(a[1..]) <==> x in Elements(b[1..]) {
        BeforeIsTotal(a[0], a[0]);
        if x in Elements(a[1..]) { assert x in Elements(b); }
        if x in Elements(b[1..]) { assert x in Elements(a); }
      }
      AscendingIsUnique(a[1..], b[1..]);
    }
  }

  /** The ids of a set in ascending order. */
  ghost function Ordered(ids: set<StreamId>): (r: seq<StreamId>)
    ensures |r| == |ids| && Elements(r) == ids && Ascending(r)
  {
    if ids == {} then [] else
      var x :| x in ids;
      var rest := Ordered(ids - {x});
      assert x !in Elements(rest);
      InsertedAscends(x, rest);
      Inserted(x, rest)
  }

  lemma ElementsOfPart(ids: seq<StreamId>, n: nat)
    requires Ascending(ids) && n <= |ids|
    ensures |Elements(ids[n..])| == |ids| - n
    ensures forall x, y :: x in Elements(ids) - Elements(ids[n..]) && y in Elements(ids[n..]) ==> Before(x, y)
    decreases |ids| - n
  {
    if n < |ids| {
      ElementsOfPart(ids, n + 1);
      assert Elements(ids[n..]) == {ids[n]} + Elements(ids[n + 1..]);
      BeforeIsTotal(ids[n], ids[n]);
      assert ids[n] !in Elements(ids[n + 1..]);
      forall x, y | x in Elements(ids) - Elements(ids[n..]) && y in Elements(ids[n..]) ensures Before(x, y) {
        var i :| 0 <= i < |ids| && ids[i] == x;
        var j :| n <= j < |ids| && ids[j] == y;
        assert forall k :: n <= k < |ids| ==> ids[k] in Elements(ids[n..]);
      }
    }
  }

  /** All but the first `keep` ids of a set, alphabetically. */
  ghost function LastAfter(ids: set<StreamId>, keep: nat): set<StreamId>
    requires keep <= |ids|
  {
    Elements(Ordered(ids)[keep..])
  }

  /** `released` are the alphabetically last of `ids`, all but `keep` of them. */
  ghost predicate AreLast(released: set<StreamId>, ids: set<StreamId>, keep: nat) {
    && released <= ids
    && |released| + keep == |ids|
    && forall x, y :: x in ids - released && y in released ==> Before(x, y)
  }

  /** Exactly one set of ids is the alphabetically last, and it is what the sorted list ends with. */
  lemma LastAfterIsLast(released: set<StreamId>, ids: set<StreamId>, keep: nat)
    requires keep <= |ids|
    ensures AreLast(released, ids, keep) <==> released == LastAfter(ids, keep)
  {
    var last := LastAfter(ids, keep);
    ElementsOfPart(Ordered(ids), keep);
    assert AreLast(last, ids, keep);
    if AreLast(released, ids, keep) && released != last {
      if released <= last {
        Proper(released, last);
      } else if last <= released {
        Proper(last, released);
      } else {
        var x :| x in released && x !in last;
        var y :| y in last && y !in released;
        BeforeIsTotal(x, y);
      }
    }
  }

  lemma Proper(a: set<StreamId>, b: set<StreamId>)
    requires a < b
    ensures |a| < |b|
  {
    assert |b - a| + |a| == |b| by { assert b == (b - a) + a; }
    var x :| x in b - a;
  }
}
