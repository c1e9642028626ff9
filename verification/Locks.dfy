/** Locks, their listing order, and sorted lists of locks: the abstract level of lfs/locks.go. */
module Locks {
  import opened ByteText

  datatype Lock = Lock(id: Text, path: Text, lockedAt: Text, owner: Text)

  /** compareLocks: creation time, then ID. */
  function CompareLocks(a: Lock, b: Lock): (c: int) {
    var byTime := Compare(a.lockedAt, b.lockedAt);
    if byTime != 0 then byTime else Compare(a.id, b.id)
  }

  predicate Before(a: Lock, b: Lock) {
    CompareLocks(a, b) < 0
  }

  /** The listing order is a strict total order on positions, that is on (lockedAt, id) pairs. */
  lemma CompareIsTotalOrder(a: Lock, b: Lock)
    ensures CompareLocks(a, b) == 0 <==> a.lockedAt == b.lockedAt && a.id == b.id
    ensures CompareLocks(a, b) > 0 <==> Before(b, a)
  {
    LessTrichotomy(a.lockedAt, b.lockedAt);
    LessTrichotomy(a.id, b.id);
  }

  /** By creation time, then ID, both in byte order. */
  ghost predicate ListedBefore(a: Lock, b: Lock) {
    Precedes(a.lockedAt, b.lockedAt) || (a.lockedAt == b.lockedAt && Precedes(a.id, b.id))
  }

  /** That is the order the listing compares by. */
  lemma BeforeMeans(a: Lock, b: Lock)
    ensures Before(a, b) <==> ListedBefore(a, b)
  {
    LessIsPrecedes(a.lockedAt, b.lockedAt);
    LessIsPrecedes(a.id, b.id);
    LessTrichotomy(a.lockedAt, b.lockedAt);
  }

  lemma BeforeTransitive(a: Lock, b: Lock, c: Lock)
    requires Before(a, b) && Before(b, c)
    ensures Before(a, c)
  {
    LessTrichotomy(a.lockedAt, b.lockedAt);
    LessTrichotomy(b.lockedAt, c.lockedAt);
    LessTrichotomy(a.lockedAt, c.lockedAt);
    if Less(a.lockedAt, b.lockedAt) && Less(b.lockedAt, c.lockedAt) {
      LessTransitive(a.lockedAt, b.lockedAt, c.lockedAt);
    }
    if a.lockedAt == b.lockedAt == c.lockedAt {
      LessTransitive(a.id, b.id, c.id);
    }
  }

  ghost predicate StrictlySorted(s: seq<Lock>) {
    forall i, j {:trigger Before(s[i], s[j])} :: 0 <= i < j < |s| ==> Before(s[i], s[j])
  }

  /** No two entries share an ID, and none share a path: what the store keeps of every lock file. */
  ghost predicate Unique(s: seq<Lock>) {
    forall i, j :: 0 <= i < j < |s| ==> s[i].id != s[j].id && s[i].path != s[j].path
  }

  ghost function Elems(s: seq<Lock>): set<Lock> {
    set l | l in s
  }

  /** The number of entries before `l`: the insertion point that slices.BinarySearchFunc finds. */
  function Rank(s: seq<Lock>, l: Lock): (i: nat)
    ensures i <= |s|
    ensures forall k :: 0 <= k < i ==> Before(s[k], l)
    ensures i < |s| ==> !Before(s[i], l)
  {
    if s == [] || !Before(s[0], l) then 0 else 1 + Rank(s[1..], l)
  }

  /** In a sorted list the rank splits it: everything from the rank on is not before `l`. */
  lemma RankSplits(s: seq<Lock>, l: Lock)
    requires StrictlySorted(s)
    ensures forall k :: Rank(s, l) <= k < |s| ==> !Before(s[k], l)
    ensures forall k :: Rank(s, l) < k < |s| ==> Before(l, s[k])
    ensures l in s ==> Rank(s, l) < |s| && s[Rank(s, l)] == l
  {
    var r := Rank(s, l);
    forall k | r <= k < |s|
      ensures !Before(s[k], l)
      ensures r < k ==> Before(l, s[k])
    {
      CompareIsTotalOrder(s[r], l);
      CompareIsTotalOrder(l, s[k]);
      if r < k && Before(l, s[r]) {
        BeforeTransitive(l, s[r], s[k]);
      }
      if r < k && CompareLocks(s[r], l) == 0 {
        PositionsDecide(s[r], l, s[k]);
      }
    }
    if l in s {
      var k :| 0 <= k < |s| && s[k] == l;
      CompareIsTotalOrder(l, l);
      assert r <= k;
    }
  }

  /** Order depends on positions only. */
  lemma PositionsDecide(a: Lock, b: Lock, c: Lock)
    requires CompareLocks(a, b) == 0
    ensures Before(a, c) <==> Before(b, c)
  {
    CompareIsTotalOrder(a, b);
  }

  function Insert(s: seq<Lock>, l: Lock): (r: seq<Lock>) {
    s[..Rank(s, l)] + [l] + s[Rank(s, l)..]
  }

  lemma InsertElems(s: seq<Lock>, l: Lock)
    ensures |Insert(s, l)| == |s| + 1
    ensures Elems(Insert(s, l)) == Elems(s) + {l}
  {
    var r := Insert(s, l);
    forall x | x in Elems(s) ensures x in r {
      var k :| 0 <= k < |s| && s[k] == x;
      assert r[if k < Rank(s, l) then k else k + 1] == x;
    }
    assert r[Rank(s, l)] == l;
  }

  lemma InsertKeepsOrder(s: seq<Lock>, l: Lock)
    requires StrictlySorted(s)
    requires forall x :: x in s ==> x.id != l.id
    ensures StrictlySorted(Insert(s, l))
  {
    var i, r := Rank(s, l), Insert(s, l);
    RankSplits(s, l);
    if i < |s| {
      CompareIsTotalOrder(s[i], l);
      assert s[i] in s;
    }
  }

  lemma InsertKeepsUnique(s: seq<Lock>, l: Lock)
    requires Unique(s)
    requires forall x :: x in s ==> x.id != l.id && x.path != l.path
    ensures Unique(Insert(s, l))
  {
    var k, r := Rank(s, l), Insert(s, l);
    forall i, j | 0 <= i < j < |r| ensures r[i].id != r[j].id && r[i].path != r[j].path {
      assert r[i] == if i < k then s[i] else if i == k then l else s[i - 1];
      assert r[j] == if j < k then s[j] else if j == k then l else s[j - 1];
    }
  }

  function Delete(s: seq<Lock>, l: Lock): (r: seq<Lock>) {
    var i := Rank(s, l);
    if i < |s| && CompareLocks(s[i], l) == 0 then s[..i] + s[i + 1..] else s
  }

  lemma DeleteElems(s: seq<Lock>, l: Lock)
    requires StrictlySorted(s) && Unique(s) && l in s
    ensures |Delete(s, l)| == |s| - 1
    ensures Elems(Delete(s, l)) == Elems(s) - {l}
  {
    var i, r := Rank(s, l), Delete(s, l);
    RankSplits(s, l);
    CompareIsTotalOrder(l, l);
    assert s == s[..i] + [l] + s[i + 1..] && r == s[..i] + s[i + 1..];
    forall k | 0 <= k < |s| && k != i ensures s[k] != l {
      assert k < i ==> s[k].id != s[i].id;
      assert i < k ==> s[i].id != s[k].id;
    }
    assert l !in s[..i] && l !in s[i + 1..];
  }

  lemma DeleteKeepsOrder(s: seq<Lock>, l: Lock)
    requires StrictlySorted(s) && Unique(s)
    ensures StrictlySorted(Delete(s, l)) && Unique(Delete(s, l))
  {
    var k, r := Rank(s, l), Delete(s, l);
    if r != s {
      forall i, j | 0 <= i < j < |r|
        ensures Before(r[i], r[j]) && r[i].id != r[j].id && r[i].path != r[j].path
      {
        assert r[i] == s[if i < k then i else i + 1];
        assert r[j] == s[if j < k then j else j + 1];
      }
    }
  }

  /** Deleting what was just inserted gives back the list. */
  lemma DeleteUndoesInsert(s: seq<Lock>, l: Lock)
    requires StrictlySorted(s) && Unique(s)
    requires forall x :: x in s ==> x.id != l.id && x.path != l.path
    ensures Delete(Insert(s, l), l) == s
  {
    InsertElems(s, l);
    InsertKeepsOrder(s, l);
    InsertKeepsUnique(s, l);
    assert l in Elems(Insert(s, l));
    DeleteElems(Insert(s, l), l);
    DeleteKeepsOrder(Insert(s, l), l);
    SortedListIsItsSet(Delete(Insert(s, l), l), s);
  }

  /** A strictly sorted list is determined by its elements, so any sorting algorithm gives the same list. */
  lemma {:induction false} SortedListIsItsSet(a: seq<Lock>, b: seq<Lock>)
    requires StrictlySorted(a) && StrictlySorted(b)
    requires Elems(a) == Elems(b)
    ensures a == b
  {
    EmptyElems(a);
    EmptyElems(b);
    if a != [] {
      FirstIsLeast(a, b);
      FirstIsLeast(b, a);
      CompareIsTotalOrder(a[0], b[0]);
      CompareIsTotalOrder(a[0], a[0]);
      forall x | x in Elems(a[1..]) ensures x in Elems(b[1..]) {
        TailAvoidsHead(a, x);
        assert x in Elems(a);
        var k :| 0 <= k < |b| && b[k] == x;
        assert b[1..][k - 1] == x;
      }
      forall x | x in Elems(b[1..]) ensures x in Elems(a[1..]) {
        TailAvoidsHead(b, x);
        assert x in Elems(b);
        var k :| 0 <= k < |a| && a[k] == x;
        assert a[1..][k - 1] == x;
      }
      SortedListIsItsSet(a[1..], b[1..]);
      assert a == [a[0]] + a[1..] && b == [b[0]] + b[1..];
    }
  }

  lemma EmptyElems(s: seq<Lock>)
    ensures Elems(s) == {} <==> s == []
  {
    if s != [] {
      assert s[0] in Elems(s);
    }
  }

  lemma FirstIsLeast(a: seq<Lock>, b: seq<Lock>)
    requires StrictlySorted(a) && a != [] && b != [] && Elems(a) == Elems(b)
    ensures b[0] == a[0] || Before(a[0], b[0])
  {
    assert b[0] in Elems(b);
    var k :| 0 <= k < |a| && a[k] == b[0];
  }

  lemma TailAvoidsHead(a: seq<Lock>, x: Lock)
    requires StrictlySorted(a) && a != [] && x in a[1..]
    ensures x != a[0]
  {
    var k :| 0 <= k < |a[1..]| && a[1..][k] == x;
    CompareIsTotalOrder(a[0], a[0]);
    assert Before(a[0], a[k + 1]);
  }

  /** The sorted form of a lock file's entries. */
  function Sort(s: seq<Lock>): (r: seq<Lock>) {
    if s == [] then [] else Insert(Sort(s[1..]), s[0])
  }

  lemma {:induction false} SortSorts(s: seq<Lock>)
    requires Unique(s)
    ensures StrictlySorted(Sort(s)) && Unique(Sort(s)) && Elems(Sort(s)) == Elems(s) && |Sort(s)| == |s|
  {
    if s != [] {
      SortSorts(s[1..]);
      var rest := Sort(s[1..]);
      forall x | x in rest ensures x.id != s[0].id && x.path != s[0].path {
        assert x in Elems(s[1..]);
        var k :| 0 <= k < |s[1..]| && s[1..][k] == x;
        assert s[k + 1] == x;
      }
      InsertElems(rest, s[0]);
      InsertKeepsOrder(rest, s[0]);
      InsertKeepsUnique(rest, s[0]);
      assert s == [s[0]] + s[1..];
    }
  }

  /** Sorting a sorted list changes nothing, so re-reading a file the store wrote gives the list it wrote. */
  lemma SortIsIdempotent(s: seq<Lock>)
    requires StrictlySorted(s) && Unique(s)
    ensures Sort(s) == s
  {
    SortSorts(s);
    SortedListIsItsSet(Sort(s), s);
  }
}
