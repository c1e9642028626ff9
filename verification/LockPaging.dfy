/** Walking the lock listing page by page while other clients create and release locks in between. */
module LockPaging {
  import opened ByteText
  import opened Locks
  import opened LockCursor
  import opened LockSets

  /**
   * One client's walk: page i was cut from states[i], whatever the store held by then, with its own limit, after the
   * position from[i] that the server read out of cursors[i].
   */
  datatype Walk = Walk(path: Text, id: Text, states: seq<seq<Lock>>, limits: seq<int>,
                       pages: seq<seq<Lock>>, cursors: seq<Text>, from: seq<Option<Lock>>)

  ghost predicate ListableStates(states: seq<seq<Lock>>) {
    forall i :: 0 <= i < |states| ==> StrictlySorted(states[i]) && forall l :: l in states[i] ==> Listable(l)
  }

  ghost predicate IsWalk(w: Walk) {
    && |w.states| == |w.limits| == |w.pages| == |w.from| == |w.cursors| - 1
    && ListableStates(w.states)
    && w.cursors[0] == []
    && (forall i :: 0 < i < |w.pages| ==> w.cursors[i] != [])
    && (forall i {:trigger IsPage(w, i)} :: 0 <= i < |w.pages| ==> IsPage(w, i))
  }

  ghost predicate IsPage(w: Walk, i: nat)
    requires |w.states| == |w.limits| == |w.pages| == |w.from| == |w.cursors| - 1 && i < |w.pages|
  {
    && w.from[i] == Position(w.cursors[i])
    && Listing(w.states[i], ListOptions(w.path, w.id, w.cursors[i], w.limits[i]))
       == Some(Page(w.pages[i], w.cursors[i + 1]))
  }

  /** The walk ran until the server said there was no further page. */
  ghost predicate Complete(w: Walk)
    requires IsWalk(w)
  {
    |w.pages| > 0 && w.cursors[|w.pages|] == []
  }

  function Concat(pages: seq<seq<Lock>>): seq<Lock> {
    if pages == [] then [] else Concat(pages[..|pages| - 1]) + pages[|pages| - 1]
  }

  ghost function Position(cursor: Text): Option<Lock> {
    if cursor == [] then None else ParseCursor(cursor)
  }

  /** A listable lock's cursor is a position, and it is the lock's own. */
  lemma CursorPosition(l: Lock)
    requires Listable(l)
    ensures CursorOf(l) != [] && Position(CursorOf(l)) == Some(PositionOf(l))
  {
    CursorRoundTrip(l);
  }

  function PositionOf(l: Lock): Lock {
    Lock(l.id, [], l.lockedAt, [])
  }

  ghost function Matches(w: Walk, i: nat): seq<Lock>
    requires i < |w.states| && i < |w.from|
  {
    Filter(w.states[i], w.path, w.id, w.from[i])
  }

  /** A page is the matches after its position, cut to its limit. */
  lemma PageIsCut(w: Walk, i: nat)
    requires IsWalk(w) && i < |w.pages|
    ensures Page(w.pages[i], w.cursors[i + 1]) == Cut(Matches(w, i), ClampLimit(w.limits[i]))
    ensures i == 0 ==> w.from[i] == None
  {
    assert IsPage(w, i);
  }

  /** The next page resumes at the position of the last lock of this one. */
  lemma NextPosition(w: Walk, i: nat)
    requires IsWalk(w) && i + 1 < |w.pages|
    ensures w.pages[i] != []
    ensures w.from[i + 1] == Some(PositionOf(w.pages[i][|w.pages[i]| - 1]))
  {
    PageIsCut(w, i);
    FilterMembers(w.states[i], w.path, w.id, w.from[i]);
    var last := Matches(w, i)[ClampLimit(w.limits[i]) - 1];
    assert last in Matches(w, i);
    CursorPosition(last);
    assert IsPage(w, i + 1);
  }

  lemma CutLeavesLater(matches: seq<Lock>, limit: nat)
    requires 0 < limit < |matches| && StrictlySorted(matches)
    ensures forall l :: l in matches ==> l in matches[..limit] || Before(matches[limit - 1], l)
  {
    forall l | l in matches && l !in matches[..limit] ensures Before(matches[limit - 1], l) {
      assert matches == matches[..limit] + matches[limit..];
      var k :| limit <= k < |matches| && matches[k] == l;
      assert Before(matches[limit - 1], matches[k]);
    }
  }

  /** What one page holds, and what it leaves for later. */
  lemma PageContents(w: Walk, i: nat)
    requires IsWalk(w) && i < |w.pages|
    ensures StrictlySorted(w.pages[i])
    ensures forall l :: l in w.pages[i] ==> l in w.states[i] && Wanted(l, w.path, w.id, w.from[i])
    ensures forall l :: l in w.states[i] && Wanted(l, w.path, w.id, w.from[i]) ==>
              || l in w.pages[i]
              || (w.pages[i] != [] && Before(w.pages[i][|w.pages[i]| - 1], l) && w.cursors[i + 1] != [])
  {
    PageIsCut(w, i);
    FilterMembers(w.states[i], w.path, w.id, w.from[i]);
    FilterSorted(w.states[i], w.path, w.id, w.from[i]);
    var matches, limit := Matches(w, i), ClampLimit(w.limits[i]);
    if |matches| > limit {
      CutLeavesLater(matches, limit);
      CursorIsNotEmpty(matches[limit - 1]);
    }
  }

  lemma LastIsLatest(page: seq<Lock>, l: Lock)
    requires StrictlySorted(page) && l in page
    ensures CompareLocks(l, page[|page| - 1]) <= 0
  {
    var k :| 0 <= k < |page| && page[k] == l;
    assert k < |page| - 1 ==> Before(page[k], page[|page| - 1]);
    CompareIsTotalOrder(l, l);
  }

  /** Everything on page i is at or before every later position. */
  lemma {:induction false} PositionsAdvance(w: Walk, i: nat, j: nat, l: Lock)
    requires IsWalk(w) && i < j < |w.pages| && l in w.pages[i]
    ensures w.from[j].Some? && CompareLocks(l, w.from[j].value) <= 0
    decreases j
  {
    NextPosition(w, j - 1);
    PageContents(w, j - 1);
    var last := w.pages[j - 1][|w.pages[j - 1]| - 1];
    CompareIsTotalOrder(last, PositionOf(last));
    SamePosition(l, last, PositionOf(last));
    if i == j - 1 {
      LastIsLatest(w.pages[i], l);
    } else {
      PositionsAdvance(w, i, j - 1, l);
      assert last in w.pages[j - 1];
      LeqThenBefore(l, w.from[j - 1].value, last);
    }
  }

  lemma SamePosition(l: Lock, a: Lock, b: Lock)
    requires CompareLocks(a, b) == 0
    ensures CompareLocks(l, a) == CompareLocks(l, b)
  {
    CompareIsTotalOrder(a, b);
  }

  lemma LeqThenBefore(a: Lock, b: Lock, c: Lock)
    requires CompareLocks(a, b) <= 0 && Before(b, c)
    ensures Before(a, c)
  {
    if Before(a, b) {
      BeforeTransitive(a, b, c);
    } else {
      PositionsDecide(a, b, c);
    }
  }

  /** Later pages list strictly later positions. */
  lemma PagesAdvance(w: Walk, i: nat, j: nat, a: Lock, b: Lock)
    requires IsWalk(w) && i < j < |w.pages| && a in w.pages[i] && b in w.pages[j]
    ensures Before(a, b)
  {
    PositionsAdvance(w, i, j, a);
    PageContents(w, j);
    LeqThenBefore(a, w.from[j].value, b);
  }

  lemma {:induction false} ConcatMembers(pages: seq<seq<Lock>>, l: Lock)
    ensures l in Concat(pages) <==> exists i :: 0 <= i < |pages| && l in pages[i]
  {
    if pages != [] {
      var k := |pages| - 1;
      ConcatMembers(pages[..k], l);
      if l in Concat(pages[..k]) {
        var i :| 0 <= i < |pages[..k]| && l in pages[..k][i];
        assert l in pages[i];
      }
      if i :| 0 <= i < |pages| && l in pages[i] {
        assert i < k ==> l in pages[..k][i];
      }
    }
  }

  lemma {:induction false} FirstPagesNeverRepeat(w: Walk, k: nat)
    requires IsWalk(w) && k <= |w.pages|
    ensures StrictlySorted(Concat(w.pages[..k]))
  {
    if k > 0 {
      FirstPagesNeverRepeat(w, k - 1);
      PageContents(w, k - 1);
      var earlier, page := Concat(w.pages[..k - 1]), w.pages[k - 1];
      assert w.pages[..k][..k - 1] == w.pages[..k - 1];
      forall x, y | 0 <= x < |earlier| && 0 <= y < |page| ensures Before(earlier[x], page[y]) {
        assert earlier[x] in earlier;
        ConcatMembers(w.pages[..k - 1], earlier[x]);
        var i :| 0 <= i < |w.pages[..k - 1]| && earlier[x] in w.pages[..k - 1][i];
        PagesAdvance(w, i, k - 1, earlier[x], page[y]);
      }
    }
  }

  /**
   * No walk lists a lock twice, whatever is created and released between its pages: everything it returned,
   * in order, is strictly sorted.
   */
  lemma WalkNeverRepeats(w: Walk)
    requires IsWalk(w)
    ensures StrictlySorted(Concat(w.pages))
  {
    FirstPagesNeverRepeat(w, |w.pages|);
    assert w.pages[..|w.pages|] == w.pages;
  }

  lemma StillAhead(w: Walk, l: Lock, k: nat)
    requires IsWalk(w) && k + 1 < |w.pages|
    requires l in w.states[k] && l !in w.pages[k] && Wanted(l, w.path, w.id, w.from[k])
    ensures Wanted(l, w.path, w.id, w.from[k + 1])
  {
    PageContents(w, k);
    NextPosition(w, k);
    var last := w.pages[k][|w.pages[k]| - 1];
    CompareIsTotalOrder(last, PositionOf(last));
    PositionsDecide(last, PositionOf(last), l);
  }

  /** A lock held at every page and not yet listed is still ahead of the cursor. */
  lemma {:induction false} NotYetListedIsAhead(w: Walk, l: Lock, k: nat)
    requires IsWalk(w) && k < |w.pages|
    requires forall i :: 0 <= i < |w.pages| ==> l in w.states[i]
    requires Wanted(l, w.path, w.id, None)
    requires forall i :: 0 <= i < k ==> l !in w.pages[i]
    ensures Wanted(l, w.path, w.id, w.from[k])
  {
    PageIsCut(w, k);
    if k > 0 {
      NotYetListedIsAhead(w, l, k - 1);
      StillAhead(w, l, k - 1);
    }
  }

  lemma LastPageIsAll(w: Walk, l: Lock)
    requires IsWalk(w) && Complete(w)
    requires l in w.states[|w.pages| - 1] && Wanted(l, w.path, w.id, w.from[|w.pages| - 1])
    ensures l in w.pages[|w.pages| - 1]
  {
    PageContents(w, |w.pages| - 1);
  }

  /** A complete walk lists every wanted lock that was held at each of its pages, and lists it exactly once. */
  lemma HeldThroughoutIsListedOnce(w: Walk, l: Lock)
    requires IsWalk(w) && Complete(w)
    requires forall i :: 0 <= i < |w.pages| ==> l in w.states[i]
    requires Wanted(l, w.path, w.id, None)
    ensures multiset(Concat(w.pages))[l] == 1
  {
    var k := |w.pages| - 1;
    if forall i :: 0 <= i < k ==> l !in w.pages[i] {
      NotYetListedIsAhead(w, l, k);
      LastPageIsAll(w, l);
    }
    ConcatMembers(w.pages, l);
    WalkNeverRepeats(w);
    SortedCountsOnce(Concat(w.pages), l);
  }

  lemma {:induction false} SortedCountsOnce(s: seq<Lock>, l: Lock)
    requires StrictlySorted(s)
    ensures multiset(s)[l] == if l in s then 1 else 0
  {
    if s != [] {
      SortedCountsOnce(s[1..], l);
      assert s == [s[0]] + s[1..];
      if l in s[1..] {
        TailAvoidsHead(s, l);
      }
    }
  }

  /** The number of pages an unchanged set of n locks takes. */
  function PagesNeeded(n: nat, limit: nat): (k: nat)
    requires limit > 0
  {
    if n <= limit then 1 else (n + limit - 1) / limit
  }

  /** A walk over a set nobody changes, with one limit throughout and no filter. */
  ghost predicate Quiet(w: Walk, s: seq<Lock>, limit: int) {
    && w.path == [] && w.id == []
    && (forall i :: 0 <= i < |w.states| ==> w.states[i] == s)
    && (forall i :: 0 <= i < |w.limits| ==> w.limits[i] == limit)
  }

  /** Where page k of such a walk starts: entry k * limit. */
  function Start(k: nat, limit: nat): (at: nat) {
    if k == 0 then 0 else Start(k - 1, limit) + limit
  }

  lemma {:induction false} StartIsProduct(k: nat, limit: nat)
    ensures Start(k, limit) == k * limit
  {
    if k > 0 {
      StartIsProduct(k - 1, limit);
      assert k * limit == (k - 1) * limit + limit;
    }
  }

  lemma ResumeAt(s: seq<Lock>, k: nat, p: Lock)
    requires StrictlySorted(s) && k < |s| && CompareLocks(s[k], p) == 0
    ensures Filter(s, [], [], Some(p)) == s[k + 1..]
  {
    RankOfEntry(s, k, p);
    FilterAfterIsSuffix(s, p);
  }

  lemma RankOfEntry(s: seq<Lock>, i: nat, p: Lock)
    requires StrictlySorted(s) && i < |s| && CompareLocks(s[i], p) == 0
    ensures Rank(s, p) == i
  {
    forall r | 0 <= r < i ensures Before(s[r], p) {
      assert Before(s[r], s[i]);
      SamePosition(s[r], s[i], p);
    }
  }

  /** The stretch of a list that a page starting there covers. */
  function Stretch(s: seq<Lock>, at: nat, n: nat): seq<Lock>
    requires at <= |s|
  {
    if at + n < |s| then s[at..at + n] else s[at..]
  }

  /** On an unchanged set page k is the limit-long stretch from its start, the last one when that reaches the end. */
  ghost predicate PageAt(w: Walk, s: seq<Lock>, n: nat, k: nat)
    requires k < |w.pages| && k + 1 < |w.cursors| && n > 0
  {
    && Start(k, n) <= |s| && (k > 0 ==> Start(k, n) < |s|)
    && w.pages[k] == Stretch(s, Start(k, n), n)
    && (w.cursors[k + 1] == [] <==> |s| <= Start(k, n) + n)
  }

  /** A page of an unchanged set whose position skips exactly the first `at` locks. */
  lemma QuietPageFrom(w: Walk, s: seq<Lock>, limit: int, k: nat, at: nat)
    requires IsWalk(w) && Quiet(w, s, limit) && k < |w.pages| && at <= |s|
    requires Filter(s, [], [], w.from[k]) == s[at..]
    ensures w.pages[k] == Stretch(s, at, ClampLimit(limit))
    ensures w.cursors[k + 1] == [] <==> |s| <= at + ClampLimit(limit)
  {
    PageIsCut(w, k);
    assert w.states[k] == s && w.limits[k] == limit;
    CutShape(s, at, ClampLimit(limit));
  }

  lemma CutShape(s: seq<Lock>, at: nat, n: nat)
    requires at <= |s| && n > 0
    ensures Cut(s[at..], n).locks == Stretch(s, at, n)
    ensures Cut(s[at..], n).next == [] <==> |s| <= at + n
  {
    if at + n < |s| {
      CursorIsNotEmpty(s[at..][n - 1]);
      assert s[at..][..n] == s[at..at + n];
    }
  }

  lemma CursorIsNotEmpty(l: Lock)
    ensures CursorOf(l) != []
  {
    CursorRoundTrip(l);
  }

  lemma QuietStep(w: Walk, s: seq<Lock>, limit: int, k: nat)
    requires IsWalk(w) && Quiet(w, s, limit) && k + 1 < |w.pages| && PageAt(w, s, ClampLimit(limit), k)
    ensures PageAt(w, s, ClampLimit(limit), k + 1)
  {
    var at, n := Start(k, ClampLimit(limit)), ClampLimit(limit);
    assert w.states[k] == s && w.cursors[k + 1] != [];
    assert Filter(s, [], [], w.from[k + 1]) == s[at + n..] by {
      NextPosition(w, k);
      ResumeAfterPage(s, at, n, w.pages[k], w.from[k + 1]);
    }
    QuietPageFrom(w, s, limit, k + 1, at + n);
  }

  /** The position of a full page's last lock resumes right after the page. */
  lemma ResumeAfterPage(s: seq<Lock>, at: nat, n: nat, page: seq<Lock>, from: Option<Lock>)
    requires StrictlySorted(s) && n > 0 && at + n < |s| && page == Stretch(s, at, n)
    requires from == Some(PositionOf(page[|page| - 1]))
    ensures Filter(s, [], [], from) == s[at + n..]
  {
    var last := s[at + n - 1];
    assert last == page[n - 1];
    CompareIsTotalOrder(last, PositionOf(last));
    ResumeAt(s, at + n - 1, PositionOf(last));
  }

  lemma {:induction false} QuietPage(w: Walk, s: seq<Lock>, limit: int, k: nat)
    requires IsWalk(w) && Quiet(w, s, limit) && k < |w.pages|
    ensures PageAt(w, s, ClampLimit(limit), k)
  {
    if k == 0 {
      PageIsCut(w, 0);
      FilterNothingIsAll(s);
      QuietPageFrom(w, s, limit, 0, 0);
    } else {
      QuietPage(w, s, limit, k - 1);
      QuietStep(w, s, limit, k - 1);
    }
  }

  lemma {:induction false} QuietPrefix(w: Walk, s: seq<Lock>, limit: int, k: nat)
    requires IsWalk(w) && Quiet(w, s, limit) && k < |w.pages|
    ensures Start(k, ClampLimit(limit)) <= |s|
    ensures Concat(w.pages[..k]) == s[..Start(k, ClampLimit(limit))]
  {
    QuietPage(w, s, limit, k);
    if k > 0 {
      QuietPrefix(w, s, limit, k - 1);
      QuietPage(w, s, limit, k - 1);
      ConcatOneMore(w.pages, k - 1);
    }
  }

  lemma ConcatOneMore(pages: seq<seq<Lock>>, k: nat)
    requires k < |pages|
    ensures Concat(pages[..k + 1]) == Concat(pages[..k]) + pages[k]
  {
    assert pages[..k + 1][..k] == pages[..k];
  }

  /**
   * On an unchanged set the walk never runs past ceil(n / limit) pages (one page when empty), is complete exactly
   * there, and its pages concatenate to the sorted list.
   */
  lemma QuietWalk(w: Walk, s: seq<Lock>, limit: int)
    requires IsWalk(w) && Quiet(w, s, limit) && |w.pages| > 0
    ensures |w.pages| <= PagesNeeded(|s|, ClampLimit(limit))
    ensures Complete(w) <==> |w.pages| == PagesNeeded(|s|, ClampLimit(limit))
    ensures Complete(w) ==> Concat(w.pages) == s
  {
    var k, n := |w.pages| - 1, ClampLimit(limit);
    QuietPage(w, s, limit, k);
    QuietPrefix(w, s, limit, k);
    var at := Start(k, n);
    ConcatOneMore(w.pages, k);
    assert w.pages[..k + 1] == w.pages;
    assert Complete(w) ==> s == s[..at] + s[at..];
    StartIsProduct(k, n);
    CeilBound(|s|, n, k);
  }

  /** Whatever the store holds by then and whatever the limit, an incomplete walk's next request is answered. */
  lemma WalkGoesOn(w: Walk, s: seq<Lock>, limit: int)
    requires IsWalk(w) && !Complete(w)
    ensures Listing(s, ListOptions(w.path, w.id, w.cursors[|w.pages|], limit)).Some?
  {
    if |w.pages| > 0 {
      var k := |w.pages| - 1;
      PageIsCut(w, k);
      FilterMembers(w.states[k], w.path, w.id, w.from[k]);
      var last := Matches(w, k)[ClampLimit(w.limits[k]) - 1];
      assert last in Matches(w, k);
      CursorPosition(last);
    }
  }

  /** The walk with its next page, cut from s. */
  ghost function Extended(w: Walk, s: seq<Lock>, limit: int, p: Page): Walk
    requires |w.cursors| > 0
  {
    w.(states := w.states + [s], limits := w.limits + [limit], pages := w.pages + [p.locks],
       cursors := w.cursors + [p.next], from := w.from + [Position(w.cursors[|w.cursors| - 1])])
  }

  lemma WalkExtends(w: Walk, s: seq<Lock>, limit: int, p: Page)
    requires IsWalk(w) && !Complete(w) && StrictlySorted(s) && forall l :: l in s ==> Listable(l)
    requires Listing(s, ListOptions(w.path, w.id, w.cursors[|w.pages|], limit)) == Some(p)
    ensures IsWalk(Extended(w, s, limit, p))
  {
    var x := Extended(w, s, limit, p);
    forall i | 0 <= i < |x.pages| ensures IsPage(x, i) {
      if i < |w.pages| {
        assert IsPage(w, i);
      }
    }
  }

  /** From any incomplete walk over an unchanged set, a client that keeps asking completes the walk. */
  lemma {:induction false} QuietWalkCompletes(w: Walk, s: seq<Lock>, limit: int) returns (x: Walk)
    requires IsWalk(w) && Quiet(w, s, limit) && StrictlySorted(s) && forall l :: l in s ==> Listable(l)
    ensures IsWalk(x) && Quiet(x, s, limit) && Complete(x) && w.pages <= x.pages
    decreases PagesNeeded(|s|, ClampLimit(limit)) - |w.pages|
  {
    if Complete(w) {
      return w;
    }
    if |w.pages| > 0 {
      QuietWalk(w, s, limit);
    }
    WalkGoesOn(w, s, limit);
    var p := Listing(s, ListOptions(w.path, w.id, w.cursors[|w.pages|], limit)).value;
    WalkExtends(w, s, limit, p);
    x := QuietWalkCompletes(Extended(w, s, limit, p), s, limit);
  }

  /** So every unchanged set is listed in full, in exactly max(1, ceil(n / limit)) pages. */
  lemma QuietSetIsListed(s: seq<Lock>, limit: int) returns (w: Walk)
    requires StrictlySorted(s) && forall l :: l in s ==> Listable(l)
    ensures IsWalk(w) && Quiet(w, s, limit) && Complete(w)
    ensures |w.pages| == PagesNeeded(|s|, ClampLimit(limit)) && Concat(w.pages) == s
  {
    w := QuietWalkCompletes(Walk([], [], [], [], [], [[]], []), s, limit);
    QuietWalk(w, s, limit);
  }

  lemma CeilBound(n: nat, limit: nat, k: nat)
    requires limit > 0 && (k > 0 ==> k * limit < n)
    ensures k + 1 <= PagesNeeded(n, limit)
    ensures n <= k * limit + limit <==> k + 1 == PagesNeeded(n, limit)
  {
    if n > limit {
      var c := (n + limit - 1) / limit;
      assert n + limit - 1 == limit * c + (n + limit - 1) % limit;
      ProductOrder(c, k, limit);
      ProductOrder(k + 2, c, limit);
      ProductOrder(k, k, limit);
    } else if k > 0 {
      ProductOrder(1, k, limit);
    }
  }

  lemma ProductOrder(a: nat, b: nat, limit: nat)
    requires limit > 0
    ensures a <= b ==> a * limit <= b * limit
    ensures limit * a == a * limit
    ensures (a + 2) * limit == a * limit + 2 * limit
  {
    if a <= b {
      assert b * limit == a * limit + (b - a) * limit;
    }
  }
}
