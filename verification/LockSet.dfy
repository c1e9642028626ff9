/** The indexed lock set of lfs/locks.go, mutated in place, against a linear reference listing. */
module LockSets {
  import opened ByteText
  import opened Locks
  import opened LockCursor
  import Base64Url

  const DEFAULT_LIMIT := 100
  const MAX_LIMIT := 1000

  datatype ListOptions = ListOptions(path: Text, id: Text, cursor: Text, limit: int)

  datatype Page = Page(locks: seq<Lock>, next: Text)

  function ClampLimit(limit: int): (r: nat)
    ensures 1 <= r <= MAX_LIMIT
    ensures 1 <= limit <= MAX_LIMIT ==> r == limit
  {
    if limit <= 0 then DEFAULT_LIMIT else if limit > MAX_LIMIT then MAX_LIMIT else limit
  }

  /** What a listing asks of one lock: the given path and ID, ignoring whichever is empty, after the cursor. */
  predicate Wanted(l: Lock, path: Text, id: Text, after: Option<Lock>) {
    (path == [] || l.path == path) && (id == [] || l.id == id) && (after.Some? ==> Before(after.value, l))
  }

  function Filter(s: seq<Lock>, path: Text, id: Text, after: Option<Lock>): (r: seq<Lock>) {
    if s == [] then []
    else (if Wanted(s[0], path, id, after) then [s[0]] else []) + Filter(s[1..], path, id, after)
  }

  function Cut(matches: seq<Lock>, limit: nat): (p: Page)
    requires limit > 0
  {
    if |matches| <= limit then Page(matches, []) else Page(matches[..limit], CursorOf(matches[limit - 1]))
  }

  /** The reference listing: a linear filter of the sorted list, cut to the clamped limit; None for a bad cursor. */
  function Listing(s: seq<Lock>, opts: ListOptions): (r: Option<Page>) {
    if opts.cursor != [] && ParseCursor(opts.cursor).None? then None
    else
      var after := if opts.cursor == [] then None else ParseCursor(opts.cursor);
      Some(Cut(Filter(s, opts.path, opts.id, after), ClampLimit(opts.limit)))
  }

  lemma {:induction false} FilterMembers(s: seq<Lock>, path: Text, id: Text, after: Option<Lock>)
    ensures forall l :: l in Filter(s, path, id, after) <==> l in s && Wanted(l, path, id, after)
  {
    if s != [] {
      FilterMembers(s[1..], path, id, after);
      assert s == [s[0]] + s[1..];
    }
  }

  lemma {:induction false} FilterSorted(s: seq<Lock>, path: Text, id: Text, after: Option<Lock>)
    requires StrictlySorted(s)
    ensures StrictlySorted(Filter(s, path, id, after))
  {
    if s != [] {
      FilterSorted(s[1..], path, id, after);
      FilterMembers(s[1..], path, id, after);
      var rest := Filter(s[1..], path, id, after);
      forall k | 0 <= k < |rest| ensures Before(s[0], rest[k]) {
        assert rest[k] in rest;
        assert rest[k] in s[1..];
      }
    }
  }

  lemma {:induction false} FilterKeepsLater(s: seq<Lock>, after: Lock)
    requires forall k :: 0 <= k < |s| ==> Before(after, s[k])
    ensures Filter(s, [], [], Some(after)) == s
  {
    if s != [] {
      FilterKeepsLater(s[1..], after);
    }
  }

  /** How many entries of a sorted list a cursor position skips: those before it, and its own if it is there. */
  function Skipped(s: seq<Lock>, after: Lock): (n: nat)
    ensures n <= |s|
  {
    var i := Rank(s, after);
    if i < |s| && CompareLocks(s[i], after) == 0 then i + 1 else i
  }

  lemma SkippedStep(s: seq<Lock>, after: Lock)
    requires s != [] && Before(s[0], after)
    ensures Skipped(s, after) == 1 + Skipped(s[1..], after)
    ensures s[Skipped(s, after)..] == s[1..][Skipped(s[1..], after)..]
  {}

  /** Filtering on a cursor alone is dropping a prefix: the one that binary search finds. */
  lemma {:induction false} FilterAfterIsSuffix(s: seq<Lock>, after: Lock)
    requires StrictlySorted(s)
    ensures Filter(s, [], [], Some(after)) == s[Skipped(s, after)..]
  {
    if s != [] {
      CompareIsTotalOrder(s[0], after);
      CompareIsTotalOrder(after, s[0]);
      if Before(s[0], after) {
        SortedTail(s);
        SkippedStep(s, after);
        FilterAfterIsSuffix(s[1..], after);
      } else {
        LaterEntries(s, after);
        FilterKeepsLater(s[1..], after);
      }
    }
  }

  lemma SortedTail(s: seq<Lock>)
    requires StrictlySorted(s) && s != []
    ensures StrictlySorted(s[1..])
  {
    forall i, j | 0 <= i < j < |s[1..]| ensures Before(s[1..][i], s[1..][j]) {
      assert Before(s[i + 1], s[j + 1]);
    }
  }

  lemma LaterEntries(s: seq<Lock>, after: Lock)
    requires StrictlySorted(s) && s != [] && CompareLocks(after, s[0]) <= 0
    ensures forall k :: 0 <= k < |s[1..]| ==> Before(after, s[1..][k])
  {
    forall k | 0 <= k < |s[1..]| ensures Before(after, s[1..][k]) {
      assert Before(s[0], s[k + 1]);
      if Before(after, s[0]) {
        BeforeTransitive(after, s[0], s[k + 1]);
      } else {
        PositionsDecide(after, s[0], s[k + 1]);
      }
    }
  }

  lemma FilterNothingIsAll(s: seq<Lock>)
    ensures Filter(s, [], [], None) == s
  {}

  /** On a list with unique IDs and paths a path or ID filter leaves at most one lock. */
  lemma FilterByKey(s: seq<Lock>, path: Text, id: Text)
    requires StrictlySorted(s) && Unique(s) && (path != [] || id != [])
    ensures forall l :: l in s && Wanted(l, path, id, None) ==> Filter(s, path, id, None) == [l]
    ensures (forall l :: l in s ==> !Wanted(l, path, id, None)) ==> Filter(s, path, id, None) == []
  {
    var f := Filter(s, path, id, None);
    FilterMembers(s, path, id, None);
    FilterSorted(s, path, id, None);
    forall l | l in s && Wanted(l, path, id, None) ensures f == [l] {
      assert Elems(f) == Elems([l]);
      SortedListIsItsSet(f, [l]);
    }
    if forall l :: l in s ==> !Wanted(l, path, id, None) {
      EmptyElems(f);
    }
  }

  /** Adding a cursor to a filter filters the filtered list once more. */
  lemma {:induction false} FilterTwice(s: seq<Lock>, path: Text, id: Text, after: Lock)
    ensures Filter(s, path, id, Some(after)) == Filter(Filter(s, path, id, None), [], [], Some(after))
  {
    if s != [] {
      FilterTwice(s[1..], path, id, after);
      var rest := Filter(s[1..], path, id, None);
      FilterStep(s[0], rest, after);
      if Wanted(s[0], path, id, None) {
        assert Filter(s, path, id, None) == [s[0]] + rest;
      } else {
        assert Filter(s, path, id, None) == rest;
        assert Filter(s, path, id, Some(after)) == Filter(s[1..], path, id, Some(after));
      }
    }
  }

  lemma FilterStep(l: Lock, rest: seq<Lock>, after: Lock)
    ensures Filter([l] + rest, [], [], Some(after))
            == (if Before(after, l) then [l] else []) + Filter(rest, [], [], Some(after))
  {
    assert ([l] + rest)[1..] == rest;
  }

  // ---- what a listing comes to, without the reference listing ----

  /** The cursor stands for this time and ID: base64url of the two with a bar between them. */
  ghost predicate StandsFor(cursor: Text, time: Text, id: Text) {
    && time != [] && id != [] && 124 !in time
    && Base64Url.Decode(cursor) == Some(time + Ascii("|") + id)
  }

  ghost predicate IsCursor(cursor: Text) {
    exists time, id :: StandsFor(cursor, time, id)
  }

  /** The lock comes after the position the cursor stands for. */
  ghost predicate IsAfter(l: Lock, cursor: Text) {
    exists time, id :: StandsFor(cursor, time, id) && ListedBefore(Lock(id, [], time, []), l)
  }

  /** The lock is one the request asks for. */
  ghost predicate IsAskedFor(l: Lock, opts: ListOptions) {
    (opts.path == [] || l.path == opts.path) && (opts.id == [] || l.id == opts.id)
    && (opts.cursor == [] || IsAfter(l, opts.cursor))
  }

  /** How many locks a page may hold: 100 unless asked otherwise, and at most 1000. */
  function PageLimit(limit: int): int {
    if limit <= 0 then 100 else if limit > 1000 then 1000 else limit
  }

  /**
   * The page holds, by time and ID in byte order, the first of the locks asked for: all of them on the last page, and
   * otherwise as many as the limit, with a cursor for the last one and something left after it.
   */
  ghost predicate IsPageOf(all: set<Lock>, opts: ListOptions, page: seq<Lock>, next: Text) {
    && (forall i, j :: 0 <= i < j < |page| ==> ListedBefore(page[i], page[j]))
    && (forall l :: l in page ==> l in all && IsAskedFor(l, opts))
    && |page| <= PageLimit(opts.limit)
    && if next == [] then forall l :: l in all && IsAskedFor(l, opts) ==> l in page
       else
         && |page| == PageLimit(opts.limit)
         && var last := page[|page| - 1];
            && next == Base64Url.Encode(last.lockedAt + Ascii("|") + last.id)
            && (exists l :: l in all && l !in page && IsAskedFor(l, opts))
            && forall l :: l in all && IsAskedFor(l, opts) ==> l in page || ListedBefore(last, l)
  }

  lemma BarIsAscii()
    ensures Ascii("|") == [BAR] && BAR == 124
  {
    assert Ascii("|") == [124];
  }

  /** Parsing a cursor finds the one position it stands for, or none. */
  lemma CursorMeans(cursor: Text)
    ensures ParseCursor(cursor).None? <==> !IsCursor(cursor)
    ensures ParseCursor(cursor).Some? ==>
              && StandsFor(cursor, ParseCursor(cursor).value.lockedAt, ParseCursor(cursor).value.id)
              && forall time, id :: StandsFor(cursor, time, id) ==> ParseCursor(cursor) == Some(Lock(id, [], time, []))
  {
    BarIsAscii();
    if ParseCursor(cursor).Some? {
      var p, data := ParseCursor(cursor).value, Base64Url.Decode(cursor).value;
      assert data == p.lockedAt + [BAR] + p.id;
      assert StandsFor(cursor, p.lockedAt, p.id);
    }
    forall time, id | StandsFor(cursor, time, id) ensures ParseCursor(cursor) == Some(Lock(id, [], time, [])) {
      var data := time + [BAR] + id;
      CutJoin(time, BAR, id);
      assert data[..|time|] == time && data[|time| + 1..] == id;
    }
  }

  lemma WantedMeans(l: Lock, opts: ListOptions)
    requires opts.cursor == [] || ParseCursor(opts.cursor).Some?
    ensures var after := if opts.cursor == [] then None else ParseCursor(opts.cursor);
            Wanted(l, opts.path, opts.id, after) <==> IsAskedFor(l, opts)
  {
    if opts.cursor != [] {
      CursorMeans(opts.cursor);
      var p := ParseCursor(opts.cursor).value;
      BeforeMeans(p, l);
      PositionOnly(p, l);
    }
  }

  lemma PositionOnly(p: Lock, l: Lock)
    ensures ListedBefore(p, l) <==> ListedBefore(Lock(p.id, [], p.lockedAt, []), l)
  {}

  lemma PageMeans(s: seq<Lock>, matches: seq<Lock>, opts: ListOptions)
    requires StrictlySorted(matches) && forall l :: l in matches <==> l in s && IsAskedFor(l, opts)
    ensures var p := Cut(matches, ClampLimit(opts.limit)); IsPageOf(Elems(s), opts, p.locks, p.next)
  {
    var limit := ClampLimit(opts.limit);
    var p := Cut(matches, limit);
    forall i, j | 0 <= i < j < |matches| ensures ListedBefore(matches[i], matches[j]) {
      assert Before(matches[i], matches[j]);
      BeforeMeans(matches[i], matches[j]);
    }
    if |matches| > limit {
      CursorRoundTrip(matches[limit - 1]);
      BarIsAscii();
      SortedTailIsApart(matches, limit);
    }
  }

  /** What is cut off a sorted list is not in what stays. */
  lemma SortedTailIsApart(matches: seq<Lock>, limit: nat)
    requires StrictlySorted(matches) && limit < |matches|
    ensures matches[limit] in matches && matches[limit] !in matches[..limit]
    ensures forall l :: l in matches && l !in matches[..limit] ==> exists k :: limit <= k < |matches| && matches[k] == l
  {
    forall k | 0 <= k < limit ensures matches[k] != matches[limit] {
      assert Before(matches[k], matches[limit]);
      CompareIsTotalOrder(matches[k], matches[k]);
    }
    assert matches == matches[..limit] + matches[limit..];
  }

  /** The reference listing fails exactly for what is no cursor, and otherwise gives the page asked for. */
  lemma ListingMeans(s: seq<Lock>, opts: ListOptions)
    requires StrictlySorted(s)
    ensures Listing(s, opts).None? <==> opts.cursor != [] && !IsCursor(opts.cursor)
    ensures Listing(s, opts).Some? ==>
              IsPageOf(Elems(s), opts, Listing(s, opts).value.locks, Listing(s, opts).value.next)
  {
    if opts.cursor != [] {
      CursorMeans(opts.cursor);
    }
    if Listing(s, opts).Some? {
      var after := if opts.cursor == [] then None else ParseCursor(opts.cursor);
      var matches := Filter(s, opts.path, opts.id, after);
      FilterMembers(s, opts.path, opts.id, after);
      FilterSorted(s, opts.path, opts.id, after);
      forall l ensures l in matches <==> l in s && IsAskedFor(l, opts) {
        WantedMeans(l, opts);
      }
      PageMeans(s, matches, opts);
    }
  }

  /** slices.BinarySearchFunc: the insertion point of target, and whether an equal position is there. */
  method BinarySearch(s: seq<Lock>, target: Lock) returns (i: nat, found: bool)
    requires StrictlySorted(s)
    ensures i == Rank(s, target)
    ensures found <==> i < |s| && CompareLocks(s[i], target) == 0
  {
    RankSplits(s, target);
    var lo, hi := 0, |s|;
    while lo < hi
      invariant 0 <= lo <= Rank(s, target) <= hi <= |s|
    {
      var mid := (lo + hi) / 2;
      if CompareLocks(s[mid], target) < 0 {
        assert Before(s[mid], target);
        lo := mid + 1;
      } else {
        hi := mid;
      }
    }
    return lo, lo < |s| && CompareLocks(s[lo], target) == 0;
  }

  /** slices.Insert: shifts the tail in place while there is room, and otherwise moves to a larger array. */
  method InsertAt(a: array<Lock>, n: nat, i: nat, lock: Lock) returns (b: array<Lock>)
    requires i <= n <= a.Length
    modifies a
    ensures b == a || fresh(b)
    ensures n < b.Length
    ensures b[..n + 1] == old(a[..i]) + [lock] + old(a[i..n])
  {
    if n < a.Length {
      forall k | i <= k < n {
        a[k + 1] := a[k];
      }
      a[i] := lock;
      b := a;
    } else {
      var moved := a[..i] + [lock] + a[i..n];
      b := new Lock[2 * n + 1](k requires 0 <= k => if k < |moved| then moved[k] else lock);
      assert forall k :: 0 <= k <= n ==> b[k] == moved[k];
    }
  }

  /** slices.Delete of one entry: shifts the tail down in place and clears the freed slot. */
  method DeleteAt(a: array<Lock>, n: nat, i: nat)
    requires i < n <= a.Length
    modifies a
    ensures a[..n - 1] == old(a[..n])[..i] + old(a[..n])[i + 1..]
  {
    forall k | i <= k < n - 1 {
      a[k] := a[k + 1];
    }
    a[n - 1] := Lock([], [], [], []);
  }

  /** The part of a sorted list after a position. */
  method DropThrough(matches: seq<Lock>, after: Lock) returns (rest: seq<Lock>)
    requires StrictlySorted(matches)
    ensures rest == Filter(matches, [], [], Some(after))
  {
    FilterAfterIsSuffix(matches, after);
    var i, found := BinarySearch(matches, after);
    rest := matches[if found then i + 1 else i..];
  }

  datatype Key = ById | ByPath

  function KeyOf(l: Lock, key: Key): Text {
    if key.ById? then l.id else l.path
  }

  /** m maps the key of every lock in s to that lock, and nothing else. */
  ghost predicate Indexes(m: map<Text, Lock>, s: seq<Lock>, key: Key) {
    && (forall l :: l in s ==> KeyOf(l, key) in m && m[KeyOf(l, key)] == l)
    && (forall k :: k in m ==> m[k] in s && KeyOf(m[k], key) == k)
  }

  method BuildIndex(s: seq<Lock>, key: Key) returns (m: map<Text, Lock>)
    requires Unique(s)
    ensures Indexes(m, s, key)
  {
    m := map[];
    for i := 0 to |s|
      invariant Indexes(m, s[..i], key)
    {
      IndexOneMore(m, s, i, key);
      m := m[KeyOf(s[i], key) := s[i]];
    }
    assert s[..|s|] == s;
  }

  /** What the set keeps: a strictly sorted list with unique keys, indexed exactly by ID and by path. */
  ghost predicate Indexed(s: seq<Lock>, byID: map<Text, Lock>, byPath: map<Text, Lock>) {
    && StrictlySorted(s)
    && Unique(s)
    && Indexes(byID, s, ById)
    && Indexes(byPath, s, ByPath)
  }

  class LockSet {
    var slots: array<Lock>
    var n: nat
    var byID: map<Text, Lock>
    var byPath: map<Text, Lock>

    ghost predicate Valid()
      reads this, slots
    {
      n <= slots.Length && Indexed(slots[..n], byID, byPath)
    }

    /** The sorted list of locks the set stands for. */
    ghost function Contents(): (s: seq<Lock>)
      reads this, slots
      requires n <= slots.Length
    {
      slots[..n]
    }

    /** newLockSet: sort, then index by ID and by path. */
    constructor (locks: seq<Lock>)
      requires Unique(locks)
      ensures Valid() && fresh(slots)
      ensures Contents() == Sort(locks)
    {
      SortSorts(locks);
      var s := Sort(locks);
      var ids := BuildIndex(s, ById);
      var paths := BuildIndex(s, ByPath);
      slots := new Lock[|s|](k requires 0 <= k < |s| => s[k]);
      n, byID, byPath := |s|, ids, paths;
      new;
      assert slots[..n] == s;
    }

    method Add(lock: Lock)
      requires Valid()
      requires lock.id !in byID && lock.path !in byPath
      modifies this, slots
      ensures Valid()
      ensures slots == old(slots) || fresh(slots)
      ensures Contents() == Insert(old(Contents()), lock)
    {
      IndexedInsert(Contents(), byID, byPath, lock);
      var i, _ := BinarySearch(slots[..n], lock);
      Place(i, lock);
    }

    /** The writes of add: the slot, then the two index entries. */
    method Place(i: nat, lock: Lock)
      requires i <= n <= slots.Length
      modifies this, slots
      ensures slots == old(slots) || fresh(slots)
      ensures n == old(n) + 1 <= slots.Length
      ensures slots[..n] == old(slots[..n])[..i] + [lock] + old(slots[..n])[i..]
      ensures byID == old(byID)[lock.id := lock] && byPath == old(byPath)[lock.path := lock]
    {
      slots := InsertAt(slots, n, i, lock);
      n := n + 1;
      byID := byID[lock.id := lock];
      byPath := byPath[lock.path := lock];
    }

    /**
     * remove finds the slot by time and ID, the index entries by ID and by path: the set stays well kept exactly
     * when the lock it holds under that ID, if any, has that time and path.
     */
    method Remove(lock: Lock)
      requires Valid()
      modifies this, slots
      ensures slots == old(slots) && n <= slots.Length
      ensures Contents() == Delete(old(Contents()), lock)
      ensures Valid() <==> SameIfSameID(old(Contents()), lock)
    {
      IndexedDelete(Contents(), byID, byPath, lock);
      RankSplits(Contents(), lock);
      var i, found := BinarySearch(slots[..n], lock);
      Displace(i, found, lock);
    }

    /** The writes of remove: the slot if it was found, then the index entries that still name the lock. */
    method Displace(i: nat, found: bool, lock: Lock)
      requires n <= slots.Length && (found ==> i < n)
      modifies this, slots
      ensures slots == old(slots) && n == (if found then old(n) - 1 else old(n))
      ensures slots[..n] == if found then old(slots[..n])[..i] + old(slots[..n])[i + 1..] else old(slots[..n])
      ensures byID == old(byID) - {lock.id}
      ensures byPath == WithoutPath(old(byPath), lock)
    {
      ghost var s := slots[..n];
      if found {
        DeleteAt(slots, n, i);
        n := n - 1;
        assert slots[..n] == s[..i] + s[i + 1..];
      }
      byID := byID - {lock.id};
      if lock.path in byPath && byPath[lock.path].id == lock.id {
        byPath := byPath - {lock.path};
      }
    }

    /** Looking a path up in the set. */
    method FindPath(path: Text) returns (l: Option<Lock>)
      requires Valid()
      ensures l.Some? ==> l.value in Contents() && l.value.path == path
      ensures l.None? ==> path !in byPath && forall x :: x in Contents() ==> x.path != path
    {
      l := if path in byPath then Some(byPath[path]) else None;
    }

    /** Looking an ID up in the set. */
    method FindID(id: Text) returns (l: Option<Lock>)
      requires Valid()
      ensures l.Some? ==> l.value in Contents() && l.value.id == id
      ensures l.None? ==> forall x :: x in Contents() ==> x.id != id
    {
      l := if id in byID then Some(byID[id]) else None;
    }

    lemma OnlyOneHasItsID(l: Lock)
      requires Valid() && l in Contents()
      ensures SameIfSameID(Contents(), l)
    {
      forall x | x in Contents() && x.id == l.id ensures x == l {
        OneOfEachID(Contents(), x, l);
      }
    }

    lemma UnusedID(id: Text)
      requires Valid() && forall x :: x in Contents() ==> x.id != id
      ensures id !in byID
    {
    }

    /** match: at most one lock, found through the maps. */
    method Match(path: Text, id: Text) returns (matches: seq<Lock>)
      requires Valid()
      requires path != [] || id != []
      ensures matches == Filter(Contents(), path, id, None)
    {
      FilterByKey(slots[..n], path, id);
      var m := if path == [] then byID else byPath;
      var key := if path == [] then id else path;
      if key !in m || (id != [] && m[key].id != id) {
        assert forall l :: l in slots[..n] ==> !Wanted(l, path, id, None);
        return [];
      }
      assert m[key] in slots[..n] && Wanted(m[key], path, id, None);
      return [m[key]];
    }

    /** list: binary search and map lookups answer exactly the reference listing, on a page of its own. */
    method List(opts: ListOptions) returns (ok: bool, page: array<Lock>, next: Text)
      requires Valid()
      ensures ok <==> Listing(Contents(), opts).Some?
      ensures ok ==> Listing(Contents(), opts) == Some(Page(page[..], next))
      ensures ok <==> opts.cursor == [] || IsCursor(opts.cursor)
      ensures ok ==> IsPageOf(Elems(Contents()), opts, page[..], next)
      ensures fresh(page)
    {
      ListingMeans(Contents(), opts);
      ghost var s := slots[..n];
      FilterNothingIsAll(s);
      FilterSorted(s, opts.path, opts.id, None);
      var matches := slots[..n];
      if opts.path != [] || opts.id != [] {
        matches := Match(opts.path, opts.id);
      }
      assert matches == Filter(s, opts.path, opts.id, None);
      if opts.cursor != [] {
        var after := ParseCursor(opts.cursor);
        if after.None? {
          page := new Lock[0];
          return false, page, [];
        }
        FilterTwice(s, opts.path, opts.id, after.value);
        matches := DropThrough(matches, after.value);
      }
      var cut := Cut(matches, ClampLimit(opts.limit));
      page := new Lock[|cut.locks|](k requires 0 <= k < |cut.locks| => cut.locks[k]);
      assert page[..] == cut.locks;
      ok, next := true, cut.next;
    }
  }

  lemma IndexOneMore(m: map<Text, Lock>, s: seq<Lock>, i: nat, key: Key)
    requires i < |s| && Indexes(m, s[..i], key)
    requires forall j :: 0 <= j < i ==> KeyOf(s[j], key) != KeyOf(s[i], key)
    ensures Indexes(m[KeyOf(s[i], key) := s[i]], s[..i + 1], key)
  {
    assert s[..i + 1] == s[..i] + [s[i]];
  }

  lemma IndexInsert(m: map<Text, Lock>, s: seq<Lock>, l: Lock, key: Key)
    requires Indexes(m, s, key) && KeyOf(l, key) !in m
    ensures Indexes(m[KeyOf(l, key) := l], Insert(s, l), key)
  {
    InsertElems(s, l);
    assert forall x :: x in Insert(s, l) <==> x in Elems(Insert(s, l));
    assert forall x :: x in s <==> x in Elems(s);
  }

  lemma IndexDelete(m: map<Text, Lock>, s: seq<Lock>, l: Lock, key: Key)
    requires Indexes(m, s, key) && StrictlySorted(s) && Unique(s) && l in s
    ensures Indexes(m - {KeyOf(l, key)}, Delete(s, l), key)
  {
    DeleteElems(s, l);
    assert forall x :: x in Delete(s, l) <==> x in Elems(Delete(s, l));
    assert forall x :: x in s <==> x in Elems(s);
  }

  lemma IndexedInsert(s: seq<Lock>, byID: map<Text, Lock>, byPath: map<Text, Lock>, l: Lock)
    requires Indexed(s, byID, byPath) && l.id !in byID && l.path !in byPath
    ensures Indexed(Insert(s, l), byID[l.id := l], byPath[l.path := l])
    ensures Elems(Insert(s, l)) == Elems(s) + {l}
  {
    InsertElems(s, l);
    InsertKeepsOrder(s, l);
    InsertKeepsUnique(s, l);
    IndexInsert(byID, s, l, ById);
    IndexInsert(byPath, s, l, ByPath);
  }

  lemma OneOfEachID(s: seq<Lock>, x: Lock, y: Lock)
    requires Unique(s) && x in s && y in s
    ensures x.id == y.id ==> x == y
  {
    var i, j :| 0 <= i < |s| && s[i] == x && 0 <= j < |s| && s[j] == y;
  }

  /** Whatever the list holds under the lock's ID was locked at that time and has that path. */
  ghost predicate SameIfSameID(s: seq<Lock>, l: Lock) {
    forall x :: x in s && x.id == l.id ==> x.lockedAt == l.lockedAt && x.path == l.path
  }

  /** The path index after remove: the entry goes if it still names the lock. */
  function WithoutPath(byPath: map<Text, Lock>, l: Lock): map<Text, Lock> {
    if l.path in byPath && byPath[l.path].id == l.id then byPath - {l.path} else byPath
  }

  /** remove of a lock whose ID the list holds, with that time and path. */
  lemma IndexedDeleteHeld(s: seq<Lock>, byID: map<Text, Lock>, byPath: map<Text, Lock>, l: Lock, x: Lock)
    requires Indexed(s, byID, byPath) && x in s && x.id == l.id && x.lockedAt == l.lockedAt && x.path == l.path
    ensures Indexed(Delete(s, l), byID - {l.id}, WithoutPath(byPath, l))
  {
    SameDelete(s, l, x);
    DeleteKeepsOrder(s, x);
    IndexDelete(byID, s, x, ById);
    IndexDelete(byPath, s, x, ByPath);
  }

  /** Deleting goes by position. */
  lemma SameDelete(s: seq<Lock>, l: Lock, x: Lock)
    requires StrictlySorted(s) && x in s && x.id == l.id && x.lockedAt == l.lockedAt
    ensures Delete(s, l) == Delete(s, x)
  {
    SameRank(s, l, x);
  }

  lemma {:induction false} SameRank(s: seq<Lock>, l: Lock, x: Lock)
    requires x.id == l.id && x.lockedAt == l.lockedAt
    ensures Rank(s, l) == Rank(s, x)
  {
    if s != [] {
      SameRank(s[1..], l, x);
    }
  }

  /** remove of a lock whose ID the list does not hold. */
  lemma IndexedDeleteAbsent(s: seq<Lock>, byID: map<Text, Lock>, byPath: map<Text, Lock>, l: Lock)
    requires Indexed(s, byID, byPath) && forall x :: x in s ==> x.id != l.id
    ensures Delete(s, l) == s && byID - {l.id} == byID && WithoutPath(byPath, l) == byPath
  {
    var i := Rank(s, l);
    if i < |s| {
      CompareIsTotalOrder(s[i], l);
      assert s[i] in s;
    }
  }

  /** remove of a lock whose ID the list holds with another time or path leaves the set and its indexes disagreeing. */
  lemma IndexedDeleteOther(s: seq<Lock>, byID: map<Text, Lock>, byPath: map<Text, Lock>, l: Lock, x: Lock)
    requires Indexed(s, byID, byPath) && x in s && x.id == l.id && !(x.lockedAt == l.lockedAt && x.path == l.path)
    ensures !Indexed(Delete(s, l), byID - {l.id}, WithoutPath(byPath, l))
  {
    if x.lockedAt == l.lockedAt {
      SameDelete(s, l, x);
      DeleteElems(s, x);
      assert x !in Delete(s, l) by {
        assert x in Delete(s, l) ==> x in Elems(Delete(s, l));
      }
      assert x.path in WithoutPath(byPath, l) && WithoutPath(byPath, l)[x.path] == x;
    } else {
      var i := Rank(s, l);
      if i < |s| {
        CompareIsTotalOrder(s[i], l);
        OneOfEachID(s, s[i], x);
      }
      assert Delete(s, l) == s;
    }
  }

  lemma IndexedDelete(s: seq<Lock>, byID: map<Text, Lock>, byPath: map<Text, Lock>, l: Lock)
    requires Indexed(s, byID, byPath)
    ensures Indexed(Delete(s, l), byID - {l.id}, WithoutPath(byPath, l)) <==> SameIfSameID(s, l)
  {
    if x :| x in s && x.id == l.id {
      forall y | y in s && y.id == l.id ensures y == x {
        OneOfEachID(s, x, y);
      }
      if x.lockedAt == l.lockedAt && x.path == l.path {
        IndexedDeleteHeld(s, byID, byPath, l, x);
      } else {
        IndexedDeleteOther(s, byID, byPath, l, x);
      }
    } else {
      IndexedDeleteAbsent(s, byID, byPath, l);
    }
  }
}
