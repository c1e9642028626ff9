/** Paging through the lock listing of a running server: walks of LockPaging over the runs of LockProtocol. */
module LockWalks {
  import opened ByteText
  import opened Locks
  import opened LockCursor
  import opened LockSets
  import opened LockPaging
  import opened LockProtocol
  import opened LockRuns

  /** A client's walk: for each page the call that served it and the cursor it was asked with, and the last cursor. */
  datatype Trip = Trip(path: Text, id: Text, calls: seq<nat>, pages: seq<seq<Lock>>, cursors: seq<Text>)

  /** The call was a listing of this trip and got this page. */
  ghost predicate Served(s: State, t: Trip, i: nat)
    requires |t.calls| == |t.pages| == |t.cursors| - 1 && i < |t.calls|
  {
    && t.calls[i] in s.results && t.calls[i] < |s.issued| && s.issued[t.calls[i]].ListOp?
    && var opts := s.issued[t.calls[i]].opts;
       && opts.path == t.path && opts.id == t.id && opts.cursor == t.cursors[i]
       && s.results[t.calls[i]].outcome == Listed(Some(Page(t.pages[i], t.cursors[i + 1])))
  }

  /** The number of commits when the call was issued, and when it was answered. */
  ghost function StartOf(s: State, call: nat): nat {
    if call in s.results then s.results[call].since else 0
  }

  ghost function EndOf(s: State, call: nat): nat {
    if call in s.results then s.results[call].until else 0
  }

  /** Each page was asked for with the cursor of the one before it, after that one had been served. */
  ghost predicate IsTrip(s: State, t: Trip) {
    && |t.calls| == |t.pages| == |t.cursors| - 1 && |t.calls| > 0
    && t.cursors[0] == [] && (forall i :: 0 < i < |t.pages| ==> t.cursors[i] != [])
    && (forall i {:trigger Served(s, t, i)} :: 0 <= i < |t.calls| ==> Served(s, t, i))
    && (forall i, j :: 0 <= i < j < |t.calls| ==> EndOf(s, t.calls[i]) <= StartOf(s, t.calls[j]))
  }

  ghost predicate Ended(t: Trip) {
    |t.cursors| > 0 && t.cursors[|t.cursors| - 1] == []
  }

  /** When page i was served: after how many commits the locks were those the page was cut from. */
  ghost predicate ServedAt(c: Config, init: set<Lock>, s: State, t: Trip, i: nat, at: nat, locks: seq<Lock>)
    requires |t.calls| == |t.pages| == |t.cursors| - 1 && i < |t.calls| && Served(s, t, i)
  {
    && StartOf(s, t.calls[i]) <= at <= EndOf(s, t.calls[i]) && at <= |s.history|
    && IsListing(locks, Fold(init, s.history[..at]), s.issued[t.calls[i]].opts,
                 Some(Page(t.pages[i], t.cursors[i + 1])))
  }

  lemma PageWasServed(c: Config, run: seq<State>, moves: seq<(nat, Step)>, n: nat, t: Trip, i: nat)
    returns (at: nat, locks: seq<Lock>)
    requires IsRun(c, run, moves) && n < |run| && InfoInv(run[n].versions) && IsTrip(run[n], t) && i < |t.calls|
    ensures Served(run[n], t, i) && ServedAt(c, Initially(c, run), run[n], t, i, at, locks)
  {
    var s, init := run[n], Initially(c, run);
    assert Served(s, t, i);
    var call := t.calls[i];
    OutcomesTellTheTruth(c, run, moves, n, call);
    var r := s.results[call];
    at :| r.since <= at <= r.until && at <= |s.history|
          && TrueOf(c, Fold(init, s.history[..at]), s.issued[call], r.outcome);
    locks :| IsListing(locks, Fold(init, s.history[..at]), s.issued[call].opts, r.outcome.page);
  }

  /** Locks come from the initial file or from a Create, which stamps them. */
  lemma {:induction false} HeldIsListable(init: set<Lock>, issued: seq<Op>, h: seq<Commit>, l: Lock)
    requires (forall x :: x in init ==> Listable(x)) && (forall k :: 0 <= k < |h| ==> AskedFor(issued, h[k]))
    requires l in Fold(init, h)
    ensures Listable(l)
  {
    if h != [] {
      var k := |h| - 1;
      assert AskedFor(issued, h[k]);
      if l in Fold(init, h[..k]) {
        HeldIsListable(init, issued, h[..k], l);
      } else {
        StampedIsListable(l);
      }
    }
  }

  /** The trip as a walk over the states its pages were cut from. */
  ghost function WalkOf(s: State, t: Trip, states: seq<seq<Lock>>): Walk
    requires IsTrip(s, t)
  {
    var limits := seq(|t.calls|, i requires 0 <= i < |t.calls| => LimitOf(s, t.calls[i]));
    Walk(t.path, t.id, states, limits, t.pages, t.cursors,
         seq(|t.calls|, i requires 0 <= i < |t.calls| => Position(t.cursors[i])))
  }

  ghost function LimitOf(s: State, call: nat): int {
    if call < |s.issued| && s.issued[call].ListOp? then s.issued[call].opts.limit else 0
  }

  /** States and moments for the first k pages of a trip. */
  lemma {:induction false} StatesServed(c: Config, run: seq<State>, moves: seq<(nat, Step)>, n: nat, t: Trip, k: nat)
    returns (ats: seq<nat>, states: seq<seq<Lock>>)
    requires IsRun(c, run, moves) && n < |run| && InfoInv(run[n].versions) && IsTrip(run[n], t) && k <= |t.calls|
    ensures |ats| == |states| == k
    ensures forall i :: 0 <= i < k ==>
              Served(run[n], t, i) && ServedAt(c, Initially(c, run), run[n], t, i, ats[i], states[i])
  {
    if k == 0 {
      return [], [];
    }
    ats, states := StatesServed(c, run, moves, n, t, k - 1);
    var at, locks := PageWasServed(c, run, moves, n, t, k - 1);
    ats, states := ats + [at], states + [locks];
  }

  lemma StateIsListable(c: Config, run: seq<State>, moves: seq<(nat, Step)>, n: nat, at: nat, l: Lock)
    requires IsRun(c, run, moves) && n < |run| && (forall x :: x in Initially(c, run) ==> Listable(x))
    requires at <= |run[n].history| && l in Fold(Initially(c, run), run[n].history[..at])
    ensures Listable(l)
  {
    var h := run[n].history[..at];
    forall k | 0 <= k < |h| ensures AskedFor(run[n].issued, h[k]) {
      CommitsWereIssued(c, run, moves, n, k);
    }
    HeldIsListable(Initially(c, run), run[n].issued, h, l);
  }

  /** Every trip of every run is a walk, over states the file had while each page was being served. */
  lemma TripIsWalk(c: Config, run: seq<State>, moves: seq<(nat, Step)>, n: nat, t: Trip)
    returns (ats: seq<nat>, w: Walk)
    requires IsRun(c, run, moves) && n < |run| && InfoInv(run[n].versions) && IsTrip(run[n], t)
    requires forall x :: x in Initially(c, run) ==> Listable(x)
    ensures IsWalk(w) && w.path == t.path && w.id == t.id && w.pages == t.pages && w.cursors == t.cursors
    ensures |ats| == |t.calls| && forall i :: 0 <= i < |t.calls| ==>
              Served(run[n], t, i) && ServedAt(c, Initially(c, run), run[n], t, i, ats[i], w.states[i])
  {
    var states;
    ats, states := StatesServed(c, run, moves, n, t, |t.calls|);
    w := WalkOf(run[n], t, states);
    forall i | 0 <= i < |states| ensures StrictlySorted(states[i]) && forall l :: l in states[i] ==> Listable(l) {
      assert ServedAt(c, Initially(c, run), run[n], t, i, ats[i], states[i]);
      forall l | l in states[i] ensures Listable(l) {
        assert l in Elems(states[i]);
        StateIsListable(c, run, moves, n, ats[i], l);
      }
    }
    forall i | 0 <= i < |w.pages| ensures IsPage(w, i) {
      PageOfTrip(c, Initially(c, run), run[n], t, i, ats[i], states);
    }
  }

  lemma PageOfTrip(c: Config, init: set<Lock>, s: State, t: Trip, i: nat, at: nat, states: seq<seq<Lock>>)
    requires IsTrip(s, t) && i < |t.calls| == |states| && Served(s, t, i) && ServedAt(c, init, s, t, i, at, states[i])
    ensures IsPage(WalkOf(s, t, states), i)
  {
    var opts := s.issued[t.calls[i]].opts;
    assert opts == ListOptions(t.path, t.id, t.cursors[i], LimitOf(s, t.calls[i]));
  }

  /**
   * In every run, with honest metadata: a client that walks the pages of a listing while any processes create and
   * release locks never gets a lock twice, and, once it has got the last page, has got every lock it asked for that
   * was held from the start of its first call to the end of its last one.
   */
  lemma HeldLocksAreListedOnce(c: Config, run: seq<State>, moves: seq<(nat, Step)>, n: nat, t: Trip, l: Lock)
    requires IsRun(c, run, moves) && n < |run| && InfoInv(run[n].versions) && IsTrip(run[n], t)
    requires forall x :: x in Initially(c, run) ==> Listable(x)
    ensures multiset(Concat(t.pages))[l] <= 1
    ensures Ended(t) && Wanted(l, t.path, t.id, None) && HeldDuring(c, run, n, t, l) ==>
              multiset(Concat(t.pages))[l] == 1
  {
    var ats, w := TripIsWalk(c, run, moves, n, t);
    WalkNeverRepeats(w);
    SortedCountsOnce(Concat(w.pages), l);
    if Ended(t) && Wanted(l, t.path, t.id, None) && HeldDuring(c, run, n, t, l) {
      HeldAtEachPage(c, run, n, t, l, ats, w.states);
      HeldThroughoutIsListedOnce(w, l);
    }
  }

  /** The lock was in the file after every number of commits from the trip's start to its end. */
  ghost predicate HeldDuring(c: Config, run: seq<State>, n: nat, t: Trip, l: Lock)
    requires n < |run| && |run| > 0 && IsTrip(run[n], t)
  {
    var s := run[n];
    forall at :: StartOf(s, t.calls[0]) <= at <= EndOf(s, t.calls[|t.calls| - 1]) && at <= |s.history| ==>
      l in Fold(Initially(c, run), s.history[..at])
  }

  lemma HeldAtEachPage(c: Config, run: seq<State>, n: nat, t: Trip, l: Lock, ats: seq<nat>, states: seq<seq<Lock>>)
    requires n < |run| && IsTrip(run[n], t) && HeldDuring(c, run, n, t, l) && |ats| == |states| == |t.calls|
    requires forall i :: 0 <= i < |t.calls| ==>
               Served(run[n], t, i) && ServedAt(c, Initially(c, run), run[n], t, i, ats[i], states[i])
    ensures forall i :: 0 <= i < |states| ==> l in states[i]
  {
    forall k | 0 <= k < |t.calls| ensures StartOf(run[n], t.calls[k]) <= EndOf(run[n], t.calls[k]) {
      assert ServedAt(c, Initially(c, run), run[n], t, k, ats[k], states[k]);
    }
    forall i | 0 <= i < |states| ensures l in states[i] {
      WithinTrip(c, Initially(c, run), run[n], t, i, ats[i], states[i]);
      assert l in Elems(states[i]);
    }
  }

  lemma WithinTrip(c: Config, init: set<Lock>, s: State, t: Trip, i: nat, at: nat, locks: seq<Lock>)
    requires IsTrip(s, t) && i < |t.calls| && Served(s, t, i) && ServedAt(c, init, s, t, i, at, locks)
    requires forall k :: 0 <= k < |t.calls| ==> StartOf(s, t.calls[k]) <= EndOf(s, t.calls[k])
    ensures StartOf(s, t.calls[0]) <= at <= EndOf(s, t.calls[|t.calls| - 1])
  {}
}
