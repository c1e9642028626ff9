/** The opaque paging cursor of lfs/locks.go. */
module LockCursor {
  import opened ByteText
  import opened Locks
  import Base64Url

  function CursorOf(l: Lock): (cursor: Text) {
    Base64Url.Encode(l.lockedAt + [BAR] + l.id)
  }

  /** A lock holding just the listing position a cursor encodes, or None for an invalid cursor. */
  function ParseCursor(cursor: Text): (l: Option<Lock>) {
    match Base64Url.Decode(cursor)
    case None => None
    case Some(data) =>
      var i := IndexOf(data, BAR);
      if i == |data| || i == 0 || i + 1 == |data| then None
      else Some(Lock(data[i + 1..], [], data[..i], []))
  }

  /** A position a cursor can carry: both halves non-empty and no bar in the time (IDs may contain bars). */
  predicate Listable(l: Lock) {
    l.lockedAt != [] && BAR !in l.lockedAt && l.id != []
  }

  /** The characters of uuid.New().String(), and those of a UTC time in time.RFC3339. */
  predicate IsUUID(id: Text) {
    |id| == 36 && forall i :: 0 <= i < |id| ==> 48 <= id[i] <= 57 || 97 <= id[i] <= 102 || id[i] == 45
  }

  predicate IsTimestamp(t: Text) {
    |t| >= 20 && forall i :: 0 <= i < |t| ==> 48 <= t[i] <= 58 || t[i] in {45, 84, 90}
  }

  /** What Create puts on a lock besides the path and the owner it was given. */
  predicate IsStamped(l: Lock) {
    IsUUID(l.id) && IsTimestamp(l.lockedAt)
  }

  /** Every lock the store creates can be resumed after. */
  lemma StampedIsListable(l: Lock)
    requires IsStamped(l)
    ensures Listable(l)
  {}

  /** The cursor of a lock gives back its position exactly when the position can be carried. */
  lemma CursorRoundTrip(l: Lock)
    ensures ParseCursor(CursorOf(l)) == Some(Lock(l.id, [], l.lockedAt, [])) <==> Listable(l)
    ensures CursorOf(l) != []
  {
    var data := l.lockedAt + [BAR] + l.id;
    Base64Url.RoundTrip(data);
    Base64Url.EncodingIsSymbols(data);
    CutJoin(l.lockedAt, BAR, l.id);
    assert data[..|l.lockedAt|] == l.lockedAt;
    assert data[|l.lockedAt| + 1..] == l.id;
  }

  /** A parsed cursor is always a position that a cursor can carry. */
  lemma ParsedCursorIsListable(cursor: Text)
    ensures ParseCursor(cursor).Some? ==> Listable(ParseCursor(cursor).value)
  {}
}
