/** Go strings are byte strings: this module holds the byte-string vocabulary shared by every other module. */
module ByteText {

  type byte = x: int | 0 <= x < 256

  type Text = seq<byte>

  datatype Option<+T> = None | Some(value: T)

  /** The '|' that separates the parts of cursors and keys. */
  const BAR: byte := 124

  /** A string literal as bytes. */
  function Ascii(s: string): (t: Text)
    requires forall i :: 0 <= i < |s| ==> s[i] as int < 256
    ensures |t| == |s| && forall i :: 0 <= i < |s| ==> t[i] == s[i] as int
  {
    seq(|s|, i requires 0 <= i < |s| => s[i] as int)
  }

  /** Byte-wise lexicographic order, the order of strings.Compare. */
  predicate Less(a: Text, b: Text) {
    b != [] && (a == [] || a[0] < b[0] || (a[0] == b[0] && Less(a[1..], b[1..])))
  }

  function Compare(a: Text, b: Text): (c: int) {
    if Less(a, b) then -1 else if a == b then 0 else 1
  }

  /** Byte order by the first position where two texts differ. */
  ghost predicate Precedes(a: Text, b: Text) {
    exists k :: DifferAt(a, b, k)
  }

  /** The texts agree up to position k, where a ends or has the smaller byte. */
  ghost predicate DifferAt(a: Text, b: Text, k: int) {
    0 <= k <= |a| && k < |b| && a[..k] == b[..k] && (k == |a| || a[k] < b[k])
  }

  lemma SameStart(a: Text, b: Text, k: int)
    requires DifferAt(a, b, k)
    ensures k == 0 || a[0] == b[0]
  {
    if k > 0 {
      assert a[..k][0] == a[0] && b[..k][0] == b[0];
    }
  }

  lemma {:induction false} LessIsPrecedes(a: Text, b: Text)
    ensures Less(a, b) <==> Precedes(a, b)
  {
    if b != [] && a != [] && a[0] == b[0] {
      LessIsPrecedes(a[1..], b[1..]);
      if k :| DifferAt(a[1..], b[1..], k) {
        assert a[..k + 1] == [a[0]] + a[1..][..k] && b[..k + 1] == [b[0]] + b[1..][..k];
        assert DifferAt(a, b, k + 1);
      }
      if k :| DifferAt(a, b, k) {
        assert a[..k][1..] == a[1..][..k - 1] && b[..k][1..] == b[1..][..k - 1];
        assert DifferAt(a[1..], b[1..], k - 1);
      }
    } else if b != [] {
      if Less(a, b) {
        assert DifferAt(a, b, 0);
      }
      if k :| DifferAt(a, b, k) {
        SameStart(a, b, k);
      }
    }
  }

  lemma {:induction false} LessTrichotomy(a: Text, b: Text)
    ensures Less(a, b) || a == b || Less(b, a)
    ensures Less(a, b) ==> !Less(b, a) && a != b
  {
    if a != [] && b != [] && a[0] == b[0] {
      LessTrichotomy(a[1..], b[1..]);
      assert a == [a[0]] + a[1..] && b == [b[0]] + b[1..];
    } else if a == b {
      assert a == [] && b == [];
    }
  }

  lemma {:induction false} LessTransitive(a: Text, b: Text, c: Text)
    requires Less(a, b) && Less(b, c)
    ensures Less(a, c)
  {
    if a != [] && a[0] == b[0] && b[0] == c[0] {
      LessTransitive(a[1..], b[1..], c[1..]);
    }
  }

  /** The position of the first separator, or the length when there is none: strings.Cut's search. */
  function IndexOf(s: Text, sep: byte): (i: nat)
    ensures i <= |s|
    ensures i < |s| ==> s[i] == sep
    ensures forall k :: 0 <= k < i ==> s[k] != sep
  {
    if s == [] || s[0] == sep then 0 else 1 + IndexOf(s[1..], sep)
  }

  /** Cutting a joined pair at the separator undoes the join exactly when the left half is free of it. */
  lemma CutJoin(left: Text, sep: byte, right: Text)
    ensures IndexOf(left + [sep] + right, sep) <= |left|
    ensures IndexOf(left + [sep] + right, sep) == |left| <==> sep !in left
  {
    var joined := left + [sep] + right;
    var i := IndexOf(joined, sep);
    assert joined[|left|] == sep;
    assert forall k :: 0 <= k < |left| ==> joined[k] == left[k];
  }

  /** A joined pair determines both halves when the left ones are free of the separator. */
  lemma CutFirst(a: Text, b: Text, a': Text, b': Text, sep: byte)
    requires a + [sep] + b == a' + [sep] + b' && sep !in a && sep !in a'
    ensures a == a' && b == b'
  {
    CutJoin(a, sep, b);
    CutJoin(a', sep, b');
    var s, s' := a + [sep] + b, a' + [sep] + b';
    assert s[..|a|] == a && s'[..|a'|] == a' && s[|a| + 1..] == b && s'[|a'| + 1..] == b';
  }
}
