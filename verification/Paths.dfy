/** path/filepath's Clean, Join and Rel on slash-separated paths. */
module Paths {
  import opened ByteText

  /** strings.Split at every slash. */
  function Split(s: string): (elems: seq<string>)
    ensures |elems| > 0
  {
    if s == "" then [""]
    else
      var rest := Split(s[1..]);
      if s[0] == '/' then [""] + rest else [[s[0]] + rest[0]] + rest[1..]
  }

  /** strings.Join with slashes. */
  function Glue(elems: seq<string>): string {
    if elems == [] then "" else if |elems| == 1 then elems[0] else elems[0] + "/" + Glue(elems[1..])
  }

  /** A path as Clean sees it: rooted or not, and its elements. */
  datatype Path = Path(rooted: bool, elems: seq<string>)

  /** One element after another: "" and "." go, ".." takes the element before it away, or stays in front. */
  function Push(rooted: bool, stack: seq<string>, e: string): seq<string> {
    if e == "" || e == "." then stack
    else if e != ".." then stack + [e]
    else if stack != [] && stack[|stack| - 1] != ".." then stack[..|stack| - 1]
    else if rooted then stack
    else stack + [e]
  }

  function Resolve(rooted: bool, stack: seq<string>, elems: seq<string>): seq<string>
    decreases |elems|
  {
    if elems == [] then stack else Resolve(rooted, Push(rooted, stack, elems[0]), elems[1..])
  }

  predicate IsRooted(s: string) {
    s != "" && s[0] == '/'
  }

  function Parse(s: string): Path {
    Path(IsRooted(s), Resolve(IsRooted(s), [], Split(s)))
  }

  function Show(p: Path): string {
    if p.rooted then "/" + Glue(p.elems) else if p.elems == [] then "." else Glue(p.elems)
  }

  function Clean(s: string): string {
    Show(Parse(s))
  }

  /** filepath.Join of a base that may be empty and a path that is not. */
  function Join(base: string, rest: string): string {
    if base == "" then Clean(rest) else Clean(base + "/" + rest)
  }

  /** filepath.Rel of a target below the base; None for any other target. */
  function Rel(base: string, target: string): Option<string> {
    var b, t := Parse(base), Parse(target);
    if b.rooted != t.rooted || !(b.elems <= t.elems) then None
    else if b == t then Some(".")
    else Some(Glue(t.elems[|b.elems|..]))
  }

  // ---- splitting and gluing ----

  lemma {:induction false} SplitAtSlash(a: string, b: string)
    ensures Split(a + "/" + b) == Split(a) + Split(b)
  {
    if a == "" {
      assert a + "/" + b == "/" + b && ("/" + b)[1..] == b;
    } else {
      assert (a + "/" + b)[1..] == a[1..] + "/" + b;
      SplitAtSlash(a[1..], b);
    }
  }

  lemma {:induction false} SplitElement(e: string)
    requires '/' !in e
    ensures Split(e) == [e]
  {
    if e != "" {
      SplitElement(e[1..]);
      assert [e[0]] + e[1..] == e;
    }
  }

  lemma {:induction false} SplitUndoesGlue(elems: seq<string>)
    requires elems != [] && forall i :: 0 <= i < |elems| ==> '/' !in elems[i]
    ensures Split(Glue(elems)) == elems
  {
    SplitElement(elems[0]);
    if |elems| > 1 {
      SplitUndoesGlue(elems[1..]);
      SplitAtSlash(elems[0], Glue(elems[1..]));
    }
  }

  lemma {:induction false} SplitHasNoSlash(s: string)
    ensures forall i :: 0 <= i < |Split(s)| ==> '/' !in Split(s)[i]
  {
    if s != "" {
      SplitHasNoSlash(s[1..]);
    }
  }

  // ---- what resolving leaves ----

  /** An element that resolving keeps whatever came before it. */
  predicate IsOrdinary(e: string) {
    e != "" && e != "." && e != ".." && '/' !in e
  }

  /** Ordinary elements, after some ".." in front when the path is not rooted. */
  ghost predicate IsResolved(rooted: bool, elems: seq<string>) {
    forall i :: 0 <= i < |elems| ==>
      IsOrdinary(elems[i]) || (elems[i] == ".." && !rooted && forall k :: 0 <= k < i ==> elems[k] == "..")
  }

  lemma {:induction false} ResolveResolves(rooted: bool, stack: seq<string>, elems: seq<string>)
    requires IsResolved(rooted, stack) && forall i :: 0 <= i < |elems| ==> '/' !in elems[i]
    ensures IsResolved(rooted, Resolve(rooted, stack, elems))
    decreases |elems|
  {
    if elems != [] {
      PushResolves(rooted, stack, elems[0]);
      ResolveResolves(rooted, Push(rooted, stack, elems[0]), elems[1..]);
    }
  }

  lemma PushResolves(rooted: bool, stack: seq<string>, e: string)
    requires IsResolved(rooted, stack) && '/' !in e
    ensures IsResolved(rooted, Push(rooted, stack, e))
  {
    if e == ".." && stack != [] && stack[|stack| - 1] == ".." {
      assert forall k :: 0 <= k < |stack| ==> stack[k] == "..";
    }
  }

  lemma {:induction false} ResolveAppends(rooted: bool, stack: seq<string>, a: seq<string>, b: seq<string>)
    ensures Resolve(rooted, stack, a + b) == Resolve(rooted, Resolve(rooted, stack, a), b)
    decreases |a|
  {
    if a == [] {
      assert a + b == b;
    } else {
      assert (a + b)[1..] == a[1..] + b;
      ResolveAppends(rooted, Push(rooted, stack, a[0]), a[1..], b);
    }
  }

  /** Resolving what is resolved changes nothing: Clean is idempotent. */
  lemma {:induction false} ResolvedStays(rooted: bool, stack: seq<string>, elems: seq<string>)
    requires IsResolved(rooted, stack + elems)
    ensures Resolve(rooted, stack, elems) == stack + elems
    decreases |elems|
  {
    if elems == [] {
      assert stack + elems == stack;
    } else {
      var e, both := elems[0], stack + elems;
      assert both[|stack|] == e;
      if e == ".." && stack != [] {
        assert both[|stack| - 1] == stack[|stack| - 1] == "..";
      }
      assert Push(rooted, stack, e) == stack + [e];
      assert stack + [e] + elems[1..] == both;
      ResolvedStays(rooted, stack + [e], elems[1..]);
    }
  }

  lemma ParseIsResolved(s: string)
    ensures IsResolved(Parse(s).rooted, Parse(s).elems)
  {
    SplitHasNoSlash(s);
    ResolveResolves(IsRooted(s), [], Split(s));
  }

  lemma ParseShownRoot()
    ensures Parse("/") == Path(true, []) && Parse(".") == Path(false, [])
  {
    SplitAtSlash("", "");
    assert "" + "/" + "" == "/" && Split("/") == ["", ""];
    assert Resolve(true, [], ["", ""]) == Resolve(true, [], [""]) == Resolve(true, [], []);
    SplitElement(".");
    assert Resolve(false, [], ["."]) == Resolve(false, [], []);
  }

  lemma ParseShownElements(rooted: bool, elems: seq<string>)
    requires IsResolved(rooted, elems) && elems != []
    ensures Parse(Show(Path(rooted, elems))) == Path(rooted, elems)
  {
    ResolvedStays(rooted, [], elems);
    assert [] + elems == elems;
    SplitUndoesGlue(elems);
    GlueStarts(elems);
    if rooted {
      SplitAtSlash("", Glue(elems));
      assert "" + "/" + Glue(elems) == "/" + Glue(elems);
      SkipEmpty(elems);
    }
  }

  /** The empty element in front of a rooted path's first slash goes. */
  lemma SkipEmpty(elems: seq<string>)
    ensures Resolve(true, [], [""] + elems) == Resolve(true, [], elems)
  {
    assert ([""] + elems)[1..] == elems;
  }

  /** A shown path parses back to itself. */
  lemma ParseUndoesShow(p: Path)
    requires IsResolved(p.rooted, p.elems)
    ensures Parse(Show(p)) == p
  {
    if p.elems == [] {
      ParseShownRoot();
      assert p.rooted ==> Show(p) == "/";
    } else {
      ParseShownElements(p.rooted, p.elems);
    }
  }

  lemma GlueStarts(elems: seq<string>)
    requires elems != [] && elems[0] != "" && '/' !in elems[0]
    ensures Glue(elems) != "" && Glue(elems)[0] != '/'
  {
    assert Glue(elems)[0] == elems[0][0];
  }

  /** Ordinary elements after others stay as they are. */
  lemma ResolveMore(rooted: bool, elems: seq<string>, more: seq<string>)
    requires IsResolved(rooted, Resolve(rooted, [], elems)) && forall i :: 0 <= i < |more| ==> IsOrdinary(more[i])
    ensures Resolve(rooted, [], elems + more) == Resolve(rooted, [], elems) + more
  {
    var stack := Resolve(rooted, [], elems);
    ResolveAppends(rooted, [], elems, more);
    assert IsResolved(rooted, stack + more);
    ResolvedStays(rooted, stack, more);
  }

  /** Appending ordinary elements to a path's text appends them to the path. */
  lemma ParseAppends(s: string, more: seq<string>)
    requires s != "" && more != [] && forall i :: 0 <= i < |more| ==> IsOrdinary(more[i])
    ensures Parse(s + "/" + Glue(more)) == Path(Parse(s).rooted, Parse(s).elems + more)
  {
    var rooted, text := IsRooted(s), s + "/" + Glue(more);
    ParseIsResolved(s);
    SplitAtSlash(s, Glue(more));
    SplitUndoesGlue(more);
    assert text[0] == s[0];
    ResolveMore(rooted, Split(s), more);
  }

  /** The base's elements followed by ordinary ones. */
  function Below(base: string, dirs: seq<string>): Path {
    Path(Parse(base).rooted, Parse(base).elems + dirs)
  }

  lemma ParseEmpty()
    ensures Parse("") == Path(false, [])
  {
    assert Split("") == [""] && Resolve(false, [], [""]) == Resolve(false, [], []);
  }

  lemma JoinIsBelow(base: string, dirs: seq<string>)
    requires dirs != [] && forall i :: 0 <= i < |dirs| ==> IsOrdinary(dirs[i])
    ensures Join(base, Glue(dirs)) == Show(Below(base, dirs))
  {
    if base == "" {
      ParseEmpty();
      SplitUndoesGlue(dirs);
      GlueStarts(dirs);
      ResolvedStays(false, [], dirs);
      assert [] + dirs == dirs;
    } else {
      ParseAppends(base, dirs);
    }
  }

  lemma BelowIsResolved(base: string, dirs: seq<string>)
    requires forall i :: 0 <= i < |dirs| ==> IsOrdinary(dirs[i])
    ensures IsResolved(Below(base, dirs).rooted, Below(base, dirs).elems)
  {
    ParseIsResolved(base);
  }

  lemma ShownAppends(p: Path, file: string)
    requires IsResolved(p.rooted, p.elems) && IsOrdinary(file)
    ensures Parse(Show(p) + "/" + file) == Path(p.rooted, p.elems + [file])
  {
    ParseUndoesShow(p);
    ShownIsNotEmpty(p);
    ParseAppends(Show(p), [file]);
    assert Glue([file]) == file;
  }

  lemma Associate(a: seq<string>, b: seq<string>, c: seq<string>)
    ensures a + b + c == a + (b + c)
  {}

  /** Naming a file in the joined directory. */
  lemma FileIsBelow(base: string, dirs: seq<string>, file: string)
    requires dirs != [] && IsOrdinary(file) && forall i :: 0 <= i < |dirs| ==> IsOrdinary(dirs[i])
    ensures Parse(Join(base, Glue(dirs)) + "/" + file) == Below(base, dirs + [file])
  {
    var p := Below(base, dirs);
    JoinIsBelow(base, dirs);
    BelowIsResolved(base, dirs);
    ShownAppends(p, file);
    Associate(Parse(base).elems, dirs, [file]);
  }

  /** Joining ordinary elements onto any base and then naming one more is, relative to the base, just those elements. */
  lemma RelUndoesJoin(base: string, dirs: seq<string>, file: string)
    requires dirs != [] && IsOrdinary(file) && forall i :: 0 <= i < |dirs| ==> IsOrdinary(dirs[i])
    ensures Rel(base, Join(base, Glue(dirs)) + "/" + file) == Some(Glue(dirs + [file]))
  {
    FileIsBelow(base, dirs, file);
    BelowTheBase(base, dirs + [file]);
  }

  lemma BelowTheBase(base: string, more: seq<string>)
    requires more != []
    ensures var b, t := Parse(base), Below(base, more);
            b.rooted == t.rooted && b.elems <= t.elems && b != t && t.elems[|b.elems|..] == more
  {
    assert |Below(base, more).elems| > |Parse(base).elems|;
  }

  lemma ShownIsNotEmpty(p: Path)
    requires IsResolved(p.rooted, p.elems)
    ensures Show(p) != ""
  {
    if p.elems != [] {
      GlueStarts(p.elems);
    }
  }

  lemma {:induction false} GlueUndoesSplit(s: string)
    ensures Glue(Split(s)) == s
  {
    if s != "" {
      GlueUndoesSplit(s[1..]);
      var rest := Split(s[1..]);
      if s[0] == '/' {
        assert ([""] + rest)[1..] == rest;
      } else {
        GlueFirst([s[0]], rest);
      }
    }
  }

  lemma GlueFirst(c: string, elems: seq<string>)
    requires elems != []
    ensures Glue([c + elems[0]] + elems[1..]) == c + Glue(elems)
  {
    var longer := [c + elems[0]] + elems[1..];
    assert longer[1..] == elems[1..];
  }

  /** The elements of a rooted path's text come after an empty one. */
  lemma SplitRooted(rest: string)
    ensures Split("/" + rest) == [""] + Split(rest)
  {
    assert ("/" + rest)[1..] == rest;
  }

  /**
   * A rooted path is clean, that is Clean leaves it alone, exactly when it is "/" or no element after the first slash
   * is empty, "." or "..".
   */
  lemma CleanIff(rest: string)
    requires rest != ""
    ensures Clean("/" + rest) == "/" + rest
            <==> forall i :: 0 <= i < |Split(rest)| ==>
                   Split(rest)[i] != "" && Split(rest)[i] != "." && Split(rest)[i] != ".."
  {
    var elems := Split(rest);
    var p := Parse("/" + rest);
    SplitRooted(rest);
    SplitHasNoSlash(rest);
    GlueUndoesSplit(rest);
    SkipEmpty(elems);
    if forall i :: 0 <= i < |elems| ==> elems[i] != "" && elems[i] != "." && elems[i] != ".." {
      ResolvedStays(true, [], elems);
      assert [] + elems == elems;
    } else if Clean("/" + rest) == "/" + rest {
      ParseIsResolved("/" + rest);
      CleanRest(rest, p.elems);
    }
  }

  lemma CleanRest(rest: string, elems: seq<string>)
    requires "/" + rest == "/" + Glue(elems) && rest != "" && IsResolved(true, elems)
    ensures Split(rest) == elems
  {
    assert ("/" + rest)[1..] == rest && ("/" + Glue(elems))[1..] == Glue(elems);
    SplitUndoesGlue(elems);
  }
}
