/** Object IDs, endpoint directories and the paths built from them. */
module Names {
  import opened ByteText
  import Paths

  function LowerChar(c: char): char {
    if 'A' <= c <= 'Z' then (c as int + 32) as char else c
  }

  function Lower(s: string): (r: string)
    ensures |r| == |s| && forall i :: 0 <= i < |s| ==> r[i] == LowerChar(s[i])
  {
    seq(|s|, i requires 0 <= i < |s| => LowerChar(s[i]))
  }

  // ---- storage/oid.go ----

  predicate IsHex(c: char) {
    '0' <= c <= '9' || 'a' <= c <= 'f' || 'A' <= c <= 'F'
  }

  predicate IsValidOID(oid: string) {
    |oid| == 64 && forall i :: 0 <= i < |oid| ==> IsHex(oid[i])
  }

  const HEX_DIGITS := "0123456789abcdefABCDEF"

  /** A valid ID is 64 hexadecimal digits of either case. */
  lemma ValidIDsAreHex(oid: string)
    ensures IsValidOID(oid) <==> |oid| == 64 && forall c :: c in oid ==> c in HEX_DIGITS
  {
    forall c ensures IsHex(c) <==> c in HEX_DIGITS {
      HexIsDigit(c);
    }
    assert forall c :: c in oid ==> exists i :: 0 <= i < |oid| && oid[i] == c;
  }

  lemma HexIsDigit(c: char)
    ensures IsHex(c) <==> c in HEX_DIGITS
  {
    var digits := HEX_DIGITS;
    assert forall k :: 0 <= k < 10 ==> digits[k] as int == '0' as int + k;
    assert forall k :: 10 <= k < 16 ==> digits[k] as int == 'a' as int + k - 10;
    assert forall k :: 16 <= k < 22 ==> digits[k] as int == 'A' as int + k - 16;
    if '0' <= c <= '9' {
      assert digits[c as int - '0' as int] == c;
    } else if 'a' <= c <= 'f' {
      assert digits[c as int - 'a' as int + 10] == c;
    } else if 'A' <= c <= 'F' {
      assert digits[c as int - 'A' as int + 16] == c;
    }
  }

  /** The same letter or digit, whatever the case of an ASCII letter. */
  predicate SameIgnoringCase(c: char, d: char) {
    || c == d
    || ('a' <= c <= 'z' && 'A' <= d <= 'Z' && c as int - 'a' as int == d as int - 'A' as int)
    || ('A' <= c <= 'Z' && 'a' <= d <= 'z' && c as int - 'A' as int == d as int - 'a' as int)
  }

  /** Lower-casing alike means the same text ignoring case, and what is lower-cased has no upper-case letter. */
  lemma LowerMeans(a: string, b: string)
    ensures Lower(a) == Lower(b) <==> |a| == |b| && forall i :: 0 <= i < |a| ==> SameIgnoringCase(a[i], b[i])
    ensures forall c :: c in Lower(a) ==> !('A' <= c <= 'Z')
  {
    if |a| == |b| {
      forall i | 0 <= i < |a| ensures Lower(a)[i] == Lower(b)[i] <==> SameIgnoringCase(a[i], b[i]) {
      }
      if forall i :: 0 <= i < |a| ==> SameIgnoringCase(a[i], b[i]) {
        assert Lower(a) == Lower(b);
      }
    }
  }

  function NormaliseOID(oid: string): (r: Option<string>) {
    if IsValidOID(oid) then Some(Lower(oid)) else None
  }

  /**
   * Normalising takes just the 64-digit IDs, is idempotent, leaves no upper-case letter and changes nothing but case;
   * two IDs normalise alike exactly when they differ in case only.
   */
  lemma NormaliseIsCanonical(a: string, b: string)
    ensures NormaliseOID(a).Some? <==> |a| == 64 && forall c :: c in a ==> c in HEX_DIGITS
    ensures NormaliseOID(a).Some? ==>
              var n := NormaliseOID(a).value;
              && NormaliseOID(n) == NormaliseOID(a) && |n| == |a|
              && (forall c :: c in n ==> !('A' <= c <= 'Z'))
              && forall i :: 0 <= i < |a| ==> SameIgnoringCase(n[i], a[i])
    ensures NormaliseOID(a).Some? && NormaliseOID(b).Some? ==>
              (NormaliseOID(a) == NormaliseOID(b) <==> forall i :: 0 <= i < 64 ==> SameIgnoringCase(a[i], b[i]))
  {
    ValidIDsAreHex(a);
    LowerMeans(a, b);
    LowerMeans(Lower(a), a);
    LowerIsIdempotent(a);
  }

  // ---- internal/sanitise/endpoint.go ----

  const INVALID := "_invalid"

  predicate IsSeparator(c: char) {
    c == '/' || c == '\\'
  }

  function TrimSlashes(s: string): string {
    if s != [] && s[0] == '/' then TrimSlashes(s[1..]) else s
  }

  /** Whether some maximal run of non-separators is "." or ".."; `run` is the run read so far. */
  predicate HasDotSegment(s: string, run: string) {
    if s == [] then run == "." || run == ".."
    else if IsSeparator(s[0]) then run == "." || run == ".." || HasDotSegment(s[1..], [])
    else HasDotSegment(s[1..], run + [s[0]])
  }

  function Flatten(s: string): (r: string)
    ensures |r| == |s|
  {
    seq(|s|, i requires 0 <= i < |s| => if IsSeparator(s[i]) then '_' else s[i])
  }

  predicate IsEdge(c: char) {
    'a' <= c <= 'z' || 'A' <= c <= 'Z' || '0' <= c <= '9' || c == '_' || c == '-'
  }

  /** Letters, digits, dots, underscores and hyphens, neither starting nor ending with a dot. */
  predicate IsSafe(s: string) {
    s != [] && IsEdge(s[0]) && IsEdge(s[|s| - 1]) && forall i :: 0 <= i < |s| ==> IsEdge(s[i]) || s[i] == '.'
  }

  /** filepath.Localize on a name without separators: not empty, not "..", no NUL. */
  predicate Localizes(s: string) {
    s != "" && s != ".." && '\0' !in s
  }

  function Directory(endpoint: string): (dir: string)
    ensures dir == INVALID || IsSafe(dir)
  {
    var s := TrimSlashes(endpoint);
    if HasDotSegment(s, []) || !Localizes(Flatten(s)) || !IsSafe(Flatten(s)) then INVALID else Flatten(s)
  }

  // ---- what Directory comes to, by positions ----

  /** s[i..j] lies between separators, or the ends, and is "." or "..". */
  ghost predicate DotSegmentAt(s: string, i: int, j: int) {
    && 0 <= i < j <= |s| && (s[i..j] == "." || s[i..j] == "..")
    && (i == 0 || s[i - 1] == '/' || s[i - 1] == '\\')
    && (j == |s| || s[j] == '/' || s[j] == '\\')
  }

  ghost predicate HasDots(s: string) {
    exists i, j :: DotSegmentAt(s, i, j)
  }

  /** Without separators, a text has no segment but itself. */
  ghost predicate IsRun(run: string) {
    forall k :: 0 <= k < |run| ==> run[k] != '/' && run[k] != '\\'
  }

  lemma WholeRun(run: string, i: int, j: int)
    requires IsRun(run) && DotSegmentAt(run, i, j)
    ensures run == "." || run == ".."
  {
    assert i == 0 && j == |run|;
    assert run[0..|run|] == run;
  }

  lemma DotInside(s: string, i: int, j: int, n: int)
    requires 0 <= i <= n < j <= |s| && (s[i..j] == "." || s[i..j] == "..")
    ensures s[n] == '.'
  {
    assert s[i..j][n - i] == s[n];
  }

  lemma SegmentAfter(s: string, n: int, i: int, j: int)
    requires 0 <= n <= i && DotSegmentAt(s, i, j)
    ensures DotSegmentAt(s[n..], i - n, j - n)
  {
    var rest := s[n..];
    assert forall k :: 0 <= k < |rest| ==> rest[k] == s[n + k];
    assert rest[i - n..j - n] == s[i..j];
  }

  /** A dot segment around a separator is before it or after it. */
  lemma DotsBeforeOrAfter(run: string, sep: char, rest: string, i: int, j: int)
    requires (sep == '/' || sep == '\\') && IsRun(run) && DotSegmentAt(run + [sep] + rest, i, j)
    ensures run == "." || run == ".." || HasDots(rest)
  {
    var s, n := run + [sep] + rest, |run|;
    assert forall k :: 0 <= k < n ==> s[k] == run[k];
    if i <= n < j {
      DotInside(s, i, j, n);
    } else if j <= n {
      assert s[i..j] == run[i..j];
      WholeRun(run, i, j);
    } else {
      assert s[n + 1..] == rest;
      SegmentAfter(s, n + 1, i, j);
    }
  }

  /** A separator splits a text into what is before it and what is after it. */
  lemma DotsAround(run: string, sep: char, rest: string)
    requires (sep == '/' || sep == '\\') && IsRun(run)
    ensures HasDots(run + [sep] + rest) <==> run == "." || run == ".." || HasDots(rest)
  {
    var s, n := run + [sep] + rest, |run|;
    if run == "." || run == ".." {
      assert s[0..n] == run;
      assert DotSegmentAt(s, 0, n);
    }
    if i, j :| DotSegmentAt(rest, i, j) {
      assert s[n + 1 + i..n + 1 + j] == rest[i..j];
      assert DotSegmentAt(s, n + 1 + i, n + 1 + j);
    }
    if i, j :| DotSegmentAt(s, i, j) {
      DotsBeforeOrAfter(run, sep, rest, i, j);
    }
  }

  lemma LastRun(run: string)
    requires IsRun(run)
    ensures HasDots(run) <==> run == "." || run == ".."
  {
    if run == "." || run == ".." {
      assert run[0..|run|] == run;
      assert DotSegmentAt(run, 0, |run|);
    }
    if i, j :| DotSegmentAt(run, i, j) {
      WholeRun(run, i, j);
    }
  }

  lemma {:induction false} DotSegmentIff(s: string, run: string)
    requires IsRun(run)
    ensures HasDotSegment(s, run) <==> HasDots(run + s)
    decreases |s|
  {
    if s == [] {
      assert run + s == run;
      LastRun(run);
    } else if IsSeparator(s[0]) {
      assert run + s == run + [s[0]] + s[1..];
      DotsAround(run, s[0], s[1..]);
      DotSegmentIff(s[1..], []);
      assert [] + s[1..] == s[1..];
    } else {
      assert run + s == (run + [s[0]]) + s[1..];
      DotSegmentIff(s[1..], run + [s[0]]);
    }
  }

  lemma {:induction false} TrimsLeading(s: string, k: nat)
    requires k <= |s| && (forall i :: 0 <= i < k ==> s[i] == '/') && (k == |s| || s[k] != '/')
    ensures TrimSlashes(s) == s[k..]
  {
    if k > 0 {
      TrimsLeading(s[1..], k - 1);
      assert s[1..][k - 1..] == s[k..];
    }
  }

  predicate IsPathChar(c: char) {
    || 'a' <= c <= 'z' || 'A' <= c <= 'Z' || '0' <= c <= '9'
    || c == '.' || c == '_' || c == '-' || c == '/' || c == '\\'
  }

  /** What an endpoint's path without its leading slashes must be to get a directory of its own. */
  ghost predicate GetsDirectory(s: string) {
    && s != "" && s[0] != '.' && s[|s| - 1] != '.' && !HasDots(s)
    && forall i :: 0 <= i < |s| ==> IsPathChar(s[i])
  }

  ghost predicate DirectoryFor(s: string, dir: string) {
    if GetsDirectory(s) then
      && |dir| == |s|
      && forall i :: 0 <= i < |s| ==> dir[i] == if s[i] == '/' || s[i] == '\\' then '_' else s[i]
    else dir == "_invalid"
  }

  /**
   * The directory of an endpoint is its path without the leading slashes, with an underscore for each separator, and
   * "_invalid" for any path with other characters, a "." or ".." segment, or a dot at either end.
   */
  lemma DirectoryMeans(endpoint: string, k: nat)
    requires k <= |endpoint| && (forall i :: 0 <= i < k ==> endpoint[i] == '/')
    requires k == |endpoint| || endpoint[k] != '/'
    ensures DirectoryFor(endpoint[k..], Directory(endpoint))
  {
    TrimsLeading(endpoint, k);
    TrimmedDirectory(endpoint, endpoint[k..]);
  }

  lemma TrimmedDirectory(endpoint: string, s: string)
    requires TrimSlashes(endpoint) == s
    ensures DirectoryFor(s, Directory(endpoint))
  {
    DotSegmentIff(s, []);
    assert [] + s == s;
    FlatIsSafe(s);
    DirectoryOf(endpoint, s);
  }

  /** A safe name is one that filepath.Localize takes. */
  lemma DirectoryOf(endpoint: string, s: string)
    requires TrimSlashes(endpoint) == s
    ensures Directory(endpoint) == if HasDotSegment(s, []) || !IsSafe(Flatten(s)) then "_invalid" else Flatten(s)
  {
    var flat := Flatten(s);
    if IsSafe(flat) {
      assert flat[0] != '.';
    }
  }

  lemma FlatIsSafe(s: string)
    ensures IsSafe(Flatten(s)) <==>
              s != "" && s[0] != '.' && s[|s| - 1] != '.' && forall i :: 0 <= i < |s| ==> IsPathChar(s[i])
  {
    var flat := Flatten(s);
    forall i | 0 <= i < |s| ensures (IsEdge(flat[i]) || flat[i] == '.') <==> IsPathChar(s[i]) {
    }
    if s != "" {
      assert IsEdge(flat[0]) <==> s[0] != '.' && IsPathChar(s[0]);
      assert IsEdge(flat[|s| - 1]) <==> s[|s| - 1] != '.' && IsPathChar(s[|s| - 1]);
    }
  }

  // ---- config/config.go ----

  predicate IsReservedPath(path: string) {
    TrimSlashes(path) == "health" || TrimSlashes(path) == "ready"
  }

  predicate IsReservedDir(lowered: string) {
    lowered == "locks" || lowered == "signing.key"
  }

  /** What validateEndpointPath asks of a path on its own. */
  predicate PathOk(path: string) {
    && path != "" && path[0] == '/' && Paths.Clean(path) == path && !IsReservedPath(path)
    && Directory(path) != INVALID && !IsReservedDir(Lower(Directory(path)))
  }

  /** A slash and then elements none of which is empty, "." or "..". */
  ghost predicate IsPlainRooted(path: string) {
    path != "" && path[0] == '/' && ArePlain(Paths.Split(path[1..]))
  }

  /**
   * What validateEndpointPath asks of a path on its own: plainly rooted, neither of the two paths the server answers
   * itself, and with a directory of its own that is none of the data directory's own entries, ignoring case.
   */
  lemma AcceptedPathMeans(path: string)
    ensures PathOk(path) <==>
              && IsPlainRooted(path) && path != "/health" && path != "/ready"
              && Directory(path) != "_invalid"
              && Lower(Directory(path)) != "locks" && Lower(Directory(path)) != "signing.key"
  {
    if path == "/" {
      SlashHasNoDirectory();
    } else if path != "" && path[0] == '/' {
      PlainIsClean(path);
      if IsPlainRooted(path) {
        ReservedMeans(path);
      }
    }
  }

  /** The elements after the first slash. */
  ghost predicate ArePlain(elems: seq<string>) {
    forall i :: 0 <= i < |elems| ==> elems[i] != "" && elems[i] != "." && elems[i] != ".."
  }

  lemma PlainIsClean(path: string)
    requires path != "" && path[0] == '/' && path != "/"
    ensures IsPlainRooted(path) <==> Paths.Clean(path) == path
  {
    var rest := path[1..];
    assert path == "/" + rest;
    CleanMeansPlain(rest);
  }

  lemma CleanMeansPlain(rest: string)
    requires rest != ""
    ensures Paths.Clean("/" + rest) == "/" + rest <==> ArePlain(Paths.Split(rest))
  {
    Paths.CleanIff(rest);
  }

  lemma ReservedMeans(path: string)
    requires IsPlainRooted(path)
    ensures IsReservedPath(path) <==> path == "/health" || path == "/ready"
  {
    var rest := path[1..];
    assert path == "/" + rest && Paths.Split(rest)[0] != "";
    PlainRest(rest);
    TrimsLeading(path, 1);
    assert rest == "health" <==> path == "/" + "health";
    assert rest == "ready" <==> path == "/" + "ready";
  }

  lemma SlashHasNoDirectory()
    ensures Directory("/") == "_invalid" && !IsPlainRooted("/")
  {
    DirectoryMeans("/", 1);
    assert "/"[1..] == "" && Paths.Split("")[0] == "";
  }

  lemma PlainRest(rest: string)
    requires Paths.Split(rest)[0] != ""
    ensures rest != "" && rest[0] != '/'
  {}

  function DirKey(path: string): string {
    Lower(Directory(path))
  }

  /** What it asks of all of them: storage directories that differ even ignoring case. */
  ghost predicate Accepted(paths: seq<string>) {
    AcceptedUpTo(PathOk, DirKey, paths, |paths|)
  }

  /** The first n paths are good ones with pairwise distinct keys. */
  ghost predicate AcceptedUpTo(good: string -> bool, key: string -> string, paths: seq<string>, n: nat)
    requires n <= |paths|
  {
    (forall i :: 0 <= i < n ==> good(paths[i])) && forall i, j :: 0 <= i < j < n ==> key(paths[i]) != key(paths[j])
  }

  /** validateEndpointPath for one endpoint: the checks in order, recording the path and directory as taken. */
  method ValidateEndpointPath(path: string, seen: set<string>, dirs: set<string>)
    returns (ok: bool, seen': set<string>, dirs': set<string>)
    ensures ok <==> PathOk(path) && path !in seen && DirKey(path) !in dirs
    ensures ok ==> seen' == seen + {path} && dirs' == dirs + {DirKey(path)}
    ensures seen <= seen' <= seen + {path} && dirs <= dirs' <= dirs + {DirKey(path)}
  {
    ok, seen', dirs' := false, seen, dirs;
    if path == "" || path[0] != '/' || Paths.Clean(path) != path || path in seen {
      return;
    }
    seen' := seen + {path};
    if IsReservedPath(path) {
      return;
    }
    var dir := Directory(path);
    if dir == INVALID || IsReservedDir(Lower(dir)) || Lower(dir) in dirs {
      return;
    }
    dirs' := dirs + {Lower(dir)};
    ok := true;
  }

  /** The settings of an endpoint that validate looks at. */
  datatype Endpoint = Endpoint(name: string, path: string, visibility: string, authentication: string, apiURL: string)

  predicate IsOneOf(value: string, a: string, b: string) {
    Lower(value) == a || Lower(value) == b
  }

  /** What an accepted endpoint's access settings come to: GitHub alone can be private or have an API URL. */
  predicate AccessOk(e: Endpoint) {
    && IsOneOf(e.visibility, "public", "private")
    && (|| Lower(e.authentication) == "github"
        || (Lower(e.authentication) == "none" && Lower(e.visibility) == "public" && e.apiURL == ""))
  }

  /** validateAccess: the four checks, each adding its own problem. */
  method ValidateAccess(e: Endpoint) returns (problems: nat)
    ensures problems == 0 <==> AccessOk(e)
  {
    problems := 0;
    if !IsOneOf(e.authentication, "github", "none") {
      problems := problems + 1;
    }
    if e.apiURL != "" && Lower(e.authentication) == "none" {
      problems := problems + 1;
    }
    if !IsOneOf(e.visibility, "public", "private") {
      problems := problems + 1;
    }
    if Lower(e.visibility) == "private" && Lower(e.authentication) == "none" {
      problems := problems + 1;
    }
  }

  function PathsOf(endpoints: seq<Endpoint>): (paths: seq<string>)
    ensures |paths| == |endpoints| && forall i :: 0 <= i < |paths| ==> paths[i] == endpoints[i].path
  {
    seq(|endpoints|, i requires 0 <= i < |endpoints| => endpoints[i].path)
  }

  ghost predicate SettingsOk(endpoints: seq<Endpoint>, n: nat)
    requires n <= |endpoints|
  {
    forall i :: 0 <= i < n ==> endpoints[i].name != "" && AccessOk(endpoints[i])
  }

  /** One round of the loop: the problems of one endpoint, given what the ones before it have taken. */
  method ValidateEndpoint(e: Endpoint, seen: set<string>, dirs: set<string>, ghost good: string -> bool,
                          ghost key: string -> string)
    returns (problems: nat, seen': set<string>, dirs': set<string>)
    requires good == PathOk && key == DirKey
    ensures problems == 0 <==>
              e.name != "" && AccessOk(e) && good(e.path) && e.path !in seen && key(e.path) !in dirs
    ensures problems == 0 ==> seen' == seen + {e.path} && dirs' == dirs + {key(e.path)}
  {
    problems := if e.name == "" then 1 else 0;
    var ok;
    ok, seen', dirs' := ValidateEndpointPath(e.path, seen, dirs);
    if !ok {
      problems := problems + 1;
    }
    var access := ValidateAccess(e);
    problems := problems + access;
  }

  /**
   * The endpoint part of validate reports no problem exactly for a non-empty list of named endpoints with sound
   * access settings whose directories are kept apart.
   */
  method ValidateEndpoints(endpoints: seq<Endpoint>) returns (problems: nat)
    ensures problems == 0 <==>
              endpoints != [] && SettingsOk(endpoints, |endpoints|) && Accepted(PathsOf(endpoints))
  {
    if |endpoints| == 0 {
      return 1;
    }
    var seen: set<string>, dirs: set<string> := {}, {};
    ghost var good, key := PathOk, DirKey;
    problems := 0;
    for i := 0 to |endpoints|
      invariant problems == 0 ==> SoundUpTo(good, key, endpoints, i, seen, dirs)
      invariant problems > 0 ==> !AllSound(good, key, endpoints, |endpoints|)
    {
      SoundStep(good, key, endpoints, i, seen, dirs);
      var more;
      more, seen, dirs := ValidateEndpoint(endpoints[i], seen, dirs, good, key);
      problems := problems + more;
    }
  }

  /** The first n endpoints are sound. */
  ghost predicate AllSound(good: string -> bool, key: string -> string, endpoints: seq<Endpoint>, n: nat)
    requires n <= |endpoints|
  {
    SettingsOk(endpoints, n) && AcceptedUpTo(good, key, PathsOf(endpoints), n)
  }

  /** And what they have taken is recorded. */
  ghost predicate SoundUpTo(good: string -> bool, key: string -> string, endpoints: seq<Endpoint>, n: nat,
                            seen: set<string>, dirs: set<string>)
    requires n <= |endpoints|
  {
    AllSound(good, key, endpoints, n) && Taken(key, PathsOf(endpoints), n, seen, dirs)
  }

  /** One more endpoint: if it is sound everything still is, and if not the whole list never will be. */
  lemma SoundStep(good: string -> bool, key: string -> string, endpoints: seq<Endpoint>, n: nat, seen: set<string>,
                  dirs: set<string>)
    requires n < |endpoints|
    ensures SoundUpTo(good, key, endpoints, n, seen, dirs) ==>
              var e := endpoints[n];
              if e.name != "" && AccessOk(e) && good(e.path) && e.path !in seen && key(e.path) !in dirs
              then SoundUpTo(good, key, endpoints, n + 1, seen + {e.path}, dirs + {key(e.path)})
              else !AllSound(good, key, endpoints, |endpoints|)
  {
    if SoundUpTo(good, key, endpoints, n, seen, dirs) {
      AcceptedStep(good, key, PathsOf(endpoints), n, seen, dirs);
      if AllSound(good, key, endpoints, |endpoints|) {
        assert AcceptedUpTo(good, key, PathsOf(endpoints), n + 1);
        assert SettingsOk(endpoints, n + 1);
      }
    }
  }

  /** The paths and directories recorded so far, as long as nothing was wrong with them. */
  ghost predicate Taken(key: string -> string, paths: seq<string>, n: nat, seen: set<string>, dirs: set<string>)
    requires n <= |paths|
  {
    seen == (set k | 0 <= k < n :: paths[k]) && dirs == set k | 0 <= k < n :: key(paths[k])
  }

  /** One more path is accepted exactly when it is good and neither it nor its directory is taken. */
  lemma AcceptedStep(good: string -> bool, key: string -> string, paths: seq<string>, n: nat, seen: set<string>,
                     dirs: set<string>)
    requires n < |paths| && AcceptedUpTo(good, key, paths, n) && Taken(key, paths, n, seen, dirs)
    ensures AcceptedUpTo(good, key, paths, n + 1) <==> good(paths[n]) && paths[n] !in seen && key(paths[n]) !in dirs
    ensures Taken(key, paths, n + 1, seen + {paths[n]}, dirs + {key(paths[n])})
  {}

  /** Accepted endpoints have safe, unreserved directories, each its own. */
  lemma AcceptedApart(paths: seq<string>, i: nat, j: nat)
    requires Accepted(paths) && i < |paths| && j < |paths|
    ensures IsSafe(Directory(paths[i])) && !IsReservedDir(Lower(Directory(paths[i])))
    ensures Lower(Directory(paths[i])) == Lower(Directory(paths[j])) <==> i == j
  {
    assert PathOk(paths[i]);
    assert DirKey(paths[i]) == Lower(Directory(paths[i])) && DirKey(paths[j]) == Lower(Directory(paths[j]));
  }

  lemma {:induction false} TrimmedOnlySlashes(s: string, c: char)
    requires c in s && c != '/'
    ensures c in TrimSlashes(s)
  {
    if s[0] == '/' {
      assert s == [s[0]] + s[1..];
      TrimmedOnlySlashes(s[1..], c);
    }
  }

  /** An accepted path is made of safe characters and separators; in particular it has no '|', which keys rely on. */
  lemma AcceptedPathHasNoBar(path: string)
    requires PathOk(path)
    ensures forall c :: c in path ==> IsEdge(c) || c == '.' || IsSeparator(c)
    ensures '|' !in path
  {
    forall c | c in path ensures IsEdge(c) || c == '.' || IsSeparator(c) {
      if c != '/' {
        TrimmedOnlySlashes(path, c);
        var s := TrimSlashes(path);
        var k :| 0 <= k < |s| && s[k] == c;
        assert IsEdge(Flatten(s)[k]) || Flatten(s)[k] == '.';
      }
    }
  }

  // ---- paths ----

  /** The sharded location of an object under its endpoint's directory, for a normalised ID. */
  function ObjectPath(dir: string, oid: string): string
    requires |oid| == 64
  {
    dir + "/" + oid[..2] + "/" + oid[2..4] + "/" + oid
  }

  /** filePath and objectKey: the root is the data directory and a slash, or the key prefix. */
  function Location(root: string, endpoint: string, oid: string): (r: Option<string>) {
    match NormaliseOID(oid)
    case None => None
    case Some(o) => Some(root + ObjectPath(Directory(endpoint), o))
  }

  lemma SplitFour(a: string, b: string, c: string, d: string)
    requires '/' !in a && '/' !in b && '/' !in c && '/' !in d
    ensures Paths.Split(a + "/" + b + "/" + c + "/" + d) == [a, b, c, d]
  {
    Paths.SplitAtSlash(a + "/" + b + "/" + c, d);
    Paths.SplitAtSlash(a + "/" + b, c);
    Paths.SplitAtSlash(a, b);
    Paths.SplitElement(a);
    Paths.SplitElement(b);
    Paths.SplitElement(c);
    Paths.SplitElement(d);
  }

  lemma DirectoryHasNoSlash(endpoint: string)
    ensures '/' !in Directory(endpoint)
  {
    assert '/' !in INVALID;
    if IsSafe(Directory(endpoint)) {
      SafeHasNoSlash(Directory(endpoint));
    }
  }

  lemma IDHasNoSlash(oid: string)
    requires IsValidOID(oid)
    ensures '/' !in Lower(oid)
  {}

  /**
   * Where an object lies: below the root, in the endpoint's directory, the directory named by the ID's first two
   * digits, the one named by its next two, under the whole ID, all in lower case.
   */
  lemma LocationElements(root: string, endpoint: string, oid: string)
    requires IsValidOID(oid)
    ensures var at, id := Location(root, endpoint, oid), Lower(oid);
            && at.Some? && root <= at.value
            && Paths.Split(at.value[|root|..]) == [Directory(endpoint), [id[0], id[1]], [id[2], id[3]], id]
  {
    var id, rest := Lower(oid), ObjectPath(Directory(endpoint), Lower(oid));
    DirectoryHasNoSlash(endpoint);
    IDHasNoSlash(oid);
    assert (root + rest)[|root|..] == rest;
    assert id[..2] == [id[0], id[1]] && id[2..4] == [id[2], id[3]];
    SplitFour(Directory(endpoint), id[..2], id[2..4], id);
  }

  /** Two objects of one endpoint share a directory exactly when their IDs agree in the first four digits. */
  lemma ShardsAreByPrefix(root: string, endpoint: string, a: string, b: string)
    requires IsValidOID(a) && IsValidOID(b)
    ensures Location(root, endpoint, a).Some? && Location(root, endpoint, b).Some?
    ensures var x, y := Location(root, endpoint, a).value, Location(root, endpoint, b).value;
            && root <= x && root <= y && |Paths.Split(x[|root|..])| == |Paths.Split(y[|root|..])| == 4
            && (Paths.Split(x[|root|..])[..3] == Paths.Split(y[|root|..])[..3]
                <==> forall i :: 0 <= i < 4 ==> SameIgnoringCase(a[i], b[i]))
  {
    LocationElements(root, endpoint, a);
    LocationElements(root, endpoint, b);
    var p, q := Lower(a), Lower(b);
    ThreeElements(Directory(endpoint), [p[0], p[1]], [p[2], p[3]], p, [q[0], q[1]], [q[2], q[3]], q);
    TwoDigits(p[0], p[1], q[0], q[1]);
    TwoDigits(p[2], p[3], q[2], q[3]);
    forall i | 0 <= i < 4 ensures p[i] == q[i] <==> SameIgnoringCase(a[i], b[i]) {
      SameLetter(a[i], b[i]);
    }
  }

  lemma TwoDigits(a: char, b: char, c: char, d: char)
    ensures [a, b] == [c, d] <==> a == c && b == d
  {
    assert [a, b][0] == a && [a, b][1] == b && [c, d][0] == c && [c, d][1] == d;
  }

  lemma ThreeElements(dir: string, a: string, b: string, c: string, a': string, b': string, c': string)
    ensures [dir, a, b, c][..3] == [dir, a', b', c'][..3] <==> a == a' && b == b'
  {
    var x, y := [dir, a, b, c][..3], [dir, a', b', c'][..3];
    assert x[1] == a && y[1] == a' && x[2] == b && y[2] == b';
    if a == a' && b == b' {
      assert x == y;
    }
  }

  lemma SameLetter(c: char, d: char)
    ensures LowerChar(c) == LowerChar(d) <==> SameIgnoringCase(c, d)
  {}

  /** The elements of the other paths in the data directory. */
  lemma OtherElements(dir: string, name: string)
    requires '/' !in dir && '/' !in name
    ensures Paths.Split(TempPath(dir, name)) == [dir, ".tmp", ".tmp-" + name]
    ensures Paths.Split(LockFilePath(dir)) == ["locks", dir, "locks.json"]
  {
    var tmp, file, json := ".tmp", ".tmp-" + name, "locks.json";
    assert '/' !in tmp && '/' !in file && '/' !in json && '/' !in "locks";
    SplitThree(dir, tmp, file);
    assert TempPath(dir, name) == dir + "/" + tmp + "/" + file;
    SplitThree("locks", dir, json);
    assert LockFilePath(dir) == "locks" + "/" + dir + "/" + json;
  }

  lemma SplitThree(a: string, b: string, c: string)
    requires '/' !in a && '/' !in b && '/' !in c
    ensures Paths.Split(a + "/" + b + "/" + c) == [a, b, c]
  {
    Paths.SplitAtSlash(a + "/" + b, c);
    Paths.SplitAtSlash(a, b);
    Paths.SplitElement(a);
    Paths.SplitElement(b);
    Paths.SplitElement(c);
  }

  /** The tail of a location is the ID and its length is fixed, so the directory is what precedes it. */
  lemma LocationParts(root: string, dir: string, oid: string)
    requires |oid| == 64
    ensures var s := Lower(root + ObjectPath(dir, oid));
            && |s| == |root| + |dir| + 71
            && s[|s| - 64..] == Lower(oid)
            && s[|root|..|s| - 71] == Lower(dir)
  {
    var s := root + ObjectPath(dir, oid);
    assert s[|s| - 64..] == oid && s[|root|..|s| - 71] == dir;
  }

  lemma LocationsAgree(root: string, d: string, d': string, oid: string, oid': string)
    requires |oid| == |oid'| == 64
    ensures Lower(root + ObjectPath(d, oid)) == Lower(root + ObjectPath(d', oid')) ==>
              Lower(d) == Lower(d') && Lower(oid) == Lower(oid')
  {
    var s, t := Lower(root + ObjectPath(d, oid)), Lower(root + ObjectPath(d', oid'));
    LocationParts(root, d, oid);
    LocationParts(root, d', oid');
    SameParts(s, t, |root|, Lower(d), Lower(d'), Lower(oid), Lower(oid'));
  }

  lemma SameParts(s: string, t: string, from: nat, d: string, d': string, o: string, o': string)
    requires |s| == from + |d| + 71 && |t| == from + |d'| + 71
    requires s[|s| - 64..] == o && t[|t| - 64..] == o' && s[from..|s| - 71] == d && t[from..|t| - 71] == d'
    ensures s == t ==> d == d' && o == o'
  {}

  /**
   * For every accepted configuration (endpoint, ID) to location is injective, even on a file system that ignores
   * case: the same location means the same endpoint and IDs that differ in case only.
   */
  lemma LocationsAreInjective(root: string, paths: seq<string>, i: nat, j: nat, a: string, b: string)
    requires Accepted(paths) && i < |paths| && j < |paths| && IsValidOID(a) && IsValidOID(b)
    ensures Location(root, paths[i], a).Some? && Location(root, paths[j], b).Some?
    ensures Lower(Location(root, paths[i], a).value) == Lower(Location(root, paths[j], b).value) <==>
              i == j && NormaliseOID(a) == NormaliseOID(b)
  {
    AcceptedApart(paths, i, j);
    LocationsAgree(root, Directory(paths[i]), Directory(paths[j]), Lower(a), Lower(b));
    LowerIsIdempotent(a);
    LowerIsIdempotent(b);
  }

  lemma LowerIsIdempotent(s: string)
    ensures Lower(Lower(s)) == Lower(s)
  {}

  const LOCKS := "locks/"

  function LockFilePath(dir: string): string {
    LOCKS + dir + "/locks.json"
  }

  function TempPath(dir: string, name: string): string {
    dir + "/.tmp/.tmp-" + name
  }

  /** Everything before the first slash. */
  function FirstElement(s: string): string {
    if s == [] || s[0] == '/' then [] else [s[0]] + FirstElement(s[1..])
  }

  lemma {:induction false} FirstElementOf(dir: string, rest: string)
    requires '/' !in dir
    ensures FirstElement(dir + "/" + rest) == dir && FirstElement(dir) == dir
  {
    if dir == [] {
      assert dir + "/" + rest == "/" + rest;
    } else {
      assert dir[0] in dir;
      assert (dir + "/" + rest)[1..] == dir[1..] + "/" + rest;
      FirstElementOf(dir[1..], rest);
    }
  }

  lemma SafeHasNoSlash(dir: string)
    requires IsSafe(dir)
    ensures '/' !in dir && '/' !in Lower(dir)
  {}

  lemma ObjectIsNotTemp(di: string, dj: string, oid: string, name: string)
    requires IsSafe(di) && IsSafe(dj) && |oid| == 64
    ensures Lower(ObjectPath(di, oid)) != Lower(TempPath(dj, name))
  {
    ObjectStartsWithItsDir(di, oid);
    TempStartsWithItsDir(dj, name);
    var a, b := Lower(ObjectPath(di, oid)), Lower(TempPath(dj, name));
    assert a[|di| + 3] == '/' && b[|dj| + 3] == 'm';
  }

  lemma TempStartsWithItsDir(dj: string, name: string)
    requires IsSafe(dj)
    ensures FirstElement(Lower(TempPath(dj, name))) == Lower(dj)
  {
    SafeHasNoSlash(dj);
    var temp := Lower(".tmp/.tmp-" + name);
    assert Lower(TempPath(dj, name)) == Lower(dj) + "/" + temp;
    FirstElementOf(Lower(dj), temp);
  }

  lemma ObjectStartsWithItsDir(di: string, oid: string)
    requires IsSafe(di) && |oid| == 64
    ensures FirstElement(Lower(ObjectPath(di, oid))) == Lower(di)
  {
    SafeHasNoSlash(di);
    var shard := Lower(oid[..2] + "/" + oid[2..4] + "/" + oid);
    assert Lower(ObjectPath(di, oid)) == Lower(di) + "/" + shard;
    FirstElementOf(Lower(di), shard);
  }

  lemma LocksStartWithLocks(rest: string)
    ensures FirstElement(Lower(LOCKS + rest)) == "locks" && FirstElement("signing.key") == "signing.key"
  {
    assert Lower(LOCKS + rest) == "locks" + "/" + Lower(rest);
    FirstElementOf("locks", Lower(rest));
    FirstElementOf("signing.key", "");
  }

  /**
   * No object of an accepted endpoint lies where the lock store keeps anything (lock files, their .lock files, its
   * own temporary files), where the signing key lies, or where any upload's temp file lies, even ignoring case.
   */
  lemma ObjectsAvoidReserved(paths: seq<string>, i: nat, j: nat, oid: string, name: string, rest: string)
    requires Accepted(paths) && i < |paths| && j < |paths| && |oid| == 64
    ensures var at := Lower(ObjectPath(Directory(paths[i]), oid));
            && at != Lower(LOCKS + rest)
            && at != "signing.key"
            && at != Lower(TempPath(Directory(paths[j]), name))
  {
    AcceptedApart(paths, i, j);
    AcceptedApart(paths, j, i);
    ObjectStartsWithItsDir(Directory(paths[i]), oid);
    LocksStartWithLocks(rest);
    ObjectIsNotTemp(Directory(paths[i]), Directory(paths[j]), oid, name);
  }

  /** And lock files are below the lock store's directory, each endpoint's its own even ignoring case. */
  lemma LockFilesAreApart(paths: seq<string>, i: nat, j: nat)
    requires Accepted(paths) && i < |paths| && j < |paths|
    ensures LOCKS <= LockFilePath(Directory(paths[i]))
    ensures Lower(LockFilePath(Directory(paths[i]))) == Lower(LockFilePath(Directory(paths[j]))) <==> i == j
  {
    AcceptedApart(paths, i, j);
    LockFileParts(Directory(paths[i]));
    LockFileParts(Directory(paths[j]));
  }

  lemma LockFileParts(dir: string)
    ensures var s := Lower(LockFilePath(dir));
            LOCKS <= LockFilePath(dir) && |s| == |dir| + 17 && s[6..|s| - 11] == Lower(dir)
  {
    assert LockFilePath(dir)[6..|LockFilePath(dir)| - 11] == dir;
  }
}
