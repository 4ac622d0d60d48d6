/** Remote path names: how the mount, the metadata cache, the protocol backends and
    the recovery screen turn the names they are given into rooted slash paths.

    Go's `path.Clean` and `path.Join` are modelled on rooted paths only, by the
    documented lexical rule: split at slashes, drop empty and "." components, let ".."
    remove the component before it, and render the rest with one slash in front of
    each component. */
module Paths {
  import opened Wrappers

  type Segments = seq<string>

  // ---------------------------------------------------------------- strings

  /** strings.ReplaceAll(s, "\\", "/") */
  function ForwardSlashes(s: string): (r: string)
    ensures |r| == |s|
    ensures forall i :: 0 <= i < |s| ==> r[i] == if s[i] == '\\' then '/' else s[i]
  {
    if s == "" then ""
    else [if s[0] == '\\' then '/' else s[0]] + ForwardSlashes(s[1..])
  }

  /** One more character in front of a split string. */
  function Prepend(c: char, parts: Segments): (r: Segments)
    requires |parts| >= 1
    ensures |r| >= 1
  {
    if c == '/' then [""] + parts else [[c] + parts[0]] + parts[1..]
  }

  /** strings.Split(s, "/") */
  function Split(s: string): (parts: Segments)
    ensures |parts| >= 1
  {
    if s == "" then [""] else Prepend(s[0], Split(s[1..]))
  }

  predicate HasPrefix(s: string, prefix: string) {
    prefix <= s
  }

  function TrimPrefix(s: string, prefix: string): string {
    if HasPrefix(s, prefix) then s[|prefix|..] else s
  }

  // ------------------------------------------------------------ clean paths

  /** A component that survives cleaning. */
  predicate IsProper(segment: string) {
    segment != "" && segment != "." && segment != ".." && '/' !in segment
  }

  predicate AllProper(segments: Segments) {
    forall i :: 0 <= i < |segments| ==> IsProper(segments[i])
  }

  /** The lexical rule of path.Clean: `stack` holds the components kept so far. */
  function Resolve(parts: Segments, stack: Segments): Segments
    decreases |parts|
  {
    if parts == [] then stack
    else if parts[0] == "" || parts[0] == "." then Resolve(parts[1..], stack)
    else if parts[0] == ".." then Resolve(parts[1..], if stack == [] then [] else stack[..|stack| - 1])
    else Resolve(parts[1..], stack + [parts[0]])
  }

  /** "/a/b" for ["a", "b"]; the empty string for no component. */
  function Tail(segments: Segments): string {
    if segments == [] then "" else "/" + segments[0] + Tail(segments[1..])
  }

  /** "a/b" for ["a", "b"]. */
  function Relative(segments: Segments): string {
    if segments == [] then "" else segments[0] + Tail(segments[1..])
  }

  function Render(segments: Segments): string {
    if segments == [] then "/" else Tail(segments)
  }

  /** The components of the rooted path "/" + s after cleaning. */
  function Components(s: string): Segments {
    Resolve(Split(s), [])
  }

  /** path.Clean("/" + s) */
  function CleanRooted(s: string): string {
    Render(Components(s))
  }

  /** path.Join(base, name) for a base that starts with a slash. */
  function Join(base: string, name: string): string {
    if name == "" then CleanRooted(base) else CleanRooted(base + "/" + name)
  }

  /** path.Dir(name): everything before the last slash, cleaned. */
  function Dir(name: string): string {
    CleanRooted(BeforeLastSlash(name))
  }

  function BeforeLastSlash(name: string): string {
    if name == "" then ""
    else if name[|name| - 1] == '/' then name[..|name| - 1]
    else BeforeLastSlash(name[..|name| - 1])
  }

  /** path.Base of a clean path below the root: everything after the last slash. */
  function Base(name: string): string {
    if name == "" || name[|name| - 1] == '/' then ""
    else Base(name[..|name| - 1]) + [name[|name| - 1]]
  }

  predicate IsClean(name: string) {
    name == CleanRooted(name)
  }

  // ----------------------------------------------- names as the code resolves them

  /** The traversal test every layer applies to a name. */
  predicate Traverses(name: string) {
    ".." in Split(ForwardSlashes(name))
  }

  /** metadataPath: the key under which the metadata cache files a name. */
  function MetadataPath(name: string): Option<string> {
    if Traverses(name) then None else Some(CleanRooted(ForwardSlashes(name)))
  }

  /** remotePath of the SFTP and FTP backends, resourceURL of the WebDAV backend. */
  function RemotePath(root: string, name: string): Option<string> {
    if Traverses(name) then None
    else Some(Join(root, TrimPrefix(CleanRooted(ForwardSlashes(name)), "/")))
  }

  /** cleanMountPath */
  function CleanMountPath(name: string): string {
    var cleaned := TrimPrefix(CleanRooted(ForwardSlashes(name)), "/");
    if cleaned == "" then "." else cleaned
  }

  /** recoveryRemotePath: path.Join of "/", the profile root and the mount name. */
  function RecoveryRemotePath(root: string, name: string): string {
    var bare := TrimPrefix(root, "/");
    if bare == "" then Join("/", CleanMountPath(name))
    else Join("/" + "/" + bare, CleanMountPath(name))
  }

  /** cleanAbsolute */
  function CleanAbsolute(value: string): string {
    CleanRooted(TrimPrefix(ForwardSlashes(value), "/"))
  }

  datatype PathError = NotAFile | OutsideRoot

  /** RelativePath: from a preserved display path back to the name under the root. */
  function RelativePath(profileRoot: string, preservedPath: string): Result<string, PathError> {
    var root := CleanAbsolute(profileRoot);
    var preserved := CleanAbsolute(preservedPath);
    if preserved == "/" then Failure(NotAFile)
    else if root != "/" && preserved != root && !HasPrefix(preserved, root + "/") then Failure(OutsideRoot)
    else
      var relative := TrimPrefix(TrimPrefix(preserved, root), "/");
      if relative == "" || relative == "." then Failure(NotAFile) else Success(relative)
  }

  // ----------------------------------------------------------- lemmas: splitting

  lemma {:induction false} SplitHasNoSlash(s: string)
    ensures forall i :: 0 <= i < |Split(s)| ==> '/' !in Split(s)[i]
  {
    if s != "" {
      SplitHasNoSlash(s[1..]);
    }
  }

  lemma SplitStep(c: char, s: string)
    ensures Split([c] + s) == Prepend(c, Split(s))
  {
    assert ([c] + s)[1..] == s;
  }

  lemma PrependAppend(c: char, left: Segments, right: Segments)
    requires |left| >= 1
    ensures Prepend(c, left + right) == Prepend(c, left) + right
  {
    assert (left + right)[0] == left[0] && (left + right)[1..] == left[1..] + right;
  }

  lemma {:induction false} SplitAppend(a: string, b: string)
    ensures Split(a + "/" + b) == Split(a) + Split(b)
  {
    if a == "" {
      assert a + "/" + b == ['/'] + b;
      SplitStep('/', b);
    } else {
      var c, rest := a[0], a[1..];
      SplitAppend(rest, b);
      PrependAppend(c, Split(rest), Split(b));
      assert a + "/" + b == [c] + (rest + "/" + b);
      SplitStep(c, rest + "/" + b);
    }
  }

  lemma SplitRooted(bare: string)
    ensures Split("/" + bare) == [""] + Split(bare)
  {
    assert ("/" + bare)[1..] == bare;
  }

  /** Prefixing both sides with the empty component loses nothing. */
  lemma SameAfterBlank(a: Segments, b: Segments)
    requires [""] + a == [""] + b
    ensures a == b
  {
    assert ([""] + a)[1..] == a && ([""] + b)[1..] == b;
  }

  lemma ComponentsRooted(bare: string)
    ensures Components("/" + bare) == Components(bare)
  {
    SplitRooted(bare);
    assert ([""] + Split(bare))[1..] == Split(bare);
  }

  lemma {:induction false} SplitWhole(s: string)
    requires '/' !in s
    ensures Split(s) == [s]
  {
    if s != "" {
      SplitWhole(s[1..]);
      assert [s[0]] + s[1..] == s;
    }
  }

  lemma {:induction false} SplitBeforeTail(s: string, segments: Segments)
    requires '/' !in s && AllProper(segments)
    ensures Split(s + Tail(segments)) == [s] + segments
    decreases |segments|
  {
    SplitWhole(s);
    if segments == [] {
      assert s + "" == s;
    } else {
      var below := segments[0] + Tail(segments[1..]);
      SplitBeforeTail(segments[0], segments[1..]);
      assert s + Tail(segments) == s + "/" + below;
      SplitAppend(s, below);
      assert [segments[0]] + segments[1..] == segments;
    }
  }

  lemma SplitTail(segments: Segments)
    requires AllProper(segments)
    ensures Split(Tail(segments)) == [""] + segments
  {
    SplitBeforeTail("", segments);
    assert "" + Tail(segments) == Tail(segments);
  }

  lemma TailOfRelative(segments: Segments)
    requires segments != []
    ensures Tail(segments) == "/" + Relative(segments)
  {
    assert "/" + segments[0] + Tail(segments[1..]) == "/" + (segments[0] + Tail(segments[1..]));
  }

  lemma SplitRelative(segments: Segments)
    requires AllProper(segments) && segments != []
    ensures Split(Relative(segments)) == segments
    ensures Tail(segments) == "/" + Relative(segments)
  {
    hide *;
    TailOfRelative(segments);
    SplitTail(segments);
    SplitRooted(Relative(segments));
    SameAfterBlank(Split(Relative(segments)), segments);
  }

  // ---------------------------------------------------------- lemmas: resolving

  lemma {:induction false} ResolveAppend(a: Segments, b: Segments, stack: Segments)
    ensures Resolve(a + b, stack) == Resolve(b, Resolve(a, stack))
    decreases |a|
  {
    if a == [] {
      assert a + b == b;
    } else {
      assert (a + b)[1..] == a[1..] + b;
      if a[0] == "" || a[0] == "." {
        ResolveAppend(a[1..], b, stack);
      } else if a[0] == ".." {
        ResolveAppend(a[1..], b, if stack == [] then [] else stack[..|stack| - 1]);
      } else {
        ResolveAppend(a[1..], b, stack + [a[0]]);
      }
    }
  }

  lemma {:induction false} ResolveProper(parts: Segments, stack: Segments)
    requires AllProper(parts)
    ensures Resolve(parts, stack) == stack + parts
    decreases |parts|
  {
    if parts != [] {
      ResolveProper(parts[1..], stack + [parts[0]]);
      assert stack + [parts[0]] + parts[1..] == stack + parts;
    }
  }

  /** Without "..", resolving only adds components: what was there stays in front. */
  lemma {:induction false} ResolveKeeps(parts: Segments, stack: Segments)
    requires ".." !in parts
    ensures Resolve(parts, stack) == stack + Resolve(parts, [])
    decreases |parts|
  {
    if parts == [] {
      assert stack + [] == stack;
    } else if parts[0] == "" || parts[0] == "." {
      ResolveKeeps(parts[1..], stack);
    } else {
      ResolveKeeps(parts[1..], stack + [parts[0]]);
      ResolveKeeps(parts[1..], [] + [parts[0]]);
      assert stack + [parts[0]] + Resolve(parts[1..], []) == stack + ([parts[0]] + Resolve(parts[1..], []));
    }
  }

  lemma {:induction false} ResolveIsProper(parts: Segments, stack: Segments)
    requires AllProper(stack)
    requires forall i :: 0 <= i < |parts| ==> '/' !in parts[i]
    ensures AllProper(Resolve(parts, stack))
    decreases |parts|
  {
    if parts != [] {
      if parts[0] == "" || parts[0] == "." {
        ResolveIsProper(parts[1..], stack);
      } else if parts[0] == ".." {
        ResolveIsProper(parts[1..], if stack == [] then [] else stack[..|stack| - 1]);
      } else {
        ResolveIsProper(parts[1..], stack + [parts[0]]);
      }
    }
  }

  lemma ComponentsProper(s: string)
    ensures AllProper(Components(s))
  {
    SplitHasNoSlash(s);
    ResolveIsProper(Split(s), []);
  }

  /** Cleaning reads back exactly the components it wrote. */
  lemma RenderRoundTrip(segments: Segments)
    requires AllProper(segments)
    ensures Components(Render(segments)) == segments
    ensures CleanRooted(Render(segments)) == Render(segments)
  {
    if segments == [] {
      assert Render(segments) == "/" + "";
      ComponentsRooted("");
    } else {
      SplitRelative(segments);
      ComponentsRooted(Relative(segments));
      ResolveProper(segments, []);
    }
  }

  lemma RenderInjective(a: Segments, b: Segments)
    requires AllProper(a) && AllProper(b)
    ensures Render(a) == Render(b) <==> a == b
  {
    RenderRoundTrip(a);
    RenderRoundTrip(b);
  }

  /** path.Clean is idempotent on rooted paths. */
  lemma CleanIdempotent(s: string)
    ensures IsClean(CleanRooted(s))
    ensures Components(CleanRooted(s)) == Components(s)
  {
    ComponentsProper(s);
    RenderRoundTrip(Components(s));
  }

  lemma TrimmedComponents(s: string)
    ensures Components(TrimPrefix(s, "/")) == Components(s)
  {
    if HasPrefix(s, "/") {
      assert s == "/" + s[1..];
      ComponentsRooted(s[1..]);
    }
  }

  lemma JoinComponents(base: string, name: string)
    ensures Join(base, name) == Render(Resolve(Split(name), Components(base)))
  {
    if name != "" {
      SplitAppend(base, name);
      ResolveAppend(Split(base), Split(name), []);
    }
  }

  // ------------------------------------------------------------ lemmas: prefixes

  lemma {:induction false} TailAppend(a: Segments, b: Segments)
    ensures Tail(a + b) == Tail(a) + Tail(b)
  {
    if a == [] {
      assert a + b == b;
    } else {
      TailAppend(a[1..], b);
      assert (a + b)[1..] == a[1..] + b;
    }
  }

  /** The string test `strings.HasPrefix(k, n + "/")` is the component-wise test, so
      "/a" never matches "/ab". */
  lemma PrefixIsComponentwise(n: Segments, k: Segments)
    requires AllProper(n) && AllProper(k) && n != []
    ensures HasPrefix(Render(k), Render(n) + "/") <==> n < k
  {
    hide *;
    if HasPrefix(Render(k), Render(n) + "/") {
      PrefixHasComponents(n, k);
    }
    if n < k {
      ComponentsArePrefix(n, k);
    }
  }

  lemma PrefixHasComponents(n: Segments, k: Segments)
    requires AllProper(n) && AllProper(k) && n != [] && HasPrefix(Render(k), Render(n) + "/")
    ensures n < k
  {
    hide AllProper, Render, Split, Tail;
    RenderIsTail(n);
    RootHasNoPrefix(n);
    RenderIsTail(k);
    var rest := Render(k)[|Render(n)| + 1..];
    assert Render(k) == Render(n) + "/" + rest;
    SplitAppend(Render(n), rest);
    SplitTail(n);
    SplitTail(k);
    assert [""] + n + Split(rest) == [""] + (n + Split(rest));
    SameAfterBlank(k, n + Split(rest));
  }

  lemma RenderIsTail(segments: Segments)
    requires segments != []
    ensures Render(segments) == Tail(segments) && |Tail(segments)| > 0 && Tail(segments)[0] == '/'
  {
  }

  lemma RootHasNoPrefix(n: Segments)
    requires n != []
    ensures !HasPrefix(Render([]), Render(n) + "/")
  {
    assert |Render(n) + "/"| > |Render([])|;
  }

  lemma ComponentsArePrefix(n: Segments, k: Segments)
    requires n != [] && n < k
    ensures HasPrefix(Render(k), Render(n) + "/")
    ensures TrimPrefix(TrimPrefix(Render(k), Render(n)), "/") == Relative(k[|n|..])
  {
    var rest := k[|n|..];
    assert k == n + rest;
    RenderIsTail(n);
    RenderIsTail(k);
    TailAppend(n, rest);
    TailOfRelative(rest);
    hide Render, Tail, Relative, AllProper;
    assert Render(k) == Render(n) + "/" + Relative(rest);
    assert TrimPrefix(Render(k), Render(n)) == "/" + Relative(rest);
  }

  lemma {:induction false} BeforeLastSlashOf(front: string, last: string)
    requires '/' !in last
    ensures BeforeLastSlash(front + "/" + last) == front
    decreases |last|
  {
    var whole := front + "/" + last;
    if last == "" {
      assert whole[|whole| - 1] == '/';
      assert whole[..|whole| - 1] == front;
    } else {
      assert whole[|whole| - 1] == last[|last| - 1];
      BeforeLastSlashOf(front, last[..|last| - 1]);
      assert whole[..|whole| - 1] == front + "/" + last[..|last| - 1];
    }
  }

  function Parent(segments: Segments): Segments {
    if segments == [] then [] else segments[..|segments| - 1]
  }

  /** path.Dir of a clean path drops its last component; the root is its own parent. */
  lemma DirIsParent(segments: Segments)
    requires AllProper(segments)
    ensures Dir(Render(segments)) == Render(Parent(segments))
  {
    if segments == [] {
      BeforeLastSlashOf("", "");
      assert "" + "/" + "" == "/";
      RenderRoundTrip([]);
      assert Split("") == [""];
    } else {
      var front, last := Parent(segments), segments[|segments| - 1];
      assert segments == front + [last];
      TailAppend(front, [last]);
      assert Tail([last]) == "/" + last + "";
      assert Render(segments) == Tail(front) + "/" + last;
      BeforeLastSlashOf(Tail(front), last);
      if front == [] {
        assert Components("") == [];
      } else {
        RenderRoundTrip(front);
      }
    }
  }

  lemma {:induction false} BaseOf(front: string, last: string)
    requires '/' !in last
    ensures Base(front + "/" + last) == last
    decreases |last|
  {
    var whole := front + "/" + last;
    if last == "" {
      assert whole[|whole| - 1] == '/';
    } else {
      assert whole[|whole| - 1] == last[|last| - 1];
      BaseOf(front, last[..|last| - 1]);
      assert whole[..|whole| - 1] == front + "/" + last[..|last| - 1];
    }
  }

  /** path.Base of a clean path is its last component. */
  lemma BaseIsLast(segments: Segments)
    requires AllProper(segments) && segments != []
    ensures Base(Render(segments)) == segments[|segments| - 1]
  {
    var front, last := Parent(segments), segments[|segments| - 1];
    assert segments == front + [last];
    TailAppend(front, [last]);
    assert Tail([last]) == "/" + last + "";
    assert Render(segments) == Tail(front) + "/" + last;
    BaseOf(Tail(front), last);
  }

  /** A proper name joined to a clean directory: path.Dir and path.Base take it apart again. */
  lemma JoinTakenApart(directory: string, name: string)
    requires IsClean(directory) && IsProper(name)
    ensures IsClean(Join(directory, name)) && Join(directory, name) != "/"
    ensures Dir(Join(directory, name)) == directory && Base(Join(directory, name)) == name
  {
    var d := Components(directory);
    ComponentsProper(directory);
    JoinComponents(directory, name);
    SplitWhole(name);
    assert Resolve([name], d) == d + [name];
    hide *;
    OneMoreProper(d, name);
    RenderRoundTrip(d + [name]);
    RenderInjective(d + [name], []);
    DirIsParent(d + [name]);
    BaseIsLast(d + [name]);
    CleanIs(directory);
    CleanIs(Render(d + [name]));
  }

  lemma OneMoreProper(segments: Segments, name: string)
    requires AllProper(segments) && IsProper(name)
    ensures AllProper(segments + [name]) && Parent(segments + [name]) == segments && AllProper([])
    ensures Render([]) == "/" && (segments + [name])[|segments + [name]| - 1] == name
  {
    assert (segments + [name])[..|segments|] == segments;
  }

  lemma CleanIs(name: string)
    ensures IsClean(name) <==> name == Render(Components(name))
  {
  }

  /** A clean path below the root is its directory joined to its last component. */
  lemma TakenApartJoins(path: string)
    requires IsClean(path) && path != "/"
    ensures Join(Dir(path), Base(path)) == path && IsProper(Base(path)) && IsClean(Dir(path))
  {
    var segments := Components(path);
    ComponentsProper(path);
    var front, last := Parent(segments), segments[|segments| - 1];
    assert segments == front + [last];
    DirIsParent(segments);
    BaseIsLast(segments);
    RenderRoundTrip(front);
    JoinComponents(Render(front), last);
    SplitWhole(last);
    assert Resolve([last], front) == front + [last];
  }

  // ------------------------------------------------------- theorems about traversal

  predicate IsSeparator(c: char) {
    c == '/' || c == '\\'
  }

  /** Two dots stand at i between two separators or ends. */
  ghost predicate DotsAt(name: string, i: int) {
    && 0 <= i <= |name| - 2 && name[i] == '.' && name[i + 1] == '.'
    && (i == 0 || IsSeparator(name[i - 1])) && (i == |name| - 2 || IsSeparator(name[i + 2]))
  }

  /** A name is rejected exactly when ".." is one of its components, whichever separators it
      uses. */
  lemma TraversesExactly(name: string)
    ensures Traverses(name) <==> exists i :: DotsAt(name, i)
  {
    var s := ForwardSlashes(name);
    assert forall i :: DotsAt(name, i) <==> SlashedDotsAt(s, i);
    if Traverses(name) {
      var i := DotsFound(s);
    }
    if i :| DotsAt(name, i) {
      DotsSplit(s, i);
    }
  }

  ghost predicate SlashedDotsAt(s: string, i: int) {
    && 0 <= i <= |s| - 2 && s[i] == '.' && s[i + 1] == '.'
    && (i == 0 || s[i - 1] == '/') && (i == |s| - 2 || s[i + 2] == '/')
  }

  lemma DotsSplit(s: string, i: int)
    requires SlashedDotsAt(s, i)
    ensures ".." in Split(s)
  {
    hide Split;
    var rest := s[i..];
    assert ".." in Split(rest) by {
      SplitWhole("..");
      if |rest| == 2 {
        assert rest == "..";
      } else {
        assert rest == ".." + "/" + rest[3..];
        SplitAppend("..", rest[3..]);
      }
    }
    if i > 0 {
      assert s == s[..i - 1] + "/" + rest;
      SplitAppend(s[..i - 1], rest);
    }
  }

  lemma {:induction false} FirstSlash(s: string) returns (n: nat)
    requires '/' in s
    ensures n < |s| && s[n] == '/' && '/' !in s[..n]
  {
    if s[0] == '/' {
      return 0;
    }
    n := FirstSlash(s[1..]);
    assert s[..n + 1] == [s[0]] + s[1..][..n];
    n := n + 1;
  }

  lemma SplitFirst(s: string, n: nat)
    requires n < |s| && s[n] == '/' && '/' !in s[..n]
    ensures Split(s) == [s[..n]] + Split(s[n + 1..])
  {
    assert s == s[..n] + "/" + s[n + 1..];
    SplitAppend(s[..n], s[n + 1..]);
    SplitWhole(s[..n]);
  }

  lemma {:induction false} DotsFound(s: string) returns (i: int)
    requires ".." in Split(s)
    ensures SlashedDotsAt(s, i)
    decreases |s|
  {
    hide Split;
    if '/' !in s {
      SplitWhole(s);
      return 0;
    }
    var n := FirstSlash(s);
    SplitFirst(s, n);
    if s[..n] == ".." {
      assert n == 2 && s[0] == s[..n][0] && s[1] == s[..n][1];
      return 0;
    }
    var j := DotsFound(s[n + 1..]);
    i := j + n + 1;
  }

  // ------------------------------------------------------- theorems about names

  /** Two names share a cache key exactly when they resolve to one remote path, whatever
      root the backend works under; the cache rejects exactly the names the backends
      reject. */
  lemma SameKeyIffSameRemote(root: string, a: string, b: string)
    ensures MetadataPath(a).None? <==> RemotePath(root, a).None?
    ensures MetadataPath(a) == MetadataPath(b) <==> RemotePath(root, a) == RemotePath(root, b)
  {
    if MetadataPath(a).Some? {
      RemoteComponents(root, a);
    }
    if MetadataPath(b).Some? {
      RemoteComponents(root, b);
    }
    if MetadataPath(a).Some? && MetadataPath(b).Some? {
      var r := Components(root);
      var na, nb := Components(ForwardSlashes(a)), Components(ForwardSlashes(b));
      ComponentsProper(root);
      ComponentsProper(ForwardSlashes(a));
      ComponentsProper(ForwardSlashes(b));
      RenderInjective(na, nb);
      RenderInjective(r + na, r + nb);
      assert (r + na)[|r|..] == na && (r + nb)[|r|..] == nb;
    }
  }

  /** A resolved remote path is the root's components followed by the name's: it never
      leaves the root. */
  lemma RemoteComponents(root: string, name: string)
    requires !Traverses(name)
    ensures RemotePath(root, name) == Some(Render(Components(root) + Components(ForwardSlashes(name))))
    ensures AllProper(Components(root) + Components(ForwardSlashes(name)))
  {
    var normalized := ForwardSlashes(name);
    var n := Components(normalized);
    ComponentsProper(root);
    ComponentsProper(normalized);
    var relative := TrimPrefix(Render(n), "/");
    JoinComponents(root, relative);
    if n == [] {
      assert relative == "";
      assert Split("") == [""];
      assert Components(root) + [] == Components(root);
    } else {
      SplitRelative(n);
      assert relative == Relative(n);
      ResolveProper(n, Components(root));
    }
  }

  /** A name as the mount layer keeps it; "." is the root. */
  predicate IsMountName(name: string) {
    name != "" && MetadataPath(name) == Some(if name == "." then "/" else "/" + name)
  }

  /** Every cleaned name is accepted by the backends, names one file there, and no other
      cleaned name does. */
  lemma MountNameKey(name: string)
    ensures IsMountName(CleanMountPath(name))
    ensures MetadataPath(CleanMountPath(name)) == Some(CleanRooted(ForwardSlashes(name)))
    ensures forall other :: IsMountName(other) && MetadataPath(other) == MetadataPath(CleanMountPath(name)) ==>
              other == CleanMountPath(name)
  {
    MountNameAccepted(name);
    forall other | IsMountName(other) && MetadataPath(other) == MetadataPath(CleanMountPath(name))
      ensures other == CleanMountPath(name)
    {
      MountNamesDiffer(other, CleanMountPath(name));
    }
  }

  /** Two mount names with one key are one name. */
  lemma MountNamesDiffer(a: string, b: string)
    requires IsMountName(a) && IsMountName(b) && MetadataPath(a) == MetadataPath(b)
    ensures a == b
  {
    hide MetadataPath;
    var key := MetadataPath(a).value;
    assert key[1..] == (if a == "." then "" else a);
    assert key[1..] == (if b == "." then "" else b);
  }

  lemma MountNameAccepted(name: string)
    ensures IsMountName(CleanMountPath(name))
    ensures MetadataPath(CleanMountPath(name)) == Some(CleanRooted(ForwardSlashes(name)))
  {
    var n := Components(ForwardSlashes(name));
    MountPathComponents(name);
    if n == [] {
      DotIsRoot();
    } else {
      assert '\\' !in Relative(n) by {
        CleaningAddsNoCharacter(ForwardSlashes(name), '\\');
      }
      RelativeKey(n);
    }
  }

  lemma DotIsRoot()
    ensures MetadataPath(".") == Some("/")
  {
    SplitWhole(".");
    assert Resolve(["."], []) == Resolve([], []);
  }

  lemma RelativeKey(segments: Segments)
    requires AllProper(segments) && segments != [] && '\\' !in Relative(segments)
    ensures MetadataPath(Relative(segments)) == Some("/" + Relative(segments))
    ensures "/" + Relative(segments) == Render(segments)
    ensures Relative(segments) != ""
  {
    NoBackslashUnchanged(Relative(segments));
    SplitRelative(segments);
    ResolveProper(segments, []);
    assert [] + segments == segments;
    assert Split("") == [""];
  }

  /** Keys are in normal form: resolving a key again changes nothing. */
  lemma MetadataPathIdempotent(name: string)
    requires MetadataPath(name).Some?
    ensures MetadataPath(MetadataPath(name).value) == MetadataPath(name)
    ensures IsClean(MetadataPath(name).value)
  {
    var key := MetadataPath(name).value;
    CleanIdempotent(ForwardSlashes(name));
    ComponentsProper(ForwardSlashes(name));
    CleaningAddsNoCharacter(ForwardSlashes(name), '\\');
    NoBackslashUnchanged(key);
    var n := Components(ForwardSlashes(name));
    if n == [] {
      SplitAppend("", "");
      assert key == "" + "/" + "";
    } else {
      SplitTail(n);
    }
  }

  // --------------------------------------------------- theorems about recovery

  /** RelativePath is component-wise: it succeeds exactly when the root is a proper
      prefix of the preserved path, and returns the components below the root. */
  lemma RelativePathExact(profileRoot: string, preservedPath: string)
    ensures var r, p := Components(ForwardSlashes(profileRoot)), Components(ForwardSlashes(preservedPath));
            && AllProper(p)
            && (r < p ==> RelativePath(profileRoot, preservedPath) == Success(Relative(p[|r|..])))
            && (!(r < p) ==> RelativePath(profileRoot, preservedPath).Failure?)
            && (RelativePath(profileRoot, preservedPath) == Failure(NotAFile) <==> p == [] || p == r)
  {
    hide Components, ForwardSlashes, CleanAbsolute, CleanRooted, AllProper, Relative, Render, HasPrefix, TrimPrefix;
    var r, p := Components(ForwardSlashes(profileRoot)), Components(ForwardSlashes(preservedPath));
    AbsoluteComponents(profileRoot);
    AbsoluteComponents(preservedPath);
    RenderedRoots(r, p);
    if r < p {
      RenderedBelow(r, p);
    }
  }

  /** How the rendered root and the rendered path compare. */
  lemma RenderedRoots(r: Segments, p: Segments)
    requires AllProper(r) && AllProper(p)
    ensures Render(p) == "/" <==> p == []
    ensures Render(r) == "/" <==> r == []
    ensures Render(p) == Render(r) <==> p == r
    ensures r != [] ==> (HasPrefix(Render(p), Render(r) + "/") <==> r < p)
    ensures p == r ==> TrimPrefix(TrimPrefix(Render(p), Render(r)), "/") == ""
  {
    RenderInjective(p, []);
    RenderInjective(r, []);
    RenderInjective(p, r);
    if r != [] {
      PrefixIsComponentwise(r, p);
    }
  }

  /** Trimming the root leaves the components below it. */
  lemma RenderedBelow(r: Segments, p: Segments)
    requires AllProper(p) && r < p
    ensures TrimPrefix(TrimPrefix(Render(p), Render(r)), "/") == Relative(p[|r|..])
    ensures Relative(p[|r|..]) != "" && Relative(p[|r|..]) != "."
  {
    var below := p[|r|..];
    RelativeIsNotDot(below);
    if r == [] {
      assert p == below;
      RenderIsTail(p);
      TailOfRelative(p);
      hide Render, Tail, Relative, AllProper;
      assert TrimPrefix("/" + Relative(p), "/") == Relative(p);
    } else {
      ComponentsArePrefix(r, p);
    }
  }

  lemma RelativeIsNotDot(segments: Segments)
    requires AllProper(segments) && segments != []
    ensures Relative(segments) != "" && Relative(segments) != "."
    ensures !HasPrefix(Relative(segments), "/")
  {
    assert Relative(segments)[0] == segments[0][0];
    if Relative(segments) == "." {
      assert false;
    }
  }

  /** The preserved path of a file that failed to upload leads back to the file's own
      mount name, for every name that is not the root, if and only if converting the
      slashes of the profile root before or after cleaning it gives the same path. The
      root itself is refused as no file under that condition, or when the cleaned and
      converted root is "/". */
  lemma RecoveryRoundTrip(root: string, name: string)
    ensures CleanMountPath(name) != "." ==>
              (RelativePath(root, RecoveryRemotePath(root, name)) == Success(CleanMountPath(name))
               <==> CleanAbsolute(CleanRooted(root)) == CleanAbsolute(root))
    ensures CleanMountPath(name) == "." ==>
              (RelativePath(root, RecoveryRemotePath(root, name)) == Failure(NotAFile)
               <==> CleanAbsolute(CleanRooted(root)) == CleanAbsolute(root) || CleanAbsolute(CleanRooted(root)) == "/")
  {
    hide ForwardSlashes, Components, CleanAbsolute, CleanRooted, CleanMountPath, AllProper, Relative, Render,
         RelativePath;
    var n := Components(ForwardSlashes(name));
    var r, r1 := Components(ForwardSlashes(root)), Components(ForwardSlashes(CleanRooted(root)));
    var preserved := RecoveryRemotePath(root, name);
    RecoveryComponents(root, name);
    RelativePathExact(root, preserved);
    MountPathComponents(name);
    AbsoluteComponents(root);
    AbsoluteComponents(CleanRooted(root));
    RenderInjective(r, r1);
    RenderedRoots(r, r1);
    StripRoot(r, r1, n);
    assert r1 + [] == r1;
  }

  lemma AbsoluteComponents(value: string)
    ensures CleanAbsolute(value) == Render(Components(ForwardSlashes(value)))
    ensures AllProper(Components(ForwardSlashes(value)))
  {
    TrimmedComponents(ForwardSlashes(value));
    ComponentsProper(ForwardSlashes(value));
  }

  lemma MountPathComponents(name: string)
    ensures var n := Components(ForwardSlashes(name));
            && AllProper(n)
            && (if n == [] then CleanMountPath(name) == "."
                else CleanMountPath(name) == Relative(n) && Relative(n) != ".")
  {
    var n := Components(ForwardSlashes(name));
    ComponentsProper(ForwardSlashes(name));
    if n != [] {
      SplitRelative(n);
      RelativeIsNotDot(n);
    }
  }

  /** Stripping r from r1 + n leaves n exactly when the two roots agree. */
  lemma StripRoot(r: Segments, r1: Segments, n: Segments)
    requires AllProper(r) && AllProper(r1) && AllProper(n)
    ensures n != [] ==> ((r < r1 + n && Relative((r1 + n)[|r|..]) == Relative(n)) <==> r == r1)
  {
    var p := r1 + n;
    if n != [] {
      if r < p && Relative(p[|r|..]) == Relative(n) {
        SplitRelative(p[|r|..]);
        SplitRelative(n);
        assert |p[|r|..]| == |n|;
        assert r == p[..|r|] == p[..|r1|] == r1;
      }
      if r == r1 {
        assert p[|r|..] == n;
      }
    }
  }

  /** The components of a preserved path, before and after slash conversion. */
  lemma RecoveryComponents(root: string, name: string)
    ensures var n := Components(ForwardSlashes(name));
            && RecoveryRemotePath(root, name) == Render(Components(root) + n)
            && Components(ForwardSlashes(RecoveryRemotePath(root, name)))
               == Components(ForwardSlashes(CleanRooted(root))) + n
  {
    var n, saved := Components(ForwardSlashes(name)), Components(root);
    var bare, mounted := TrimPrefix(root, "/"), CleanMountPath(name);
    ComponentsProper(ForwardSlashes(name));
    ComponentsProper(root);
    TrimmedComponents(root);
    TrimmedComponents("/" + "/" + bare);
    TrimmedComponents("/" + bare);
    assert ("/" + "/" + bare)[1..] == "/" + bare && ("/" + bare)[1..] == bare;
    assert Components("/") == [] by { TrimmedComponents("/"); assert Split("") == [""]; }
    var base := if bare == "" then "/" else "/" + "/" + bare;
    if bare == "" {
      assert Split("") == [""];
    }
    assert Components(base) == saved;
    JoinComponents(base, mounted);
    if n == [] {
      SplitWhole(".");
      assert Resolve(["."], saved) == saved;
      assert saved + n == saved;
      NoConversionBelow(saved, []);
    } else {
      SplitRelative(n);
      RelativeIsNotDot(n);
      ResolveProper(n, saved);
      CleaningAddsNoCharacter(ForwardSlashes(name), '\\');
      NoConversionBelow(saved, n);
    }
  }

  lemma NoConversionBelow(saved: Segments, n: Segments)
    requires AllProper(saved) && AllProper(n) && '\\' !in Render(n)
    ensures Components(ForwardSlashes(Render(saved + n))) == Components(ForwardSlashes(Render(saved))) + n
  {
    if n == [] {
      assert saved + n == saved;
    } else {
      SplitRelative(n);
      TailAppend(saved, n);
      var front := ForwardSlashes(Tail(saved));
      ForwardSlashesAppend(Tail(saved), Tail(n));
      NoBackslashUnchanged(Tail(n));
      assert ForwardSlashes(Render(saved + n)) == front + "/" + Relative(n);
      SplitAppend(front, Relative(n));
      ResolveAppend(Split(front), n, []);
      ResolveProper(n, Components(front));
      if saved == [] {
        assert front == "";
        NoBackslashUnchanged("/");
        TrimmedComponents("/");
      }
    }
  }

  /** A profile root without backslashes always meets the condition of the round trip. */
  lemma PlainRootRoundTrips(root: string)
    requires '\\' !in root
    ensures CleanAbsolute(CleanRooted(root)) == CleanAbsolute(root)
  {
    NoBackslashUnchanged(root);
    CleaningAddsNoCharacter(root, '\\');
    NoBackslashUnchanged(CleanRooted(root));
    TrimmedComponents(root);
    CleanIdempotent(root);
    TrimmedComponents(CleanRooted(root));
  }

  /** A root that mixes a backslash with ".." does not: in `a\b/..` the save side drops
      `a\b` as one component, the recovery side drops only `b`. */
  lemma MixedRootFails(kept: string, popped: string)
    requires IsProper(kept) && IsProper(popped) && '\\' !in kept && '\\' !in popped
    ensures var root := kept + "\\" + popped + "/" + "..";
            CleanAbsolute(CleanRooted(root)) != CleanAbsolute(root)
  {
    var front := kept + "\\" + popped;
    var root := front + "/" + "..";
    assert '/' !in front;
    assert front[|kept|] == '\\';
    PoppedComponents(front);
    CleanedRoot();
    KeptComponents(kept, popped);
    assert ForwardSlashes("\\") == "/" by { assert ForwardSlashes("\\")[0] == '/'; }
    NoBackslashUnchanged(kept);
    NoBackslashUnchanged(popped);
    NoBackslashUnchanged("/" + "..");
    ForwardSlashesAppend(kept, "\\");
    ForwardSlashesAppend(kept + "\\", popped);
    ForwardSlashesAppend(front, "/" + "..");
    assert root == front + ("/" + "..");
    var slashed := kept + "/" + popped + "/" + "..";
    assert ForwardSlashes(root) == slashed;
    AbsoluteComponents(root);
    RenderInjective([kept], []);
  }

  lemma KeptComponents(kept: string, popped: string)
    requires IsProper(kept) && IsProper(popped)
    ensures Components(kept + "/" + popped + "/" + "..") == [kept]
  {
    SplitAppend(kept + "/" + popped, "..");
    SplitAppend(kept, popped);
    SplitWhole(kept);
    SplitWhole(popped);
    SplitWhole("..");
    var parts := [kept, popped, ".."];
    assert parts[1..] == [popped, ".."] && parts[1..][1..] == [".."] && parts[1..][1..][1..] == [];
    assert [] + [kept] == [kept] && [kept] + [popped] == [kept, popped];
    assert Resolve(parts, []) == Resolve(parts[1..], [kept]) == Resolve([".."], [kept, popped]);
    assert [kept, popped][..1] == [kept];
    assert Split(kept + "/" + popped + "/" + "..") == parts;
    assert Resolve([".."], [kept, popped]) == Resolve([], [kept]);
  }

  lemma PoppedComponents(front: string)
    requires '/' !in front && front != "" && front != "." && front != ".."
    ensures CleanRooted(front + "/" + "..") == "/"
  {
    SplitAppend(front, "..");
    SplitWhole(front);
    SplitWhole("..");
    var parts := [front, ".."];
    assert parts[1..] == [".."] && parts[1..][1..] == [];
    assert [] + [front] == [front];
    assert Resolve(parts, []) == Resolve([".."], [front]) == Resolve([], []);
  }

  lemma CleanedRoot()
    ensures CleanAbsolute("/") == "/"
  {
    NoBackslashUnchanged("/");
    assert TrimPrefix("/", "/") == "";
    assert Components("") == [];
  }

  /** What RelativePath returns joins back to the preserved path, and holds no "..". */
  lemma RelativePathRejoins(profileRoot: string, preservedPath: string)
    requires RelativePath(profileRoot, preservedPath).Success?
    ensures var name := RelativePath(profileRoot, preservedPath).value;
            && Join(CleanAbsolute(profileRoot), name) == CleanAbsolute(preservedPath)
            && AllProper(Split(name))
            && !Traverses(name)
            && CleanMountPath(name) == name
  {
    hide ForwardSlashes, Components, RelativePath, CleanAbsolute, AllProper, Render, Relative, Tail, Join, Split,
         Traverses, CleanMountPath;
    var r, p := Components(ForwardSlashes(profileRoot)), Components(ForwardSlashes(preservedPath));
    RelativePathExact(profileRoot, preservedPath);
    AbsoluteComponents(profileRoot);
    AbsoluteComponents(preservedPath);
    var below := p[|r|..];
    assert p == r + below;
    CleaningAddsNoCharacter(ForwardSlashes(preservedPath), '\\');
    NoCharacterBelow(r, below, '\\');
    RenderRoundTrip(r);
    JoinBelow(Render(r), r, below);
    RelativeNames(below);
  }

  lemma NoCharacterBelow(r: Segments, below: Segments, c: char)
    requires AllProper(r + below) && c !in Render(r + below) && below != []
    ensures AllProper(r) && AllProper(below) && c !in Tail(below)
  {
    TailAppend(r, below);
    assert forall i :: 0 <= i < |r| ==> r[i] == (r + below)[i];
    assert forall i :: 0 <= i < |below| ==> below[i] == (r + below)[|r| + i];
    assert forall d :: d in Tail(below) ==> d in Render(r + below);
  }

  lemma JoinBelow(base: string, r: Segments, below: Segments)
    requires Components(base) == r && AllProper(below) && below != []
    ensures Join(base, Relative(below)) == Render(r + below)
  {
    JoinComponents(base, Relative(below));
    SplitRelative(below);
    ResolveProper(below, r);
  }

  /** A relative path of proper components is its own mount name. */
  lemma RelativeNames(below: Segments)
    requires AllProper(below) && below != [] && '\\' !in Tail(below)
    ensures Split(Relative(below)) == below
    ensures !Traverses(Relative(below))
    ensures CleanMountPath(Relative(below)) == Relative(below)
  {
    var name := Relative(below);
    SplitRelative(below);
    assert '\\' !in name by {
      assert forall c :: c in name ==> c in Tail(below);
    }
    NoBackslashUnchanged(name);
    assert Components(name) == below by { ResolveProper(below, []); assert [] + below == below; }
    MountPathComponents(name);
    assert ".." !in below by {
      assert forall i :: 0 <= i < |below| ==> below[i] != "..";
    }
  }

  // ------------------------------------------------------ lemmas: characters

  lemma {:induction false} NoBackslashUnchanged(s: string)
    requires '\\' !in s
    ensures ForwardSlashes(s) == s
  {
    assert forall i :: 0 <= i < |s| ==> s[i] in s;
  }

  lemma ForwardSlashesAppend(a: string, b: string)
    ensures ForwardSlashes(a + b) == ForwardSlashes(a) + ForwardSlashes(b)
  {
    hide ForwardSlashes;
    var whole, parts := ForwardSlashes(a + b), ForwardSlashes(a) + ForwardSlashes(b);
    assert |whole| == |parts|;
    forall i | 0 <= i < |whole|
      ensures whole[i] == parts[i]
    {
      assert (a + b)[i] == if i < |a| then a[i] else b[i - |a|];
    }
  }

  lemma {:induction false} SplitAddsNoCharacter(s: string, c: char)
    requires c !in s
    ensures forall p :: p in Split(s) ==> c !in p
  {
    if s != "" {
      SplitAddsNoCharacter(s[1..], c);
      assert s[0] in s;
    }
  }

  lemma {:induction false} ResolveAddsNoCharacter(parts: Segments, stack: Segments, c: char)
    requires forall p :: p in parts ==> c !in p
    requires forall p :: p in stack ==> c !in p
    ensures forall p :: p in Resolve(parts, stack) ==> c !in p
    decreases |parts|
  {
    if parts != [] {
      if parts[0] == "" || parts[0] == "." {
        ResolveAddsNoCharacter(parts[1..], stack, c);
      } else if parts[0] == ".." {
        ResolveAddsNoCharacter(parts[1..], if stack == [] then [] else stack[..|stack| - 1], c);
      } else {
        ResolveAddsNoCharacter(parts[1..], stack + [parts[0]], c);
      }
    }
  }

  lemma {:induction false} TailAddsNoCharacter(segments: Segments, c: char)
    requires c != '/' && forall p :: p in segments ==> c !in p
    ensures c !in Tail(segments)
  {
    if segments != [] {
      TailAddsNoCharacter(segments[1..], c);
    }
  }

  lemma CleaningAddsNoCharacter(s: string, c: char)
    requires c != '/' && (c !in s)
    ensures c !in CleanRooted(s)
  {
    SplitAddsNoCharacter(s, c);
    ResolveAddsNoCharacter(Split(s), [], c);
    TailAddsNoCharacter(Components(s), c);
  }
}
