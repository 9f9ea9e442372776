/** Lexical path arithmetic (posixpath and PurePosixPath) and the rebasing of
    relative links from a source file to the aggregate. */
module Paths {
  import opened Wrappers
  import opened Text

  // ----- posixpath.normpath, component by component -----

  /** One pass of normpath's loop body. */
  function Push(stack: seq<string>, part: string, absolute: bool): seq<string> {
    if part == "" || part == "." then stack
    else if part != ".." || (!absolute && stack == []) || (stack != [] && stack[|stack| - 1] == "..") then stack + [part]
    else if stack != [] then stack[..|stack| - 1]
    else stack
  }

  function PushAll(stack: seq<string>, parts: seq<string>, absolute: bool): seq<string> {
    if parts == [] then stack
    else Push(PushAll(stack, parts[..|parts| - 1], absolute), parts[|parts| - 1], absolute)
  }

  function Dotted(parts: seq<string>): string {
    if parts == [] then "." else Join(parts)
  }

  predicate Relative(path: string) { path == "" || path[0] != '/' }

  /** posixpath.normpath on a relative path. */
  function NormPath(path: string): string
    requires Relative(path)
  {
    Dotted(PushAll([], Split(path), false))
  }

  /** posixpath.join(a, b) */
  function PathJoin(a: string, b: string): string {
    if !Relative(b) then b
    else if a == "" || a[|a| - 1] == '/' then a + b
    else a + "/" + b
  }

  predicate NoSlash(parts: seq<string>) {
    forall i :: 0 <= i < |parts| ==> '/' !in parts[i]
  }

  predicate NoEmpty(parts: seq<string>) {
    forall i :: 0 <= i < |parts| ==> parts[i] != ""
  }

  lemma {:induction false} JoinEnds(parts: seq<string>)
    requires parts != [] && NoSlash(parts) && NoEmpty(parts)
    ensures var s := Join(parts); s != "" && s[0] != '/' && s[|s| - 1] != '/'
  {
    assert parts[0][0] in parts[0] && parts[0][|parts[0]| - 1] in parts[0];
    if |parts| > 1 {
      JoinEnds(parts[1..]);
    }
  }

  function PureParts(parts: seq<string>): (r: seq<string>)
    ensures NoSlash(parts) ==> NoSlash(r)
    ensures NoEmpty(r)
  {
    if parts == [] then []
    else (if parts[0] == "" || parts[0] == "." then [] else [parts[0]]) + PureParts(parts[1..])
  }

  /** PurePosixPath(path).parent.as_posix() for a relative path. */
  function Parent(path: string): (dir: string)
    ensures Relative(dir) && dir != "" && dir[|dir| - 1] != '/'
  {
    ParentOf(PureParts(Split(path)))
  }

  function ParentOf(parts: seq<string>): (dir: string)
    requires NoSlash(parts) && NoEmpty(parts)
    ensures Relative(dir) && dir != "" && dir[|dir| - 1] != '/'
  {
    if |parts| <= 1 then "."
    else
      JoinEnds(parts[..|parts| - 1]);
      Join(parts[..|parts| - 1])
  }

  /** The components of a working directory. */
  function Directory(cwd: string): seq<string> { PushAll([], Split(cwd), true) }

  /** The components of os.path.abspath(path) in the working directory `cwd`. */
  function AbsoluteParts(cwd: string, path: string): seq<string> {
    PushAll(Directory(cwd), Split(path), true)
  }

  function CommonPrefix(a: seq<string>, b: seq<string>): (n: nat)
    ensures n <= |a| && n <= |b| && a[..n] == b[..n]
    ensures n == |a| || n == |b| || a[n] != b[n]
  {
    if a == [] || b == [] || a[0] != b[0] then 0 else 1 + CommonPrefix(a[1..], b[1..])
  }

  function Ups(n: nat): (parts: seq<string>)
    ensures |parts| == n
    ensures forall i :: 0 <= i < n ==> parts[i] == ".."
  {
    seq(n, _ => "..")
  }

  /** posixpath.relpath(path, start) */
  function RelPath(cwd: string, path: string, start: string): string
  {
    var from, to := AbsoluteParts(cwd, start), AbsoluteParts(cwd, path);
    var i := CommonPrefix(from, to);
    Dotted(Ups(|from| - i) + to[i..])
  }

  /** The test with which a link is refused for leaving the repository. */
  predicate Escapes(path: string) { path == ".." || "../" <= path }

  // ----- facts about stacks -----

  predicate IsName(part: string) { part != "" && part != "." && part != ".." }

  predicate Names(parts: seq<string>) {
    forall i :: 0 <= i < |parts| ==> IsName(parts[i])
  }

  /** A relative stack is a run of ".." followed by names. */
  predicate Climbing(stack: seq<string>) {
    && (forall i :: 0 <= i < |stack| ==> stack[i] != "" && stack[i] != ".")
    && forall i :: 0 < i < |stack| && stack[i] == ".." ==> stack[i - 1] == ".."
  }

  lemma {:induction false} PushAllShape(stack: seq<string>, parts: seq<string>)
    requires Climbing(stack) && NoSlash(stack) && NoSlash(parts)
    ensures Climbing(PushAll(stack, parts, false)) && NoSlash(PushAll(stack, parts, false))
    ensures stack != [] && stack[0] == ".." ==>
              PushAll(stack, parts, false) != [] && PushAll(stack, parts, false)[0] == ".."
  {
    if parts != [] {
      PushAllShape(stack, parts[..|parts| - 1]);
    }
  }

  lemma {:induction false} ClimbingNames(stack: seq<string>, i: nat)
    requires Climbing(stack) && i < |stack| && stack[0] != ".."
    ensures IsName(stack[i])
  {
    if i > 0 {
      ClimbingNames(stack, i - 1);
    }
  }

  lemma {:induction false} PushAllConcat(stack: seq<string>, a: seq<string>, b: seq<string>, absolute: bool)
    ensures PushAll(stack, a + b, absolute) == PushAll(PushAll(stack, a, absolute), b, absolute)
  {
    if b == [] {
      assert a + b == a;
    } else {
      assert (a + b)[..|a + b| - 1] == a + b[..|b| - 1];
      PushAllConcat(stack, a, b[..|b| - 1], absolute);
    }
  }

  lemma {:induction false} PushNames(stack: seq<string>, parts: seq<string>, absolute: bool)
    requires Names(parts)
    ensures PushAll(stack, parts, absolute) == stack + parts
  {
    if parts != [] {
      PushNames(stack, parts[..|parts| - 1], absolute);
    }
  }

  lemma {:induction false} PushUps(stack: seq<string>, n: nat)
    requires Names(stack) && n <= |stack|
    ensures PushAll(stack, Ups(n), false) == stack[..|stack| - n]
  {
    if n > 0 {
      assert Ups(n)[..n - 1] == Ups(n - 1);
      PushUps(stack, n - 1);
    }
  }

  lemma PushAllSnoc(stack: seq<string>, parts: seq<string>, last: string, absolute: bool)
    ensures PushAll(stack, parts + [last], absolute) == Push(PushAll(stack, parts, absolute), last, absolute)
  {
    assert (parts + [last])[..|parts|] == parts;
  }

  lemma ClimbStays(stack: seq<string>, part: string)
    requires Climbing(stack)
    ensures stack != [] && stack[0] == ".." ==> Push(stack, part, false) != [] && Push(stack, part, false)[0] == ".."
  {}

  /** One step taken the same way from `base`. */
  lemma SameStep(base: seq<string>, stack: seq<string>, part: string)
    requires Names(stack) && Names(Push(stack, part, false))
    ensures Push(base + stack, part, true) == base + Push(stack, part, false)
  {
    assert part == ".." && stack == [] ==> !IsName(Push(stack, part, false)[0]);
  }

  /** A relative walk that never climbs out goes the same way from any absolute
      directory. */
  lemma {:induction false} AbsoluteFollowsRelative(base: seq<string>, parts: seq<string>)
    requires NoSlash(parts)
    requires Names(PushAll([], parts, false))
    ensures PushAll(base, parts, true) == base + PushAll([], parts, false)
  {
    if parts != [] {
      var front, last := parts[..|parts| - 1], parts[|parts| - 1];
      var stack := PushAll([], front, false);
      PushAllShape([], front);
      ClimbStays(stack, last);
      forall i | 0 <= i < |stack|
        ensures IsName(stack[i])
      {
        ClimbingNames(stack, i);
      }
      AbsoluteFollowsRelative(base, front);
      SameStep(base, stack, last);
    }
  }

  // ----- strings and components -----

  lemma DottedParts(stack: seq<string>, parts: seq<string>, absolute: bool)
    requires NoSlash(parts)
    ensures PushAll(stack, Split(Dotted(parts)), absolute) == PushAll(stack, parts, absolute)
  {
    if parts == [] {
      SplitPart(".", "");
      PushAllSnoc(stack, [], ".", absolute);
      assert [] + ["."] == ["."];
    } else {
      SplitJoin(parts);
    }
  }

  lemma EscapesIsFirstPart(s: string)
    ensures Escapes(s) <==> Split(s)[0] == ".."
  {
    JoinSplit(s);
    SplitPart("..", "");
    if "../" <= s {
      assert s == ".." + "/" + s[3..];
      SplitPart("..", s[3..]);
    }
  }

  lemma DottedEscapes(parts: seq<string>)
    requires NoSlash(parts)
    ensures Escapes(Dotted(parts)) <==> parts != [] && parts[0] == ".."
  {
    EscapesIsFirstPart(Dotted(parts));
    if parts == [] {
      SplitPart(".", "");
    } else {
      SplitJoin(parts);
    }
  }

  // ----- rebasing -----

  /** The file a relative link path names when read from `file`. */
  function Resolve(file: string, path: string): string
    requires Relative(file) && Relative(path)
  {
    NormPath(PathJoin(Parent(file), path))
  }

  /** What `_relative_destination` writes instead of `path`. */
  function Rebase(cwd: string, source: string, output: string, path: string): string
    requires Relative(source) && Relative(path)
  {
    RelPath(cwd, Resolve(source, path), Parent(output))
  }

  lemma ResolveParts(file: string, path: string)
    requires Relative(file) && Relative(path)
    ensures Resolve(file, path) == Dotted(PushAll(PushAll([], Split(Parent(file)), false), Split(path), false))
  {
    SplitAppend(Parent(file), path);
    PushAllConcat([], Split(Parent(file)), Split(path), false);
  }

  /** The components a rebased path consists of, when the output directory
      stays inside the repository: `j` of them are shared. */
  lemma RelPathInside(cwd: string, target: seq<string>, start: string) returns (j: nat)
    requires NoSlash(target) && Names(target)
    requires Names(PushAll([], Split(start), false))
    ensures var out := PushAll([], Split(start), false);
            && j <= |out| && j <= |target| && out[..j] == target[..j]
            && RelPath(cwd, Dotted(target), start) == Dotted(Ups(|out| - j) + target[j..])
  {
    var base, out := PushAll([], Split(cwd), true), PushAll([], Split(start), false);
    AbsoluteOfStart(cwd, start);
    AbsoluteOfTarget(cwd, target);
    j := RelPathBack(cwd, Dotted(target), start, base, out, target);
  }

  lemma RelPathBack(cwd: string, path: string, start: string, base: seq<string>, out: seq<string>, target: seq<string>)
    returns (j: nat)
    requires AbsoluteParts(cwd, start) == base + out && AbsoluteParts(cwd, path) == base + target
    ensures j <= |out| && j <= |target| && out[..j] == target[..j]
    ensures RelPath(cwd, path, start) == Dotted(Ups(|out| - j) + target[j..])
  {
    j := WayBack(base, out, target);
    RelPathOf(cwd, path, start, base + out, base + target);
  }

  lemma RelPathOf(cwd: string, path: string, start: string, from: seq<string>, to: seq<string>)
    requires AbsoluteParts(cwd, start) == from && AbsoluteParts(cwd, path) == to
    ensures var i := CommonPrefix(from, to);
            RelPath(cwd, path, start) == Dotted(Ups(|from| - i) + to[i..])
  {}

  /** The way from one directory to another below the same base. */
  lemma WayBack(base: seq<string>, out: seq<string>, target: seq<string>) returns (j: nat)
    ensures var i := CommonPrefix(base + out, base + target);
            && j == i - |base| && j <= |out| && j <= |target| && out[..j] == target[..j]
            && Ups(|base + out| - i) + (base + target)[i..] == Ups(|out| - j) + target[j..]
  {
    var i := CommonPrefix(base + out, base + target);
    CommonAtLeast(base, out, target);
    SharedPrefix(base, out, target, i);
    j := i - |base|;
    assert |base + out| - i == |out| - j;
  }

  lemma AbsoluteOfStart(cwd: string, start: string)
    requires Names(PushAll([], Split(start), false))
    ensures AbsoluteParts(cwd, start) == PushAll([], Split(cwd), true) + PushAll([], Split(start), false)
  {
    AbsoluteFollowsRelative(PushAll([], Split(cwd), true), Split(start));
  }

  lemma AbsoluteOfTarget(cwd: string, target: seq<string>)
    requires NoSlash(target) && Names(target)
    ensures AbsoluteParts(cwd, Dotted(target)) == PushAll([], Split(cwd), true) + target
  {
    var base := PushAll([], Split(cwd), true);
    DottedParts(base, target, true);
    PushNames(base, target, true);
  }

  lemma SharedPrefix(base: seq<string>, a: seq<string>, b: seq<string>, i: nat)
    requires |base| <= i <= |base| + |a| && i <= |base| + |b|
    requires (base + a)[..i] == (base + b)[..i]
    ensures a[..i - |base|] == b[..i - |base|]
    ensures (base + b)[i..] == b[i - |base|..]
  {
    var j := i - |base|;
    assert a[..j] == (base + a)[..i][|base|..];
    assert b[..j] == (base + b)[..i][|base|..];
  }

  lemma {:induction false} CommonAtLeast(base: seq<string>, a: seq<string>, b: seq<string>)
    ensures CommonPrefix(base + a, base + b) >= |base|
  {
    if base != [] {
      assert (base + a)[1..] == base[1..] + a && (base + b)[1..] == base[1..] + b;
      CommonAtLeast(base[1..], a, b);
    }
  }

  lemma PushRest(target: seq<string>, j: nat)
    requires Names(target) && j <= |target|
    ensures PushAll(target[..j], target[j..], false) == target
  {
    var rest := target[j..];
    assert Names(rest);
    PushNames(target[..j], rest, false);
    assert target[..j] + rest == target;
  }

  lemma WalkBack(out: seq<string>, target: seq<string>, j: nat)
    requires Names(out) && Names(target)
    requires j <= |out| && j <= |target| && out[..j] == target[..j]
    ensures PushAll(out, Ups(|out| - j) + target[j..], false) == target
  {
    var n := |out| - j;
    PushAllConcat(out, Ups(n), target[j..], false);
    PushUps(out, n);
    PushRest(target, j);
  }

  lemma WalkBackString(out: seq<string>, target: seq<string>, j: nat, parts: seq<string>)
    requires Names(out) && Names(target) && NoSlash(target)
    requires j <= |out| && j <= |target| && out[..j] == target[..j]
    requires parts == Ups(|out| - j) + target[j..]
    ensures PushAll(out, Split(Dotted(parts)), false) == target
  {
    WalkBack(out, target, j);
    BackHasNoSlash(|out| - j, target, j);
    DottedLeads(out, parts, target);
  }

  lemma BackHasNoSlash(n: nat, target: seq<string>, j: nat)
    requires NoSlash(target) && j <= |target|
    ensures NoSlash(Ups(n) + target[j..])
  {}

  lemma DottedLeads(out: seq<string>, parts: seq<string>, target: seq<string>)
    requires NoSlash(parts) && PushAll(out, parts, false) == target
    ensures PushAll(out, Split(Dotted(parts)), false) == target
  {
    DottedParts(out, parts, false);
  }

  lemma {:induction false} AbsoluteForm(stack: seq<string>, parts: seq<string>)
    requires NoSlash(stack) && NoSlash(parts) && NoEmpty(stack)
    ensures NoSlash(PushAll(stack, parts, true)) && NoEmpty(PushAll(stack, parts, true))
  {
    if parts != [] {
      AbsoluteForm(stack, parts[..|parts| - 1]);
    }
  }

  lemma AbsolutePartsForm(cwd: string, path: string)
    ensures NoSlash(AbsoluteParts(cwd, path)) && NoEmpty(AbsoluteParts(cwd, path))
  {
    AbsoluteForm([], Split(cwd));
    AbsoluteForm(PushAll([], Split(cwd), true), Split(path));
  }

  lemma BackForm(n: nat, to: seq<string>, i: nat)
    requires NoSlash(to) && NoEmpty(to) && i <= |to|
    ensures NoSlash(Ups(n) + to[i..]) && NoEmpty(Ups(n) + to[i..])
  {}

  lemma RelPathForm(cwd: string, path: string, start: string)
    ensures Relative(RelPath(cwd, path, start)) && RelPath(cwd, path, start) != ""
  {
    var from, to := AbsoluteParts(cwd, start), AbsoluteParts(cwd, path);
    var i := CommonPrefix(from, to);
    AbsolutePartsForm(cwd, path);
    var parts := Ups(|from| - i) + to[i..];
    BackForm(|from| - i, to, i);
    if parts != [] {
      JoinEnds(parts);
    }
  }

  /** The components behind Resolve, and when they leave the repository. */
  lemma ResolvedParts(file: string, path: string) returns (parts: seq<string>)
    requires Relative(file) && Relative(path)
    ensures parts == PushAll(PushAll([], Split(Parent(file)), false), Split(path), false)
    ensures Resolve(file, path) == Dotted(parts) && NoSlash(parts)
    ensures if Escapes(Resolve(file, path)) then parts != [] && parts[0] == ".." else Names(parts)
  {
    ResolveParts(file, path);
    var here := PushAll([], Split(Parent(file)), false);
    parts := PushAll(here, Split(path), false);
    PushAllShape([], Split(Parent(file)));
    PushAllShape(here, Split(path));
    DottedEscapes(parts);
    if !Escapes(Resolve(file, path)) {
      forall i | 0 <= i < |parts|
        ensures IsName(parts[i])
      {
        ClimbingNames(parts, i);
      }
    }
  }

  lemma ParentParts(file: string) returns (parts: seq<string>)
    ensures parts == PushAll([], Split(Parent(file)), false)
    ensures Climbing(parts) && NoSlash(parts)
    ensures if Escapes(NormPath(Parent(file))) then parts != [] && parts[0] == ".." else Names(parts)
  {
    parts := PushAll([], Split(Parent(file)), false);
    PushAllShape([], Split(Parent(file)));
    DottedEscapes(parts);
    if !Escapes(NormPath(Parent(file))) {
      forall i | 0 <= i < |parts|
        ensures IsName(parts[i])
      {
        ClimbingNames(parts, i);
      }
    }
  }

  lemma RebaseInside(cwd: string, source: string, output: string, path: string)
    requires Relative(source) && Relative(output) && Relative(path)
    requires !Escapes(Resolve(source, path)) && !Escapes(NormPath(Parent(output)))
    ensures Relative(Rebase(cwd, source, output, path))
    ensures Resolve(output, Rebase(cwd, source, output, path)) == Resolve(source, path)
  {
    var rebased := Rebase(cwd, source, output, path);
    RelPathForm(cwd, Resolve(source, path), Parent(output));
    var target := ResolvedParts(source, path);
    var out := ParentParts(output);
    var j := RelPathInside(cwd, target, Parent(output));
    ResolveParts(output, rebased);
    WalkBackString(out, target, j, Ups(|out| - j) + target[j..]);
  }

  // ----- which file a link names -----

  /** Everything but the last component, if there is one. */
  function Front(parts: seq<string>): seq<string> { if parts == [] then [] else parts[..|parts| - 1] }

  /** The components of the absolute file that a link with this path names when
      it is read from `file`, in a repository at `root`: from where the file's own
      components but the last lead, on along the path. */
  function FileNamed(root: string, file: string, path: string): seq<string> {
    PushAll(PushAll(Directory(root), Front(PureParts(Split(file))), true), Split(path), true)
  }

  /** The empty components and dots that are left out lead nowhere. */
  lemma {:induction false} PurePartsLeadThere(stack: seq<string>, parts: seq<string>, absolute: bool)
    ensures PushAll(stack, PureParts(parts), absolute) == PushAll(stack, parts, absolute)
    decreases |parts|
  {
    if parts != [] {
      var stack' := Push(stack, parts[0], absolute);
      assert parts == [parts[0]] + parts[1..];
      PushCons(stack, parts[0], parts[1..], absolute);
      PurePartsLeadThere(stack', parts[1..], absolute);
      if parts[0] != "" && parts[0] != "." {
        PushCons(stack, parts[0], PureParts(parts[1..]), absolute);
      } else {
        assert [] + PureParts(parts[1..]) == PureParts(parts[1..]);
      }
    }
  }

  lemma PushCons(stack: seq<string>, part: string, rest: seq<string>, absolute: bool)
    ensures PushAll(stack, [part] + rest, absolute) == PushAll(Push(stack, part, absolute), rest, absolute)
  {
    PushAllConcat(stack, [part], rest, absolute);
    PushAllSnoc(stack, [], part, absolute);
    assert [] + [part] == [part];
  }

  lemma ParentIsFront(parts: seq<string>)
    requires NoSlash(parts) && NoEmpty(parts)
    ensures ParentOf(parts) == Dotted(Front(parts))
  {}

  lemma ParentLeadsThere(root: string, file: string)
    ensures AbsoluteParts(root, Parent(file)) == PushAll(Directory(root), Front(PureParts(Split(file))), true)
  {
    ParentIsFront(PureParts(Split(file)));
    DottedParts(Directory(root), Front(PureParts(Split(file))), true);
  }

  lemma {:induction false} PureSnoc(parts: seq<string>, last: string)
    requires IsName(last)
    ensures PureParts(parts + [last]) == PureParts(parts) + [last]
  {
    if parts == [] {
      assert [] + [last] == [last] && [last][1..] == [];
    } else {
      assert (parts + [last])[1..] == parts[1..] + [last];
      PureSnoc(parts[1..], last);
    }
  }

  /** The parent of a file is the directory the file is in. */
  lemma ParentHoldsFile(root: string, file: string)
    requires IsName(Split(file)[|Split(file)| - 1])
    ensures AbsoluteParts(root, file) == AbsoluteParts(root, Parent(file)) + [Split(file)[|Split(file)| - 1]]
  {
    var parts := Split(file);
    var front, last := parts[..|parts| - 1], parts[|parts| - 1];
    assert parts == front + [last];
    PureSnoc(front, last);
    assert Front(PureParts(parts)) == PureParts(front);
    ParentLeadsThere(root, file);
    PurePartsLeadThere(Directory(root), front, true);
    PushAllSnoc(Directory(root), front, last, true);
  }

  lemma {:induction false} AbsoluteNames(stack: seq<string>, parts: seq<string>)
    requires Names(stack)
    ensures Names(PushAll(stack, parts, true))
  {
    if parts != [] {
      AbsoluteNames(stack, parts[..|parts| - 1]);
    }
  }

  /** Normalizing a relative path first does not change where it leads. */
  lemma {:induction false} NormalizeFirst(base: seq<string>, parts: seq<string>)
    requires NoSlash(parts)
    ensures PushAll(base, PushAll([], parts, false), true) == PushAll(base, parts, true)
  {
    if parts != [] {
      var front, last := parts[..|parts| - 1], parts[|parts| - 1];
      NormalizeFirst(base, front);
      PushAllShape([], front);
      NormalizeStep(base, PushAll([], front, false), last);
    }
  }

  lemma NormalizeStep(base: seq<string>, stack: seq<string>, part: string)
    requires Climbing(stack)
    ensures PushAll(base, Push(stack, part, false), true) == Push(PushAll(base, stack, true), part, true)
  {
    if part != "" && part != "." {
      PushAllSnoc(base, stack, part, true);
    }
  }

  /** The last n components, or all of them. */
  function Last(parts: seq<string>, n: nat): seq<string> {
    if n <= |parts| then parts[|parts| - n..] else parts
  }

  function Without(parts: seq<string>, n: nat): seq<string> {
    if n <= |parts| then parts[..|parts| - n] else []
  }

  lemma {:induction false} PushUpsAbsolute(stack: seq<string>, n: nat)
    requires Names(stack)
    ensures PushAll(stack, Ups(n), true) == Without(stack, n)
  {
    if n > 0 {
      assert Ups(n)[..n - 1] == Ups(n - 1);
      PushUpsAbsolute(stack, n - 1);
    }
  }

  /** How many directories a relative path climbs before it descends. */
  function Climbs(stack: seq<string>): (n: nat)
    ensures n <= |stack|
  {
    if stack == [] || stack[0] != ".." then 0 else 1 + Climbs(stack[1..])
  }

  lemma {:induction false} ClimbsThenNames(stack: seq<string>)
    requires Climbing(stack)
    ensures stack == Ups(Climbs(stack)) + stack[Climbs(stack)..] && Names(stack[Climbs(stack)..])
  {
    if stack != [] && stack[0] == ".." {
      var n := Climbs(stack[1..]);
      ClimbsThenNames(stack[1..]);
      OneMoreUp(stack, n);
    } else {
      forall i | 0 <= i < |stack|
        ensures IsName(stack[i])
      {
        ClimbingNames(stack, i);
      }
    }
  }

  lemma OneMoreUp(stack: seq<string>, n: nat)
    requires stack != [] && stack[0] == ".." && n < |stack| && stack[1..] == Ups(n) + stack[1..][n..]
    ensures stack == Ups(n + 1) + stack[n + 1..] && stack[1..][n..] == stack[n + 1..]
  {
    assert stack == [".."] + stack[1..];
    assert Ups(n + 1) == [".."] + Ups(n);
  }

  /** Walking back up and down again. */
  lemma WalkAbsolute(base: seq<string>, back: seq<string>, rest: seq<string>)
    requires Names(base + back) && Names(rest)
    ensures PushAll(base + back, Ups(|back|) + rest, true) == base + rest
  {
    PushAllConcat(base + back, Ups(|back|), rest, true);
    PushUpsAbsolute(base + back, |back|);
    assert Without(base + back, |back|) == base;
    PushNames(base, rest, true);
  }

  /** Reading a path from a file's directory continues from there. */
  lemma FileNamedParts(root: string, file: string, path: string)
    requires Relative(path)
    ensures FileNamed(root, file, path) == PushAll(AbsoluteParts(root, Parent(file)), Split(path), true)
  {
    ParentLeadsThere(root, file);
  }

  lemma ReadFrom(root: string, file: string, parts: seq<string>)
    requires NoSlash(parts) && NoEmpty(parts)
    ensures FileNamed(root, file, Dotted(parts)) == PushAll(AbsoluteParts(root, Parent(file)), parts, true)
  {
    if parts != [] {
      JoinEnds(parts);
    }
    FileNamedParts(root, file, Dotted(parts));
    DottedParts(AbsoluteParts(root, Parent(file)), parts, true);
  }

  lemma AbsolutePartsNames(cwd: string, path: string)
    ensures Names(AbsoluteParts(cwd, path))
  {
    AbsoluteNames([], Split(cwd));
    AbsoluteNames(PushAll([], Split(cwd), true), Split(path));
  }

  /** Where the source's link leads is where its normalized target leads. */
  lemma ResolveLeadsThere(root: string, file: string, path: string)
    requires Relative(file) && Relative(path)
    ensures AbsoluteParts(root, Resolve(file, path)) == FileNamed(root, file, path)
  {
    var base, parts := Directory(root), Split(Parent(file)) + Split(path);
    FileNamedParts(root, file, path);
    PushAllConcat(base, Split(Parent(file)), Split(path), true);
    SplitAppend(Parent(file), path);
    NormalizeFirst(base, parts);
    PushAllShape([], parts);
    DottedParts(base, PushAll([], parts, false), true);
  }

  /** The same relative walk, made below the root instead of the working directory. */
  lemma WalkElsewhere(here: seq<string>, there: seq<string>, out: seq<string>, tail: seq<string>)
    requires Names(here) && Names(there) && Names(out) && Names(tail)
    ensures var i := CommonPrefix(here + out, here + tail);
            PushAll(there + out, Ups(|here + out| - i) + (here + tail)[i..], true) == there + tail
  {
    var j := WayBack(here, out, tail);
    var rest := tail[j..];
    assert there + out == (there + out[..j]) + out[j..];
    assert Names(rest) && Names(there + out);
    WalkAbsolute(there + out[..j], out[j..], rest);
    assert (there + out[..j]) + rest == there + tail;
  }

  lemma RelPathParts(cwd: string, path: string, start: string, from: seq<string>, to: seq<string>) returns (parts: seq<string>)
    requires AbsoluteParts(cwd, start) == from && AbsoluteParts(cwd, path) == to
    ensures parts == Ups(|from| - CommonPrefix(from, to)) + to[CommonPrefix(from, to)..]
    ensures RelPath(cwd, path, start) == Dotted(parts) && NoSlash(parts) && NoEmpty(parts)
  {
    var i := CommonPrefix(from, to);
    parts := Ups(|from| - i) + to[i..];
    AbsolutePartsForm(cwd, path);
    BackForm(|from| - i, to, i);
    RelPathOf(cwd, path, start, from, to);
  }

  /** The rebased path, read from the output directory in another repository. */
  lemma RebasedParts(root: string, cwd: string, path: string, output: string,
                     here: seq<string>, there: seq<string>, out: seq<string>, tail: seq<string>)
    requires Names(here) && Names(there) && Names(out) && Names(tail)
    requires AbsoluteParts(cwd, Parent(output)) == here + out && AbsoluteParts(cwd, path) == here + tail
    requires AbsoluteParts(root, Parent(output)) == there + out
    ensures FileNamed(root, output, RelPath(cwd, path, Parent(output))) == there + tail
  {
    var parts := RelPathParts(cwd, path, Parent(output), here + out, here + tail);
    ReadFrom(root, output, parts);
    WalkElsewhere(here, there, out, tail);
  }

  /** Run at the repository's root, the tool rebases a link to the file that the
      source's link named: for every source, output and link, also outside it. */
  lemma RebaseNamesTheFile(root: string, source: string, output: string, path: string)
    requires Relative(source) && Relative(path)
    ensures FileNamed(root, output, Rebase(root, source, output, path)) == FileNamed(root, source, path)
  {
    var target := Resolve(source, path);
    var from, to := AbsoluteParts(root, Parent(output)), AbsoluteParts(root, target);
    AbsolutePartsNames(root, Parent(output));
    AbsolutePartsNames(root, target);
    assert [] + from == from && [] + to == to;
    RebasedParts(root, root, target, output, [], [], from, to);
    ResolveLeadsThere(root, source, path);
  }

  /** How far the output directory climbs out of the repository first. */
  function Climb(output: string): nat { Climbs(PushAll([], Split(Parent(output)), false)) }

  lemma OutputParts(base: string, output: string)
    ensures var out, dir := PushAll([], Split(Parent(output)), false), Directory(base);
            && Names(out[Climb(output)..])
            && AbsoluteParts(base, Parent(output)) == Without(dir, Climb(output)) + out[Climb(output)..]
  {
    var out, dir, n := PushAll([], Split(Parent(output)), false), Directory(base), Climb(output);
    PushAllShape([], Split(Parent(output)));
    NormalizeFirst(dir, Split(Parent(output)));
    ClimbsThenNames(out);
    AbsoluteNames([], Split(base));
    PushAllConcat(dir, Ups(n), out[n..], true);
    PushUpsAbsolute(dir, n);
    PushNames(Without(dir, n), out[n..], true);
  }

  lemma MiddleDecides(a: seq<string>, b: seq<string>, c: seq<string>, d: seq<string>)
    ensures a + (b + d) == a + (c + d) <==> b == c
  {
    if a + (b + d) == a + (c + d) {
      assert b + d == (a + (b + d))[|a|..] == c + d;
      assert |b| == |c|;
      assert b == (b + d)[..|b|] == (c + d)[..|c|] == c;
    }
  }

  /** The file that the rebased link to `target` names, wherever the tool runs. */
  lemma RebasedElsewhere(root: string, cwd: string, output: string, target: seq<string>)
    requires NoSlash(target) && Names(target)
    ensures FileNamed(root, output, RelPath(cwd, Dotted(target), Parent(output)))
         == Without(Directory(root), Climb(output)) + (Last(Directory(cwd), Climb(output)) + target)
  {
    var n := Climb(output);
    var here, there := Without(Directory(cwd), n), Without(Directory(root), n);
    var out, tail := PushAll([], Split(Parent(output)), false)[n..], Last(Directory(cwd), n) + target;
    DirectoryNames(cwd, n);
    DirectoryNames(root, n);
    OutputParts(cwd, output);
    OutputParts(root, output);
    AbsoluteOfTarget(cwd, target);
    WithoutLast(Directory(cwd), n, target);
    RebasedParts(root, cwd, Dotted(target), output, here, there, out, tail);
  }

  lemma DirectoryNames(cwd: string, n: nat)
    ensures Names(Without(Directory(cwd), n)) && Names(Last(Directory(cwd), n))
  {
    AbsoluteNames([], Split(cwd));
  }

  lemma WithoutLast(parts: seq<string>, n: nat, more: seq<string>)
    ensures Without(parts, n) + (Last(parts, n) + more) == parts + more
  {}

  /** The directories that the output path climbs out of are called the same at
      the root and where the tool runs. */
  predicate SameAround(root: string, cwd: string, output: string) {
    Last(Directory(cwd), Climb(output)) == Last(Directory(root), Climb(output))
  }

  /** Wherever the tool runs, a link that stays inside the repository names the
      same file after rebasing exactly under that condition: always, if the output
      path climbs out of nothing or the tool runs at the root. */
  lemma RebaseNamesTheFileWhen(root: string, cwd: string, source: string, output: string, path: string)
    requires Relative(source) && Relative(path) && !Escapes(Resolve(source, path))
    ensures FileNamed(root, output, Rebase(cwd, source, output, path)) == FileNamed(root, source, path)
       <==> SameAround(root, cwd, output)
  {
    var n := Climb(output);
    var target := ResolvedParts(source, path);
    RebasedElsewhere(root, cwd, output, target);
    AbsoluteOfTarget(root, target);
    ResolveLeadsThere(root, source, path);
    WithoutLast(Directory(root), n, target);
    MiddleDecides(Without(Directory(root), n), Last(Directory(cwd), n), Last(Directory(root), n), target);
  }

  lemma RootParts(name: string)
    requires IsName(name) && '/' !in name
    ensures Directory("/" + name) == [name]
  {
    SplitPart("", name);
    SplitPart(name, "");
    assert "" + "/" + name == "/" + name;
    PushAllSnoc([], [""], name, true);
    assert [""] + [name] == ["", name];
    PushAllSnoc([], [], "", true);
    assert [] + [""] == [""];
  }

  lemma BesideAtTop(name: string)
    requires IsName(name) && '/' !in name
    ensures Parent(name) == "."
  {
    SplitPart(name, "");
    assert Split(name)[1..] == [] && PureParts(Split(name)) == [name];
  }

  lemma OneUp()
    ensures Climb("../x.md") == 1
  {
    SplitPart("..", "x.md");
    SplitPart("x.md", "");
    assert "../x.md" == ".." + "/" + "x.md";
    assert PureParts(["..", "x.md"]) == ["..", "x.md"];
    assert Parent("../x.md") == "..";
    SplitPart("..", "");
    PushAllSnoc([], [], "..", false);
    assert [] + [".."] == [".."];
  }

  /** It can fail: run in /w for a repository at /r, the tool takes a link to
      /r/b.md elsewhere. */
  lemma WorkingDirectoryMatters()
    ensures !Escapes(Resolve("a.md", "b.md")) && !SameAround("/r", "/w", "../x.md")
    ensures FileNamed("/r", "../x.md", Rebase("/w", "a.md", "../x.md", "b.md")) != FileNamed("/r", "a.md", "b.md")
  {
    RootParts("r");
    RootParts("w");
    assert "" + "/" + "r" == "/r" && "" + "/" + "w" == "/w";
    OneUp();
    ResolveBeside();
    RebaseNamesTheFileWhen("/r", "/w", "a.md", "../x.md", "b.md");
  }

  lemma ResolveBeside()
    ensures Resolve("a.md", "b.md") == "b.md" == Dotted(["b.md"])
  {
    BesideAtTop("a.md");
    SplitPart(".", "");
    SplitPart("b.md", "");
    ResolveParts("a.md", "b.md");
    PushAllSnoc([], [], ".", false);
    assert [] + ["."] == ["."];
    PushAllSnoc([], [], "b.md", false);
    assert [] + ["b.md"] == ["b.md"];
  }

  /** Inside the repository the two links also normalize to the same path. */
  lemma RebaseKeepsPath(cwd: string, source: string, output: string, path: string)
    requires Relative(source) && Relative(output) && Relative(path)
    requires !Escapes(Resolve(source, path)) && !Escapes(NormPath(Parent(output)))
    ensures Relative(Rebase(cwd, source, output, path)) && Rebase(cwd, source, output, path) != ""
    ensures Resolve(output, Rebase(cwd, source, output, path)) == Resolve(source, path)
  {
    RelPathForm(cwd, Resolve(source, path), Parent(output));
    RebaseInside(cwd, source, output, path);
  }

  // ----- _relative_destination -----

  /** urlsplit's view of a link destination. */
  datatype Link = Link(scheme: string, netloc: string, path: string, query: string, fragment: string)

  datatype LinkError = NoSourceAnchor | EscapesRepository | NoDocumentAnchor

  type Anchors = map<string, string>

  /** The decision `_relative_destination` takes; None means the destination is
      returned as it was.  `own` maps the anchors of the link's own source,
      `documents` those of every included source. */
  function RelativeDestination(link: Link, cwd: string, source: string, output: string,
                               own: Option<Anchors>, documents: Option<map<string, Anchors>>,
                               unquote: string -> string): Result<Option<Link>, LinkError>
    requires Relative(source)
  {
    if link.scheme != "" || link.netloc != "" || !Relative(link.path) then Ok(None)
    else if link.path == "" then
      if link.fragment == "" || own.None? then Ok(None)
      else if unquote(link.fragment) !in own.value then Err(NoSourceAnchor)
      else Ok(Some(Link("", "", "", link.query, own.value[unquote(link.fragment)])))
    else
      var target := Resolve(source, link.path);
      if Escapes(target) then Err(EscapesRepository)
      else if link.fragment != "" && documents.Some? && target in documents.value then
        if unquote(link.fragment) !in documents.value[target] then Err(NoDocumentAnchor)
        else Ok(Some(Link("", "", "", link.query, documents.value[target][unquote(link.fragment)])))
      else Ok(Some(Link("", "", Rebase(cwd, source, output, link.path), link.query, link.fragment)))
  }

  /** A link to another site or from the root of this one. */
  predicate Elsewhere(link: Link) { link.scheme != "" || link.netloc != "" || "/" <= link.path }

  /** When a destination is left as it is, when it is refused, and when it is
      turned into an anchor of the aggregate. */
  lemma DestinationCases(link: Link, cwd: string, source: string, output: string,
                         own: Option<Anchors>, documents: Option<map<string, Anchors>>, unquote: string -> string)
    requires Relative(source)
    ensures var r := RelativeDestination(link, cwd, source, output, own, documents, unquote);
            var local := !Elsewhere(link) && link.path == "" && link.fragment != "" && own.Some?;
            var inside := !Elsewhere(link) && link.path != "" && !Escapes(Resolve(source, link.path));
            var included := inside && link.fragment != "" && documents.Some? && Resolve(source, link.path) in documents.value;
            && (r == Ok(None) <==> Elsewhere(link) || (link.path == "" && (link.fragment == "" || own.None?)))
            && (r == Err(NoSourceAnchor) <==> local && unquote(link.fragment) !in own.value)
            && (r == Err(EscapesRepository) <==> !Elsewhere(link) && link.path != "" && Escapes(Resolve(source, link.path)))
            && (r == Err(NoDocumentAnchor) <==>
                included && unquote(link.fragment) !in documents.value[Resolve(source, link.path)])
            && (r.Ok? && r.value.Some? && r.value.value.path == "" <==>
                (local && unquote(link.fragment) in own.value)
                || (included && unquote(link.fragment) in documents.value[Resolve(source, link.path)]))
  {
    if link.path != "" && !Elsewhere(link) && !Escapes(Resolve(source, link.path)) {
      RelPathForm(cwd, Resolve(source, link.path), Parent(output));
    }
  }

  /** Whatever is written names what the source link named: an anchor that the
      aggregate assigned to the linked document, or the same file, for every output
      path if the tool runs at the root. */
  lemma DestinationKeepsMeaning(link: Link, root: string, cwd: string, source: string, output: string,
                                own: Option<Anchors>, documents: Option<map<string, Anchors>>,
                                unquote: string -> string)
    requires Relative(source)
    requires RelativeDestination(link, cwd, source, output, own, documents, unquote).Ok?
    requires RelativeDestination(link, cwd, source, output, own, documents, unquote).value.Some?
    ensures var written := RelativeDestination(link, cwd, source, output, own, documents, unquote).value.value;
            written.query == link.query &&
            if written.path == "" then
              if link.path == "" then
                own.Some? && unquote(link.fragment) in own.value && written.fragment == own.value[unquote(link.fragment)]
              else
                var target := Resolve(source, link.path);
                documents.Some? && target in documents.value && unquote(link.fragment) in documents.value[target]
                && written.fragment == documents.value[target][unquote(link.fragment)]
            else
              Relative(written.path) && Relative(link.path) && written.fragment == link.fragment
              && (FileNamed(root, output, written.path) == FileNamed(root, source, link.path)
                  <==> SameAround(root, cwd, output))
  {
    if link.path != "" && !Escapes(Resolve(source, link.path)) {
      RelPathForm(cwd, Resolve(source, link.path), Parent(output));
      RebaseNamesTheFileWhen(root, cwd, source, output, link.path);
    }
  }
}
