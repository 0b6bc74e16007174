// Pathname expansion of one word: glob_word, src/mid/expand.c:1073-1186.
module PathGlob {
  import opened CStrings
  import opened Glob

  const GLOB_MAX: nat := 256
  const PATH_MAX: nat := 4096

  predicate HasMeta(s: string) {
    exists i :: 0 <= i < |s| && (s[i] == '*' || s[i] == '?')
  }

  predicate HasTwoStars(s: string) {
    exists i :: 0 < i < |s| && s[i - 1] == '*' && s[i] == '*'
  }

  // Where the last slash is; -1 when there is none.
  function LastSlash(s: string): (r: int)
    ensures -1 <= r < |s| && (r >= 0 ==> s[r] == '/')
    ensures forall i :: r < i < |s| ==> s[i] != '/'
  {
    if s == [] then -1
    else if s[|s| - 1] == '/' then |s| - 1
    else LastSlash(s[..|s| - 1])
  }

  // strcmp(a, b) <= 0
  predicate Leq(a: string, b: string) {
    a == [] || (b != [] && (a[0] < b[0] || (a[0] == b[0] && Leq(a[1..], b[1..]))))
  }

  predicate Sorted(a: seq<string>) {
    forall i, j :: 0 <= i < j < |a| ==> Leq(a[i], a[j])
  }

  function Insert(x: string, a: seq<string>): seq<string> {
    if a == [] || Leq(x, a[0]) then [x] + a else [a[0]] + Insert(x, a[1..])
  }

  function Sort(a: seq<string>): seq<string> {
    if a == [] then [] else Insert(a[0], Sort(a[1..]))
  }

  // The names of a directory that a pattern matches: hidden ones only when asked for by a dot.
  ghost function Hits(base: string, names: seq<string>): (r: seq<string>)
    ensures |r| <= |names|
  {
    if names == [] then []
    else
      var name := names[|names| - 1];
      Hits(base, names[..|names| - 1]) + if Hit(base, name) then [name] else []
  }

  ghost predicate Hit(base: string, name: string) {
    && name != "." && name != ".."
    && (At(name, 0) == '.' ==> At(base, 0) == '.')
    && Matches(base, name)
  }

  // The path of a name in the directory part of a pattern.
  function Path(dir: Option<string>, name: string): string {
    if dir.None? then name else if dir.value == "/" then "/" + name else dir.value + "/" + name
  }

  function Paths(dir: Option<string>, names: seq<string>): (r: seq<string>)
    ensures |r| == |names| && forall i :: 0 <= i < |r| ==> r[i] == Path(dir, names[i])
  {
    if names == [] then [] else Paths(dir, names[..|names| - 1]) + [Path(dir, names[|names| - 1])]
  }

  // A directory's names in the order the system gives them; None when it cannot be opened.
  type Files = string -> Option<seq<string>>

  // The directory part: none, the root, or what is before the last slash.
  function DirOf(pattern: string): Option<string> {
    var slash := LastSlash(pattern);
    if slash < 0 then None else if slash == 0 then Some("/") else Some(pattern[..slash])
  }

  function BaseOf(pattern: string): string {
    pattern[LastSlash(pattern) + 1..]
  }

  // Patterns that stand for themselves whatever files there are.
  predicate IsLiteral(pattern: string) {
    || HasTwoStars(pattern)
    || LastSlash(pattern) >= PATH_MAX
    || (DirOf(pattern).Some? && HasMeta(DirOf(pattern).value))
    || !HasMeta(BaseOf(pattern))
  }

  predicate TooMuch(paths: seq<string>) {
    |paths| > GLOB_MAX || exists i :: 0 <= i < |paths| && |paths[i]| >= PATH_MAX
  }

  // None: too many matches or a path too long; the caller keeps the pattern.
  ghost function GlobWord(files: Files, pattern: string): Option<seq<string>> {
    if IsLiteral(pattern) then Some([pattern])
    else
      var dir := DirOf(pattern);
      var names := files(if dir.Some? then dir.value else ".");
      if names.None? then Some([pattern])
      else
        var paths := Paths(dir, Hits(BaseOf(pattern), names.value));
        if TooMuch(paths) then None
        else if paths == [] then Some([pattern])
        else Some(Sort(paths))
  }

  // ---- what the matches are ----

  // x comes before all of a.
  predicate Least(x: string, a: seq<string>) {
    forall y :: y in a ==> Leq(x, y)
  }

  lemma SortedFrom(x: string, a: seq<string>)
    ensures Sorted([x] + a) <==> Least(x, a) && Sorted(a)
  {
    hide Leq;
    var all := [x] + a;
    if Sorted(all) {
      forall i, j | 0 <= i < j < |a| ensures Leq(a[i], a[j]) {
        assert all[i + 1] == a[i] && all[j + 1] == a[j];
      }
      forall y | y in a ensures Leq(x, y) {
        var i :| 0 <= i < |a| && a[i] == y;
        assert all[0] == x && all[i + 1] == y;
      }
    }
  }

  lemma LeastTrans(x: string, y: string, a: seq<string>)
    requires Leq(x, y) && Least(y, a)
    ensures Least(x, a)
  {
    hide Leq;
    forall z | z in a ensures Leq(x, z) {
      LeqTrans(x, y, z);
    }
  }

  lemma {:induction false} InsertIs(x: string, a: seq<string>)
    requires Sorted(a)
    ensures Sorted(Insert(x, a)) && multiset(Insert(x, a)) == multiset([x] + a)
    ensures forall y :: y in Insert(x, a) <==> y == x || y in a
  {
    hide Leq, Sorted;
    if a == [] {
      OneSorted(x);
    } else {
      assert a == [a[0]] + a[1..];
      SortedFrom(a[0], a[1..]);
      if Leq(x, a[0]) {
        LeastTrans(x, a[0], a[1..]);
        SortedFrom(x, a);
      } else {
        LeqTotal(x, a[0]);
        InsertIs(x, a[1..]);
        SortedFrom(a[0], Insert(x, a[1..]));
      }
    }
  }

  lemma OneSorted(x: string)
    ensures Sorted([x]) && [x] + [] == [x]
  {
  }

  lemma {:induction false} LeqTrans(a: string, b: string, c: string)
    requires Leq(a, b) && Leq(b, c)
    ensures Leq(a, c)
  {
    if a != [] && a[0] == b[0] == c[0] {
      LeqTrans(a[1..], b[1..], c[1..]);
    }
  }

  lemma {:induction false} LeqTotal(a: string, b: string)
    ensures Leq(a, b) || Leq(b, a)
  {
    if a != [] && b != [] && a[0] == b[0] {
      LeqTotal(a[1..], b[1..]);
    }
  }

  lemma {:induction false} SortIs(a: seq<string>)
    ensures Sorted(Sort(a)) && multiset(Sort(a)) == multiset(a)
  {
    if a != [] {
      SortIs(a[1..]);
      InsertIs(a[0], Sort(a[1..]));
      assert a == [a[0]] + a[1..];
    }
  }

  lemma {:induction false} HitsAre(base: string, names: seq<string>)
    ensures forall x :: x in Hits(base, names) <==> x in names && Hit(base, x)
  {
    if names != [] {
      HitsAre(base, names[..|names| - 1]);
      assert names == names[..|names| - 1] + [names[|names| - 1]];
    }
  }

  // A path that the pattern stands for.
  ghost predicate Found(pattern: string, names: seq<string>, path: string) {
    exists x :: x in names && Hit(BaseOf(pattern), x) && path == Path(DirOf(pattern), x)
  }

  lemma SameMembers(a: seq<string>, path: string)
    ensures path in Sort(a) <==> path in a
  {
    SortIs(a);
    assert path in multiset(a) <==> path in a;
    assert path in multiset(Sort(a)) <==> path in Sort(a);
  }

  lemma PathsOfHits(pattern: string, names: seq<string>, path: string)
    ensures path in Paths(DirOf(pattern), Hits(BaseOf(pattern), names)) <==> Found(pattern, names, path)
  {
    hide Hit, Path, Hits, DirOf, BaseOf, Paths;
    var hits := Hits(BaseOf(pattern), names);
    var paths := Paths(DirOf(pattern), hits);
    HitsAre(BaseOf(pattern), names);
    if path in paths {
      var i :| 0 <= i < |paths| && paths[i] == path;
      assert hits[i] in hits;
    }
    if Found(pattern, names, path) {
      var x :| x in names && Hit(BaseOf(pattern), x) && path == Path(DirOf(pattern), x);
      assert x in hits;
      var i :| 0 <= i < |hits| && hits[i] == x;
      assert paths[i] == path;
    }
  }

  // A word that is expanded becomes the paths of exactly the matching names, sorted, each as often
  // as the directory lists it.
  lemma GlobGives(files: Files, pattern: string, names: seq<string>, path: string)
    requires !IsLiteral(pattern)
    requires files(if DirOf(pattern).Some? then DirOf(pattern).value else ".") == Some(names)
    requires GlobWord(files, pattern).Some? && Hits(BaseOf(pattern), names) != []
    ensures var r := GlobWord(files, pattern).value;
            && Sorted(r)
            && multiset(r) == multiset(Paths(DirOf(pattern), Hits(BaseOf(pattern), names)))
            && (path in r <==> Found(pattern, names, path))
  {
    hide Hit, Sorted, IsLiteral, Path, Sort, Found, Hits, DirOf, BaseOf, Paths, TooMuch;
    var paths := Paths(DirOf(pattern), Hits(BaseOf(pattern), names));
    SortIs(paths);
    SameMembers(paths, path);
    PathsOfHits(pattern, names, path);
  }

  // ---- the loop over the directory ----

  // src/mid/expand.c:1032
  method PatternHasMeta(s: string) returns (r: bool)
    ensures r == HasMeta(s)
  {
    for i := 0 to |s|
      invariant !HasMeta(s[..i])
    {
      if s[i] == '*' || s[i] == '?' {
        return true;
      }
    }
    assert s[..|s|] == s;
    return false;
  }

  // src/mid/expand.c:1124-1173, with the names of the opened directory. None when there are too
  // many matches or a path is too long.
  method ReadMatches(base: string, dir: Option<string>, names: seq<string>) returns (r: Option<seq<string>>)
    ensures var paths := Paths(dir, Hits(base, names)); r == if TooMuch(paths) then None else Some(paths)
  {
    hide Paths, Hits, Path, TooMuch, Matches;
    var allowDot := At(base, 0) == '.';
    var matches: seq<string> := [];
    NoneYet(base, dir);
    for i := 0 to |names|
      invariant matches == Paths(dir, Hits(base, names[..i])) && !TooMuch(matches) && |matches| <= GLOB_MAX
    {
      var name := names[i];
      HitStep(base, dir, names, i);
      if name == "." || name == ".." {
        continue;
      }
      if At(name, 0) == '.' && !allowDot {
        continue;
      }
      var hit := MatchPat(base, name);
      if !hit {
        continue;
      }
      var path := Path(dir, name);
      MuchStep(matches, path);
      if |matches| >= GLOB_MAX {
        StillTooMuch(base, dir, names, i + 1);
        return None;
      }
      if |path| >= PATH_MAX {
        StillTooMuch(base, dir, names, i + 1);
        return None;
      }
      matches := matches + [path];
    }
    assert names[..|names|] == names;
    return Some(matches);
  }

  lemma NoneYet(base: string, dir: Option<string>)
    ensures Paths(dir, Hits(base, [])) == [] && !TooMuch([])
  {
  }

  lemma HitStep(base: string, dir: Option<string>, names: seq<string>, i: nat)
    requires i < |names|
    ensures Paths(dir, Hits(base, names[..i + 1]))
         == Paths(dir, Hits(base, names[..i])) + if Hit(base, names[i]) then [Path(dir, names[i])] else []
  {
    hide Hit, Path;
    assert names[..i + 1][..i] == names[..i];
    var hits := Hits(base, names[..i]);
    assert (hits + [names[i]])[..|hits|] == hits;
  }

  lemma MuchStep(paths: seq<string>, path: string)
    requires !TooMuch(paths)
    ensures TooMuch(paths + [path]) <==> |paths| >= GLOB_MAX || |path| >= PATH_MAX
    ensures !TooMuch(paths + [path]) ==> |paths + [path]| <= GLOB_MAX
  {
    var all := paths + [path];
    assert all[|paths|] == path && forall k :: 0 <= k < |paths| ==> all[k] == paths[k];
  }

  lemma StillTooMuch(base: string, dir: Option<string>, names: seq<string>, i: nat)
    requires i <= |names| && TooMuch(Paths(dir, Hits(base, names[..i])))
    ensures TooMuch(Paths(dir, Hits(base, names)))
  {
    hide Paths, Hits;
    MoreHits(base, dir, names, i);
  }

  // What has been found stays found.
  lemma {:induction false} MoreHits(base: string, dir: Option<string>, names: seq<string>, i: nat)
    requires i <= |names|
    ensures Paths(dir, Hits(base, names[..i])) <= Paths(dir, Hits(base, names))
    decreases |names| - i
  {
    hide Paths, Hits, Hit, Path;
    if i == |names| {
      assert names[..i] == names;
    } else {
      HitStep(base, dir, names, i);
      MoreHits(base, dir, names, i + 1);
    }
  }

  // src/mid/expand.c:1073
  method GlobWordOf(files: Files, pattern: string) returns (r: Option<seq<string>>)
    ensures r == GlobWord(files, pattern)
  {
    hide HasMeta, HasTwoStars, Path, Paths, Sort, Hits, TooMuch, LastSlash;
    var slash := LastSlash(pattern);
    var dir := None;
    var base := pattern;
    var meta := PatternHasMeta(pattern);
    if HasTwoStars(pattern) || !meta {
      if !meta {
        NoMetaInPart(pattern, slash + 1);
      }
      return Some([pattern]);
    }
    if slash >= 0 {
      if slash == 0 {
        dir := Some("/");
      } else {
        if slash >= PATH_MAX {
          return Some([pattern]);
        }
        dir := Some(pattern[..slash]);
      }
      base := pattern[slash + 1..];
      meta := PatternHasMeta(dir.value);
      if meta {
        return Some([pattern]);
      }
      meta := PatternHasMeta(base);
      if !meta {
        return Some([pattern]);
      }
    }
    assert pattern[0..] == pattern;
    var names := files(if dir.Some? then dir.value else ".");
    if names.None? {
      return Some([pattern]);
    }
    r := ReadMatches(base, dir, names.value);
    if r == Some([]) {
      r := Some([pattern]);
    } else if r.Some? {
      r := Some(Sort(r.value));
    }
  }

  lemma NoMetaInPart(s: string, i: nat)
    requires i <= |s| && !HasMeta(s)
    ensures !HasMeta(s[i..])
  {
  }
}
