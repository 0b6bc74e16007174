// Path patterns as a script has them: a directory, then a name with * and ?. What they become, said
// without the functions that take them apart.
module PathLaws {
  import opened CStrings
  import opened Glob
  import opened PathGlob

  // ---- order ----

  // a is a beginning of b, or has the smaller character where they first differ.
  predicate Before(a: string, b: string) {
    a <= b || exists k :: 0 <= k < |a| && k < |b| && a[..k] == b[..k] && a[k] < b[k]
  }

  lemma {:induction false} LeqIsBefore(a: string, b: string)
    ensures Leq(a, b) <==> Before(a, b)
  {
    hide Before;
    BeforeStep(a, b);
    if a != [] && b != [] && a[0] == b[0] {
      LeqIsBefore(a[1..], b[1..]);
    }
  }

  // The first character decides, unless it is the same.
  lemma BeforeStep(a: string, b: string)
    ensures a == [] ==> Before(a, b)
    ensures a != [] && b == [] ==> !Before(a, b)
    ensures a != [] && b != [] && a[0] == b[0] ==> (Before(a, b) <==> Before(a[1..], b[1..]))
    ensures a != [] && b != [] && a[0] != b[0] ==> (Before(a, b) <==> a[0] < b[0])
  {
    if a != [] && b != [] && a[0] == b[0] {
      if Before(a[1..], b[1..]) {
        LaterBefore(a, b);
      }
      if Before(a, b) {
        EarlierBefore(a, b);
      }
    } else if a != [] && b != [] {
      FirstDecides(a, b);
    }
  }

  lemma LaterBefore(a: string, b: string)
    requires a != [] && b != [] && a[0] == b[0] && Before(a[1..], b[1..])
    ensures Before(a, b)
  {
    if a[1..] <= b[1..] {
      assert a == [a[0]] + a[1..] && b == [b[0]] + b[1..];
    } else {
      var k :| 0 <= k < |a[1..]| && k < |b[1..]| && a[1..][..k] == b[1..][..k] && a[1..][k] < b[1..][k];
      SameFront(a, b, k);
      assert a[k + 1] < b[k + 1];
    }
  }

  lemma EarlierBefore(a: string, b: string)
    requires a != [] && b != [] && a[0] == b[0] && Before(a, b)
    ensures Before(a[1..], b[1..])
  {
    if a <= b {
      assert b[1..][..|a| - 1] == b[..|a|][1..];
    } else {
      var k :| 0 <= k < |a| && k < |b| && a[..k] == b[..k] && a[k] < b[k];
      assert k > 0;
      assert a[1..][..k - 1] == a[..k][1..] && b[1..][..k - 1] == b[..k][1..];
      assert a[1..][k - 1] < b[1..][k - 1];
    }
  }

  lemma FirstDecides(a: string, b: string)
    requires a != [] && b != [] && a[0] != b[0]
    ensures Before(a, b) <==> a[0] < b[0]
  {
    forall k | 0 < k <= |a| && k <= |b|
      ensures a[..k] != b[..k]
    {
      assert a[..k][0] != b[..k][0];
    }
    assert a[..|a|] == a;
    if a[0] < b[0] {
      assert a[..0] == b[..0];
    }
  }

  lemma SameFront(a: string, b: string, k: nat)
    requires a != [] && b != [] && a[0] == b[0] && k < |a| - 1 && k < |b| - 1 && a[1..][..k] == b[1..][..k]
    ensures a[..k + 1] == b[..k + 1]
  {
    assert a[..k + 1] == [a[0]] + a[1..][..k] && b[..k + 1] == [b[0]] + b[1..][..k];
  }

  predicate InOrder(paths: seq<string>) {
    forall i, j :: 0 <= i < j < |paths| ==> Before(paths[i], paths[j])
  }

  // ---- patterns ----

  // What stands in front of the name: nothing, the root's slash, or a directory and a slash.
  function Front(dir: Option<string>): string {
    if dir.None? then "" else if dir.value == "/" then "/" else dir.value + "/"
  }

  // A directory without * and ?, and a name with at least one of them and no two * in a row.
  predicate IsPattern(dir: Option<string>, base: string) {
    && (dir.Some? ==> dir.value != "" && '*' !in dir.value && '?' !in dir.value && |dir.value| < 4096)
    && '/' !in base && ('*' in base || '?' in base)
    && forall i :: 0 < i < |base| ==> base[i - 1] != '*' || base[i] != '*'
  }

  // A name of the directory that is meant: hidden names only by a pattern that begins with a dot.
  ghost predicate Meant(base: string, names: seq<string>, n: string) {
    && n in names && n != "." && n != ".." && Matches(base, n)
    && (n != [] && n[0] == '.' ==> base[0] == '.')
  }

  lemma {:induction false} SlashAt(front: string, base: string)
    requires '/' !in base && front != [] && front[|front| - 1] == '/'
    ensures LastSlash(front + base) == |front| - 1
    decreases |base|
  {
    var s := front + base;
    if base == [] {
      assert s == front;
    } else {
      assert s[|s| - 1] == base[|base| - 1] && s[..|s| - 1] == front + base[..|base| - 1];
      SlashAt(front, base[..|base| - 1]);
    }
  }

  lemma {:induction false} NoSlash(base: string)
    requires '/' !in base
    ensures LastSlash(base) == -1
    decreases |base|
  {
    if base != [] {
      NoSlash(base[..|base| - 1]);
    }
  }

  // How such a pattern is taken apart.
  lemma Parts(dir: Option<string>, base: string)
    requires IsPattern(dir, base)
    ensures var p := Front(dir) + base;
            && (dir != Some("/") ==> DirOf(p) == dir) && (dir == Some("/") ==> DirOf(p) == Some("/"))
            && BaseOf(p) == base && !IsLiteral(p)
  {
    hide HasTwoStars, HasMeta, LastSlash;
    var front := Front(dir);
    var p := front + base;
    Stars(dir, base);
    if dir.None? {
      NoSlash(base);
      assert p == base && p[0..] == base;
    } else {
      SlashAt(front, base);
      assert p[|front|..] == base && p[..|front| - 1] == front[..|front| - 1];
      if dir.value != "/" {
        assert front[..|front| - 1] == dir.value;
      }
    }
  }

  lemma Stars(dir: Option<string>, base: string)
    requires IsPattern(dir, base)
    ensures !HasTwoStars(Front(dir) + base) && HasMeta(base) && (dir.Some? ==> !HasMeta(dir.value)) && !HasMeta("/")
  {
    var front := Front(dir);
    var p := front + base;
    forall i | 0 < i < |p|
      ensures !(p[i - 1] == '*' && p[i] == '*')
    {
      assert i - 1 < |front| ==> p[i - 1] == front[i - 1] && (i - 1 == |front| - 1 || front[i - 1] in dir.value);
      assert i - 1 >= |front| ==> p[i - 1] == base[i - 1 - |front|] && p[i] == base[i - |front|];
    }
    var c := if '*' in base then '*' else '?';
    var k :| 0 <= k < |base| && base[k] == c;
    if dir.Some? {
      assert forall i :: 0 <= i < |dir.value| ==> dir.value[i] in dir.value;
    }
  }

  lemma PathIs(dir: Option<string>, n: string)
    ensures Path(dir, n) == Front(dir) + n
  {
  }

  lemma MeantIsHit(base: string, names: seq<string>, n: string)
    requires base != []
    ensures Meant(base, names, n) <==> n in names && Hit(base, n)
  {
    hide Matches;
  }

  // The pattern becomes the paths of the names that are meant, in order; without one it stays.
  lemma PatternGives(files: Files, dir: Option<string>, base: string, names: seq<string>)
    requires IsPattern(dir, base) && files(if dir.Some? then dir.value else ".") == Some(names)
    requires |names| <= 256 && forall n :: n in names ==> |Front(dir)| + |n| < 4096
    ensures var r := GlobWord(files, Front(dir) + base);
            && r.Some?
            && ((forall n :: !Meant(base, names, n)) ==> r.value == [Front(dir) + base])
            && ((exists n :: Meant(base, names, n)) ==>
                  && InOrder(r.value)
                  && forall path :: path in r.value <==> exists n :: Meant(base, names, n) && path == Front(dir) + n)
  {
    hide Matches, IsLiteral, Hit, DirOf, BaseOf, Leq, Before, Sort, LastSlash;
    var p := Front(dir) + base;
    Parts(dir, base);
    HitsAre(base, names);
    var hits := Hits(base, names);
    var paths := Paths(dir, hits);
    forall n
      ensures Meant(base, names, n) <==> n in hits
    {
      MeantIsHit(base, names, n);
    }
    forall i | 0 <= i < |paths|
      ensures |paths[i]| < 4096
    {
      assert hits[i] in hits;
      PathIs(dir, hits[i]);
    }
    hide Path;
    if hits == [] {
      assert paths == [];
    } else {
      assert hits[0] in hits;
      SortIs(paths);
      Ordered(Sort(paths));
      forall path
        ensures path in Sort(paths) <==> exists n :: Meant(base, names, n) && path == Front(dir) + n
      {
        SameMembers(paths, path);
        Listed(dir, hits, path);
      }
    }
  }

  // With more than 256 of them the word is left alone.
  lemma TooManyStay(files: Files, dir: Option<string>, base: string, names: seq<string>)
    requires IsPattern(dir, base) && files(if dir.Some? then dir.value else ".") == Some(names)
    requires |names| > 256 && forall n :: n in names ==> Meant(base, names, n)
    ensures GlobWord(files, Front(dir) + base).None?
  {
    hide Matches, IsLiteral, Hit, DirOf, BaseOf;
    Parts(dir, base);
    forall n | n in names
      ensures Hit(base, n)
    {
      MeantIsHit(base, names, n);
    }
    AllHit(base, names);
  }

  lemma {:induction false} AllHit(base: string, names: seq<string>)
    requires forall n :: n in names ==> Hit(base, n)
    ensures Hits(base, names) == names
    decreases |names|
  {
    hide Hit;
    if names != [] {
      var k := |names| - 1;
      AllHit(base, names[..k]);
      assert names == names[..k] + [names[k]];
    }
  }

  lemma Listed(dir: Option<string>, hits: seq<string>, path: string)
    ensures path in Paths(dir, hits) <==> exists n :: n in hits && path == Front(dir) + n
  {
    hide Front;
    var paths := Paths(dir, hits);
    if path in paths {
      var i :| 0 <= i < |paths| && paths[i] == path;
      PathIs(dir, hits[i]);
    }
    if n :| n in hits && path == Front(dir) + n {
      var i :| 0 <= i < |hits| && hits[i] == n;
      PathIs(dir, n);
      assert paths[i] == path;
    }
  }

  lemma Ordered(paths: seq<string>)
    requires Sorted(paths)
    ensures InOrder(paths)
  {
    hide Leq, Before;
    forall i, j | 0 <= i < j < |paths|
      ensures Before(paths[i], paths[j])
    {
      LeqIsBefore(paths[i], paths[j]);
    }
  }

  // ---- what patterns match ----

  // Two halves match if each matches its part; a pattern without * and ? matches itself only, ? any one
  // character, * any text.
  lemma Literally(pat: string, str: string)
    requires '*' !in pat && '?' !in pat
    ensures Matches(pat, str) <==> str == pat
  {
    if pat != [] && str != [] {
      assert pat == [pat[0]] + pat[1..] && str == [str[0]] + str[1..];
      Literally(pat[1..], str[1..]);
    }
  }

  lemma StarFirst(after: string, str: string)
    requires '*' !in after && '?' !in after
    ensures Matches("*" + after, str) <==> |str| >= |after| && str[|str| - |after|..] == after
  {
    var pat := "*" + after;
    assert pat[0] == '*' && pat[1..] == after;
    assert Matches(pat, str) <==> exists k :: 0 <= k <= |str| && Matches(pat[1..], str[k..]);
    hide Matches;
    forall k | 0 <= k <= |str|
      ensures Matches(after, str[k..]) <==> str[k..] == after
    {
      Literally(after, str[k..]);
    }
    if |str| >= |after| && str[|str| - |after|..] == after {
      assert Matches(pat[1..], str[|str| - |after|..]);
    }
  }

  lemma OneMore(pat: string, str: string)
    requires pat != [] && pat[0] != '*' && pat[0] != '?'
    ensures Matches(pat, str) <==> str != [] && str[0] == pat[0] && Matches(pat[1..], str[1..])
  {
  }

  // Text around one *: what is before it, anything, what is after it.
  lemma {:induction false} AroundStar(before: string, after: string, str: string)
    requires '*' !in before && '?' !in before && '*' !in after && '?' !in after
    ensures Matches(before + "*" + after, str) <==>
            |str| >= |before| + |after| && str[..|before|] == before && str[|str| - |after|..] == after
    decreases |before|
  {
    hide Matches;
    var pat := before + "*" + after;
    if before == [] {
      assert pat == "*" + after;
      StarFirst(after, str);
    } else {
      assert pat[0] == before[0] && pat[1..] == before[1..] + "*" + after && before[0] in before;
      OneMore(pat, str);
      if str != [] {
        AroundStar(before[1..], after, str[1..]);
        Around(before, after, str);
      }
    }
  }

  lemma Around(before: string, after: string, str: string)
    requires before != [] && str != []
    ensures |str| >= |before| + |after| && str[..|before|] == before && str[|str| - |after|..] == after <==>
            && str[0] == before[0] && |str[1..]| >= |before[1..]| + |after|
            && str[1..][..|before[1..]|] == before[1..] && str[1..][|str[1..]| - |after|..] == after
  {
    assert before == [before[0]] + before[1..];
    if |str| >= |before| + |after| {
      assert str[..|before|] == [str[0]] + str[1..][..|before| - 1];
      assert str[1..][|str| - 1 - |after|..] == str[|str| - |after|..];
    }
  }

  // Text around one ?: exactly one character in its place.
  lemma {:induction false} AroundQuestion(before: string, after: string, str: string)
    requires '*' !in before && '?' !in before && '*' !in after && '?' !in after
    ensures Matches(before + "?" + after, str) <==>
            |str| == |before| + 1 + |after| && str[..|before|] == before && str[|before| + 1..] == after
    decreases |before|
  {
    var pat := before + "?" + after;
    if before == [] {
      assert pat[0] == '?' && pat[1..] == after;
      if str != [] {
        Literally(after, str[1..]);
      }
    } else {
      assert pat[0] == before[0] && pat[1..] == before[1..] + "?" + after && before[0] in before;
      assert before == [before[0]] + before[1..];
      if str != [] {
        AroundQuestion(before[1..], after, str[1..]);
        if |str| >= |before| {
          assert str[..|before|] == [str[0]] + str[1..][..|before| - 1];
        }
        if |str| >= |before| + 1 {
          assert str[1..][|before|..] == str[|before| + 1..];
        }
      }
    }
  }
}
