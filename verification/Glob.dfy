// Pattern matching with `*` and `?`, as used for path names and for `case`. Both C loops remember
// only the last `*`; they are proved to decide the declarative relation, on every pattern.
module Glob {

  // The meaning of a pattern: `*` stands for any run of characters, `?` for one.
  ghost predicate Matches(pat: string, str: string)
    decreases |pat|
  {
    if pat == [] then str == []
    else if pat[0] == '*' then exists k :: 0 <= k <= |str| && Matches(pat[1..], str[k..])
    else str != [] && (pat[0] == '?' || pat[0] == str[0]) && Matches(pat[1..], str[1..])
  }

  // The rest of the pattern from p matches the rest of the string from s.
  ghost predicate MatchesFrom(pat: string, p: nat, str: string, s: nat)
    requires p <= |pat| && s <= |str|
  {
    Matches(pat[p..], str[s..])
  }

  // The star just before p can still be placed anywhere from s on.
  ghost predicate StarFrom(pat: string, p: nat, str: string, s: nat)
    requires p <= |pat| && s <= |str|
  {
    exists k :: s <= k <= |str| && MatchesFrom(pat, p, str, k)
  }

  lemma Unfold(pat: string, p: nat, str: string, s: nat)
    requires p < |pat| && s <= |str|
    ensures pat[p] == '*' ==> MatchesFrom(pat, p, str, s) == StarFrom(pat, p + 1, str, s)
    ensures pat[p] != '*' ==>
              (MatchesFrom(pat, p, str, s) <==>
               s < |str| && (pat[p] == '?' || pat[p] == str[s]) && MatchesFrom(pat, p + 1, str, s + 1))
  {
    assert pat[p..][1..] == pat[p + 1..];
    if pat[p] == '*' {
      if MatchesFrom(pat, p, str, s) {
        var k :| 0 <= k <= |str[s..]| && Matches(pat[p + 1..], str[s..][k..]);
        assert str[s..][k..] == str[s + k..];
        assert MatchesFrom(pat, p + 1, str, s + k);
      }
      if StarFrom(pat, p + 1, str, s) {
        var k :| s <= k <= |str| && MatchesFrom(pat, p + 1, str, k);
        assert str[s..][k - s..] == str[k..];
      }
    } else if s < |str| {
      assert str[s..][1..] == str[s + 1..];
    }
  }

  // pat[a..b] has no star, so it takes exactly b - a characters.
  lemma {:induction false} Block(pat: string, a: nat, b: nat, str: string, s: nat)
    requires a <= b <= |pat| && s <= |str| && '*' !in pat[a..b]
    requires MatchesFrom(pat, a, str, s)
    ensures s + (b - a) <= |str| && MatchesFrom(pat, b, str, s + (b - a))
    decreases b - a
  {
    if a < b {
      assert pat[a] in pat[a..b];
      Unfold(pat, a, str, s);
      assert forall c :: c in pat[a + 1..b] ==> c in pat[a..b];
      Block(pat, a + 1, b, str, s + 1);
    }
  }

  // Backtracking past a later star is never needed: what the star at p - 1 allows, with the block
  // pat[p..q] placed at s, is what the rest from q allows, when pat[q] is a star or str is used up.
  lemma LastStarSuffices(pat: string, p: nat, q: nat, str: string, s: nat)
    requires p <= q <= |pat| && s + (q - p) <= |str| && '*' !in pat[p..q]
    requires MatchesFrom(pat, p, str, s) == MatchesFrom(pat, q, str, s + (q - p))
    requires (q < |pat| && pat[q] == '*') || s + (q - p) == |str|
    ensures StarFrom(pat, p, str, s) == MatchesFrom(pat, q, str, s + (q - p))
  {
    var t := s + (q - p);
    if StarFrom(pat, p, str, s) {
      var k :| s <= k <= |str| && MatchesFrom(pat, p, str, k);
      Block(pat, p, q, str, k);
      if t < |str| {
        Unfold(pat, q, str, k + (q - p));
        Unfold(pat, q, str, t);
      }
    }
  }

  // Nothing matches at s, so the star takes one more character.
  lemma StarAdvances(pat: string, p: nat, str: string, s: nat)
    requires p <= |pat| && s < |str| && !MatchesFrom(pat, p, str, s)
    ensures StarFrom(pat, p, str, s) == StarFrom(pat, p, str, s + 1)
  {
    if StarFrom(pat, p, str, s) {
      var k :| s <= k <= |str| && MatchesFrom(pat, p, str, k);
    }
  }

  lemma OnlyStarsMatchEmpty(pat: string, p: nat, str: string)
    requires p <= |pat|
    ensures p == |pat| ==> MatchesFrom(pat, p, str, |str|)
    ensures p < |pat| && pat[p] == '*' ==> MatchesFrom(pat, p, str, |str|) == MatchesFrom(pat, p + 1, str, |str|)
    ensures p < |pat| && pat[p] != '*' ==> !MatchesFrom(pat, p, str, |str|)
  {
    if p < |pat| {
      Unfold(pat, p, str, |str|);
    }
  }

  // What the search still has to decide: with no star seen, the rests; else the last star's choices.
  ghost predicate Pending(pat: string, str: string, p: nat, s: nat, starP: int, starS: int) {
    && p <= |pat| && s <= |str|
    && (starP < 0 ==> Matches(pat, str) == MatchesFrom(pat, p, str, s))
    && (starP >= 0 ==>
          && starP <= p && 0 <= starS && s - starS == p - starP && '*' !in pat[starP..p]
          && MatchesFrom(pat, starP, str, starS) == MatchesFrom(pat, p, str, s)
          && Matches(pat, str) == StarFrom(pat, starP, str, starS))
  }

  lemma SeeStar(pat: string, str: string, p: nat, s: nat, starP: int, starS: int)
    requires Pending(pat, str, p, s, starP, starS) && p < |pat| && pat[p] == '*'
    ensures Pending(pat, str, p + 1, s, p + 1, s)
  {
    Unfold(pat, p, str, s);
    if starP >= 0 {
      LastStarSuffices(pat, starP, p, str, starS);
    }
  }

  lemma SeeChar(pat: string, str: string, p: nat, s: nat, starP: int, starS: int)
    requires Pending(pat, str, p, s, starP, starS) && p < |pat| && s < |str|
    requires pat[p] != '*' && (pat[p] == '?' || pat[p] == str[s])
    ensures Pending(pat, str, p + 1, s + 1, starP, starS)
  {
    Unfold(pat, p, str, s);
    if starP >= 0 {
      assert pat[starP..p + 1] == pat[starP..p] + [pat[p]];
    }
  }

  lemma SeeMismatch(pat: string, str: string, p: nat, s: nat, starP: int, starS: int)
    requires Pending(pat, str, p, s, starP, starS) && s < |str|
    requires p < |pat| ==> pat[p] != '*' && pat[p] != '?' && pat[p] != str[s]
    ensures starP >= 0 ==> Pending(pat, str, starP, starS + 1, starP, starS + 1)
    ensures starP < 0 ==> !Matches(pat, str)
  {
    if p < |pat| {
      Unfold(pat, p, str, s);
    }
    if starP >= 0 {
      StarAdvances(pat, starP, str, starS);
    }
  }

  lemma SeeEnd(pat: string, str: string, p: nat, starP: int, starS: int)
    requires Pending(pat, str, p, |str|, starP, starS)
    ensures Matches(pat, str) == MatchesFrom(pat, p, str, |str|)
  {
    if starP >= 0 {
      LastStarSuffices(pat, starP, p, str, starS);
    }
  }

  // The loop of `case` patterns.
  method CasePatMatch(pat: string, str: string) returns (r: bool)
    ensures r == Matches(pat, str)
  {
    var p, s, starP, starS := 0, 0, -1, -1;
    while s < |str|
      invariant Pending(pat, str, p, s, starP, starS)
      invariant starP < 0 ==> starS == -1
      decreases |str| - starS, |str| - s, |pat| - p
    {
      if p < |pat| && pat[p] == '*' {
        SeeStar(pat, str, p, s, starP, starS);
        p := p + 1;
        starP, starS := p, s;
        continue;
      }
      if p < |pat| && (pat[p] == '?' || pat[p] == str[s]) {
        SeeChar(pat, str, p, s, starP, starS);
        p, s := p + 1, s + 1;
        continue;
      }
      SeeMismatch(pat, str, p, s, starP, starS);
      if starP >= 0 {
        starS := starS + 1;
        p, s := starP, starS;
        continue;
      }
      return false;
    }
    SeeEnd(pat, str, p, starP, starS);
    OnlyStarsMatchEmpty(pat, p, str);
    while p < |pat| && pat[p] == '*'
      invariant p <= |pat| && Matches(pat, str) == MatchesFrom(pat, p, str, |str|)
    {
      OnlyStarsMatchEmpty(pat, p, str);
      p := p + 1;
    }
    OnlyStarsMatchEmpty(pat, p, str);
    return p == |pat|;
  }

  // The loop of path names: runs of stars are taken at once, and a final star accepts at once.
  method MatchPat(pat: string, str: string) returns (r: bool)
    ensures r == Matches(pat, str)
  {
    var p, s, starP, starS := 0, 0, -1, -1;
    while s < |str|
      invariant Pending(pat, str, p, s, starP, starS)
      invariant starP < 0 ==> starS == -1
      decreases |str| - starS, |str| - s, |pat| - p
    {
      if p < |pat| && pat[p] == '*' {
        SeeStar(pat, str, p, s, starP, starS);
        p := p + 1;
        starP, starS := p, s;
        while p < |pat| && pat[p] == '*'
          invariant p <= |pat| && starP == p && starS == s && Pending(pat, str, p, s, starP, starS)
        {
          SeeStar(pat, str, p, s, starP, starS);
          p := p + 1;
          starP := p;
        }
        if p == |pat| {
          assert MatchesFrom(pat, p, str, |str|);
          return true;
        }
      } else if p < |pat| && (pat[p] == '?' || pat[p] == str[s]) {
        SeeChar(pat, str, p, s, starP, starS);
        p, s := p + 1, s + 1;
      } else {
        SeeMismatch(pat, str, p, s, starP, starS);
        if starP >= 0 {
          starS := starS + 1;
          p, s := starP, starS;
        } else {
          return false;
        }
      }
    }
    SeeEnd(pat, str, p, starP, starS);
    OnlyStarsMatchEmpty(pat, p, str);
    while p < |pat| && pat[p] == '*'
      invariant p <= |pat| && Matches(pat, str) == MatchesFrom(pat, p, str, |str|)
    {
      OnlyStarsMatchEmpty(pat, p, str);
      p := p + 1;
    }
    OnlyStarsMatchEmpty(pat, p, str);
    return p == |pat|;
  }
}
