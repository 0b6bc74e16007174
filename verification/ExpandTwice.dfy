// Arguments are expanded twice when a pipeline has one stage (src/mid/dispatcher.c:1320-1331). When
// the second time changes nothing.
module ExpandTwice {
  import opened CStrings
  import opened PathGlob
  import opened Expand

  // The number of words that are not marked as literal.
  function Open(words: seq<Word>): nat {
    if words == [] then 0 else (if words[0].mark != 1 then 1 else 0) + Open(words[1..])
  }

  lemma {:induction false} OpenBoth(a: seq<Word>, b: seq<Word>)
    ensures Open(a + b) == Open(a) + Open(b)
  {
    if a == [] {
      assert a + b == b;
    } else {
      assert (a + b)[1..] == a[1..] + b;
      OpenBoth(a[1..], b);
    }
  }

  lemma {:induction false} LiteralsClosed(texts: seq<string>)
    ensures Open(Literals(texts)) == 0
  {
    if texts != [] {
      assert Literals(texts)[1..] == Literals(texts[1..]);
      LiteralsClosed(texts[1..]);
    }
  }

  // ---- both passes, word by word ----

  // The expansion of a list is that of its words, in order.
  lemma {:induction false} BothIsPerWord(env: Env, words: seq<Word>)
    ensures words == [] ==> Both(env, words) == []
    ensures words != [] ==> Both(env, words) == Image(env, words[0]) + Both(env, words[1..])
  {
    if words != [] {
      SecondPassBoth(env, First(env, words[0]), FirstPass(env, words[1..]));
    }
  }

  // Literal words stay as they are, whatever they contain.
  lemma {:induction false} LiteralsStay(env: Env, texts: seq<string>)
    ensures SecondPass(env, Literals(texts)) == Literals(texts)
  {
    if texts != [] {
      assert Literals(texts)[1..] == Literals(texts[1..]);
      LiteralsStay(env, texts[1..]);
    }
  }

  lemma SecondOfOne(env: Env, w: Word)
    ensures SecondPass(env, [w]) == Second(env, w)
  {
    assert SecondPass(env, []) == [];
  }

  // A word becomes one word with its mark, or literal words only.
  lemma ImageShape(env: Env, w: Word)
    ensures var r := Image(env, w);
            || (|r| == 1 && r[0].mark == w.mark)
            || (w.mark != 1 && Open(r) == 0)
  {
    hide GlobWord, HasMeta, ExpandWord;
    var f := First(env, w);
    if w.mark != 1 && IsSplice(w) {
      LiteralsStay(env, env.args);
      LiteralsClosed(env.args);
    } else {
      assert f == [f[0]];
      SecondOfOne(env, f[0]);
      var g := GlobWord(env.files, f[0].text);
      if g.Some? {
        LiteralsClosed(g.value);
      }
    }
  }

  // Every word the expansion leaves is one the second pass would leave alone.
  lemma {:induction false} PathsDone(env: Env, words: seq<Word>)
    ensures forall w :: w in SecondPass(env, words) ==> Second(env, w) == [w]
  {
    hide GlobWord, HasMeta;
    if words != [] {
      PathsDone(env, words[1..]);
      forall w | w in Second(env, words[0]) ensures Second(env, w) == [w] {
      }
    }
  }

  // ---- when a word stays ----

  // What expanding the text of a word gives, in place.
  function NewText(env: Env, w: Word): string {
    if w.text == "$*" then JoinArgs(env.args, env.sep) else ExpandWord(env, w.text)
  }

  // A word that stays: a literal one, or one that is no $@ or bare $* and whose text expands to itself.
  predicate Settled(env: Env, w: Word) {
    w.mark == 1 || (!IsSplice(w) && NewText(env, w) == w.text)
  }

  lemma SettledStays(env: Env, w: Word)
    requires Second(env, w) == [w]
    ensures Settled(env, w) <==> Image(env, w) == [w]
  {
    hide GlobWord, HasMeta, ExpandWord, JoinArgs;
    var f := First(env, w);
    if w.mark != 1 && IsSplice(w) {
      LiteralsStay(env, env.args);
      assert Image(env, w) == Literals(env.args);
    } else {
      assert f == [f[0]];
      SecondOfOne(env, f[0]);
    }
  }

  // No word can make up for another: the whole stays only if each word does.
  lemma {:induction false} EachStays(env: Env, words: seq<Word>)
    ensures Open(Both(env, words)) <= Open(words)
    ensures Open(Both(env, words)) == Open(words) ==> |Both(env, words)| == |words|
    ensures Open(Both(env, words)) == Open(words) ==>
              forall i :: 0 <= i < |words| ==> Image(env, words[i]) == [Both(env, words)[i]]
  {
    hide Both, Image;
    BothIsPerWord(env, words);
    if words != [] {
      var w, r := words[0], Image(env, words[0]);
      EachStays(env, words[1..]);
      ImageShape(env, w);
      OpenBoth(r, Both(env, words[1..]));
      if |r| == 1 {
        assert r == [r[0]] && r[1..] == [];
      }
    }
  }

  lemma {:induction false} AllStay(env: Env, words: seq<Word>)
    requires forall i :: 0 <= i < |words| ==> Image(env, words[i]) == [words[i]]
    ensures Both(env, words) == words
  {
    hide Both, Image;
    BothIsPerWord(env, words);
    if words != [] {
      assert forall i :: 0 <= i < |words| - 1 ==> words[1..][i] == words[i + 1];
      AllStay(env, words[1..]);
      assert words == [words[0]] + words[1..];
    }
  }

  // Expanding the result again changes nothing exactly when each of its words is settled.
  lemma TwiceExactly(env: Env, words: seq<Word>)
    ensures var r := Both(env, words); Both(env, r) == r <==> forall i :: 0 <= i < |r| ==> Settled(env, r[i])
  {
    hide Both, Image, Settled, Second;
    var r := Both(env, words);
    assert forall w :: w in r ==> Second(env, w) == [w] by {
      BothDone(env, words);
    }
    forall i | 0 <= i < |r| ensures Settled(env, r[i]) <==> Image(env, r[i]) == [r[i]] {
      SettledStays(env, r[i]);
    }
    EachStays(env, r);
    if forall i :: 0 <= i < |r| ==> Settled(env, r[i]) {
      AllStay(env, r);
    }
  }

  lemma BothDone(env: Env, words: seq<Word>)
    ensures forall w :: w in Both(env, words) ==> Second(env, w) == [w]
  {
    PathsDone(env, FirstPass(env, words));
  }

  // ---- a condition that is easy to see ----

  // A text with no $ and no ~ in front.
  predicate Plain(text: string) {
    '$' !in text && (text != [] ==> text[0] != '~')
  }

  lemma {:induction false} NoDollarStays(env: Env, s: string)
    requires '$' !in s
    ensures Params(env, s, false) == s
  {
    if s != [] {
      assert s == [s[0]] + s[1..];
      NoDollarStays(env, s[1..]);
    }
  }

  // With words that are literal or plain the second expansion changes nothing.
  lemma TwiceWhenPlain(env: Env, words: seq<Word>)
    requires forall w :: w in Both(env, words) ==> w.mark == 1 || Plain(w.text)
    ensures Both(env, Both(env, words)) == Both(env, words)
  {
    hide Both, Params;
    var r := Both(env, words);
    forall i | 0 <= i < |r| ensures Settled(env, r[i]) {
      var w := r[i];
      assert w in r;
      if w.mark != 1 {
        NoDollarStays(env, w.text);
        PlainIsNoToken(w.text);
      }
    }
    TwiceExactly(env, words);
  }

  lemma PlainIsNoToken(text: string)
    requires Plain(text)
    ensures text != "$@" && text != "$*" && !HasTilde(text)
  {
    assert "$@"[0] == '$' && "$*"[0] == '$';
  }

  // It is not always so: "$a" in double quotes, with a=$b and b=c, is c after the second time.
  lemma TwiceCanDiffer() returns (env: Env, words: seq<Word>)
    ensures words == [Word("$a", 2)] && Both(env, Both(env, words)) != Both(env, words)
  {
    var dollar := (s: string) =>
      if s == "$a" then ("$b", 2) else if s == "$b" then ("c", 2) else ("", 0);
    env := Env("", [], ' ', dollar, s => None);
    words := [Word("$a", 2)];
    var r := [Word("$b", 2)];
    assert "$a"[2..] == "" && "$b"[2..] == "";
    assert Params(env, "$a", false) == "$b" && Params(env, "$b", false) == "c";
    BothIsPerWord(env, words);
    BothIsPerWord(env, r);
    SecondOfOne(env, Word("$b", 2));
    SecondOfOne(env, Word("c", 2));
    assert words[1..] == [] && r[1..] == [];
    BothIsPerWord(env, []);
    assert Both(env, words) == r;
    assert Both(env, r) == [Word("c", 2)];
  }

  // Nor is being plain needed: a value that is its own expansion, $a in double quotes with a=$a, stays
  // although it has a $.
  lemma PlainIsNotNeeded() returns (env: Env, words: seq<Word>)
    ensures words == [Word("$a", 2)] && Both(env, words) == words && Both(env, Both(env, words)) == Both(env, words)
    ensures words[0].mark != 1 && !Plain(words[0].text)
  {
    env := Env("", [], ' ', s => if s == "$a" then ("$a", 2) else ("", 0), s => None);
    words := [Word("$a", 2)];
    assert "$a"[2..] == "" && '$' in "$a";
    assert Params(env, "$a", false) == "$a";
    SecondOfOne(env, Word("$a", 2));
    BothIsPerWord(env, words);
    BothIsPerWord(env, []);
    assert words[1..] == [];
  }
}
