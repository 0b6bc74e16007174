// What the words of a script become, said on the words and without the functions that expand them:
// the positionals, quoting, ~, $ and path patterns.
module ExpandLaws {
  import opened CStrings
  import opened Ast
  import opened Glob
  import opened PathGlob
  import opened PathLaws
  import opened Expand
  import opened ExpandTwice

  lemma Alone(env: Env, w: Word)
    ensures Both(env, [w]) == SecondPass(env, First(env, w))
  {
    hide First, SecondPass;
    assert [w][1..] == [] && FirstPass(env, []) == [];
    assert First(env, w) + [] == First(env, w);
  }

  // ---- $@ and $* ----

  // $@, in double quotes or not, and bare $* become one literal word per positional.
  lemma PositionalsSplice(env: Env)
    ensures Both(env, [Word("$@", 0)]) == Literals(env.args)
    ensures Both(env, [Word("$@", 2)]) == Literals(env.args)
    ensures Both(env, [Word("$*", 0)]) == Literals(env.args)
  {
    assert "$@"[1] == '@' && "$*"[1] == '*';
    LiteralsStay(env, env.args);
    Alone(env, Word("$@", 0));
    Alone(env, Word("$@", 2));
    Alone(env, Word("$*", 0));
  }

  // The pieces of a text between separators.
  function CutAt(text: string, sep: char): seq<string>
    decreases |text|
  {
    var k := IndexOf(text, sep);
    if k == |text| then [text] else [text[..k]] + CutAt(text[k + 1..], sep)
  }

  // $* in double quotes becomes one word: empty without positionals, and else one that the separator
  // cuts into the positionals, when none of them holds it.
  lemma StarJoins(env: Env)
    ensures exists text: string ::
              && Both(env, [Word("$*", 2)]) == [Word(text, 2)]
              && (env.args == [] ==> text == "")
              && (env.args != [] && (forall a :: a in env.args ==> env.sep !in a) ==> CutAt(text, env.sep) == env.args)
  {
    assert "$*"[1] == '*' && "$@"[1] == '@';
    var text := JoinArgs(env.args, env.sep);
    Alone(env, Word("$*", 2));
    SecondOfOne(env, Word(text, 2));
    assert Both(env, [Word("$*", 2)]) == [Word(text, 2)];
    if env.args != [] && (forall a :: a in env.args ==> env.sep !in a) {
      CutJoined(env.args, env.sep);
    }
  }

  lemma {:induction false} CutJoined(args: seq<string>, sep: char)
    requires args != [] && forall a :: a in args ==> sep !in a
    ensures CutAt(JoinArgs(args, sep), sep) == args
    decreases |args|
  {
    hide CutAt;
    var a := args[0];
    assert a in args;
    if |args| == 1 {
      CutLast(a, sep);
    } else {
      var rest := JoinArgs(args[1..], sep);
      assert JoinArgs(args, sep) == a + [sep] + rest;
      CutFirst(a, sep, rest);
      CutJoined(args[1..], sep);
      assert args == [a] + args[1..];
    }
  }

  lemma CutLast(a: string, sep: char)
    requires sep !in a
    ensures CutAt(a, sep) == [a]
  {
    FirstAt(a, sep, "");
    assert a + "" == a;
  }

  lemma CutFirst(a: string, sep: char, rest: string)
    requires sep !in a
    ensures CutAt(a + [sep] + rest, sep) == [a] + CutAt(rest, sep)
  {
    FirstAt(a, sep, [sep] + rest);
    var text := a + [sep] + rest;
    assert text == a + ([sep] + rest);
    assert text[..|a|] == a && text[|a| + 1..] == rest;
  }

  lemma {:induction false} FirstAt(a: string, c: char, rest: string)
    requires c !in a && (rest != [] ==> rest[0] == c)
    ensures IndexOf(a + rest, c) == |a|
    decreases |a|
  {
    if a == [] {
      assert a + rest == rest;
    } else {
      assert (a + rest)[1..] == a[1..] + rest;
      FirstAt(a[1..], c, rest);
    }
  }

  // ---- quoting ----

  // What single quotes held, and what positionals and matches have become, stays whatever it holds.
  lemma LiteralStays(env: Env, text: string)
    ensures Both(env, [Word(text, 1)]) == [Word(text, 1)]
  {
    Alone(env, Word(text, 1));
    SecondOfOne(env, Word(text, 1));
  }

  predicate NothingToExpand(text: string) {
    '$' !in text && (text != [] ==> text[0] != '~')
  }

  // Without a $ and a ~ in front a word in double quotes stays, and so does a bare one without * and ?.
  lemma PlainStays(env: Env, text: string, mark: int)
    requires NothingToExpand(text)
    requires mark == 2 || (mark == 0 && '*' !in text && '?' !in text)
    ensures Both(env, [Word(text, mark)]) == [Word(text, mark)]
  {
    hide Params, GlobWord, HasMeta, HasTilde;
    NoDollarStays(env, text);
    PlainIsNoToken(text);
    NoMeta(text);
    Alone(env, Word(text, mark));
    SecondOfOne(env, Word(text, mark));
  }

  lemma NoMeta(text: string)
    ensures HasMeta(text) <==> '*' in text || '?' in text
  {
    if '*' in text {
      var i :| 0 <= i < |text| && text[i] == '*';
    }
    if '?' in text {
      var i :| 0 <= i < |text| && text[i] == '?';
    }
  }

  // ---- ~ and $ ----

  // ~ alone and ~/ in front are the home directory.
  lemma TildeIsHome(env: Env, rest: string)
    requires rest == "" || rest[0] == '/'
    ensures Both(env, [Word("~" + rest, 2)]) == [Word(env.home + rest, 2)]
  {
    var text := "~" + rest;
    assert text[0] == '~' && text[1..] == rest;
    assert "$@"[0] == '$' && "$*"[0] == '$';
    Alone(env, Word(text, 2));
    SecondOfOne(env, Word(env.home + rest, 2));
  }

  // A $ form is replaced where it stands: the text in front stays, and what follows goes on being read.
  lemma {:induction false} DollarReplaced(env: Env, front: string, form: string)
    requires '$' !in front && |form| > 1 && form[0] == '$' && 1 <= env.dollar(form).1 <= |form|
    ensures var (value, len) := env.dollar(form);
            Params(env, front + form, false) == front + (value + Params(env, form[len..], false))
    decreases |front|
  {
    if front == [] {
      assert front + form == form;
    } else {
      assert (front + form)[1..] == front[1..] + form && front == [front[0]] + front[1..];
      DollarReplaced(env, front[1..], form);
      var (value, len) := env.dollar(form);
      var more := value + Params(env, form[len..], false);
      assert [front[0]] + (front[1..] + more) == front + more;
    }
  }

  // A word in double quotes is that: its value stays one word, with blanks and patterns in it.
  lemma DollarInQuotes(env: Env, front: string, form: string)
    requires '$' !in front && (front != [] ==> front[0] != '~') && form !in ["$@", "$*"]
    requires |form| > 1 && form[0] == '$' && env.dollar(form).1 == |form|
    ensures Both(env, [Word(front + form, 2)]) == [Word(front + env.dollar(form).0, 2)]
  {
    DollarReplaced(env, front, form);
    var text, value := front + form, env.dollar(form).0;
    assert form[|form|..] == "" && front + (value + "") == front + value;
    assert text[0] == if front == [] then '$' else front[0];
    assert text != "$@" && text != "$*" by {
      if front == [] { assert text == form; } else { assert '$' !in front && "$@"[0] == '$' && "$*"[0] == '$'; }
    }
    Alone(env, Word(text, 2));
    SecondOfOne(env, Word(front + value, 2));
  }

  // ---- path patterns ----

  // A bare pattern without $ becomes literal words, the paths of the names that are meant in order; it
  // stays when there are none, and when the one path is the pattern itself.
  lemma PatternsAreNames(env: Env, dir: Option<string>, base: string, names: seq<string>)
    requires IsPattern(dir, base) && env.files(if dir.Some? then dir.value else ".") == Some(names)
    requires |names| <= 256 && forall n :: n in names ==> |Front(dir)| + |n| < 4096
    requires '$' !in Front(dir) + base && (Front(dir) + base)[0] != '~'
    ensures var pattern := Front(dir) + base;
            var r := Both(env, [Word(pattern, 0)]);
            if forall n :: !Meant(base, names, n) then r == [Word(pattern, 0)]
            else exists paths ::
              && InOrder(paths)
              && (forall path :: path in paths <==> exists n :: Meant(base, names, n) && path == Front(dir) + n)
              && r == if paths == [pattern] then [Word(pattern, 0)] else Literals(paths)
  {
    hide Params, GlobWord, HasMeta, HasTilde, Meant, IsPattern, InOrder, SecondPass;
    var pattern := Front(dir) + base;
    NoDollarStays(env, pattern);
    PlainIsNoToken(pattern);
    Metas(dir, base);
    Alone(env, Word(pattern, 0));
    SecondOfOne(env, Word(pattern, 0));
    PatternGives(env.files, dir, base, names);
    var g := GlobWord(env.files, pattern).value;
    assert Both(env, [Word(pattern, 0)]) == Second(env, Word(pattern, 0));
  }

  lemma Metas(dir: Option<string>, base: string)
    requires IsPattern(dir, base)
    ensures HasMeta(Front(dir) + base)
  {
    var p := Front(dir) + base;
    var c := if '*' in base then '*' else '?';
    var k :| 0 <= k < |base| && base[k] == c;
    assert p[|Front(dir)| + k] == c;
  }

  // ---- here-documents and redirections ----

  // The text of a here-document whose delimiter was quoted stays, any other stays up to $ and backslash.
  lemma BodyText(env: Env, c: Cmd)
    requires c.hereBody.Some?
    ensures var d := OtherFields(env, c);
            && (c.hereQuoted ==> d.hereBody == c.hereBody)
            && ('$' !in c.hereBody.value && '\\' !in c.hereBody.value ==> d.hereBody == c.hereBody)
  {
    if '$' !in c.hereBody.value && '\\' !in c.hereBody.value {
      NothingSpecial(env, c.hereBody.value);
    }
  }

  // There a backslash takes the meaning from $, ` and itself, and joins a line to the next.
  lemma Escapes(env: Env, c: char, rest: string)
    ensures c in "$`\\" ==> Params(env, ['\\', c] + rest, true) == [c] + Params(env, rest, true)
    ensures Params(env, "\\\n" + rest, true) == Params(env, rest, true)
  {
    assert "$`\\" == ['$', '`', '\\'];
    assert (['\\', c] + rest)[2..] == rest && ("\\\n" + rest)[2..] == rest;
  }

  lemma {:induction false} NothingSpecial(env: Env, s: string)
    requires '$' !in s && '\\' !in s
    ensures Params(env, s, true) == s
  {
    if s != [] {
      assert s == [s[0]] + s[1..];
      NothingSpecial(env, s[1..]);
    }
  }

  // The paths of redirections are read as words are, the flags and the delimiters stay.
  lemma RedirectedPaths(env: Env, c: Cmd)
    ensures var d := OtherFields(env, c);
            && (c.redirOut.Some? && NothingToExpand(c.redirOut.value) ==> d.redirOut == c.redirOut)
            && (c.redirIn == Some("~/x") ==> d.redirIn == Some(env.home + "/x"))
            && d.redirAppend == c.redirAppend && d.hereDelim == c.hereDelim && d.redirErrToOut == c.redirErrToOut
  {
    if c.redirOut.Some? && '$' !in c.redirOut.value {
      NoDollarStays(env, c.redirOut.value);
    }
    assert "~/x"[1..] == "/x";
  }
}
