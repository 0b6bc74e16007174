// expand_cmd_argv, src/mid/expand.c:1187-1373: words are expanded where they stand, $@ and path
// patterns become several, and the array of quote marks is kept in step with the array of words.
module Expand {
  import opened CStrings
  import opened Ast
  import opened Clone
  import opened PathGlob

  // What an expansion depends on. `dollar` gives, for a text that begins with $ and goes on, the
  // replacement and how much of the text it stands for.
  datatype Env = Env(home: string, args: seq<string>, sep: char, dollar: string -> (string, nat), files: Files)

  // An argument with its mark: 0 bare, 1 literal, 2 in double quotes.
  datatype Word = Word(text: string, mark: int)

  // ---- one word ----

  // src/mid/expand.c:709. In here-documents a backslash escapes; in words it has no meaning here.
  function Params(env: Env, s: string, escapes: bool): string
    decreases |s|
  {
    if s == [] then ""
    else if escapes && s[0] == '\\' then
      if |s| == 1 then s
      else if s[1] == '$' || s[1] == '`' || s[1] == '\\' then [s[1]] + Params(env, s[2..], escapes)
      else if s[1] == '\n' then Params(env, s[2..], escapes)
      else s[..2] + Params(env, s[2..], escapes)
    else if s[0] == '$' && |s| > 1 then
      var r := env.dollar(s);
      if 1 <= r.1 <= |s| then r.0 + Params(env, s[r.1..], escapes)
      else "$" + Params(env, s[1..], escapes)
    else [s[0]] + Params(env, s[1..], escapes)
  }

  // src/mid/expand.c:968: ~ and ~/ at the start are the home directory.
  predicate HasTilde(word: string) {
    At(word, 0) == '~' && (At(word, 1) == NUL || At(word, 1) == '/')
  }

  function ExpandWord(env: Env, word: string): string {
    if HasTilde(word) then env.home + word[1..] else Params(env, word, false)
  }

  // $* in double quotes: one word.
  function JoinArgs(args: seq<string>, sep: char): string {
    if args == [] then ""
    else if |args| == 1 then args[0]
    else args[0] + [sep] + JoinArgs(args[1..], sep)
  }

  predicate IsSplice(w: Word) {
    w.mark != 1 && (w.text == "$@" || (w.text == "$*" && w.mark == 0))
  }

  // ---- the two passes, word by word ----

  function Literals(texts: seq<string>): (r: seq<Word>)
    ensures |r| == |texts| && forall i :: 0 <= i < |r| ==> r[i] == Word(texts[i], 1)
  {
    if texts == [] then [] else [Word(texts[0], 1)] + Literals(texts[1..])
  }

  function First(env: Env, w: Word): seq<Word> {
    if w.mark == 1 then [w]
    else if IsSplice(w) then Literals(env.args)
    else if w.text == "$*" then [Word(JoinArgs(env.args, env.sep), w.mark)]
    else [Word(ExpandWord(env, w.text), w.mark)]
  }

  ghost function Second(env: Env, w: Word): seq<Word> {
    if w.mark != 0 || !HasMeta(w.text) then [w]
    else
      var g := GlobWord(env.files, w.text);
      if g.None? || g.value == [w.text] then [w] else Literals(g.value)
  }

  function FirstPass(env: Env, words: seq<Word>): seq<Word> {
    if words == [] then [] else First(env, words[0]) + FirstPass(env, words[1..])
  }

  ghost function SecondPass(env: Env, words: seq<Word>): seq<Word> {
    if words == [] then [] else Second(env, words[0]) + SecondPass(env, words[1..])
  }

  ghost function Both(env: Env, words: seq<Word>): seq<Word> {
    SecondPass(env, FirstPass(env, words))
  }

  // Both passes on a single word.
  ghost function Image(env: Env, w: Word): seq<Word> {
    SecondPass(env, First(env, w))
  }

  // ---- the words of a command ----

  predicate InStep(c: Cmd) {
    |c.argv| == |c.quoted|
  }

  function Zip(texts: seq<string>, marks: seq<int>): (r: seq<Word>)
    requires |texts| == |marks|
    ensures |r| == |texts| && forall i :: 0 <= i < |r| ==> r[i] == Word(texts[i], marks[i])
  {
    if texts == [] then [] else [Word(texts[0], marks[0])] + Zip(texts[1..], marks[1..])
  }

  function Words(c: Cmd): seq<Word>
    requires InStep(c)
  {
    Zip(c.argv, c.quoted)
  }

  function Redirected(env: Env, path: Option<string>): Option<string> {
    if path.Some? then Some(ExpandWord(env, path.value)) else None
  }

  // Everything but the arguments.
  function OtherFields(env: Env, c: Cmd): Cmd {
    c.(redirIn := Redirected(env, c.redirIn), redirOut := Redirected(env, c.redirOut),
       redirErr := Redirected(env, c.redirErr),
       hereBody := if c.hereBody.Some? && !c.hereQuoted then Some(Params(env, c.hereBody.value, true)) else c.hereBody)
  }

  // ---- the loops ----

  lemma Regroup(a: seq<Word>, b: seq<Word>, c: seq<Word>)
    ensures a + (b + c) == (a + b) + c
  {
  }

  lemma {:induction false} FirstPassBoth(env: Env, a: seq<Word>, b: seq<Word>)
    ensures FirstPass(env, a + b) == FirstPass(env, a) + FirstPass(env, b)
  {
    hide First;
    if a == [] {
      assert a + b == b;
    } else {
      assert (a + b)[0] == a[0] && (a + b)[1..] == a[1..] + b;
      FirstPassBoth(env, a[1..], b);
      Regroup(First(env, a[0]), FirstPass(env, a[1..]), FirstPass(env, b));
    }
  }

  lemma {:induction false} SecondPassBoth(env: Env, a: seq<Word>, b: seq<Word>)
    ensures SecondPass(env, a + b) == SecondPass(env, a) + SecondPass(env, b)
  {
    hide Second;
    if a == [] {
      assert a + b == b;
    } else {
      assert (a + b)[0] == a[0] && (a + b)[1..] == a[1..] + b;
      SecondPassBoth(env, a[1..], b);
      Regroup(Second(env, a[0]), SecondPass(env, a[1..]), SecondPass(env, b));
    }
  }

  lemma FirstPassStep(env: Env, words: seq<Word>, k: nat)
    requires k < |words|
    ensures FirstPass(env, words[..k + 1]) == FirstPass(env, words[..k]) + First(env, words[k])
  {
    hide First;
    assert words[..k + 1] == words[..k] + [words[k]];
    FirstPassBoth(env, words[..k], [words[k]]);
  }

  lemma SecondPassStep(env: Env, words: seq<Word>, k: nat)
    requires k < |words|
    ensures SecondPass(env, words[..k + 1]) == SecondPass(env, words[..k]) + Second(env, words[k])
  {
    hide Second;
    assert words[..k + 1] == words[..k] + [words[k]];
    SecondPassBoth(env, words[..k], [words[k]]);
  }

  // One word makes room for several: the tails of both arrays move, then the slots are filled.
  method Splice(cell: CmdCell, i: nat, texts: seq<string>)
    requires InStep(cell.cmd) && i < |cell.cmd.argv|
    modifies cell
    ensures InStep(cell.cmd)
    ensures Words(cell.cmd) == old(Words(cell.cmd))[..i] + Literals(texts) + old(Words(cell.cmd))[i + 1..]
    ensures cell.cmd == old(cell.cmd).(argv := cell.cmd.argv, quoted := cell.cmd.quoted)
  {
    hide Zip, Literals;
    var n := |texts|;
    var c := cell.cmd;
    var argv, marks := c.argv, c.quoted;
    var gap, zeros, ones := seq(n, _ => ""), seq(n, _ => 0), seq(n, _ => 1);
    var argv1 := argv[..i] + gap + argv[i + 1..];
    var marks1 := marks[..i] + zeros + marks[i + 1..];
    assert argv[..i] + texts[..0] == argv[..i] && marks[..i] + ones[..0] == marks[..i];
    for j := 0 to n
      invariant argv1 == (argv[..i] + texts[..j]) + gap[j..] + argv[i + 1..]
      invariant marks1 == (marks[..i] + ones[..j]) + zeros[j..] + marks[i + 1..]
    {
      SetNext(argv[..i] + texts[..j], gap[j..], argv[i + 1..], texts[j]);
      SetNext(marks[..i] + ones[..j], zeros[j..], marks[i + 1..], 1);
      TakeNext(argv[..i], texts, j);
      TakeNext(marks[..i], ones, j);
      argv1, marks1 := argv1[i + j := texts[j]], marks1[i + j := 1];
    }
    assert texts[..n] == texts && ones[..n] == ones;
    assert argv1 == argv[..i] + texts + argv[i + 1..];
    assert marks1 == marks[..i] + ones + marks[i + 1..];
    ZipSplice(argv, marks, i, texts, ones);
    cell.cmd := c.(argv := argv1, quoted := marks1);
  }

  lemma SetNext<T>(head: seq<T>, gap: seq<T>, tail: seq<T>, x: T)
    requires gap != []
    ensures (head + gap + tail)[|head| := x] == (head + [x]) + gap[1..] + tail
  {
  }

  lemma TakeNext<T>(head: seq<T>, a: seq<T>, j: nat)
    requires j < |a|
    ensures (head + a[..j]) + [a[j]] == head + a[..j + 1]
  {
  }

  lemma ZipSplice(argv: seq<string>, marks: seq<int>, i: nat, texts: seq<string>, ones: seq<int>)
    requires |argv| == |marks| && i < |argv| && |ones| == |texts| && forall k :: 0 <= k < |ones| ==> ones[k] == 1
    ensures Zip(argv[..i] + texts + argv[i + 1..], marks[..i] + ones + marks[i + 1..])
         == Zip(argv, marks)[..i] + Literals(texts) + Zip(argv, marks)[i + 1..]
  {
    hide Zip, Literals;
    ZipBoth(argv[..i] + texts, marks[..i] + ones, argv[i + 1..], marks[i + 1..]);
    ZipBoth(argv[..i], marks[..i], texts, ones);
    assert Zip(texts, ones) == Literals(texts);
    assert Zip(argv[..i], marks[..i]) == Zip(argv, marks)[..i];
    assert Zip(argv[i + 1..], marks[i + 1..]) == Zip(argv, marks)[i + 1..];
  }

  lemma ZipBoth(a: seq<string>, am: seq<int>, b: seq<string>, bm: seq<int>)
    requires |a| == |am| && |b| == |bm|
    ensures Zip(a + b, am + bm) == Zip(a, am) + Zip(b, bm)
  {
    hide Zip;
  }

  // src/mid/expand.c:1200. 1 when the word was $@ or $*; `next` is the first word not yet seen.
  method ExpandPositionalToken(cell: CmdCell, env: Env, i: nat) returns (rc: int, next: nat)
    requires InStep(cell.cmd) && i < |cell.cmd.argv| && cell.cmd.quoted[i] != 1
    modifies cell
    ensures InStep(cell.cmd)
    ensures cell.cmd == old(cell.cmd).(argv := cell.cmd.argv, quoted := cell.cmd.quoted)
    ensures var w := old(Words(cell.cmd))[i];
            if w.text != "$@" && w.text != "$*" then rc == 0 && next == i && cell.cmd == old(cell.cmd)
            else rc == 1 && next == i + |First(env, w)|
                 && Words(cell.cmd) == old(Words(cell.cmd))[..i] + First(env, w) + old(Words(cell.cmd))[i + 1..]
  {
    hide Literals;
    var tok := cell.cmd.argv[i];
    var isAt, isStar := tok == "$@", tok == "$*";
    if !isAt && !isStar {
      return 0, i;
    }
    if isStar && cell.cmd.quoted[i] != 0 {
      SetText(cell, i, JoinArgs(env.args, env.sep));
      return 1, i + 1;
    }
    Splice(cell, i, env.args);
    return 1, i + |env.args|;
  }

  // A word is replaced and keeps its mark.
  method SetText(cell: CmdCell, i: nat, text: string)
    requires InStep(cell.cmd) && i < |cell.cmd.argv|
    modifies cell
    ensures InStep(cell.cmd)
    ensures var w := old(Words(cell.cmd));
            Words(cell.cmd) == w[..i] + [Word(text, w[i].mark)] + w[i + 1..]
    ensures cell.cmd == old(cell.cmd).(argv := cell.cmd.argv, quoted := cell.cmd.quoted)
  {
    cell.cmd := cell.cmd.(argv := cell.cmd.argv[i := text]);
  }

  // src/mid/expand.c:1275
  method ExpandCmdArgv(cell: CmdCell, env: Env)
    requires InStep(cell.cmd)
    modifies cell
    ensures InStep(cell.cmd)
    ensures Words(cell.cmd) == Both(env, old(Words(cell.cmd)))
    ensures cell.cmd == OtherFields(env, old(cell.cmd)).(argv := cell.cmd.argv, quoted := cell.cmd.quoted)
  {
    hide Words, FirstPass, SecondPass, OtherFields, Zip;
    WordsPass(cell, env);
    PathsPass(cell, env);
    ghost var c := cell.cmd;
    OtherFieldsKeep(env, c);
    Redirections(cell, env);
    SameWords(c, cell.cmd);
  }

  lemma SameWords(c: Cmd, d: Cmd)
    requires InStep(c) && c.argv == d.argv && c.quoted == d.quoted
    ensures Words(c) == Words(d)
  {
  }

  lemma WordAt(c: Cmd, i: nat)
    requires InStep(c)
    ensures |Words(c)| == |c.argv| && (i < |c.argv| ==> Words(c)[i] == Word(c.argv[i], c.quoted[i]))
  {
  }

  // In a list of which the words before k are done, word k gives way to `new`.
  lemma SpliceAt(done: seq<Word>, words: seq<Word>, k: nat, more: seq<Word>)
    requires k < |words|
    ensures var all, i := done + words[k..], |done|;
            && i < |all| && all[i] == words[k]
            && all == done + [words[k]] + words[k + 1..]
            && all[..i] + more + all[i + 1..] == (done + more) + words[k + 1..]
  {
  }

  lemma OtherFieldsKeep(env: Env, c: Cmd)
    ensures OtherFields(env, c).argv == c.argv && OtherFields(env, c).quoted == c.quoted
    ensures forall a, q :: OtherFields(env, c.(argv := a, quoted := q)) == OtherFields(env, c).(argv := a, quoted := q)
  {
  }

  // The first loop: ~, $NAME and positionals; single-quoted words are left alone.
  method WordsPass(cell: CmdCell, env: Env)
    requires InStep(cell.cmd)
    modifies cell
    ensures InStep(cell.cmd) && Words(cell.cmd) == FirstPass(env, old(Words(cell.cmd)))
    ensures cell.cmd == old(cell.cmd).(argv := cell.cmd.argv, quoted := cell.cmd.quoted)
  {
    hide FirstPass, First, Words, ExpandWord;
    ghost var words := Words(cell.cmd);
    ghost var k := 0;
    var i := 0;
    NothingPassed(env, words);
    while i < |cell.cmd.argv|
      invariant InStep(cell.cmd) && k <= |words| && i == |FirstPass(env, words[..k])|
      invariant Words(cell.cmd) == FirstPass(env, words[..k]) + words[k..]
      invariant cell.cmd == old(cell.cmd).(argv := cell.cmd.argv, quoted := cell.cmd.quoted)
      decreases |words| - k
    {
      WordAt(cell.cmd, i);
      FirstPassStep(env, words, k);
      ghost var w := words[k];
      SpliceAt(FirstPass(env, words[..k]), words, k, First(env, w));
      WordAt(cell.cmd, i);
      FirstOf(env, w);
      k := k + 1;
      if cell.cmd.quoted[i] == 1 {
        i := i + 1;
        continue;
      }
      var rc, next := ExpandPositionalToken(cell, env, i);
      if rc > 0 {
        i := next;
        continue;
      }
      SetText(cell, i, ExpandWord(env, cell.cmd.argv[i]));
      i := i + 1;
    }
    WordAt(cell.cmd, i);
    assert k == |words|;
    assert words[..k] == words && words[k..] == [];
  }

  lemma NothingPassed(env: Env, words: seq<Word>)
    ensures FirstPass(env, words[..0]) == [] && SecondPass(env, words[..0]) == []
    ensures words[0..] == words && [] + words == words
  {
  }

  lemma FirstOf(env: Env, w: Word)
    ensures w.mark == 1 ==> First(env, w) == [w]
    ensures w.mark != 1 && w.text != "$@" && w.text != "$*" ==>
              First(env, w) == [Word(ExpandWord(env, w.text), w.mark)]
  {
  }

  lemma SecondOf(env: Env, w: Word)
    ensures w.mark != 0 || !HasMeta(w.text) ==> Second(env, w) == [w]
    ensures w.mark == 0 && HasMeta(w.text) ==>
              var g := GlobWord(env.files, w.text);
              Second(env, w) == if g.None? || g.value == [w.text] then [w] else Literals(g.value)
  {
  }

  // The word at i in the second loop; the next index.
  method PathsStep(cell: CmdCell, env: Env, i: nat) returns (next: nat)
    requires InStep(cell.cmd) && i < |cell.cmd.argv| == |Words(cell.cmd)|
    modifies cell
    ensures InStep(cell.cmd) && next == i + |Second(env, old(Words(cell.cmd))[i])|
    ensures var w := old(Words(cell.cmd)); Words(cell.cmd) == w[..i] + Second(env, w[i]) + w[i + 1..]
    ensures cell.cmd == old(cell.cmd).(argv := cell.cmd.argv, quoted := cell.cmd.quoted)
  {
    hide Second, HasMeta, GlobWord, Literals, Words;
    ghost var words := Words(cell.cmd);
    ghost var w := words[i];
    WordAt(cell.cmd, i);
    SecondOf(env, w);
    OneStays(words, i);
    var meta := PatternHasMeta(cell.cmd.argv[i]);
    if cell.cmd.quoted[i] != 0 || !meta {
      return i + 1;
    }
    var g := GlobWordOf(env.files, cell.cmd.argv[i]);
    if g.None? {
      return i + 1;
    }
    if |g.value| == 1 && g.value[0] == cell.cmd.argv[i] {
      assert g.value == [w.text];
      return i + 1;
    }
    Splice(cell, i, g.value);
    return i + |g.value|;
  }

  lemma OneStays(words: seq<Word>, i: nat)
    requires i < |words|
    ensures words[..i] + [words[i]] + words[i + 1..] == words
  {
  }

  // The second loop: path names, in bare words only.
  method PathsPass(cell: CmdCell, env: Env)
    requires InStep(cell.cmd)
    modifies cell
    ensures InStep(cell.cmd) && Words(cell.cmd) == SecondPass(env, old(Words(cell.cmd)))
    ensures cell.cmd == old(cell.cmd).(argv := cell.cmd.argv, quoted := cell.cmd.quoted)
  {
    hide SecondPass, Second, Words;
    ghost var words := Words(cell.cmd);
    ghost var k := 0;
    var i := 0;
    NothingPassed(env, words);
    while i < |cell.cmd.argv|
      invariant InStep(cell.cmd) && k <= |words| && i == |SecondPass(env, words[..k])|
      invariant Words(cell.cmd) == SecondPass(env, words[..k]) + words[k..]
      invariant cell.cmd == old(cell.cmd).(argv := cell.cmd.argv, quoted := cell.cmd.quoted)
      decreases |words| - k
    {
      WordAt(cell.cmd, i);
      SecondPassStep(env, words, k);
      SpliceAt(SecondPass(env, words[..k]), words, k, Second(env, words[k]));
      i := PathsStep(cell, env, i);
      k := k + 1;
    }
    WordAt(cell.cmd, i);
    assert k == |words|;
    assert words[..k] == words && words[k..] == [];
  }

  // Redirections and the body of a here-document without quotes; no patterns there.
  method Redirections(cell: CmdCell, env: Env)
    modifies cell
    ensures cell.cmd == OtherFields(env, old(cell.cmd))
  {
    var c := cell.cmd;
    if c.redirIn.Some? {
      c := c.(redirIn := Some(ExpandWord(env, c.redirIn.value)));
    }
    if c.redirOut.Some? {
      c := c.(redirOut := Some(ExpandWord(env, c.redirOut.value)));
    }
    if c.redirErr.Some? {
      c := c.(redirErr := Some(ExpandWord(env, c.redirErr.value)));
    }
    if c.hereBody.Some? && !c.hereQuoted {
      c := c.(hereBody := Some(Params(env, c.hereBody.value, true)));
    }
    cell.cmd := c;
  }
}
