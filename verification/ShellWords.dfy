/** The words of a parsed command, and what nulterminate makes of the line they are in. */
module ShellWords {
  import opened ShellGrammar

  /** All words of c, arguments and file names, are words of the line. */
  predicate AllWords(buf: string, c: Cmd) {
    match c
    case Exec(argv) => forall k :: 0 <= k < |argv| ==> IsWord(buf, argv[k])
    case Redir(d, file, _) => AllWords(buf, d) && IsWord(buf, file)
    case Pipe(l, r) => AllWords(buf, l) && AllWords(buf, r)
    case List(l, r) => AllWords(buf, l) && AllWords(buf, r)
    case Back(d) => AllWords(buf, d)
  }

  /** w is an argument or a file name of c. */
  predicate WordOf(w: Slice, c: Cmd) {
    match c
    case Exec(argv) => w in argv
    case Redir(d, file, _) => w == file || WordOf(w, d)
    case Pipe(l, r) => WordOf(w, l) || WordOf(w, r)
    case List(l, r) => WordOf(w, l) || WordOf(w, r)
    case Back(d) => WordOf(w, d)
  }

  predicate AllFiles(buf: string, rs: seq<Redirection>) {
    forall k :: 0 <= k < |rs| ==> IsWord(buf, rs[k].file)
  }

  lemma {:induction false} WrappedWords(buf: string, c: Cmd, rs: seq<Redirection>)
    requires AllWords(buf, c) && AllFiles(buf, rs)
    ensures AllWords(buf, Wrapped(c, rs))
    decreases |rs|
  {
    if rs != [] {
      WrappedWords(buf, c, rs[..|rs| - 1]);
    }
  }

  lemma {:induction false} RedirectionsWords(buf: string, p: nat, before: seq<Redirection>)
    requires IsText(buf) && p <= |buf| && AllFiles(buf, before)
    ensures Redirections(buf, p, before).Ok? ==> AllFiles(buf, Redirections(buf, p, before).value.0)
    decreases |buf| - p
  {
    hide IsWord;
    hide SkipSpace;
    var s := SkipSpace(buf, p);
    if At(buf, s) == '<' || At(buf, s) == '>' {
      var tok := NextToken(buf, s);
      var file := NextToken(buf, tok.next);
      hide NextToken;
      if file.kind == 'a' {
        var mode := if tok.kind == '<' then Read else if tok.kind == '>' then Write else Append;
        RedirectionsWords(buf, file.next, before + [Redirection(Slice(file.q, file.eq), mode)]);
      }
    }
  }

  lemma {:induction false} ArgumentsWords(buf: string, p: nat, argv: seq<Slice>, rs: seq<Redirection>)
    requires IsText(buf) && p <= |buf| && AllFiles(buf, rs) && AllWords(buf, Exec(argv))
    ensures Words(buf, p, argv, rs).Ok? ==> AllWords(buf, Words(buf, p, argv, rs).value.0)
    decreases |buf| - p
  {
    hide IsWord;
    hide NextToken;
    hide SkipSpace;
    hide Redirections;
    WrappedWords(buf, Exec(argv), rs);
    var s := SkipSpace(buf, p);
    if !EndsExec(At(buf, s)) {
      var tok := NextToken(buf, s);
      if tok.kind == 'a' && |argv| + 1 < MAXARGS {
        RedirectionsWords(buf, tok.next, rs);
        var r := Redirections(buf, tok.next, rs);
        if r.Ok? {
          ArgumentsWords(buf, r.value.1, argv + [Slice(tok.q, tok.eq)], r.value.0);
        }
      }
    }
  }

  lemma {:induction false} BacksWords(buf: string, p: nat, c: Cmd)
    requires IsText(buf) && p <= |buf| && AllWords(buf, c)
    ensures AllWords(buf, Backs(buf, p, c).0)
    decreases |buf| - p
  {
    var s := SkipSpace(buf, p);
    if At(buf, s) == '&' {
      BacksWords(buf, NextToken(buf, s).next, Back(c));
    }
  }

  lemma {:induction false} CommandWords(buf: string, p: nat)
    requires IsText(buf) && p <= |buf|
    ensures Command(buf, p).Ok? ==> AllWords(buf, Command(buf, p).value.0)
    decreases |buf| - p, 1
  {
    hide IsWord;
    hide NextToken;
    hide Words;
    hide Redirections;
    var s := SkipSpace(buf, p);
    if At(buf, s) == '(' {
      BlockWords(buf, s);
    } else {
      RedirectionsWords(buf, s, []);
      var r := Redirections(buf, s, []);
      if r.Ok? {
        ArgumentsWords(buf, r.value.1, [], r.value.0);
      }
    }
  }

  lemma {:induction false} BlockWords(buf: string, p: nat)
    requires IsText(buf) && p <= |buf| && At(buf, SkipSpace(buf, p)) == '('
    ensures Block(buf, p).Ok? ==> AllWords(buf, Block(buf, p).value.0)
    decreases |buf| - p, 0
  {
    hide IsWord;
    hide Redirections;
    hide Line;
    LineWords(buf, NextToken(buf, p).next);
    var x := Line(buf, NextToken(buf, p).next);
    if x.Ok? {
      var s := SkipSpace(buf, x.value.1);
      if At(buf, s) == ')' {
        RedirectionsWords(buf, NextToken(buf, s).next, []);
        var y := Redirections(buf, NextToken(buf, s).next, []);
        if y.Ok? {
          WrappedWords(buf, x.value.0, y.value.0);
        }
      }
    }
  }

  lemma {:induction false} PipelineWords(buf: string, p: nat)
    requires IsText(buf) && p <= |buf|
    ensures Pipeline(buf, p).Ok? ==> AllWords(buf, Pipeline(buf, p).value.0)
    decreases |buf| - p, 2
  {
    hide Command;
    CommandWords(buf, p);
    var x := Command(buf, p);
    if x.Ok? {
      var s := SkipSpace(buf, x.value.1);
      if At(buf, s) == '|' {
        PipelineWords(buf, NextToken(buf, s).next);
      }
    }
  }

  lemma {:induction false} LineWords(buf: string, p: nat)
    requires IsText(buf) && p <= |buf|
    ensures Line(buf, p).Ok? ==> AllWords(buf, Line(buf, p).value.0)
    decreases |buf| - p, 3
  {
    hide Pipeline;
    hide Backs;
    PipelineWords(buf, p);
    var x := Pipeline(buf, p);
    if x.Ok? {
      BacksWords(buf, x.value.1, x.value.0);
      var s := SkipSpace(buf, Backs(buf, x.value.1, x.value.0).1);
      if At(buf, s) == ';' {
        LineWords(buf, NextToken(buf, s).next);
      }
    }
  }

  // ----- C strings

  /** The characters from p up to the NUL. */
  function CString(b: seq<char>, p: nat): string
    decreases |b| - p
  {
    if p < |b| && b[p] != '\0' then [b[p]] + CString(b, p + 1) else ""
  }

  lemma {:induction false} CStringIs(b: seq<char>, p: nat, e: nat)
    requires p <= e < |b| && b[e] == '\0' && forall k :: p <= k < e ==> b[k] != '\0'
    ensures CString(b, p) == b[p..e]
    decreases e - p
  {
    if p < e {
      CStringIs(b, p + 1, e);
      assert b[p..e] == [b[p]] + b[p + 1..e];
    }
  }

  /** b is the line with a NUL at the end of each word of c. */
  ghost predicate Terminated(buf: string, c: Cmd, b: seq<char>) {
    && |b| == |buf| + 1
    && forall i :: 0 <= i < |b| ==> b[i] == if i == |buf| || EndsWord(i, c) then '\0' else buf[i]
  }

  predicate EndsWord(i: nat, c: Cmd) {
    match c
    case Exec(argv) => exists k :: 0 <= k < |argv| && argv[k].end == i
    case Redir(d, file, _) => file.end == i || EndsWord(i, d)
    case Pipe(l, r) => EndsWord(i, l) || EndsWord(i, r)
    case List(l, r) => EndsWord(i, l) || EndsWord(i, r)
    case Back(d) => EndsWord(i, d)
  }

  lemma {:induction false} EndsAreNoWordChars(buf: string, c: Cmd, i: nat)
    requires AllWords(buf, c) && EndsWord(i, c)
    ensures i <= |buf| && (i < |buf| ==> !IsWordChar(buf[i]))
    decreases c
  {
    match c
    case Exec(argv) =>
      var k :| 0 <= k < |argv| && argv[k].end == i;
      assert IsWord(buf, argv[k]);
    case Redir(d, file, _) => if file.end != i { EndsAreNoWordChars(buf, d, i); }
    case Pipe(l, r) => if EndsWord(i, l) { EndsAreNoWordChars(buf, l, i); } else { EndsAreNoWordChars(buf, r, i); }
    case List(l, r) => if EndsWord(i, l) { EndsAreNoWordChars(buf, l, i); } else { EndsAreNoWordChars(buf, r, i); }
    case Back(d) => EndsAreNoWordChars(buf, d, i);
  }

  lemma {:induction false} WordHasEnd(buf: string, c: Cmd, w: Slice)
    requires AllWords(buf, c) && WordOf(w, c)
    ensures IsWord(buf, w) && EndsWord(w.end, c)
    decreases c
  {
    match c
    case Exec(argv) =>
      var k :| 0 <= k < |argv| && argv[k] == w;
      assert argv[k].end == w.end;
    case Redir(d, file, _) => if w != file { WordHasEnd(buf, d, w); }
    case Pipe(l, r) => if WordOf(w, l) { WordHasEnd(buf, l, w); } else { WordHasEnd(buf, r, w); }
    case List(l, r) => if WordOf(w, l) { WordHasEnd(buf, l, w); } else { WordHasEnd(buf, r, w); }
    case Back(d) => WordHasEnd(buf, d, w);
  }

  /** In the terminated line, every argument and file name is, as a C string, the word that was read. */
  lemma WordsStand(buf: string, c: Cmd, b: seq<char>, w: Slice)
    requires AllWords(buf, c) && Terminated(buf, c, b) && WordOf(w, c)
    ensures IsWord(buf, w) && CString(b, w.start) == buf[w.start..w.end]
  {
    WordHasEnd(buf, c, w);
    forall k | w.start <= k < w.end ensures b[k] == buf[k] != '\0' {
      assert IsWordChar(buf[k]);
      if EndsWord(k, c) {
        EndsAreNoWordChars(buf, c, k);
      }
    }
    CStringIs(b, w.start, w.end);
    assert b[w.start..w.end] == buf[w.start..w.end];
  }
}
