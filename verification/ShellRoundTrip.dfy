/** The parser accepts just the lines that its grammar describes, and reads in each what it says. */
module ShellRoundTrip {
  import opened ShellGrammar

  /** A command without regard to where its words are. */
  datatype Tree =
    | Words(args: seq<string>)
    | Into(tree: Tree, file: string, mode: Mode)
    | Piped(left: Tree, right: Tree)
    | Then(left: Tree, right: Tree)
    | Aside(tree: Tree)

  function Text(buf: string, w: Slice): string {
    if w.start <= w.end <= |buf| then buf[w.start..w.end] else ""
  }

  /** What a parsed command says. */
  function Meaning(buf: string, c: Cmd): Tree {
    match c
    case Exec(argv) => Words(seq(|argv|, k requires 0 <= k < |argv| => Text(buf, argv[k])))
    case Redir(d, file, mode) => Into(Meaning(buf, d), Text(buf, file), mode)
    case Pipe(l, r) => Piped(Meaning(buf, l), Meaning(buf, r))
    case List(l, r) => Then(Meaning(buf, l), Meaning(buf, r))
    case Back(d) => Aside(Meaning(buf, d))
  }

  /** A word the shell can be given: not empty, and free of white space and symbols. */
  predicate Word(w: string) { w != "" && forall k :: 0 <= k < |w| ==> IsWordChar(w[k]) }

  // ----- what one can write

  datatype Target = Target(mode: Mode, file: string)

  /** A word and the redirections behind it. */
  datatype Arg = Arg(word: string, targets: seq<Target>)

  /** A simple command with the redirections before its words, or a block with those behind it. */
  datatype Piece =
    | Simple(front: seq<Target>, args: seq<Arg>)
    | Group(script: Script, targets: seq<Target>)

  datatype Chain = Only(piece: Piece) | Through(piece: Piece, chain: Chain)

  /** A chain, how many '&' stand behind it, and what comes behind a ';'. */
  datatype Script = Final(chain: Chain, backs: nat) | Before(chain: Chain, backs: nat, rest: Script)

  predicate TargetsOk(rs: seq<Target>) { forall k :: 0 <= k < |rs| ==> Word(rs[k].file) }

  predicate ArgsOk(args: seq<Arg>) { forall k :: 0 <= k < |args| ==> Word(args[k].word) && TargetsOk(args[k].targets) }

  predicate PieceOk(x: Piece) {
    match x
    case Simple(front, args) => TargetsOk(front) && ArgsOk(args) && |args| < MAXARGS
    case Group(script, targets) => ScriptOk(script) && TargetsOk(targets)
  }

  predicate ChainOk(x: Chain) {
    match x
    case Only(piece) => PieceOk(piece)
    case Through(piece, chain) => PieceOk(piece) && ChainOk(chain)
  }

  /** Fewer than MAXARGS words to a simple command, and words throughout. */
  predicate ScriptOk(x: Script) {
    match x
    case Final(chain, _) => ChainOk(chain)
    case Before(chain, _, rest) => ChainOk(chain) && ScriptOk(rest)
  }

  // ----- the tokens it is written with

  function Sign(m: Mode): string {
    match m case Read => "<" case Write => ">" case Append => ">>"
  }

  function TargetsLexemes(rs: seq<Target>): seq<string> {
    if rs == [] then [] else [Sign(rs[0].mode), rs[0].file] + TargetsLexemes(rs[1..])
  }

  function ArgsLexemes(args: seq<Arg>): seq<string> {
    if args == [] then [] else [args[0].word] + TargetsLexemes(args[0].targets) + ArgsLexemes(args[1..])
  }

  function PieceLexemes(x: Piece): seq<string> {
    match x
    case Simple(front, args) => TargetsLexemes(front) + ArgsLexemes(args)
    case Group(script, targets) => ["("] + ScriptLexemes(script) + [")"] + TargetsLexemes(targets)
  }

  function ChainLexemes(x: Chain): seq<string> {
    match x
    case Only(piece) => PieceLexemes(piece)
    case Through(piece, chain) => PieceLexemes(piece) + ["|"] + ChainLexemes(chain)
  }

  function BacksLexemes(n: nat): seq<string> {
    if n == 0 then [] else ["&"] + BacksLexemes(n - 1)
  }

  function ScriptLexemes(x: Script): seq<string> {
    match x
    case Final(chain, n) => ChainLexemes(chain) + BacksLexemes(n)
    case Before(chain, n, rest) => ChainLexemes(chain) + BacksLexemes(n) + [";"] + ScriptLexemes(rest)
  }

  // ----- what it says

  /** t with its redirections: the first is the innermost, the last the outermost. */
  function IntoAll(t: Tree, rs: seq<Target>): Tree
    decreases |rs|
  {
    if rs == [] then t else IntoAll(Into(t, rs[0].file, rs[0].mode), rs[1..])
  }

  function AsideAll(t: Tree, n: nat): Tree
    decreases n
  {
    if n == 0 then t else AsideAll(Aside(t), n - 1)
  }

  function ArgWords(args: seq<Arg>): (r: seq<string>)
    ensures |r| == |args|
  {
    if args == [] then [] else [args[0].word] + ArgWords(args[1..])
  }

  function ArgTargets(args: seq<Arg>): seq<Target> {
    if args == [] then [] else args[0].targets + ArgTargets(args[1..])
  }

  function PieceMeaning(x: Piece): Tree {
    match x
    case Simple(front, args) => IntoAll(Words(ArgWords(args)), front + ArgTargets(args))
    case Group(script, targets) => IntoAll(ScriptMeaning(script), targets)
  }

  function ChainMeaning(x: Chain): Tree {
    match x
    case Only(piece) => PieceMeaning(piece)
    case Through(piece, chain) => Piped(PieceMeaning(piece), ChainMeaning(chain))
  }

  function ScriptMeaning(x: Script): Tree {
    match x
    case Final(chain, n) => AsideAll(ChainMeaning(chain), n)
    case Before(chain, n, rest) => Then(AsideAll(ChainMeaning(chain), n), ScriptMeaning(rest))
  }

  // ----- tokens of a line

  /** The tokens of a line from p on. */
  function Lexemes(buf: string, p: nat): seq<string>
    requires IsText(buf) && p <= |buf|
    decreases |buf| - p
  {
    var t := NextToken(buf, p);
    if t.kind == '\0' then [] else [buf[t.q..t.eq]] + Lexemes(buf, t.next)
  }

  /** No space at p: skipping white space stays there. */
  lemma NoSkip(buf: string, p: nat)
    requires p <= |buf| && !IsSpace(At(buf, p))
    ensures SkipSpace(buf, p) == p
  {
  }

  /** Tokens are the same from p and from behind the white space there. */
  lemma LexemesSkip(buf: string, p: nat)
    requires IsText(buf) && p <= |buf|
    ensures NextToken(buf, SkipSpace(buf, p)) == NextToken(buf, p)
    ensures Lexemes(buf, SkipSpace(buf, p)) == Lexemes(buf, p)
  {
    NoSkip(buf, SkipSpace(buf, p));
    assert NextToken(buf, SkipSpace(buf, p)) == NextToken(buf, p);
    hide NextToken;
    hide SkipSpace;
  }

  /** The text of a token is that of its kind. */
  lemma TokenText(buf: string, p: nat)
    requires IsText(buf) && p <= |buf|
    ensures var t := NextToken(buf, p);
            && (t.kind == 'a' <==> t.q < |buf| && IsWordChar(buf[t.q]))
            && (t.kind == 'a' ==> Word(buf[t.q..t.eq]) && Text(buf, Slice(t.q, t.eq)) == buf[t.q..t.eq])
            && (t.kind == '+' ==> buf[t.q..t.eq] == ">>")
            && (t.kind == '\0' <==> t.q == |buf|)
            && (t.kind != 'a' && t.kind != '+' && t.kind != '\0' ==> buf[t.q..t.eq] == [t.kind] && IsSymbol(t.kind))
            && t.q == SkipSpace(buf, p) && (t.kind == '<' || t.kind == '>' || t.kind == '+' <==> At(buf, t.q) == '<' || At(buf, t.q) == '>')
  {
    var t := NextToken(buf, p);
    if t.kind == 'a' {
      assert IsWord(buf, Slice(t.q, t.eq));
    }
  }

  /** The kind that gettoken gives a token of this text. */
  function Kind(w: string): char
    requires w != ""
  {
    if w == ">>" then '+' else if IsSymbol(w[0]) then w[0] else 'a'
  }

  /** The first token of a line whose tokens are known. */
  lemma TakeLexeme(buf: string, p: nat, w: string, rest: seq<string>)
    requires IsText(buf) && p <= |buf| && Lexemes(buf, p) == [w] + rest
    ensures w != "" && At(buf, SkipSpace(buf, p)) == w[0] && NextToken(buf, SkipSpace(buf, p)) == NextToken(buf, p)
    ensures var t := NextToken(buf, p);
            && p < t.next && t.kind == Kind(w) && Lexemes(buf, t.next) == rest && Text(buf, Slice(t.q, t.eq)) == w
  {
    hide NextToken;
    hide SkipSpace;
    LexemesSkip(buf, p);
    TokenText(buf, p);
    var t := NextToken(buf, p);
    FirstLexeme(buf, p, w, rest);
    hide Lexemes;
    assert buf[t.q] == w[0];
  }

  lemma FirstLexeme(buf: string, p: nat, w: string, rest: seq<string>)
    requires IsText(buf) && p <= |buf| && Lexemes(buf, p) == [w] + rest
    ensures var t := NextToken(buf, p); t.kind != '\0' && w == buf[t.q..t.eq] && rest == Lexemes(buf, t.next)
  {
    hide NextToken;
    var t := NextToken(buf, p);
    assert Lexemes(buf, p) == [buf[t.q..t.eq]] + Lexemes(buf, t.next);
    assert rest == Lexemes(buf, p)[1..];
  }

  lemma NoLexeme(buf: string, p: nat)
    requires IsText(buf) && p <= |buf| && Lexemes(buf, p) == []
    ensures SkipSpace(buf, p) == |buf| && NextToken(buf, |buf|) == Token('\0', |buf|, |buf|, |buf|)
  {
    TokenText(buf, p);
  }

  // ----- redirections

  /** The parsed redirections xs are those that were written. */
  predicate Same(buf: string, xs: seq<Redirection>, rs: seq<Target>) {
    && |xs| == |rs|
    && forall k :: 0 <= k < |xs| ==> Text(buf, xs[k].file) == rs[k].file && xs[k].mode == rs[k].mode
  }

  /** The tokens do not go on with a redirection. */
  predicate Quiet(rest: seq<string>) { rest == [] || (rest[0] != "<" && rest[0] != ">" && rest[0] != ">>") }

  lemma {:induction false} TargetsParse(buf: string, p: nat, rs: seq<Target>, rest: seq<string>, xs: seq<Redirection>, bs: seq<Target>)
    returns (zs: seq<Redirection>, e: nat)
    requires IsText(buf) && p <= |buf| && TargetsOk(rs) && Same(buf, xs, bs)
    requires Lexemes(buf, p) == TargetsLexemes(rs) + rest && Quiet(rest)
    ensures Redirections(buf, p, xs) == Ok((zs, e)) && Same(buf, zs, bs + rs) && e <= |buf| && Lexemes(buf, e) == rest
    decreases |rs|
  {
    hide Text;
    hide Word;
    hide Redirections;
    hide Lexemes;
    if rs == [] {
      assert TargetsLexemes(rs) + rest == rest;
      zs, e := xs, SkipSpace(buf, p);
      NoTargets(buf, p, rest, xs);
      assert bs + rs == bs;
    } else {
      var r := rs[0];
      var more := TargetsLexemes(rs[1..]) + rest;
      assert Lexemes(buf, p) == [Sign(r.mode)] + ([r.file] + more);
      var x, n := TargetStep(buf, p, r, more, xs);
      zs, e := TargetsParse(buf, n, rs[1..], rest, xs + [x], bs + [r]);
      assert bs + [r] + rs[1..] == bs + rs;
    }
  }

  lemma NoTargets(buf: string, p: nat, rest: seq<string>, xs: seq<Redirection>)
    requires IsText(buf) && p <= |buf| && Lexemes(buf, p) == rest && Quiet(rest)
    ensures Redirections(buf, p, xs) == Ok((xs, SkipSpace(buf, p))) && Lexemes(buf, SkipSpace(buf, p)) == rest
  {
    hide NextToken;
    hide SkipSpace;
    LexemesSkip(buf, p);
    if rest == [] {
      NoLexeme(buf, p);
    } else {
      assert rest == [rest[0]] + rest[1..];
      TakeLexeme(buf, p, rest[0], rest[1..]);
      TokenText(buf, p);
      hide Lexemes;
    }
  }

  /** One round of parseredirs. */
  lemma TargetStep(buf: string, p: nat, r: Target, more: seq<string>, xs: seq<Redirection>) returns (x: Redirection, n: nat)
    requires IsText(buf) && p <= |buf| && Word(r.file) && Lexemes(buf, p) == [Sign(r.mode)] + ([r.file] + more)
    ensures Text(buf, x.file) == r.file && x.mode == r.mode && n <= |buf| && Lexemes(buf, n) == more
    ensures Redirections(buf, p, xs) == Redirections(buf, n, xs + [x])
  {
    hide NextToken;
    hide SkipSpace;
    hide Lexemes;
    hide Text;
    TakeLexeme(buf, p, Sign(r.mode), [r.file] + more);
    var t := NextToken(buf, p);
    TakeLexeme(buf, t.next, r.file, more);
    WordKind(r.file);
    var file := NextToken(buf, t.next);
    x, n := Redirection(Slice(file.q, file.eq), r.mode), file.next;
  }

  lemma WordKind(w: string)
    requires Word(w)
    ensures Kind(w) == 'a' && !EndsExec(w[0]) && w[0] != '(' && Quiet([w])
  {
    assert IsWordChar(w[0]);
  }

  lemma {:induction false} IntoAllLast(t: Tree, rs: seq<Target>, r: Target)
    ensures IntoAll(t, rs + [r]) == Into(IntoAll(t, rs), r.file, r.mode)
    decreases |rs|
  {
    if rs == [] {
      assert IntoAll(t, [r]) == IntoAll(Into(t, r.file, r.mode), [r][1..]);
    } else {
      IntoAllLast(Into(t, rs[0].file, rs[0].mode), rs[1..], r);
      assert (rs + [r])[1..] == rs[1..] + [r];
    }
  }

  /** Every redirection found is there in the command, in order, the last one outermost. */
  lemma {:induction false} WrappedMeaning(buf: string, c: Cmd, xs: seq<Redirection>, rs: seq<Target>)
    requires Same(buf, xs, rs)
    ensures Meaning(buf, Wrapped(c, xs)) == IntoAll(Meaning(buf, c), rs)
    decreases |xs|
  {
    hide Text;
    if xs != [] {
      var n := |xs| - 1;
      WrappedMeaning(buf, c, xs[..n], rs[..n]);
      IntoAllLast(Meaning(buf, c), rs[..n], rs[n]);
      assert rs[..n] + [rs[n]] == rs;
    }
  }

  // ----- simple commands

  predicate SameWords(buf: string, argv: seq<Slice>, ws: seq<string>) {
    |argv| == |ws| && forall k :: 0 <= k < |argv| ==> Text(buf, argv[k]) == ws[k]
  }

  /** What may come behind a command. */
  predicate Ends(rest: seq<string>) { rest == [] || rest[0] == "|" || rest[0] == "&" || rest[0] == ";" || rest[0] == ")" }

  lemma WordsEnd(buf: string, p: nat, rest: seq<string>, argv: seq<Slice>, xs: seq<Redirection>) returns (e: nat)
    requires IsText(buf) && p <= |buf| && Lexemes(buf, p) == rest && Ends(rest)
    ensures ShellGrammar.Words(buf, p, argv, xs) == Ok((Wrapped(Exec(argv), xs), e)) && e <= |buf| && Lexemes(buf, e) == rest
  {
    hide NextToken;
    hide SkipSpace;
    hide Wrapped;
    e := SkipSpace(buf, p);
    LexemesSkip(buf, p);
    if rest == [] {
      NoLexeme(buf, p);
    } else {
      assert rest == [rest[0]] + rest[1..];
      TakeLexeme(buf, p, rest[0], rest[1..]);
      hide Lexemes;
    }
  }

  /** A word: one round of parseexec. */
  lemma ArgStep(buf: string, p: nat, a: Arg, more: seq<string>, argv: seq<Slice>, xs: seq<Redirection>, bs: seq<Target>)
    returns (w: Slice, zs: seq<Redirection>, n: nat)
    requires IsText(buf) && p <= |buf| && Word(a.word) && TargetsOk(a.targets) && Same(buf, xs, bs) && |argv| + 1 < MAXARGS
    requires Lexemes(buf, p) == [a.word] + (TargetsLexemes(a.targets) + more) && Quiet(more)
    ensures Text(buf, w) == a.word && Same(buf, zs, bs + a.targets) && n <= |buf| && Lexemes(buf, n) == more
    ensures ShellGrammar.Words(buf, p, argv, xs) == ShellGrammar.Words(buf, n, argv + [w], zs)
  {
    hide NextToken;
    hide SkipSpace;
    hide Redirections;
    hide Lexemes;
    hide TargetsLexemes;
    hide Text;
    hide Same;
    hide Word;
    hide Wrapped;
    TakeLexeme(buf, p, a.word, TargetsLexemes(a.targets) + more);
    WordKind(a.word);
    var t := NextToken(buf, p);
    w := Slice(t.q, t.eq);
    zs, n := TargetsParse(buf, t.next, a.targets, more, xs, bs);
  }

  lemma {:induction false} ArgsParse(buf: string, p: nat, args: seq<Arg>, rest: seq<string>, argv: seq<Slice>, ws: seq<string>,
                                     xs: seq<Redirection>, bs: seq<Target>)
    returns (ys: seq<Slice>, zs: seq<Redirection>, e: nat)
    requires IsText(buf) && p <= |buf| && ArgsOk(args) && Same(buf, xs, bs) && SameWords(buf, argv, ws)
    requires |argv| + |args| < MAXARGS && Lexemes(buf, p) == ArgsLexemes(args) + rest && Ends(rest)
    ensures ShellGrammar.Words(buf, p, argv, xs) == Ok((Wrapped(Exec(ys), zs), e))
    ensures SameWords(buf, ys, ws + ArgWords(args)) && Same(buf, zs, bs + ArgTargets(args))
    ensures e <= |buf| && Lexemes(buf, e) == rest
    decreases |args|
  {
    hide ShellGrammar.Words;
    hide Lexemes;
    hide Text;
    hide Word;
    hide Same;
    hide TargetsLexemes;
    hide Wrapped;
    if args == [] {
      assert ArgsLexemes(args) + rest == rest;
      e := WordsEnd(buf, p, rest, argv, xs);
      ys, zs := argv, xs;
      assert ws + ArgWords(args) == ws && bs + ArgTargets(args) == bs;
    } else {
      var a, more := args[0], ArgsLexemes(args[1..]) + rest;
      assert Lexemes(buf, p) == [a.word] + (TargetsLexemes(a.targets) + more);
      ArgsQuiet(args[1..], rest);
      var w, vs, n := ArgStep(buf, p, a, more, argv, xs, bs);
      ys, zs, e := ArgsParse(buf, n, args[1..], rest, argv + [w], ws + [a.word], vs, bs + a.targets);
      assert ws + [a.word] + ArgWords(args[1..]) == ws + ArgWords(args);
      assert bs + a.targets + ArgTargets(args[1..]) == bs + ArgTargets(args);
    }
  }

  /** Words do not start with a redirection, nor with a parenthesis. */
  lemma ArgsQuiet(args: seq<Arg>, rest: seq<string>)
    requires ArgsOk(args) && Ends(rest)
    ensures var x := ArgsLexemes(args) + rest; Quiet(x) && (x != [] ==> x[0] != "(")
  {
    if args != [] {
      assert (ArgsLexemes(args) + rest)[0] == args[0].word;
      WordKind(args[0].word);
    } else {
      assert ArgsLexemes(args) + rest == rest;
    }
  }

  lemma ExecMeaning(buf: string, ys: seq<Slice>, ws: seq<string>)
    requires SameWords(buf, ys, ws)
    ensures Meaning(buf, Exec(ys)) == Words(ws)
  {
    assert Meaning(buf, Exec(ys)).args == ws;
  }

  lemma SimpleCommand(buf: string, p: nat, xs: seq<Redirection>, q: nat, c: Cmd, e: nat)
    requires IsText(buf) && p <= |buf| && q <= |buf| && At(buf, SkipSpace(buf, p)) != '('
    requires Redirections(buf, SkipSpace(buf, p), []) == Ok((xs, q)) && ShellGrammar.Words(buf, q, [], xs) == Ok((c, e))
    ensures Command(buf, p) == Ok((c, e))
  {
    hide ShellGrammar.Words;
    hide Redirections;
    hide SkipSpace;
  }

  /** A simple command does not start with a parenthesis. */
  lemma SimpleStart(buf: string, p: nat, front: seq<Target>, args: seq<Arg>, rest: seq<string>)
    requires IsText(buf) && p <= |buf| && TargetsOk(front) && ArgsOk(args) && Ends(rest)
    requires Lexemes(buf, p) == TargetsLexemes(front) + (ArgsLexemes(args) + rest)
    ensures At(buf, SkipSpace(buf, p)) != '('
  {
    hide Word;
    hide Lexemes;
    hide SkipSpace;
    var x := Lexemes(buf, p);
    ArgsQuiet(args, rest);
    if x == [] {
      NoLexeme(buf, p);
    } else {
      if front == [] {
        assert x == ArgsLexemes(args) + rest;
      }
      assert x == [x[0]] + x[1..];
      TakeLexeme(buf, p, x[0], x[1..]);
      if x[0][0] == '(' {
        TokenText(buf, p);
      }
    }
  }

  /**
   * A simple command, with any number of redirections before, between and behind its words, is its
   * words with each of the redirections, in order, the last one outermost.
   */
  lemma SimpleParses(buf: string, p: nat, front: seq<Target>, args: seq<Arg>, rest: seq<string>) returns (c: Cmd, e: nat)
    requires IsText(buf) && p <= |buf| && TargetsOk(front) && ArgsOk(args) && |args| < MAXARGS && Ends(rest)
    requires Lexemes(buf, p) == TargetsLexemes(front) + (ArgsLexemes(args) + rest)
    ensures Command(buf, p) == Ok((c, e)) && e <= |buf| && Lexemes(buf, e) == rest
    ensures Meaning(buf, c) == IntoAll(Words(ArgWords(args)), front + ArgTargets(args))
  {
    hide ShellGrammar.Words;
    hide Redirections;
    hide Command;
    hide Meaning;
    hide IntoAll;
    hide Wrapped;
    hide Lexemes;
    hide SkipSpace;
    hide Word;
    SimpleStart(buf, p, front, args, rest);
    ArgsQuiet(args, rest);
    LexemesSkip(buf, p);
    var xs, q := TargetsParse(buf, SkipSpace(buf, p), front, ArgsLexemes(args) + rest, [], []);
    assert [] + front == front;
    var ys, zs;
    ys, zs, e := ArgsParse(buf, q, args, rest, [], [], xs, front);
    assert [] + ArgWords(args) == ArgWords(args);
    c := Wrapped(Exec(ys), zs);
    SimpleCommand(buf, p, xs, q, c, e);
    ExecMeaning(buf, ys, ArgWords(args));
    WrappedMeaning(buf, Exec(ys), zs, front + ArgTargets(args));
  }

  // ----- blocks, pipes and lists

  /** The symbol c comes next, and the tokens behind it are known. */
  lemma TakeSymbol(buf: string, p: nat, c: char, rest: seq<string>) returns (n: nat)
    requires IsText(buf) && p <= |buf| && Lexemes(buf, p) == [[c]] + rest && IsSymbol(c)
    ensures At(buf, SkipSpace(buf, p)) == c && p < n <= |buf| && Lexemes(buf, n) == rest
    ensures NextToken(buf, SkipSpace(buf, p)).next == n
  {
    TakeLexeme(buf, p, [c], rest);
    n := NextToken(buf, p).next;
  }

  /** Something other than the symbol c comes next. */
  lemma OtherSymbol(buf: string, p: nat, c: char)
    requires IsText(buf) && p <= |buf| && IsSymbol(c) && c != '>' && (Lexemes(buf, p) == [] || Lexemes(buf, p)[0] != [c])
    ensures At(buf, SkipSpace(buf, p)) != c
  {
    if At(buf, SkipSpace(buf, p)) == c {
      SymbolLexeme(buf, p, c);
      assert false;
    }
  }

  /** Each '&' puts what is before it aside. */
  lemma {:induction false} BacksParse(buf: string, p: nat, n: nat, rest: seq<string>, c: Cmd) returns (d: Cmd, e: nat)
    requires IsText(buf) && p <= |buf| && Lexemes(buf, p) == BacksLexemes(n) + rest && (rest == [] || rest[0] != "&")
    ensures Backs(buf, p, c) == (d, e) && e <= |buf| && Lexemes(buf, e) == rest && Meaning(buf, d) == AsideAll(Meaning(buf, c), n)
    decreases n
  {
    hide NextToken;
    hide SkipSpace;
    hide Lexemes;
    hide Text;
    if n == 0 {
      assert BacksLexemes(n) + rest == rest;
      OtherSymbol(buf, p, '&');
      LexemesSkip(buf, p);
      d, e := c, SkipSpace(buf, p);
    } else {
      assert Lexemes(buf, p) == [['&']] + (BacksLexemes(n - 1) + rest);
      var q := TakeSymbol(buf, p, '&', BacksLexemes(n - 1) + rest);
      d, e := BacksParse(buf, q, n - 1, rest, Back(c));
    }
  }

  lemma BlockCommand(buf: string, p: nat, n: nat, c: Cmd, q: nat, m: nat, xs: seq<Redirection>, e: nat)
    requires IsText(buf) && p < n <= |buf| && q < m <= |buf|
    requires At(buf, SkipSpace(buf, p)) == '(' && NextToken(buf, SkipSpace(buf, p)).next == n
    requires At(buf, SkipSpace(buf, q)) == ')' && NextToken(buf, SkipSpace(buf, q)).next == m
    requires Line(buf, n) == Ok((c, q)) && Redirections(buf, m, []) == Ok((xs, e))
    ensures Command(buf, p) == Ok((Wrapped(c, xs), e))
  {
    hide Line;
    hide Redirections;
    hide NextToken;
    hide SkipSpace;
    BlockStarts(buf, p);
  }

  /** A simple command or a block with its redirections is one command. */
  lemma {:induction false} PieceParses(buf: string, p: nat, x: Piece, rest: seq<string>) returns (c: Cmd, e: nat)
    requires IsText(buf) && p <= |buf| && PieceOk(x) && Lexemes(buf, p) == PieceLexemes(x) + rest && Ends(rest)
    ensures Command(buf, p) == Ok((c, e)) && e <= |buf| && Lexemes(buf, e) == rest && Meaning(buf, c) == PieceMeaning(x)
    decreases x
  {
    hide Command;
    hide Line;
    hide Redirections;
    hide Meaning;
    hide IntoAll;
    hide Wrapped;
    hide Lexemes;
    hide NextToken;
    hide SkipSpace;
    hide Word;
    match x
    case Simple(front, args) =>
      assert Lexemes(buf, p) == TargetsLexemes(front) + (ArgsLexemes(args) + rest);
      c, e := SimpleParses(buf, p, front, args, rest);
    case Group(script, targets) =>
      var tail := TargetsLexemes(targets) + rest;
      assert Lexemes(buf, p) == [['(']] + (ScriptLexemes(script) + ([")"] + tail));
      var n := TakeSymbol(buf, p, '(', ScriptLexemes(script) + ([")"] + tail));
      var d, q := ScriptParses(buf, n, script, [")"] + tail);
      var m := TakeSymbol(buf, q, ')', tail);
      var xs;
      xs, e := TargetsParse(buf, m, targets, rest, [], []);
      assert [] + targets == targets;
      BlockCommand(buf, p, n, d, q, m, xs, e);
      c := Wrapped(d, xs);
      WrappedMeaning(buf, d, xs, targets);
  }

  lemma {:induction false} ChainParses(buf: string, p: nat, x: Chain, rest: seq<string>) returns (c: Cmd, e: nat)
    requires IsText(buf) && p <= |buf| && ChainOk(x) && Lexemes(buf, p) == ChainLexemes(x) + rest
    requires Ends(rest) && (rest == [] || rest[0] != "|")
    ensures Pipeline(buf, p) == Ok((c, e)) && e <= |buf| && Lexemes(buf, e) == rest && Meaning(buf, c) == ChainMeaning(x)
    decreases x
  {
    hide Command;
    hide Text;
    hide Lexemes;
    hide NextToken;
    hide SkipSpace;
    hide PieceLexemes;
    hide PieceMeaning;
    hide PieceOk;
    match x
    case Only(piece) =>
      var q;
      c, q := PieceParses(buf, p, piece, rest);
      OtherSymbol(buf, q, '|');
      LexemesSkip(buf, q);
      e := SkipSpace(buf, q);
    case Through(piece, chain) =>
      assert Lexemes(buf, p) == PieceLexemes(piece) + ([['|']] + (ChainLexemes(chain) + rest));
      var l, q := PieceParses(buf, p, piece, [['|']] + (ChainLexemes(chain) + rest));
      var n := TakeSymbol(buf, q, '|', ChainLexemes(chain) + rest);
      var r;
      r, e := ChainParses(buf, n, chain, rest);
      c := Pipe(l, r);
  }

  /** A script at the end of the line, or up to a ')', is one line. */
  lemma {:induction false} ScriptParses(buf: string, p: nat, x: Script, rest: seq<string>) returns (c: Cmd, e: nat)
    requires IsText(buf) && p <= |buf| && ScriptOk(x) && Lexemes(buf, p) == ScriptLexemes(x) + rest
    requires rest == [] || rest[0] == ")"
    ensures Line(buf, p) == Ok((c, e)) && e <= |buf| && Lexemes(buf, e) == rest && Meaning(buf, c) == ScriptMeaning(x)
    decreases x
  {
    hide Pipeline;
    hide Backs;
    hide Text;
    hide Lexemes;
    hide NextToken;
    hide SkipSpace;
    hide ChainLexemes;
    hide ChainMeaning;
    hide ChainOk;
    var n := x.backs;
    var tail := if x.Final? then rest else [[';']] + (ScriptLexemes(x.rest) + rest);
    assert Lexemes(buf, p) == ChainLexemes(x.chain) + (BacksLexemes(n) + tail);
    var l, q := ChainParses(buf, p, x.chain, BacksLexemes(n) + tail);
    var b, f := BacksParse(buf, q, n, tail, l);
    match x
    case Final(_, _) =>
      OtherSymbol(buf, f, ';');
      LexemesSkip(buf, f);
      c, e := b, SkipSpace(buf, f);
    case Before(_, _, more) =>
      var m := TakeSymbol(buf, f, ';', ScriptLexemes(more) + rest);
      var r;
      r, e := ScriptParses(buf, m, more, rest);
      c := List(b, r);
  }

  /** A line that consists of a script's tokens is accepted, and parsed to what the script says. */
  lemma Accepts(buf: string, x: Script)
    requires IsText(buf) && ScriptOk(x) && Lexemes(buf, 0) == ScriptLexemes(x)
    ensures Whole(buf).Ok? && Meaning(buf, Whole(buf).value) == ScriptMeaning(x)
  {
    hide Line;
    hide Lexemes;
    hide Meaning;
    assert ScriptLexemes(x) + [] == ScriptLexemes(x);
    var c, e := ScriptParses(buf, 0, x, []);
    NoLexeme(buf, e);
  }

  // ----- nothing else is accepted

  /** A sign and the file behind it. */
  lemma SignLexemes(buf: string, p: nat, mode: Mode)
    requires IsText(buf) && p <= |buf|
    requires var k := NextToken(buf, p).kind; k == match mode case Read => '<' case Write => '>' case Append => '+'
    requires NextToken(buf, NextToken(buf, p).next).kind == 'a'
    ensures var file := NextToken(buf, NextToken(buf, p).next);
            && p < file.next && Word(buf[file.q..file.eq]) && Text(buf, Slice(file.q, file.eq)) == buf[file.q..file.eq]
            && Lexemes(buf, p) == [Sign(mode), buf[file.q..file.eq]] + Lexemes(buf, file.next)
  {
    hide NextToken;
    hide Word;
    var t := NextToken(buf, p);
    TokenText(buf, p);
    TokenText(buf, t.next);
    assert Lexemes(buf, p) == [Sign(mode)] + Lexemes(buf, t.next);
  }

  lemma TargetsReadMore(buf: string, bs: seq<Target>, r: Target, more: seq<Target>)
    requires Word(r.file) && TargetsOk(more)
    ensures TargetsOk([r] + more) && bs + [r] + more == bs + ([r] + more)
    ensures TargetsLexemes([r] + more) == [Sign(r.mode), r.file] + TargetsLexemes(more)
  {
    hide Word;
    assert ([r] + more)[1..] == more;
  }

  /** The redirections that parseredirs accepts. */
  lemma {:induction false} TargetsRead(buf: string, p: nat, xs: seq<Redirection>, bs: seq<Target>) returns (rs: seq<Target>)
    requires IsText(buf) && p <= |buf| && Redirections(buf, p, xs).Ok? && Same(buf, xs, bs)
    ensures TargetsOk(rs) && Same(buf, Redirections(buf, p, xs).value.0, bs + rs)
    ensures Lexemes(buf, p) == TargetsLexemes(rs) + Lexemes(buf, Redirections(buf, p, xs).value.1)
    decreases |buf| - p
  {
    hide NextToken;
    hide SkipSpace;
    hide Word;
    hide Text;
    hide Lexemes;
    hide IsText;
    var s := SkipSpace(buf, p);
    LexemesSkip(buf, p);
    if At(buf, s) != '<' && At(buf, s) != '>' {
      rs := [];
      assert bs + [] == bs;
    } else {
      var tok := NextToken(buf, s);
      var file := NextToken(buf, tok.next);
      TokenText(buf, p);
      var mode := if tok.kind == '<' then Read else if tok.kind == '>' then Write else Append;
      SignLexemes(buf, s, mode);
      var r := Target(mode, buf[file.q..file.eq]);
      var more := TargetsRead(buf, file.next, xs + [Redirection(Slice(file.q, file.eq), mode)], bs + [r]);
      TargetsReadMore(buf, bs, r, more);
      rs := [r] + more;
    }
  }

  /** The words and redirections that the loop of parseexec accepts. */
  lemma {:induction false} ArgsRead(buf: string, p: nat, argv: seq<Slice>, ws: seq<string>, xs: seq<Redirection>, bs: seq<Target>)
    returns (args: seq<Arg>, ys: seq<Slice>, zs: seq<Redirection>)
    requires IsText(buf) && p <= |buf| && ShellGrammar.Words(buf, p, argv, xs).Ok? && Same(buf, xs, bs) && SameWords(buf, argv, ws)
    requires |argv| < MAXARGS
    ensures ArgsOk(args) && |argv| + |args| < MAXARGS
    ensures var r := ShellGrammar.Words(buf, p, argv, xs).value;
            && r.0 == Wrapped(Exec(ys), zs) && SameWords(buf, ys, ws + ArgWords(args)) && Same(buf, zs, bs + ArgTargets(args))
            && Lexemes(buf, p) == ArgsLexemes(args) + Lexemes(buf, r.1)
    decreases |buf| - p
  {
    hide NextToken;
    hide SkipSpace;
    hide Word;
    hide Text;
    hide Same;
    hide Redirections;
    hide Lexemes;
    hide TargetsOk;
    hide IsText;
    var s := SkipSpace(buf, p);
    LexemesSkip(buf, p);
    var tok := NextToken(buf, s);
    if EndsExec(At(buf, s)) || tok.kind == '\0' {
      args, ys, zs := [], argv, xs;
      assert ws + ArgWords([]) == ws && bs + ArgTargets([]) == bs;
      if !EndsExec(At(buf, s)) {
        EndToken(buf, s);
      }
    } else {
      WordLexeme(buf, s);
      var w, word := Slice(tok.q, tok.eq), buf[tok.q..tok.eq];
      var rs := TargetsRead(buf, tok.next, xs, bs);
      var next := Redirections(buf, tok.next, xs).value;
      var more;
      more, ys, zs := ArgsRead(buf, next.1, argv + [w], ws + [word], next.0, bs + rs);
      ArgsReadMore(ws, bs, Arg(word, rs), more);
      args := [Arg(word, rs)] + more;
    }
  }

  lemma WordLexeme(buf: string, p: nat)
    requires IsText(buf) && p <= |buf| && NextToken(buf, p).kind == 'a'
    ensures var t := NextToken(buf, p);
            && p < t.next && Word(buf[t.q..t.eq]) && Text(buf, Slice(t.q, t.eq)) == buf[t.q..t.eq]
            && Lexemes(buf, p) == [buf[t.q..t.eq]] + Lexemes(buf, t.next)
  {
    hide NextToken;
    TokenText(buf, p);
  }

  lemma ArgsReadMore(ws: seq<string>, bs: seq<Target>, a: Arg, more: seq<Arg>)
    requires Word(a.word) && TargetsOk(a.targets) && ArgsOk(more)
    ensures ArgsOk([a] + more)
    ensures ws + [a.word] + ArgWords(more) == ws + ArgWords([a] + more)
    ensures bs + a.targets + ArgTargets(more) == bs + ArgTargets([a] + more)
    ensures ArgsLexemes([a] + more) == [a.word] + TargetsLexemes(a.targets) + ArgsLexemes(more)
  {
    hide Word;
    hide TargetsOk;
    assert ([a] + more)[1..] == more;
  }

  lemma EndToken(buf: string, p: nat)
    requires IsText(buf) && p <= |buf| && NextToken(buf, p).kind == '\0'
    ensures Lexemes(buf, NextToken(buf, p).next) == [] == Lexemes(buf, p)
  {
  }

  /** A simple command that parseexec accepts. */
  lemma SimpleRead(buf: string, p: nat) returns (x: Piece)
    requires IsText(buf) && p <= |buf| && Command(buf, p).Ok? && At(buf, SkipSpace(buf, p)) != '('
    ensures PieceOk(x) && Meaning(buf, Command(buf, p).value.0) == PieceMeaning(x)
    ensures Lexemes(buf, p) == PieceLexemes(x) + Lexemes(buf, Command(buf, p).value.1)
  {
    hide NextToken;
    hide SkipSpace;
    hide Lexemes;
    hide Redirections;
    hide ShellGrammar.Words;
    hide IntoAll;
    hide Wrapped;
    hide Meaning;
    hide Word;
    LexemesSkip(buf, p);
    var s := SkipSpace(buf, p);
    var front := TargetsRead(buf, s, [], []);
    var r := Redirections(buf, s, []).value;
    assert [] + front == front;
    var args, ys, zs := ArgsRead(buf, r.1, [], [], r.0, front);
    assert [] + ArgWords(args) == ArgWords(args);
    ExecMeaning(buf, ys, ArgWords(args));
    WrappedMeaning(buf, Exec(ys), zs, front + ArgTargets(args));
    x := Simple(front, args);
  }

  /** The token at a symbol. */
  lemma SymbolLexeme(buf: string, p: nat, c: char)
    requires IsText(buf) && p <= |buf| && At(buf, SkipSpace(buf, p)) == c && IsSymbol(c) && c != '>'
    ensures NextToken(buf, SkipSpace(buf, p)).next > p
    ensures Lexemes(buf, p) == [[c]] + Lexemes(buf, NextToken(buf, SkipSpace(buf, p)).next)
  {
    var s := SkipSpace(buf, p);
    NoSkip(buf, s);
    SymbolKind(buf, s);
    LexemesSkip(buf, p);
    hide NextToken;
    hide SkipSpace;
    assert buf[s..s + 1] == [c];
  }

  lemma SymbolKind(buf: string, s: nat)
    requires IsText(buf) && s < |buf| && SkipSpace(buf, s) == s && IsSymbol(buf[s]) && buf[s] != '>'
    ensures var t := NextToken(buf, s); t.kind == buf[s] && t.q == s && t.eq == s + 1
  {
  }

  lemma {:induction false} BacksRead(buf: string, p: nat, c: Cmd) returns (n: nat)
    requires IsText(buf) && p <= |buf|
    ensures Meaning(buf, Backs(buf, p, c).0) == AsideAll(Meaning(buf, c), n)
    ensures Lexemes(buf, p) == BacksLexemes(n) + Lexemes(buf, Backs(buf, p, c).1)
    decreases |buf| - p
  {
    hide NextToken;
    hide SkipSpace;
    hide Lexemes;
    hide Text;
    LexemesSkip(buf, p);
    var s := SkipSpace(buf, p);
    if At(buf, s) == '&' {
      SymbolLexeme(buf, p, '&');
      n := BacksRead(buf, NextToken(buf, s).next, Back(c));
      n := n + 1;
    } else {
      n := 0;
    }
  }

  lemma {:induction false} PieceRead(buf: string, p: nat) returns (x: Piece)
    requires IsText(buf) && p <= |buf| && Command(buf, p).Ok?
    ensures PieceOk(x) && Meaning(buf, Command(buf, p).value.0) == PieceMeaning(x)
    ensures Lexemes(buf, p) == PieceLexemes(x) + Lexemes(buf, Command(buf, p).value.1)
    decreases |buf| - p, 1
  {
    hide NextToken;
    hide SkipSpace;
    hide Lexemes;
    hide Redirections;
    hide ShellGrammar.Words;
    hide Line;
    hide IntoAll;
    hide Wrapped;
    hide Meaning;
    var s := SkipSpace(buf, p);
    if At(buf, s) != '(' {
      x := SimpleRead(buf, p);
    } else {
      SymbolLexeme(buf, p, '(');
      BlockStarts(buf, p);
      var n := NextToken(buf, s).next;
      var script := ScriptRead(buf, n);
      var c, q := Line(buf, n).value.0, Line(buf, n).value.1;
      SymbolLexeme(buf, q, ')');
      var m := NextToken(buf, SkipSpace(buf, q)).next;
      var rs := TargetsRead(buf, m, [], []);
      assert [] + rs == rs;
      WrappedMeaning(buf, c, Redirections(buf, m, []).value.0, rs);
      x := Group(script, rs);
    }
  }

  lemma BlockStarts(buf: string, p: nat)
    requires IsText(buf) && p <= |buf| && At(buf, SkipSpace(buf, p)) == '('
    ensures At(buf, SkipSpace(buf, SkipSpace(buf, p))) == '('
  {
    NoSkip(buf, SkipSpace(buf, p));
  }

  lemma {:induction false} ChainRead(buf: string, p: nat) returns (x: Chain)
    requires IsText(buf) && p <= |buf| && Pipeline(buf, p).Ok?
    ensures ChainOk(x) && Meaning(buf, Pipeline(buf, p).value.0) == ChainMeaning(x)
    ensures Lexemes(buf, p) == ChainLexemes(x) + Lexemes(buf, Pipeline(buf, p).value.1)
    decreases |buf| - p, 2
  {
    hide NextToken;
    hide SkipSpace;
    hide Lexemes;
    hide Command;
    hide Text;
    hide PieceMeaning;
    hide PieceOk;
    var piece := PieceRead(buf, p);
    var q := Command(buf, p).value.1;
    LexemesSkip(buf, q);
    if At(buf, SkipSpace(buf, q)) == '|' {
      SymbolLexeme(buf, q, '|');
      var chain := ChainRead(buf, NextToken(buf, SkipSpace(buf, q)).next);
      x := Through(piece, chain);
    } else {
      x := Only(piece);
    }
  }

  /** Whatever parseline accepts is a script, written with those tokens and with that meaning. */
  lemma {:induction false} ScriptRead(buf: string, p: nat) returns (x: Script)
    requires IsText(buf) && p <= |buf| && Line(buf, p).Ok?
    ensures ScriptOk(x) && Meaning(buf, Line(buf, p).value.0) == ScriptMeaning(x)
    ensures Lexemes(buf, p) == ScriptLexemes(x) + Lexemes(buf, Line(buf, p).value.1)
    decreases |buf| - p, 3
  {
    hide NextToken;
    hide SkipSpace;
    hide Lexemes;
    hide Pipeline;
    hide Backs;
    hide Text;
    hide ChainMeaning;
    hide ChainOk;
    var chain := ChainRead(buf, p);
    var c, q := Pipeline(buf, p).value.0, Pipeline(buf, p).value.1;
    var n := BacksRead(buf, q, c);
    var e := Backs(buf, q, c).1;
    LexemesSkip(buf, e);
    if At(buf, SkipSpace(buf, e)) == ';' {
      SymbolLexeme(buf, e, ';');
      var rest := ScriptRead(buf, NextToken(buf, SkipSpace(buf, e)).next);
      x := Before(chain, n, rest);
    } else {
      x := Final(chain, n);
    }
  }

  /** Any line that is accepted consists of the tokens of a script, and parses to what that says. */
  lemma Accepted(buf: string) returns (x: Script)
    requires IsText(buf) && Whole(buf).Ok?
    ensures ScriptOk(x) && Lexemes(buf, 0) == ScriptLexemes(x) && Meaning(buf, Whole(buf).value) == ScriptMeaning(x)
  {
    hide Line;
    hide NextToken;
    hide SkipSpace;
    hide Meaning;
    x := ScriptRead(buf, 0);
    var e := Line(buf, 0).value.1;
    LexemesSkip(buf, e);
    TokenText(buf, |buf|);
  }

  // ----- writing a line

  predicate Blank(x: string) { forall k :: 0 <= k < |x| ==> IsSpace(x[k]) }

  /** The tokens, with white space of the given kind behind each. */
  function Spaced(toks: seq<string>, gaps: seq<string>): string
    requires |toks| == |gaps|
  {
    if toks == [] then "" else toks[0] + (gaps[0] + Spaced(toks[1..], gaps[1..]))
  }

  predicate IsLexeme(w: string) { Word(w) || w == ">>" || (|w| == 1 && IsSymbol(w[0])) }

  /** White space may be left out but between words, and before '>' behind '>'. */
  predicate SpacingOk(toks: seq<string>, gaps: seq<string>) {
    && |gaps| == |toks| && (forall k :: 0 <= k < |toks| ==> IsLexeme(toks[k]) && Blank(gaps[k]))
    && forall k :: 0 <= k < |toks| - 1 && gaps[k] == "" ==> !(Word(toks[k]) && Word(toks[k + 1])) && !(toks[k] == ">" && toks[k + 1][0] == '>')
  }

  predicate Starts(buf: string, p: nat, x: string) {
    p + |x| <= |buf| && buf[p..p + |x|] == x
  }

  lemma StartsBoth(buf: string, p: nat, x: string, y: string)
    requires Starts(buf, p, x + y)
    ensures Starts(buf, p, x) && Starts(buf, p + |x|, y)
  {
    assert buf[p..p + |x|] == (x + y)[..|x|];
    assert buf[p + |x|..p + |x| + |y|] == (x + y)[|x|..];
  }

  lemma StartsAt(buf: string, p: nat, x: string)
    requires Starts(buf, p, x) && x != ""
    ensures p < |buf| && buf[p] == x[0]
  {
    assert buf[p] == buf[p..p + |x|][0];
  }

  lemma {:induction false} GapSkip(buf: string, p: nat, gap: string)
    requires Starts(buf, p, gap) && Blank(gap) && !IsSpace(At(buf, p + |gap|))
    ensures SkipSpace(buf, p) == p + |gap|
    decreases |gap|
  {
    if gap != "" {
      StartsAt(buf, p, gap);
      assert gap == gap[..1] + gap[1..];
      StartsBoth(buf, p, gap[..1], gap[1..]);
      GapSkip(buf, p + 1, gap[1..]);
    }
  }

  lemma {:induction false} WordEndAt(buf: string, p: nat, e: nat)
    requires IsText(buf) && p <= e <= |buf| && (forall k :: p <= k < e ==> IsWordChar(buf[k]))
    requires e < |buf| ==> !IsWordChar(buf[e])
    ensures WordEnd(buf, p) == e
    decreases e - p
  {
    if p < e {
      WordEndAt(buf, p + 1, e);
    } else if e < |buf| {
      assert buf[e] != '\0';
    }
  }
  lemma {:induction false} SpacedIsText(toks: seq<string>, gaps: seq<string>)
    requires SpacingOk(toks, gaps)
    ensures IsText(Spaced(toks, gaps))
    decreases |toks|
  {
    if toks != [] {
      SpacingRest(toks, gaps);
      SpacedIsText(toks[1..], gaps[1..]);
      assert IsLexeme(toks[0]) && Blank(gaps[0]);
    }
  }

  lemma SpacingRest(toks: seq<string>, gaps: seq<string>)
    requires SpacingOk(toks, gaps) && toks != []
    ensures SpacingOk(toks[1..], gaps[1..])
  {
    hide IsLexeme;
    hide Blank;
    hide Word;
  }

  /** What comes behind the first token and its white space. */
  lemma NextStart(buf: string, n: nat, toks: seq<string>, gaps: seq<string>)
    requires SpacingOk(toks, gaps) && Starts(buf, n, Spaced(toks, gaps)) && n + |Spaced(toks, gaps)| == |buf|
    ensures if toks == [] then n == |buf| else toks[0] != "" && At(buf, n) == toks[0][0] && !IsSpace(toks[0][0])
  {
    if toks != [] {
      assert IsLexeme(toks[0]);
      StartsAt(buf, n, Spaced(toks, gaps));
    }
  }

  /** The token w with white space and something else behind it is read as w. */
  lemma OneLexeme(buf: string, p: nat, w: string, gap: string)
    requires IsText(buf) && IsLexeme(w) && Blank(gap) && Starts(buf, p, w + gap) && !IsSpace(At(buf, p + |w| + |gap|))
    requires gap == "" && Word(w) ==> !IsWordChar(At(buf, p + |w|))
    requires gap == "" && w == ">" ==> At(buf, p + |w|) != '>'
    ensures w != "" && p + |w| + |gap| <= |buf| && NextToken(buf, p) == Token(Kind(w), p, p + |w|, p + |w| + |gap|) && buf[p..p + |w|] == w
  {
    hide NextToken;
    hide SkipSpace;
    hide IsLexeme;
    StartsBoth(buf, p, w, gap);
    GapSkip(buf, p + |w|, gap);
    if gap != "" {
      StartsAt(buf, p + |w|, gap);
    }
    hide Blank;
    if Word(w) {
      WordToken(buf, p, w);
    } else {
      SymbolToken(buf, p, w);
    }
  }

  lemma WordToken(buf: string, p: nat, w: string)
    requires IsText(buf) && Word(w) && Starts(buf, p, w) && !IsWordChar(At(buf, p + |w|))
    ensures NextToken(buf, p) == Token('a', p, p + |w|, SkipSpace(buf, p + |w|)) && Kind(w) == 'a'
  {
    forall k | p <= k < p + |w| ensures IsWordChar(buf[k]) {
      assert buf[k] == buf[p..p + |w|][k - p];
    }
    StartsAt(buf, p, w);
    NoSkip(buf, p);
    WordEndAt(buf, p, p + |w|);
    WordKind(w);
    hide SkipSpace;
  }

  lemma SymbolToken(buf: string, p: nat, w: string)
    requires IsText(buf) && IsLexeme(w) && !Word(w) && Starts(buf, p, w) && (w == ">" ==> At(buf, p + 1) != '>')
    ensures w != "" && NextToken(buf, p) == Token(Kind(w), p, p + |w|, SkipSpace(buf, p + |w|))
  {
    StartsAt(buf, p, w);
    NoSkip(buf, p);
    if w == ">>" {
      SecondChar(buf, p, w);
    }
    hide SkipSpace;
  }

  lemma SecondChar(buf: string, p: nat, x: string)
    requires Starts(buf, p, x) && |x| > 1
    ensures p + 1 < |buf| && buf[p + 1] == x[1]
  {
    assert buf[p + 1] == buf[p..p + |x|][1];
  }

  /** Written out, the tokens are read back. */
  lemma {:induction false} LexSpaced(buf: string, p: nat, toks: seq<string>, gaps: seq<string>)
    requires IsText(buf) && SpacingOk(toks, gaps) && Starts(buf, p, Spaced(toks, gaps)) && p + |Spaced(toks, gaps)| == |buf|
    ensures Lexemes(buf, p) == toks
    decreases |toks|
  {
    hide NextToken;
    hide SkipSpace;
    hide IsText;
    hide Starts;
    if toks == [] {
      TokenText(buf, p);
      AtEnd(buf);
    } else {
      var w, gap, n := toks[0], gaps[0], p + |toks[0]| + |gaps[0]|;
      var more := Spaced(toks[1..], gaps[1..]);
      assert w + (gap + more) == (w + gap) + more;
      StartsBoth(buf, p, w + gap, more);
      SpacingRest(toks, gaps);
      NextStart(buf, n, toks[1..], gaps[1..]);
      NextFits(buf, n, toks, gaps);
      OneLexeme(buf, p, w, gap);
      LexSpaced(buf, n, toks[1..], gaps[1..]);
    }
  }

  lemma AtEnd(buf: string)
    requires IsText(buf)
    ensures NextToken(buf, |buf|).kind == '\0'
  {
  }

  lemma NextFits(buf: string, n: nat, toks: seq<string>, gaps: seq<string>)
    requires SpacingOk(toks, gaps) && toks != [] && n <= |buf|
    requires if |toks| == 1 then n == |buf| else toks[1] != "" && At(buf, n) == toks[1][0] && !IsSpace(toks[1][0])
    ensures IsLexeme(toks[0]) && Blank(gaps[0]) && !IsSpace(At(buf, n))
    ensures gaps[0] == "" && Word(toks[0]) ==> !IsWordChar(At(buf, n))
    ensures gaps[0] == "" && toks[0] == ">" ==> At(buf, n) != '>'
  {
    if |toks| > 1 {
      assert IsLexeme(toks[1]);
    }
  }

  /** Every script, with white space anywhere and left out but where it must not be, is accepted and parsed to what it says. */
  lemma RoundTrip(x: Script, lead: string, gaps: seq<string>)
    requires ScriptOk(x) && Blank(lead) && SpacingOk(ScriptLexemes(x), gaps)
    ensures var buf := lead + Spaced(ScriptLexemes(x), gaps);
            IsText(buf) && Whole(buf).Ok? && Meaning(buf, Whole(buf).value) == ScriptMeaning(x)
  {
    hide ScriptLexemes;
    hide Whole;
    hide Meaning;
    hide Lexemes;
    hide SkipSpace;
    var toks := ScriptLexemes(x);
    var buf, n := lead + Spaced(toks, gaps), |lead|;
    SpacedIsText(toks, gaps);
    assert buf[0..n] == lead && buf[n..n + |Spaced(toks, gaps)|] == Spaced(toks, gaps);
    NextStart(buf, n, toks, gaps);
    GapSkip(buf, 0, lead);
    LexSpaced(buf, n, toks, gaps);
    LexemesSkip(buf, 0);
    Accepts(buf, x);
  }

  // ----- any tree

  /** Each command tree of printable words can be written, with every command of it in parentheses. */
  function Written(t: Tree): Script {
    match t
    case Words(args) => Final(Only(Simple([], seq(|args|, k requires 0 <= k < |args| => Arg(args[k], [])))), 0)
    case Into(d, file, mode) => Final(Only(Group(Written(d), [Target(mode, file)])), 0)
    case Piped(l, r) => Final(Through(Group(Written(l), []), Only(Group(Written(r), []))), 0)
    case Then(l, r) => Before(Only(Group(Written(l), [])), 0, Written(r))
    case Aside(d) => Final(Only(Group(Written(d), [])), 1)
  }

  predicate Printable(t: Tree) {
    match t
    case Words(args) => |args| < MAXARGS && forall k :: 0 <= k < |args| ==> Word(args[k])
    case Into(d, file, _) => Printable(d) && Word(file)
    case Piped(l, r) => Printable(l) && Printable(r)
    case Then(l, r) => Printable(l) && Printable(r)
    case Aside(d) => Printable(d)
  }

  lemma {:induction false} PlainArgs(args: seq<Arg>)
    requires forall k :: 0 <= k < |args| ==> args[k].targets == []
    ensures ArgTargets(args) == [] && forall k :: 0 <= k < |args| ==> ArgWords(args)[k] == args[k].word
    decreases |args|
  {
    if args != [] {
      PlainArgs(args[1..]);
    }
  }

  lemma GroupMeaning(t: Tree, rs: seq<Target>)
    requires ScriptOk(Written(t)) && ScriptMeaning(Written(t)) == t && TargetsOk(rs)
    ensures var c := Only(Group(Written(t), rs)); ChainOk(c) && ChainMeaning(c) == IntoAll(t, rs)
  {
    assert PieceOk(Group(Written(t), rs)) && PieceMeaning(Group(Written(t), rs)) == IntoAll(t, rs);
  }

  lemma {:induction false} WrittenMeaning(t: Tree)
    requires Printable(t)
    ensures ScriptOk(Written(t)) && ScriptMeaning(Written(t)) == t
  {
    match t
    case Words(words) =>
      var args := Written(t).chain.piece.args;
      assert args == seq(|words|, k requires 0 <= k < |words| => Arg(words[k], []));
      PlainArgs(args);
      assert ArgWords(args) == words;
      assert [] + ArgTargets(args) == [];
      assert PieceMeaning(Simple([], args)) == t;
      assert AsideAll(t, 0) == t;
    case Into(d, file, mode) => WrittenMeaning(d); GroupMeaning(d, [Target(mode, file)]); assert [Target(mode, file)][1..] == [];
    case Piped(l, r) => WrittenMeaning(l); WrittenMeaning(r); GroupMeaning(l, []); GroupMeaning(r, []);
    case Then(l, r) => WrittenMeaning(l); WrittenMeaning(r); GroupMeaning(l, []);
    case Aside(d) => WrittenMeaning(d); GroupMeaning(d, []); assert AsideAll(Aside(d), 0) == t;
  }

  predicate AllLexemes(toks: seq<string>) { forall k :: 0 <= k < |toks| ==> IsLexeme(toks[k]) }

  lemma {:induction false} TargetsAllLexemes(rs: seq<Target>)
    requires TargetsOk(rs)
    ensures AllLexemes(TargetsLexemes(rs))
    decreases |rs|
  {
    hide Word;
    if rs != [] {
      TargetsAllLexemes(rs[1..]);
      assert IsLexeme(rs[0].file) && IsLexeme(Sign(rs[0].mode));
    }
  }

  lemma {:induction false} ArgsAllLexemes(args: seq<Arg>)
    requires ArgsOk(args)
    ensures AllLexemes(ArgsLexemes(args))
    decreases |args|
  {
    hide Word;
    hide TargetsOk;
    if args != [] {
      ArgsAllLexemes(args[1..]);
      TargetsAllLexemes(args[0].targets);
      assert IsLexeme(args[0].word);
    }
  }

  lemma {:induction false} PieceAllLexemes(x: Piece)
    requires PieceOk(x)
    ensures AllLexemes(PieceLexemes(x))
    decreases x
  {
    match x
    case Simple(front, args) => TargetsAllLexemes(front); ArgsAllLexemes(args);
    case Group(script, targets) => ScriptAllLexemes(script); TargetsAllLexemes(targets);
  }

  lemma {:induction false} ChainAllLexemes(x: Chain)
    requires ChainOk(x)
    ensures AllLexemes(ChainLexemes(x))
    decreases x
  {
    PieceAllLexemes(x.piece);
    if x.Through? {
      ChainAllLexemes(x.chain);
    }
  }

  lemma {:induction false} BacksAllLexemes(n: nat)
    ensures AllLexemes(BacksLexemes(n))
  {
    if n > 0 {
      BacksAllLexemes(n - 1);
    }
  }

  lemma {:induction false} ScriptAllLexemes(x: Script)
    requires ScriptOk(x)
    ensures AllLexemes(ScriptLexemes(x))
    decreases x
  {
    ChainAllLexemes(x.chain);
    BacksAllLexemes(x.backs);
    if x.Before? {
      ScriptAllLexemes(x.rest);
    }
  }

  /** So every tree of printable words is what some line means. */
  lemma EveryTree(t: Tree) returns (buf: string)
    requires Printable(t)
    ensures IsText(buf) && Whole(buf).Ok? && Meaning(buf, Whole(buf).value) == t
  {
    hide ScriptLexemes;
    hide Whole;
    WrittenMeaning(t);
    var x := Written(t);
    ScriptAllLexemes(x);
    var gaps := seq(|ScriptLexemes(x)|, _ => " ");
    RoundTrip(x, "", gaps);
    buf := "" + Spaced(ScriptLexemes(x), gaps);
  }

  /** The parser accepts a line with the meaning t just if its tokens are those of a script that says t. */
  lemma Language(buf: string, t: Tree)
    requires IsText(buf)
    ensures Whole(buf).Ok? && Meaning(buf, Whole(buf).value) == t
            <==> exists x :: ScriptOk(x) && Lexemes(buf, 0) == ScriptLexemes(x) && ScriptMeaning(x) == t
  {
    hide Whole;
    hide Meaning;
    hide Lexemes;
    hide ScriptLexemes;
    hide ScriptMeaning;
    hide ScriptOk;
    if Whole(buf).Ok? && Meaning(buf, Whole(buf).value) == t {
      var x := Accepted(buf);
      assert ScriptOk(x) && Lexemes(buf, 0) == ScriptLexemes(x) && ScriptMeaning(x) == t;
    }
    if exists x :: ScriptOk(x) && Lexemes(buf, 0) == ScriptLexemes(x) && ScriptMeaning(x) == t {
      var x :| ScriptOk(x) && Lexemes(buf, 0) == ScriptLexemes(x) && ScriptMeaning(x) == t;
      Accepts(buf, x);
    }
  }
}
