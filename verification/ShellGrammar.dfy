/** The language of sh.c: its tokens and, as functions, what each parsing routine accepts and returns. */
module ShellGrammar {

  const MAXARGS := 10

  datatype Result<T> = Ok(value: T) | Panic(message: string)

  predicate IsSpace(c: char) { c == ' ' || c == '\t' || c == '\r' || c == '\n' || c == 11 as char }

  predicate IsSymbol(c: char) {
    c == '<' || c == '|' || c == '>' || c == '&' || c == ';' || c == '(' || c == ')'
  }

  /** Words are what is between white space and symbols. */
  predicate IsWordChar(c: char) { !IsSpace(c) && !IsSymbol(c) && c != '\0' }

  /** A C string's characters; NUL only ends it. */
  predicate IsText(buf: string) { '\0' !in buf }

  /** buf[p], which at the end is the NUL. */
  function At(buf: string, p: nat): char { if p < |buf| then buf[p] else '\0' }

  // ----- tokens

  function SkipSpace(buf: string, p: nat): (r: nat)
    requires p <= |buf|
    ensures p <= r <= |buf| && !IsSpace(At(buf, r)) && forall k :: p <= k < r ==> IsSpace(buf[k])
    decreases |buf| - p
  {
    if p < |buf| && IsSpace(buf[p]) then SkipSpace(buf, p + 1) else p
  }

  function WordEnd(buf: string, p: nat): (r: nat)
    requires p <= |buf|
    ensures p <= r <= |buf| && (r < |buf| ==> IsSpace(buf[r]) || IsSymbol(buf[r]))
    ensures forall k :: p <= k < r ==> !IsSpace(buf[k]) && !IsSymbol(buf[k])
    decreases |buf| - p
  {
    if p < |buf| && !IsSpace(buf[p]) && !IsSymbol(buf[p]) then WordEnd(buf, p + 1) else p
  }

  /** kind is the symbol, 'a' for a word, '+' for >>, and NUL at the end; [q, eq) is the text. */
  datatype Token = Token(kind: char, q: nat, eq: nat, next: nat)

  function NextToken(buf: string, p: nat): (t: Token)
    requires p <= |buf| && IsText(buf)
    ensures p <= t.q <= t.eq <= t.next <= |buf| && (t.kind != '\0' ==> t.q < t.eq)
    ensures t.kind == 'a' ==> IsWord(buf, Slice(t.q, t.eq))
  {
    var s := SkipSpace(buf, p);
    var c := At(buf, s);
    if s == |buf| then Token('\0', s, s, s)
    else if c == '>' && At(buf, s + 1) == '>' then Token('+', s, s + 2, SkipSpace(buf, s + 2))
    else if IsSymbol(c) then Token(c, s, s + 1, SkipSpace(buf, s + 1))
    else var e := WordEnd(buf, s); Token('a', s, e, SkipSpace(buf, e))
  }

  /** A piece of the input line. */
  datatype Slice = Slice(start: nat, end: nat)

  /** Word characters, followed by white space, a symbol or the end. */
  predicate IsWord(buf: string, w: Slice) {
    && w.start < w.end <= |buf|
    && (forall k :: w.start <= k < w.end ==> IsWordChar(buf[k]))
    && (w.end < |buf| ==> !IsWordChar(buf[w.end]))
  }

  // ----- commands

  datatype Mode = Read | Write | Append

  /** The tree that the parser builds; words are slices of the line. */
  datatype Cmd =
    | Exec(argv: seq<Slice>)
    | Redir(cmd: Cmd, file: Slice, mode: Mode)
    | Pipe(left: Cmd, right: Cmd)
    | List(left: Cmd, right: Cmd)
    | Back(cmd: Cmd)

  datatype Redirection = Redirection(file: Slice, mode: Mode)

  /** redircmd applied once for each redirection, the last outermost. */
  function Wrapped(c: Cmd, rs: seq<Redirection>): Cmd {
    if rs == [] then c else Redir(Wrapped(c, rs[..|rs| - 1]), rs[|rs| - 1].file, rs[|rs| - 1].mode)
  }

  /** parseredirs: the redirections from p on, after those found before. */
  function Redirections(buf: string, p: nat, before: seq<Redirection>): (r: Result<(seq<Redirection>, nat)>)
    requires p <= |buf| && IsText(buf)
    ensures r.Ok? ==> p <= r.value.1 <= |buf|
    decreases |buf| - p
  {
    var s := SkipSpace(buf, p);
    if At(buf, s) != '<' && At(buf, s) != '>' then Ok((before, s))
    else
      var tok := NextToken(buf, s);
      var file := NextToken(buf, tok.next);
      if file.kind != 'a' then Panic("missing file for redirection")
      else
        var mode := if tok.kind == '<' then Read else if tok.kind == '>' then Write else Append;
        Redirections(buf, file.next, before + [Redirection(Slice(file.q, file.eq), mode)])
  }

  predicate EndsExec(c: char) { c == '|' || c == ')' || c == '&' || c == ';' }

  /** The loop of parseexec, with the words and redirections found before. */
  function Words(buf: string, p: nat, argv: seq<Slice>, rs: seq<Redirection>): (r: Result<(Cmd, nat)>)
    requires p <= |buf| && IsText(buf)
    ensures r.Ok? ==> p <= r.value.1 <= |buf|
    decreases |buf| - p
  {
    var s := SkipSpace(buf, p);
    if EndsExec(At(buf, s)) then Ok((Wrapped(Exec(argv), rs), s))
    else
      var tok := NextToken(buf, s);
      if tok.kind == '\0' then Ok((Wrapped(Exec(argv), rs), tok.next))
      else if tok.kind != 'a' then Panic("syntax")
      else if |argv| + 1 >= MAXARGS then Panic("too many args")
      else
        match Redirections(buf, tok.next, rs)
        case Panic(m) => Panic(m)
        case Ok(x) => Words(buf, x.1, argv + [Slice(tok.q, tok.eq)], x.0)
  }

  /** The loop of parseline that wraps a command for each '&'. */
  function Backs(buf: string, p: nat, c: Cmd): (r: (Cmd, nat))
    requires p <= |buf| && IsText(buf)
    ensures p <= r.1 <= |buf|
    decreases |buf| - p
  {
    var s := SkipSpace(buf, p);
    if At(buf, s) == '&' then Backs(buf, NextToken(buf, s).next, Back(c)) else (c, s)
  }

  /** parseexec */
  function Command(buf: string, p: nat): (r: Result<(Cmd, nat)>)
    requires p <= |buf| && IsText(buf)
    ensures r.Ok? ==> p <= r.value.1 <= |buf|
    decreases |buf| - p, 1
  {
    var s := SkipSpace(buf, p);
    if At(buf, s) == '(' then Block(buf, s)
    else
      match Redirections(buf, s, [])
      case Panic(m) => Panic(m)
      case Ok(x) => Words(buf, x.1, [], x.0)
  }

  /** parseblock, at a '(' */
  function Block(buf: string, p: nat): (r: Result<(Cmd, nat)>)
    requires p <= |buf| && IsText(buf) && At(buf, SkipSpace(buf, p)) == '('
    ensures r.Ok? ==> p <= r.value.1 <= |buf|
    decreases |buf| - p, 0
  {
    match Line(buf, NextToken(buf, p).next)
    case Panic(m) => Panic(m)
    case Ok(x) =>
      var s := SkipSpace(buf, x.1);
      if At(buf, s) != ')' then Panic("syntax - missing )")
      else
        match Redirections(buf, NextToken(buf, s).next, [])
        case Panic(m) => Panic(m)
        case Ok(y) => Ok((Wrapped(x.0, y.0), y.1))
  }

  /** parsepipe */
  function Pipeline(buf: string, p: nat): (r: Result<(Cmd, nat)>)
    requires p <= |buf| && IsText(buf)
    ensures r.Ok? ==> p <= r.value.1 <= |buf|
    decreases |buf| - p, 2
  {
    match Command(buf, p)
    case Panic(m) => Panic(m)
    case Ok(x) =>
      var s := SkipSpace(buf, x.1);
      if At(buf, s) != '|' then Ok((x.0, s))
      else
        match Pipeline(buf, NextToken(buf, s).next)
        case Panic(m) => Panic(m)
        case Ok(y) => Ok((Pipe(x.0, y.0), y.1))
  }

  /** parseline */
  function Line(buf: string, p: nat): (r: Result<(Cmd, nat)>)
    requires p <= |buf| && IsText(buf)
    ensures r.Ok? ==> p <= r.value.1 <= |buf|
    decreases |buf| - p, 3
  {
    match Pipeline(buf, p)
    case Panic(m) => Panic(m)
    case Ok(x) =>
      var (c, q) := Backs(buf, x.1, x.0);
      var s := SkipSpace(buf, q);
      if At(buf, s) != ';' then Ok((c, s))
      else
        match Line(buf, NextToken(buf, s).next)
        case Panic(m) => Panic(m)
        case Ok(y) => Ok((List(c, y.0), y.1))
  }

  /** parsecmd before it terminates the words */
  function Whole(buf: string): Result<Cmd>
    requires IsText(buf)
  {
    match Line(buf, 0)
    case Panic(m) => Panic(m)
    case Ok(x) => if SkipSpace(buf, x.1) != |buf| then Panic("syntax") else Ok(x.0)
  }
}
