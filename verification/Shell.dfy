/** sh.c: the recursive-descent parser, and the terminator that works on the line in place. */
module Shell {
  import opened ShellGrammar
  import opened ShellWords

  /** The line being parsed, up to its NUL, and the parser's place in it. */
  class Parser {
    const buf: string
    var s: nat

    ghost predicate Valid()
      reads this
    {
      IsText(buf) && s <= |buf|
    }

    constructor (line: string)
      requires IsText(line)
      ensures Valid() && buf == line && s == 0
    {
      buf, s := line, 0;
    }

    /** The loops that move over white space. */
    method SkipSpaces(from: nat) returns (p: nat)
      requires from <= |buf|
      ensures p == SkipSpace(buf, from)
    {
      p := from;
      while p < |buf| && IsSpace(buf[p])
        invariant p <= |buf| && SkipSpace(buf, p) == SkipSpace(buf, from)
      {
        p := p + 1;
      }
    }

    /** The next token, and the parser after it and the white space behind it. */
    method GetToken() returns (t: Token)
      requires Valid()
      modifies this`s
      ensures Valid() && t == NextToken(buf, old(s)) && s == t.next
    {
      var p := SkipSpaces(s);
      var q := p;
      var ret := At(buf, p);
      match ret {
        case '\0' =>
        case '>' =>
          p := p + 1;
          if At(buf, p) == '>' {
            ret := '+';
            p := p + 1;
          }
        case _ =>
          if IsSymbol(ret) {
            p := p + 1;
          } else {
            ret := 'a';
            while p < |buf| && !IsSpace(buf[p]) && !IsSymbol(buf[p])
              invariant q <= p <= |buf| && WordEnd(buf, p) == WordEnd(buf, q)
            {
              p := p + 1;
            }
          }
      }
      var eq := p;
      s := SkipSpaces(p);
      t := Token(ret, q, eq, s);
    }

    /** Move over white space; is one of toks next? */
    method Peek(toks: string) returns (found: bool)
      requires Valid()
      modifies this`s
      ensures Valid() && s == SkipSpace(buf, old(s)) && (found <==> s < |buf| && buf[s] in toks)
    {
      s := SkipSpaces(s);
      found := s < |buf| && buf[s] in toks;
    }

    method ParseRedirs(before: seq<Redirection>) returns (r: Result<seq<Redirection>>)
      requires Valid()
      modifies this`s
      ensures Valid() && s >= old(s)
      ensures match Redirections(buf, old(s), before)
              case Panic(m) => r == Panic(m)
              case Ok(x) => r == Ok(x.0) && s == x.1
    {
      hide NextToken;
      hide SkipSpace;
      hide IsWord;
      hide Redirections;
      ghost var from := s;
      var rs := before;
      var more := Peek("<>");
      RedirectionsFrom(buf, from, before);
      while more
        invariant Valid() && s >= from && SkipSpace(buf, s) == s
        invariant more <==> At(buf, s) == '<' || At(buf, s) == '>'
        invariant Redirections(buf, s, rs) == Redirections(buf, from, before)
        decreases |buf| - s, more
      {
        RedirectionsFrom(buf, s, rs);
        var tok := GetToken();
        var file := GetToken();
        if file.kind != 'a' {
          return Panic("missing file for redirection");
        }
        var mode := Append;
        match tok.kind {
          case '<' => mode := Read;
          case '>' => mode := Write;
          case _ =>
        }
        rs := rs + [Redirection(Slice(file.q, file.eq), mode)];
        more := Peek("<>");
        RedirectionsFrom(buf, file.next, rs);
      }
      RedirectionsFrom(buf, s, rs);
      r := Ok(rs);
    }

    method ParseExec() returns (r: Result<Cmd>)
      requires Valid()
      modifies this`s
      ensures Valid() && s >= old(s)
      ensures match Command(buf, old(s))
              case Panic(m) => r == Panic(m)
              case Ok(x) => r == Ok(x.0) && s == x.1
      decreases |buf| - s, 1
    {
      hide NextToken;
      hide SkipSpace;
      hide IsWord;
      hide Redirections;
      hide Words;
      hide Command;
      hide Block;
      ghost var from := s;
      CommandFrom(buf, s);
      var block := Peek("(");
      if block {
        r := ParseBlock();
        return;
      }
      var rs := ParseRedirs([]);
      if rs.Panic? {
        return Panic(rs.message);
      }
      r := ParseWords(rs.value);
    }

    /** The loop of parseexec, after the redirections in front. */
    method ParseWords(before: seq<Redirection>) returns (r: Result<Cmd>)
      requires Valid()
      modifies this`s
      ensures Valid() && s >= old(s)
      ensures match Words(buf, old(s), [], before)
              case Panic(m) => r == Panic(m)
              case Ok(x) => r == Ok(x.0) && s == x.1
    {
      hide NextToken;
      hide SkipSpace;
      hide IsWord;
      hide Redirections;
      hide Words;
      hide Wrapped;
      ghost var from := s;
      var argv: seq<Slice>, redirs := [], before;
      WordsFrom(buf, s, argv, redirs);
      var done := Peek("|)&;");
      while !done
        invariant Valid() && s >= from && SkipSpace(buf, s) == s && (done <==> EndsExec(At(buf, s)))
        invariant |argv| < MAXARGS
        invariant Words(buf, s, argv, redirs) == Words(buf, from, [], before)
        decreases |buf| - s, !done
      {
        WordsFrom(buf, s, argv, redirs);
        var tok := GetToken();
        if tok.kind == '\0' {
          break;
        }
        if tok.kind != 'a' {
          return Panic("syntax");
        }
        argv := argv + [Slice(tok.q, tok.eq)];
        if |argv| >= MAXARGS {
          return Panic("too many args");
        }
        var rs := ParseRedirs(redirs);
        if rs.Panic? {
          return Panic(rs.message);
        }
        redirs := rs.value;
        WordsFrom(buf, s, argv, redirs);
        done := Peek("|)&;");
      }
      WordsEnd(buf, s, argv, redirs);
      r := Ok(Wrapped(Exec(argv), redirs));
    }

    method ParseBlock() returns (r: Result<Cmd>)
      requires Valid() && At(buf, SkipSpace(buf, s)) == '('
      modifies this`s
      ensures Valid() && s >= old(s)
      ensures match Block(buf, old(s))
              case Panic(m) => r == Panic(m)
              case Ok(x) => r == Ok(x.0) && s == x.1
      decreases |buf| - s, 0
    {
      hide IsWord;
      hide Redirections;
      hide Line;
      hide Wrapped;
      ghost var from := s;
      ghost var start := SkipSpace(buf, s);
      BlockFrom(buf, s);
      var open := Peek("(");
      if !open {
        return Panic("parseblock");
      }
      var _ := GetToken();
      r := ParseLine();
      if r.Panic? {
        return;
      }
      var closed := Peek(")");
      if !closed {
        return Panic("syntax - missing )");
      }
      var _ := GetToken();
      var rs := ParseRedirs([]);
      if rs.Panic? {
        return Panic(rs.message);
      }
      r := Ok(Wrapped(r.value, rs.value));
    }

    method ParsePipe() returns (r: Result<Cmd>)
      requires Valid()
      modifies this`s
      ensures Valid() && s >= old(s)
      ensures match Pipeline(buf, old(s))
              case Panic(m) => r == Panic(m)
              case Ok(x) => r == Ok(x.0) && s == x.1
      decreases |buf| - s, 2
    {
      hide IsWord;
      hide Command;
      r := ParseExec();
      if r.Panic? {
        return;
      }
      ghost var mid := s;
      var more := Peek("|");
      if more {
        TokenAfterSpace(buf, mid);
        var _ := GetToken();
        var right := ParsePipe();
        if right.Panic? {
          return right;
        }
        r := Ok(Pipe(r.value, right.value));
      }
    }

    method ParseLine() returns (r: Result<Cmd>)
      requires Valid()
      modifies this`s
      ensures Valid() && s >= old(s)
      ensures match Line(buf, old(s))
              case Panic(m) => r == Panic(m)
              case Ok(x) => r == Ok(x.0) && s == x.1
      decreases |buf| - s, 3
    {
      hide IsWord;
      hide Pipeline;
      hide NextToken;
      hide SkipSpace;
      ghost var from := s;
      r := ParsePipe();
      if r.Panic? {
        return;
      }
      ghost var mid, c := s, r.value;
      BacksFrom(buf, s, c);
      var more := Peek("&");
      while more
        invariant Valid() && s >= mid && r.Ok? && SkipSpace(buf, s) == s && (more <==> At(buf, s) == '&')
        invariant Backs(buf, s, r.value) == Backs(buf, mid, c)
        decreases |buf| - s, more
      {
        SymbolMoves(buf, s);
        var tok := GetToken();
        r := Ok(Back(r.value));
        BacksFrom(buf, tok.next, r.value);
        more := Peek("&");
      }
      assert Backs(buf, mid, c) == (r.value, s);
      more := Peek(";");
      if more {
        SymbolMoves(buf, s);
        var _ := GetToken();
        var right := ParseLine();
        if right.Panic? {
          return right;
        }
        r := Ok(List(r.value, right.value));
      }
    }
  }

  // ----- white space in front does not matter

  lemma Skipped(buf: string, p: nat)
    requires p <= |buf|
    ensures SkipSpace(buf, SkipSpace(buf, p)) == SkipSpace(buf, p)
  {
  }

  lemma TokenAfterSpace(buf: string, p: nat)
    requires IsText(buf) && p <= |buf|
    ensures NextToken(buf, SkipSpace(buf, p)) == NextToken(buf, p)
    ensures p < SkipSpace(buf, p) || NextToken(buf, p).kind == '\0' || NextToken(buf, p).next > p
  {
    Skipped(buf, p);
  }

  lemma SymbolMoves(buf: string, p: nat)
    requires IsText(buf) && p <= |buf| && IsSymbol(At(buf, p))
    ensures p < |buf| && NextToken(buf, p).next > p
  {
  }

  lemma RedirectionsFrom(buf: string, p: nat, rs: seq<Redirection>)
    requires IsText(buf) && p <= |buf|
    ensures var s := SkipSpace(buf, p);
            && SkipSpace(buf, s) == s && Redirections(buf, s, rs) == Redirections(buf, p, rs)
            && Redirections(buf, p, rs) ==
               if At(buf, s) != '<' && At(buf, s) != '>' then Ok((rs, s))
               else
                 var tok := NextToken(buf, s);
                 var file := NextToken(buf, tok.next);
                 if file.kind != 'a' then Panic("missing file for redirection")
                 else
                   var mode := if tok.kind == '<' then Read else if tok.kind == '>' then Write else Append;
                   Redirections(buf, file.next, rs + [Redirection(Slice(file.q, file.eq), mode)])
  {
    Skipped(buf, p);
  }

  lemma CommandFrom(buf: string, p: nat)
    requires IsText(buf) && p <= |buf|
    ensures var s := SkipSpace(buf, p);
            && SkipSpace(buf, s) == s
            && (At(buf, s) == '(' ==> Command(buf, p) == Block(buf, s))
            && (At(buf, s) != '(' ==>
                  Command(buf, p) == match Redirections(buf, s, [])
                                     case Panic(m) => Panic(m)
                                     case Ok(x) => Words(buf, x.1, [], x.0))
  {
    Skipped(buf, p);
  }

  lemma WordsFrom(buf: string, p: nat, argv: seq<Slice>, rs: seq<Redirection>)
    requires IsText(buf) && p <= |buf|
    ensures var s := SkipSpace(buf, p);
            && SkipSpace(buf, s) == s && Words(buf, s, argv, rs) == Words(buf, p, argv, rs)
            && (!EndsExec(At(buf, s)) ==>
                  var tok := NextToken(buf, s);
                  && (tok.kind == '\0' ==> tok.next == s == |buf|)
                  && (tok.kind != '\0' && tok.kind != 'a' ==> Words(buf, p, argv, rs) == Panic("syntax"))
                  && (tok.kind == 'a' && |argv| + 1 >= MAXARGS ==> Words(buf, p, argv, rs) == Panic("too many args"))
                  && (tok.kind == 'a' && |argv| + 1 < MAXARGS ==>
                        Words(buf, p, argv, rs) ==
                        match Redirections(buf, tok.next, rs)
                        case Panic(m) => Panic(m)
                        case Ok(x) => Words(buf, x.1, argv + [Slice(tok.q, tok.eq)], x.0)))
  {
    Skipped(buf, p);
  }

  lemma WordsEnd(buf: string, s: nat, argv: seq<Slice>, rs: seq<Redirection>)
    requires IsText(buf) && s <= |buf| && SkipSpace(buf, s) == s && (EndsExec(At(buf, s)) || s == |buf|)
    ensures Words(buf, s, argv, rs) == Ok((Wrapped(Exec(argv), rs), s))
  {
  }

  lemma BlockFrom(buf: string, p: nat)
    requires IsText(buf) && p <= |buf| && At(buf, SkipSpace(buf, p)) == '('
    ensures SkipSpace(buf, SkipSpace(buf, p)) == SkipSpace(buf, p)
    ensures NextToken(buf, SkipSpace(buf, p)) == NextToken(buf, p)
    ensures NextToken(buf, p).next > SkipSpace(buf, p)
  {
    Skipped(buf, p);
  }

  lemma BacksFrom(buf: string, p: nat, c: Cmd)
    requires IsText(buf) && p <= |buf|
    ensures var s := SkipSpace(buf, p); SkipSpace(buf, s) == s && Backs(buf, s, c) == Backs(buf, p, c)
  {
    Skipped(buf, p);
  }

  // ----- nulterminate

  /** Write a NUL at the end of every word of c. */
  method NulTerminate(line: array<char>, c: Cmd, ghost buf: string)
    requires line.Length == |buf| + 1 && AllWords(buf, c)
    modifies line
    ensures forall i :: 0 <= i < line.Length ==> line[i] == if EndsWord(i, c) then '\0' else old(line[i])
    decreases c
  {
    match c {
      case Exec(argv) =>
        var i := 0;
        while i < |argv|
          invariant 0 <= i <= |argv|
          invariant forall j :: 0 <= j < line.Length ==>
                      line[j] == if exists k :: 0 <= k < i && argv[k].end == j then '\0' else old(line[j])
        {
          assert IsWord(buf, argv[i]);
          line[argv[i].end] := '\0';
          i := i + 1;
        }
      case Redir(d, file, _) =>
        NulTerminate(line, d, buf);
        line[file.end] := '\0';
      case Pipe(l, r) =>
        NulTerminate(line, l, buf);
        NulTerminate(line, r, buf);
      case List(l, r) =>
        NulTerminate(line, l, buf);
        NulTerminate(line, r, buf);
      case Back(d) =>
        NulTerminate(line, d, buf);
    }
  }

  /**
   * Parse the C string in line. The command is what the grammar says; the line is then cut so that
   * every argument and file name of the command is, as a C string, the word that was read there.
   */
  method ParseCmd(line: array<char>) returns (r: Result<Cmd>)
    requires line.Length > 0 && line[line.Length - 1] == '\0' && IsText(line[..line.Length - 1])
    modifies line
    ensures r == Whole(old(line[..line.Length - 1]))
    ensures r.Panic? ==> line[..] == old(line[..])
    ensures r.Ok? ==> forall w :: WordOf(w, r.value) ==>
              && IsWord(old(line[..line.Length - 1]), w)
              && CString(line[..], w.start) == old(line[..line.Length - 1])[w.start..w.end]
  {
    hide Line;
    hide SkipSpace;
    var buf := line[..line.Length - 1];
    var parser := new Parser(buf);
    r := parser.ParseLine();
    if r.Panic? {
      return;
    }
    var _ := parser.Peek("");
    if parser.s != |buf| {
      return Panic("syntax");
    }
    LineWords(buf, 0);
    NulTerminate(line, r.value, buf);
    assert Terminated(buf, r.value, line[..]);
    forall w | WordOf(w, r.value) ensures IsWord(buf, w) && CString(line[..], w.start) == buf[w.start..w.end] {
      WordsStand(buf, r.value, line[..], w);
    }
  }
}
