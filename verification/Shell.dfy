// The recursive-descent parser of user/sh.c, which moves a cursor over the input and
// keeps the words as spans of it, and nulterminate, which cuts the input into strings.
module Shell {
  import opened Common
  import opened ShellSpec
  import opened ShellGrammar

  const O_RDONLY := 0
  const O_WRONLY := 1
  const O_CREATE := 0x200
  const O_TRUNC := 0x400

  // The pointers to the beginning and the end of a word.
  datatype Span = Span(q: nat, eq: nat)

  datatype Cmd =
    | ExecCmd(argv: seq<Span>) | RedirCmd(cmd: Cmd, file: Span, mode: nat, fd: nat)
    | PipeCmd(left: Cmd, right: Cmd) | ListCmd(left: Cmd, right: Cmd) | BackCmd(cmd: Cmd)

  // A span that holds a whole word of s.
  predicate IsSpan(s: string, p: Span) {
    && p.q < p.eq <= |s| && (p.eq < |s| ==> !IsWordChar(s[p.eq]))
    && forall i :: p.q <= i < p.eq ==> IsWordChar(s[i])
  }

  predicate GoodCmd(s: string, c: Cmd) {
    match c
    case ExecCmd(argv) => |argv| < MAXARGS && forall i :: 0 <= i < |argv| ==> IsSpan(s, argv[i])
    case RedirCmd(d, file, mode, fd) => GoodCmd(s, d) && IsSpan(s, file) && GoodOpen(mode, fd)
    case PipeCmd(l, r) => GoodCmd(s, l) && GoodCmd(s, r)
    case ListCmd(l, r) => GoodCmd(s, l) && GoodCmd(s, r)
    case BackCmd(d) => GoodCmd(s, d)
  }

  function Text(s: string, p: Span): string
    requires IsSpan(s, p)
  {
    s[p.q..p.eq]
  }

  // How redircmd is called, and what it means.
  function Mode(op: char): nat {
    if op == '<' then O_RDONLY else if op == '>' then O_WRONLY + O_CREATE + O_TRUNC else O_WRONLY + O_CREATE
  }

  function Fd(op: char): nat { if op == '<' then 0 else 1 }

  // What a mode of open means: < reads, > writes anew, and >> goes on writing.
  function OpOf(mode: nat): char {
    if mode % 2 == O_RDONLY then '<' else if mode / O_TRUNC % 2 == 1 then '>' else '+'
  }

  // What is read becomes the standard input, and what is written the standard output,
  // which is created if need be.
  predicate GoodOpen(mode: nat, fd: nat) {
    if mode % 2 == O_RDONLY then fd == 0 else fd == 1 && mode / O_CREATE % 2 == 1
  }

  // The command that a parsed structure stands for.
  function Meaning(s: string, c: Cmd): Tree
    requires GoodCmd(s, c)
  {
    match c
    case ExecCmd(argv) => Exec(seq(|argv|, i requires 0 <= i < |argv| => Text(s, argv[i])))
    case RedirCmd(d, file, mode, _) => Redir(Meaning(s, d), OpOf(mode), Text(s, file))
    case PipeCmd(l, r) => Pipe(Meaning(s, l), Meaning(s, r))
    case ListCmd(l, r) => List(Meaning(s, l), Meaning(s, r))
    case BackCmd(d) => Back(Meaning(s, d))
  }

  // ret with another argument for the execcmd inside its redirections.
  function AddArg(ret: Cmd, p: Span): Cmd {
    match ret
    case ExecCmd(argv) => ExecCmd(argv + [p])
    case RedirCmd(d, file, mode, fd) => RedirCmd(AddArg(d, p), file, mode, fd)
    case _ => ret
  }

  // An execcmd in redirections.
  predicate Simple(c: Cmd) { c.ExecCmd? || (c.RedirCmd? && Simple(c.cmd)) }

  function Argc(c: Cmd): nat
    requires Simple(c)
  {
    if c.ExecCmd? then |c.argv| else Argc(c.cmd)
  }

  // What gettoken returns for a token.
  function Code(t: Token): char {
    match t
    case End => '\0'
    case Sym(c) => c
    case Word(_) => 'a'
  }

  // A string of C has no NUL in it.
  predicate IsText(s: string) { forall i :: 0 <= i < |s| ==> s[i] != '\0' }

  class Parser {
    const s: string
    var ps: nat

    constructor (s: string)
      requires IsText(s)
      ensures this.s == s && ps == 0
    {
      this.s, ps := s, 0;
    }

    predicate Valid()
      reads this
    {
      IsText(s) && ps <= |s|
    }

    function Rest(): string
      requires Valid()
      reads this
    {
      s[ps..]
    }

    // The loops of gettoken and peek over blanks.
    method SkipBlanks()
      requires Valid()
      modifies this
      ensures Valid() && Rest() == Skip(old(Rest())) && old(ps) <= ps
    {
      while ps < |s| && IsWhite(s[ps])
        invariant Valid() && Skip(Rest()) == Skip(old(Rest())) && old(ps) <= ps
        decreases |s| - ps
      {
        assert Rest()[1..] == s[ps + 1..];
        ps := ps + 1;
      }
    }

    // The switch of gettoken.
    method Lex() returns (ret: char)
      requires Valid() && (ps < |s| ==> !IsWhite(s[ps]))
      modifies this
      ensures Valid() && old(ps) <= ps && Rest() == TokenAt(old(Rest())).1 && ret == Code(TokenAt(old(Rest())).0)
      ensures TokenAt(old(Rest())).0.Word?
              ==> IsSpan(s, Span(old(ps), ps)) && Text(s, Span(old(ps), ps)) == TokenAt(old(Rest())).0.w
    {
      ghost var inp := Rest();
      if ps == |s| {
        return '\0';
      }
      if s[ps] == '>' {
        ps := ps + 1;
        ret := '>';
        assert s[ps..] == inp[1..];
        if ps < |s| && s[ps] == '>' {
          ret := '+';
          ps := ps + 1;
          assert s[ps..] == inp[2..];
        }
      } else if IsSymbol(s[ps]) {
        ret := s[ps];
        ps := ps + 1;
        assert s[ps..] == inp[1..];
      } else {
        LexWord();
        ret := 'a';
      }
    }

    // The loop of gettoken over a word.
    method LexWord()
      requires Valid() && ps < |s| && IsWordChar(s[ps])
      modifies this
      ensures Valid() && IsSpan(s, Span(old(ps), ps)) && ps - old(ps) == WordLength(old(Rest()))
      ensures s[old(ps)..ps] == old(Rest())[..ps - old(ps)] && Rest() == old(Rest())[ps - old(ps)..]
    {
      ghost var q := ps;
      assert Rest()[0] == s[ps];
      while ps < |s| && !IsWhite(s[ps]) && !IsSymbol(s[ps])
        invariant q <= ps <= |s| && WordLength(s[q..]) == ps - q + WordLength(s[ps..])
                  && forall i :: q <= i < ps ==> IsWordChar(s[i])
      {
        assert s[ps..][1..] == s[ps + 1..];
        ps := ps + 1;
      }
    }

    // gettoken
    method NextToken() returns (ret: char, q: nat, eq: nat)
      requires Valid()
      modifies this
      ensures Valid() && Rest() == GetToken(old(Rest())).1 && ret == Code(GetToken(old(Rest())).0)
      ensures GetToken(old(Rest())).0.Word?
              ==> IsSpan(s, Span(q, eq)) && Text(s, Span(q, eq)) == GetToken(old(Rest())).0.w
    {
      hide Skip, TokenAt, IsSpan;
      SkipBlanks();
      q := ps;
      ret := Lex();
      eq := ps;
      SkipBlanks();
    }

    // peek
    method PeekAt(toks: string) returns (b: bool)
      requires Valid()
      modifies this
      ensures Valid() && Rest() == Skip(old(Rest())) && b == Peek(old(Rest()), toks)
    {
      SkipBlanks();
      b := ps < |s| && s[ps] in toks;
    }

    // What a parsing method answers: None if it panics, else a command with the meaning
    // that the grammar gives, and the cursor after it.
    predicate Agrees(c: Option<Cmd>, r: Result<Tree>)
      requires Valid()
      reads this
    {
      match r
      case Ok(t, rest) => c.Some? && GoodCmd(s, c.value) && Meaning(s, c.value) == t && Rest() == rest
      case Fail => c.None?
    }

    // parseredirs
    method ParseRedirections(cmd: Cmd) returns (r: Option<Cmd>)
      requires Valid() && GoodCmd(s, cmd)
      modifies this
      ensures Valid()
      ensures match ParseRedirs(old(Rest()))
              case Ok(rs, rest) =>
                && r.Some? && GoodCmd(s, r.value) && Meaning(s, r.value) == Wrap(Meaning(s, cmd), rs) && Rest() == rest
                && (Simple(cmd) ==> Simple(r.value) && Argc(r.value) == Argc(cmd))
              case Fail => r.None?
    {
      hide GetToken, Skip, Peek, IsSpan, Text, ParseRedirs, RedirsFrom, Wrap;
      var c := cmd;
      ghost var from, done: seq<(char, string)> := Rest(), [];
      RedirsStart(from);
      PeekSkip(from, "<>");
      SkipTwice(from);
      assert Wrap(Meaning(s, cmd), []) == Meaning(s, cmd) by { WrapNone(Meaning(s, cmd)); }
      var more := PeekAt("<>");
      while more
        invariant Valid() && GoodCmd(s, c) && Meaning(s, c) == Wrap(Meaning(s, cmd), done) && Rest() == Skip(Rest())
        invariant (Simple(cmd) ==> Simple(c) && Argc(c) == Argc(cmd)) && more == Peek(Rest(), "<>")
        invariant RedirsFrom(from, done, Rest())
        decreases |Rest()|, more
      {
        RedirsNext(from, done, Rest());
        ghost var mid := GetToken(Rest()).1;
        TokenKinds(mid);
        SkipTwice(mid);
        var tok, _, _ := NextToken();
        var ret, q, eq := NextToken();
        if ret != 'a' {
          return None;
        }
        var p := Span(q, eq);
        WrapLast(Meaning(s, cmd), done, tok, Text(s, p));
        ModeOp(tok);
        c := RedirCmd(c, p, Mode(tok), Fd(tok));
        done := done + [(tok, Text(s, p))];
        more := PeekAt("<>");
      }
      RedirsEnd(from, done, Rest());
      r := Some(c);
    }

    // parseexec
    method ParseExecCmd() returns (r: Option<Cmd>)
      requires Valid()
      modifies this
      ensures Valid() && Agrees(r, ParseExec(old(Rest())))
      decreases |s| - ps, 1
    {
      hide GetToken, Skip, Peek, ParseRedirs, ParseArgs, ParseBlock, IsSpan, Text;
      ghost var from := Rest();
      PeekSkip(from, "(");
      SkipTwice(from);
      SameRedirs(from);
      SameBlock(from);
      var block := PeekAt("(");
      if block {
        r := ParseBlockCmd();
        return;
      }
      assert Meaning(s, ExecCmd([])) == Exec([]);
      WrapNone(Exec([]));
      r := ParseRedirections(ExecCmd([]));
      if r.None? {
        return;
      }
      r := ParseArguments(r.value, ParseRedirs(from).value);
    }

    // The loop of parseexec, where ret has no arguments yet.
    method ParseArguments(cmd: Cmd, ghost rs0: seq<(char, string)>) returns (r: Option<Cmd>)
      requires Valid() && GoodCmd(s, cmd) && Simple(cmd) && Argc(cmd) == 0 && Meaning(s, cmd) == Wrap(Exec([]), rs0)
      modifies this
      ensures Valid() && Agrees(r, ParseArgs([], rs0, old(Rest())))
    {
      hide GetToken, Skip, Peek, ParseRedirs, ParseArgs, IsSpan, Text, Wrap;
      var ret, argc := cmd, 0;
      ghost var goal, words: seq<string>, rs := ParseArgs([], rs0, Rest()), [], rs0;
      SameArgs([], rs0, Rest());
      PeekSkip(Rest(), "|)&;");
      SkipTwice(Rest());
      var stop := PeekAt("|)&;");
      while !stop
        invariant Valid() && GoodCmd(s, ret) && Simple(ret) && Argc(ret) == |words| == argc
                  && Meaning(s, ret) == Wrap(Exec(words), rs)
        invariant Rest() == Skip(Rest()) && stop == Peek(Rest(), "|)&;") && goal == ParseArgs(words, rs, Rest())
        decreases |Rest()|, !stop
      {
        ArgsNext(words, rs, Rest());
        TokenKinds(Rest());
        SkipTwice(Rest());
        ghost var inp := Rest();
        var tok, q, eq := NextToken();
        if tok == '\0' {
          TokenEnd(inp);
          return Some(ret);
        }
        if tok != 'a' {
          return None;
        }
        argc := argc + 1;
        if argc >= MAXARGS {
          return None;
        }
        ghost var w := GetToken(inp).0.w;
        AddArgGood(s, ret, Span(q, eq));
        AddArgMeaning(s, ret, Span(q, eq), words, rs);
        ghost var next := Rest();
        r := ParseRedirections(AddArg(ret, Span(q, eq)));
        if r.None? {
          return None;
        }
        ret := r.value;
        WrapMore(Exec(words + [w]), rs, ParseRedirs(next).value);
        words, rs := words + [w], rs + ParseRedirs(next).value;
        SameArgs(words, rs, Rest());
        PeekSkip(Rest(), "|)&;");
        SkipTwice(Rest());
        stop := PeekAt("|)&;");
      }
      ArgsNext(words, rs, Rest());
      r := Some(ret);
    }

    // parseblock
    method ParseBlockCmd() returns (r: Option<Cmd>)
      requires Valid() && Peek(Rest(), "(")
      modifies this
      ensures Valid() && Agrees(r, ParseBlock(old(Rest())))
      decreases |s| - ps, 0
    {
      hide GetToken, Skip, Peek, ParseRedirs, ParseLine;
      PeekToken(Rest(), "(");
      var _, _, _ := NextToken();
      r := ParseLineCmd();
      if r.None? {
        return;
      }
      PeekSkip(Rest(), ")");
      SkipTwice(Rest());
      var close := PeekAt(")");
      if !close {
        return None;
      }
      var _, _, _ := NextToken();
      r := ParseRedirections(r.value);
    }

    // parsepipe
    method ParsePipeCmd() returns (r: Option<Cmd>)
      requires Valid()
      modifies this
      ensures Valid() && Agrees(r, ParsePipe(old(Rest())))
      decreases |s| - ps, 2
    {
      hide GetToken, Skip, Peek, ParseExec;
      r := ParseExecCmd();
      if r.None? {
        return;
      }
      PeekSkip(Rest(), "|");
      SkipTwice(Rest());
      var bar := PeekAt("|");
      if bar {
        PeekToken(Rest(), "|");
        var _, _, _ := NextToken();
        var right := ParsePipeCmd();
        r := if right.None? then None else Some(PipeCmd(r.value, right.value));
      }
    }

    // parseline
    method ParseLineCmd() returns (r: Option<Cmd>)
      requires Valid()
      modifies this
      ensures Valid() && Agrees(r, ParseLine(old(Rest())))
      decreases |s| - ps, 3
    {
      hide GetToken, Skip, Peek, ParsePipe, ParseBacks;
      r := ParsePipeCmd();
      if r.None? {
        return;
      }
      r := ParseAmpersands(r.value);
      PeekSkip(Rest(), ";");
      SkipTwice(Rest());
      var semi := PeekAt(";");
      if semi {
        PeekToken(Rest(), ";");
        var _, _, _ := NextToken();
        var right := ParseLineCmd();
        r := if right.None? then None else Some(ListCmd(r.value, right.value));
      }
    }

    // The loop of parseline.
    method ParseAmpersands(cmd: Cmd) returns (r: Option<Cmd>)
      requires Valid() && GoodCmd(s, cmd)
      modifies this
      ensures Valid() && ps >= old(ps) && r.Some? && GoodCmd(s, r.value)
              && (Meaning(s, r.value), Rest()) == ParseBacks(Meaning(s, cmd), old(Rest()))
    {
      hide GetToken, Skip, Peek, ParseBacks;
      var c := cmd;
      ghost var goal := ParseBacks(Meaning(s, cmd), Rest());
      SameBacks(Meaning(s, cmd), Rest());
      PeekSkip(Rest(), "&");
      SkipTwice(Rest());
      var more := PeekAt("&");
      while more
        invariant Valid() && GoodCmd(s, c) && Rest() == Skip(Rest()) && more == Peek(Rest(), "&")
                  && goal == ParseBacks(Meaning(s, c), Rest())
        invariant ps >= old(ps)
        decreases |Rest()|, more
      {
        BacksNext(Meaning(s, c), Rest());
        PeekToken(Rest(), "&");
        SkipTwice(Rest());
        var _, _, _ := NextToken();
        c := BackCmd(c);
        more := PeekAt("&");
      }
      BacksNext(Meaning(s, c), Rest());
      r := Some(c);
    }

    // parsecmd, up to nulterminate.
    method ParseAll() returns (r: Option<Cmd>)
      requires Valid() && ps == 0
      modifies this
      ensures r.Some? <==> ParseCmd(s).Ok?
      ensures r.Some? ==> GoodCmd(s, r.value) && Meaning(s, r.value) == ParseCmd(s).value
    {
      hide Skip, Peek, ParseLine, Meaning, GoodCmd;
      assert Rest() == s;
      r := ParseLineCmd();
      if r.None? {
        return;
      }
      var _ := PeekAt("");
      assert |Rest()| == |s| - ps;
      if ps != |s| {
        return None;
      }
    }
  }

  lemma WrapNone(t: Tree)
    ensures Wrap(t, []) == t
  {
  }

  lemma ModeOp(op: char)
    requires op == '<' || op == '>' || op == '+'
    ensures OpOf(Mode(op)) == op && GoodOpen(Mode(op), Fd(op))
  {
  }

  lemma AddArgGood(s: string, ret: Cmd, p: Span)
    requires GoodCmd(s, ret) && Simple(ret) && Argc(ret) + 1 < MAXARGS && IsSpan(s, p)
    ensures GoodCmd(s, AddArg(ret, p)) && Simple(AddArg(ret, p)) && Argc(AddArg(ret, p)) == Argc(ret) + 1
  {
    hide IsSpan;
  }

  lemma {:induction false} AddArgMeaning(s: string, ret: Cmd, p: Span, words: seq<string>, rs: seq<(char, string)>)
    requires GoodCmd(s, ret) && Simple(ret) && IsSpan(s, p) && GoodCmd(s, AddArg(ret, p))
             && Meaning(s, ret) == Wrap(Exec(words), rs)
    ensures Meaning(s, AddArg(ret, p)) == Wrap(Exec(words + [Text(s, p)]), rs)
    decreases ret
  {
    hide IsSpan, Text;
    if rs == [] {
      assert words == Meaning(s, ret).words;
    } else {
      var n := |rs| - 1;
      assert rs == rs[..n] + [rs[n]];
      WrapLast(Exec(words), rs[..n], rs[n].0, rs[n].1);
      WrapLast(Exec(words + [Text(s, p)]), rs[..n], rs[n].0, rs[n].1);
      AddArgMeaning(s, ret.cmd, p, words, rs[..n]);
    }
  }

  // ----- nulterminate

  // The words of a command, and where they end.
  function Spans(c: Cmd): set<Span> {
    match c
    case ExecCmd(argv) => set i | 0 <= i < |argv| :: argv[i]
    case RedirCmd(d, file, _, _) => Spans(d) + {file}
    case PipeCmd(l, r) => Spans(l) + Spans(r)
    case ListCmd(l, r) => Spans(l) + Spans(r)
    case BackCmd(d) => Spans(d)
  }

  // x with a NUL where each of the words ends.
  ghost predicate Cut(x: seq<char>, spans: set<Span>, y: seq<char>) {
    && |y| == |x|
    && (forall p :: p in spans ==> p.eq < |y| && y[p.eq] == '\0')
    && (forall i :: 0 <= i < |x| && y[i] != x[i] ==> y[i] == '\0' && exists p :: p in spans && p.eq == i)
  }

  lemma CutBoth(x: seq<char>, a: set<Span>, y: seq<char>, b: set<Span>, z: seq<char>)
    requires Cut(x, a, y) && Cut(y, b, z)
    ensures Cut(x, a + b, z)
  {
    forall i | 0 <= i < |x| && z[i] != x[i] ensures z[i] == '\0' && exists p :: p in a + b && p.eq == i {
      if z[i] != y[i] {
        var p :| p in b && p.eq == i;
        assert p in a + b;
      } else {
        var p :| p in a && p.eq == i;
        assert p in a + b;
      }
    }
  }

  lemma CutOne(x: seq<char>, p: Span)
    requires p.eq < |x|
    ensures Cut(x, {p}, x[p.eq := '\0'])
  {
    assert p in {p};
  }

  // nulterminate, on the line whose text was s.
  method NulTerminate(buf: array<char>, ghost s: string, c: Cmd)
    requires buf.Length == |s| + 1 && GoodCmd(s, c)
    modifies buf
    ensures Cut(old(buf[..]), Spans(c), buf[..])
    decreases c
  {
    match c
    case ExecCmd(argv) =>
      TerminateArgs(buf, s, argv);
    case RedirCmd(d, file, _, _) =>
      NulTerminate(buf, s, d);
      ghost var mid := buf[..];
      CutOne(mid, file);
      buf[file.eq] := '\0';
      assert buf[..] == mid[file.eq := '\0'];
      CutBoth(old(buf[..]), Spans(d), mid, {file}, buf[..]);
    case PipeCmd(l, r) =>
      NulTerminate(buf, s, l);
      ghost var mid := buf[..];
      NulTerminate(buf, s, r);
      CutBoth(old(buf[..]), Spans(l), mid, Spans(r), buf[..]);
    case ListCmd(l, r) =>
      NulTerminate(buf, s, l);
      ghost var mid := buf[..];
      NulTerminate(buf, s, r);
      CutBoth(old(buf[..]), Spans(l), mid, Spans(r), buf[..]);
    case BackCmd(d) =>
      NulTerminate(buf, s, d);
  }

  // The loop of nulterminate over argv.
  method TerminateArgs(buf: array<char>, ghost s: string, argv: seq<Span>)
    requires buf.Length == |s| + 1 && forall i :: 0 <= i < |argv| ==> IsSpan(s, argv[i])
    modifies buf
    ensures Cut(old(buf[..]), Spans(ExecCmd(argv)), buf[..])
  {
    hide Cut;
    assert argv[..0] == [];
    CutNothing(buf[..]);
    assert Spans(ExecCmd([])) == {};
    for i := 0 to |argv|
      invariant Cut(old(buf[..]), Spans(ExecCmd(argv[..i])), buf[..])
    {
      ghost var mid := buf[..];
      CutOne(mid, argv[i]);
      buf[argv[i].eq] := '\0';
      assert buf[..] == mid[argv[i].eq := '\0'];
      CutBoth(old(buf[..]), Spans(ExecCmd(argv[..i])), mid, {argv[i]}, buf[..]);
      ArgsSpans(argv, i);
    }
    assert argv[..|argv|] == argv;
  }

  lemma CutNothing(x: seq<char>)
    ensures Cut(x, {}, x)
  {
  }

  lemma ArgsSpans(argv: seq<Span>, i: nat)
    requires i < |argv|
    ensures Spans(ExecCmd(argv[..i + 1])) == Spans(ExecCmd(argv[..i])) + {argv[i]}
  {
    var a, b := argv[..i], argv[..i + 1];
    assert b == a + [argv[i]];
    assert b[i] == argv[i];
    forall p | p in Spans(ExecCmd(a)) ensures p in Spans(ExecCmd(b)) {
      var j :| 0 <= j < |a| && a[j] == p;
      assert b[j] == p;
    }
  }

  // The string of C that begins at q.
  function CString(b: seq<char>, q: nat): string
    decreases |b| - q
  {
    if q < |b| && b[q] != '\0' then [b[q]] + CString(b, q + 1) else ""
  }

  lemma {:induction false} CStringIs(b: seq<char>, q: nat, e: nat)
    requires q <= e < |b| && b[e] == '\0' && forall i :: q <= i < e ==> b[i] != '\0'
    ensures CString(b, q) == b[q..e]
    decreases e - q
  {
    if q < e {
      CStringIs(b, q + 1, e);
    }
  }

  lemma SpansGood(s: string, c: Cmd)
    requires GoodCmd(s, c)
    ensures forall p :: p in Spans(c) ==> IsSpan(s, p)
  {
    hide IsSpan;
  }

  // Cutting the line makes every argument and every file name read as its word: where a
  // word ends there is no character of any word.
  lemma WordsRead(s: string, c: Cmd, y: seq<char>, p: Span)
    requires IsText(s) && GoodCmd(s, c) && Cut(s + ['\0'], Spans(c), y) && p in Spans(c)
    ensures IsSpan(s, p) && CString(y, p.q) == Text(s, p)
  {
    SpansGood(s, c);
    forall i | p.q <= i < p.eq ensures y[i] == s[i] != '\0' {
      assert forall r :: r in Spans(c) && r.eq == i ==> IsSpan(s, r);
    }
    CStringIs(y, p.q, p.eq);
    assert y[p.q..p.eq] == s[p.q..p.eq];
  }

  // In terms of the grammar.
  lemma Accepted(s: string)
    ensures ParseCmd(s).Ok? <==> exists t :: Reads(s, t)
    ensures ParseCmd(s).Ok? ==> Reads(s, ParseCmd(s).value)
  {
    hide Reads, ParseLine, Skip;
    if ParseCmd(s).Ok? {
      ParsesExactly(s, ParseCmd(s).value);
    }
    if t :| Reads(s, t) {
      ParsesExactly(s, t);
    }
  }

  // parsecmd, on a line that ends with a NUL.  A line that the grammar does not accept
  // makes it panic.
  method ParseCommand(buf: array<char>) returns (r: Option<Cmd>)
    requires buf.Length > 0 && buf[buf.Length - 1] == '\0' && IsText(buf[..buf.Length - 1])
    modifies buf
    ensures var s := old(buf[..buf.Length - 1]);
            && (r.Some? <==> ParseCmd(s).Ok?)
            && (r.Some? ==> GoodCmd(s, r.value) && Meaning(s, r.value) == ParseCmd(s).value)
            && (r.Some? <==> exists t :: Reads(s, t))
            && (r.Some? ==> Reads(s, Meaning(s, r.value)))
            && (r.Some? ==> forall p :: p in Spans(r.value) ==> IsSpan(s, p) && CString(buf[..], p.q) == Text(s, p))
  {
    hide GoodCmd, Meaning, ParseCmd, Cut, IsSpan, Text, CString, IsText, Spans, Reads;
    var s := buf[..buf.Length - 1];
    assert buf[..] == s + ['\0'];
    var parser := new Parser(s);
    r := parser.ParseAll();
    Accepted(s);
    if r.Some? {
      NulTerminate(buf, s, r.value);
      forall p | p in Spans(r.value) ensures IsSpan(s, p) && CString(buf[..], p.q) == Text(s, p) {
        WordsRead(s, r.value, buf[..], p);
      }
    }
  }
}
