// The grammar of the shell of user/sh.c, as functions on the input that is left.
module ShellSpec {
  const MAXARGS := 10

  // A command.  op is '<', '>' or '+' (for >>).
  datatype Tree = Exec(words: seq<string>) | Redir(cmd: Tree, op: char, file: string) | Pipe(left: Tree, right: Tree)
                | List(left: Tree, right: Tree) | Back(cmd: Tree)

  datatype Token = End | Sym(c: char) | Word(w: string)

  datatype Result<T> = Ok(value: T, rest: string) | Fail

  predicate IsWhite(c: char) { c == ' ' || c == '\t' || c == '\r' || c == '\n' || c == '\U{0B}' }
  predicate IsSymbol(c: char) { c == '<' || c == '|' || c == '>' || c == '&' || c == ';' || c == '(' || c == ')' }
  predicate IsWordChar(c: char) { !IsWhite(c) && !IsSymbol(c) }

  function Skip(inp: string): (r: string)
    ensures |r| <= |inp| && (r != "" ==> !IsWhite(r[0]))
  {
    if inp != "" && IsWhite(inp[0]) then Skip(inp[1..]) else inp
  }

  function WordLength(inp: string): (n: nat)
    ensures n <= |inp|
  {
    if inp != "" && IsWordChar(inp[0]) then 1 + WordLength(inp[1..]) else 0
  }

  predicate Peek(inp: string, toks: string) { Skip(inp) != "" && Skip(inp)[0] in toks }

  // The token at the beginning of s; '+' stands for >>.
  function TokenAt(s: string): (r: (Token, string))
    requires s != "" ==> !IsWhite(s[0])
    ensures |r.1| <= |s| && (r.0 != End ==> |r.1| < |s|)
  {
    if s == "" then (End, "")
    else if s[0] == '>' then if |s| > 1 && s[1] == '>' then (Sym('+'), s[2..]) else (Sym('>'), s[1..])
    else if IsSymbol(s[0]) then (Sym(s[0]), s[1..])
    else (Word(s[..WordLength(s)]), s[WordLength(s)..])
  }

  // gettoken
  function GetToken(inp: string): (r: (Token, string))
    ensures |r.1| <= |inp| && (r.0 != End ==> |r.1| < |inp|)
  {
    var (t, rest) := TokenAt(Skip(inp));
    (t, Skip(rest))
  }

  // parseredirs: the redirections, first to last.
  function ParseRedirs(inp: string): (r: Result<seq<(char, string)>>)
    ensures r.Ok? ==> |r.rest| <= |inp|
    decreases |inp|
  {
    if !Peek(inp, "<>") then Ok([], Skip(inp))
    else
      var (tok, rest) := GetToken(inp);
      var (file, rest') := GetToken(rest);
      if !file.Word? || !tok.Sym? then Fail
      else match ParseRedirs(rest')
        case Ok(rs, rest'') => Ok([(tok.c, file.w)] + rs, rest'')
        case Fail => Fail
  }

  // Redirections apply from the inside out.
  function Wrap(t: Tree, rs: seq<(char, string)>): Tree
    decreases |rs|
  {
    if rs == [] then t else Wrap(Redir(t, rs[0].0, rs[0].1), rs[1..])
  }

  // The loop of parseexec, after the given words and redirections.
  function ParseArgs(words: seq<string>, rs: seq<(char, string)>, inp: string): (r: Result<Tree>)
    ensures r.Ok? ==> |r.rest| <= |inp|
    decreases |inp|
  {
    if Peek(inp, "|)&;") then Ok(Wrap(Exec(words), rs), Skip(inp))
    else match GetToken(inp)
      case (End, rest) => Ok(Wrap(Exec(words), rs), rest)
      case (Sym(_), _) => Fail
      case (Word(w), rest) =>
        if |words| + 1 >= MAXARGS then Fail
        else match ParseRedirs(rest)
          case Ok(rs', rest') => ParseArgs(words + [w], rs + rs', rest')
          case Fail => Fail
  }

  function ParseExec(inp: string): (r: Result<Tree>)
    ensures r.Ok? ==> |r.rest| <= |inp|
    decreases |inp|, 1
  {
    if Peek(inp, "(") then ParseBlock(inp)
    else match ParseRedirs(inp)
      case Ok(rs, rest) => ParseArgs([], rs, rest)
      case Fail => Fail
  }

  function ParseBlock(inp: string): (r: Result<Tree>)
    requires Peek(inp, "(")
    ensures r.Ok? ==> |r.rest| <= |inp|
    decreases |inp|, 0
  {
    match ParseLine(GetToken(inp).1)
    case Fail => Fail
    case Ok(t, rest) =>
      if !Peek(rest, ")") then Fail
      else match ParseRedirs(GetToken(rest).1)
        case Ok(rs, rest') => Ok(Wrap(t, rs), rest')
        case Fail => Fail
  }

  function ParsePipe(inp: string): (r: Result<Tree>)
    ensures r.Ok? ==> |r.rest| <= |inp|
    decreases |inp|, 2
  {
    match ParseExec(inp)
    case Fail => Fail
    case Ok(t, rest) =>
      if !Peek(rest, "|") then Ok(t, Skip(rest))
      else match ParsePipe(GetToken(rest).1)
        case Ok(u, rest') => Ok(Pipe(t, u), rest')
        case Fail => Fail
  }

  // The loop of parseline.
  function ParseBacks(t: Tree, inp: string): (r: (Tree, string))
    ensures |r.1| <= |inp|
    decreases |inp|
  {
    if Peek(inp, "&") then ParseBacks(Back(t), GetToken(inp).1) else (t, Skip(inp))
  }

  function ParseLine(inp: string): (r: Result<Tree>)
    ensures r.Ok? ==> |r.rest| <= |inp|
    decreases |inp|, 3
  {
    match ParsePipe(inp)
    case Fail => Fail
    case Ok(t, rest) =>
      var (u, rest') := ParseBacks(t, rest);
      if !Peek(rest', ";") then Ok(u, Skip(rest'))
      else match ParseLine(GetToken(rest').1)
        case Ok(v, rest'') => Ok(List(u, v), rest'')
        case Fail => Fail
  }

  // parsecmd
  function ParseCmd(inp: string): Result<Tree> {
    match ParseLine(inp)
    case Ok(t, rest) => if Skip(rest) == "" then Ok(t, "") else Fail
    case Fail => Fail
  }

  // ----- printing

  function Join(words: seq<string>): string {
    if words == [] then "" else if |words| == 1 then words[0] else words[0] + " " + Join(words[1..])
  }

  function Paren(t: Tree): string
    decreases t, 1
  {
    "(" + Print(t) + ")"
  }

  // The fully parenthesised form of a command.
  function Print(t: Tree): string
    decreases t, 0
  {
    match t
    case Exec(words) => Join(words)
    case Redir(c, op, file) => Paren(c) + (if op == '+' then ">>" else [op]) + file
    case Pipe(l, r) => Paren(l) + "|" + Paren(r)
    case List(l, r) => Paren(l) + ";" + Paren(r)
    case Back(c) => Paren(c) + "&"
  }

  predicate IsWord(w: string) { w != "" && forall i :: 0 <= i < |w| ==> IsWordChar(w[i]) }

  // Commands that can be written down: at most nine words each.
  predicate Writable(t: Tree) {
    match t
    case Exec(words) => |words| < MAXARGS && forall i :: 0 <= i < |words| ==> IsWord(words[i])
    case Redir(c, op, file) => Writable(c) && (op == '<' || op == '>' || op == '+') && IsWord(file)
    case Pipe(l, r) => Writable(l) && Writable(r)
    case List(l, r) => Writable(l) && Writable(r)
    case Back(c) => Writable(c)
  }

  // ----- parsing what was printed

  // What may follow a command in the printed form: nothing, or a parenthesis.
  predicate Closed(y: string) { y == "" || y[0] == ')' }

  lemma SymbolFirst(c: char, y: string)
    requires IsSymbol(c) && c != '>' && (y == "" || !IsWhite(y[0]))
    ensures Skip([c] + y) == [c] + y && GetToken([c] + y) == (Sym(c), y)
  {
    assert ([c] + y)[1..] == y;
  }

  lemma {:induction false} WordEnds(w: string, y: string)
    requires (forall i :: 0 <= i < |w| ==> IsWordChar(w[i])) && (y == "" || !IsWordChar(y[0]))
    ensures WordLength(w + y) == |w|
  {
    if w == "" {
      assert w + y == y;
    } else {
      assert (w + y)[1..] == w[1..] + y;
      WordEnds(w[1..], y);
    }
  }

  lemma WordFirst(w: string, y: string)
    requires IsWord(w) && (y == "" || !IsWordChar(y[0]))
    ensures Skip(w + y) == w + y && GetToken(w + y) == (Word(w), Skip(y))
  {
    WordEnds(w, y);
    assert (w + y)[0] == w[0] && IsWordChar(w[0]);
    assert (w + y)[..|w|] == w && (w + y)[|w|..] == y;
  }

  // The printed words are read back.
  lemma {:induction false} ArgsRound(done: seq<string>, words: seq<string>, y: string)
    requires |done| + |words| < MAXARGS && (forall i :: 0 <= i < |words| ==> IsWord(words[i])) && Closed(y)
    ensures ParseArgs(done, [], Join(words) + y) == Ok(Exec(done + words), y)
    decreases |words|
  {
    hide Skip, GetToken, ParseRedirs, ParseArgs, IsWordChar, WordLength;
    if words == [] {
      assert Join(words) + y == y && done + words == done;
      ArgsEnd(done, y);
    } else {
      var w, rest := words[0], words[1..];
      assert IsWord(w);
      var tail := JoinSplit(words, y);
      WordFirst(w, tail);
      WordsFirst(rest, y);
      NoRedirs(Join(rest) + y);
      ArgsStep(done, w, tail, Join(rest) + y);
      ArgsRound(done + [w], rest, y);
      assert done + [w] + rest == done + words;
    }
  }

  lemma ArgsEnd(done: seq<string>, y: string)
    requires Closed(y)
    ensures ParseArgs(done, [], y) == Ok(Exec(done), y)
  {
    assert Skip(y) == y;
  }

  lemma JoinSplit(words: seq<string>, y: string) returns (tail: string)
    requires words != [] && (forall i :: 0 <= i < |words| ==> IsWord(words[i])) && Closed(y)
    ensures Join(words) + y == words[0] + tail && (tail == "" || !IsWordChar(tail[0]))
            && Skip(tail) == Join(words[1..]) + y
  {
    var rest := words[1..];
    WordsFirst(rest, y);
    if |words| == 1 {
      tail := y;
      assert Join(rest) + y == y;
    } else {
      tail := " " + Join(rest) + y;
      assert tail[1..] == Join(rest) + y;
      assert words[0] + " " + Join(rest) + y == words[0] + tail;
    }
  }

  lemma ArgsStep(done: seq<string>, w: string, tail: string, next: string)
    requires IsWord(w) && Skip(w + tail) == w + tail && GetToken(w + tail) == (Word(w), next) && |done| + 1 < MAXARGS
             && ParseRedirs(next) == Ok([], next)
    ensures ParseArgs(done, [], w + tail) == ParseArgs(done + [w], [], next)
  {
    assert (w + tail)[0] == w[0] && IsWordChar(w[0]);
    assert !Peek(w + tail, "|)&;");
    var none: seq<(char, string)> := [];
    assert none + none == none;
  }

  lemma NoRedirs(y: string)
    requires y != "" ==> !IsWhite(y[0]) && y[0] != '<' && y[0] != '>'
    ensures Skip(y) == y && ParseRedirs(y) == Ok([], y)
  {
  }

  // The text after a word is either the next word, or what follows the command.
  lemma {:induction false} WordsFirst(words: seq<string>, y: string)
    requires (forall i :: 0 <= i < |words| ==> IsWord(words[i])) && Closed(y)
    ensures var s := Join(words) + y;
            && Skip(s) == s
            && (s != "" ==> !IsWhite(s[0]) && s[0] != '<' && s[0] != '>' && s[0] != '(')
  {
    if words == [] {
      assert Join(words) + y == y;
    } else {
      hide Closed;
      assert IsWord(words[0]);
      assert (Join(words) + y)[0] == words[0][0];
    }
  }

  // The text of a command does not begin with a blank.
  lemma PrintFirst(t: Tree, y: string)
    requires Writable(t) && Closed(y)
    ensures var s := Print(t) + y; s == "" || !IsWhite(s[0])
  {
    if t.Exec? {
      WordsFirst(t.words, y);
    } else {
      assert (Print(t) + y)[0] == '(';
    }
  }

  // A command in parentheses is read back, up to the end of its redirections.
  lemma BlockRound(t: Tree, y: string, rs: seq<(char, string)>, z: string)
    requires Writable(t) && ParseLine(Print(t) + ")" + y) == Ok(t, ")" + y)
    requires (y == "" || !IsWhite(y[0])) && ParseRedirs(y) == Ok(rs, z)
    ensures ParseExec(Paren(t) + y) == Ok(Wrap(t, rs), z)
  {
    hide ParseLine, ParseRedirs, GetToken, Print, Writable;
    var body := Print(t) + ")" + y;
    assert Paren(t) + y == ['('] + body;
    assert Print(t) + (")" + y) == body;
    PrintFirst(t, ")" + y);
    SymbolFirst('(', body);
    SymbolFirst(')', y);
    assert ")" + y == [')'] + y;
  }

  lemma RedirRound(op: char, file: string, y: string)
    requires (op == '<' || op == '>' || op == '+') && IsWord(file) && Closed(y)
    ensures var s := (if op == '+' then ">>" else [op]) + file + y;
            s != "" && !IsWhite(s[0]) && ParseRedirs(s) == Ok([(op, file)], y)
  {
    hide ParseRedirs, GetToken, WordLength;
    var head := if op == '+' then ">>" else [op];
    var s := head + file + y;
    WordFirst(file, y);
    OpFirst(op, file, y);
    NoRedirs(y);
    RedirStep(op, file, s, file + y, y);
  }

  lemma OpFirst(op: char, file: string, y: string)
    requires (op == '<' || op == '>' || op == '+') && IsWord(file) && Skip(file + y) == file + y
    ensures var s := (if op == '+' then ">>" else [op]) + file + y;
            s != "" && !IsWhite(s[0]) && Peek(s, "<>") && GetToken(s) == (Sym(op), file + y)
  {
    hide WordLength;
    var head := if op == '+' then ">>" else [op];
    var s := head + file + y;
    assert s == head + (file + y);
    assert (file + y)[0] == file[0] && IsWordChar(file[0]);
    assert s[|head|..] == file + y;
  }

  lemma RedirStep(op: char, file: string, s: string, mid: string, y: string)
    requires Peek(s, "<>") && GetToken(s) == (Sym(op), mid) && GetToken(mid) == (Word(file), y)
             && ParseRedirs(y) == Ok([], y)
    ensures ParseRedirs(s) == Ok([(op, file)], y)
  {
    hide GetToken, Peek, Skip;
    assert [(op, file)] + [] == [(op, file)];
  }

  lemma PipeEnd(t: Tree, s: string, y: string)
    requires ParseExec(s) == Ok(t, y) && Skip(y) == y && !Peek(y, "|")
    ensures ParsePipe(s) == Ok(t, y)
  {
    hide Skip, Peek, ParseExec, GetToken;
  }

  lemma ListStep(t: Tree, s: string, y: string, u: Tree, z: string)
    requires ParsePipe(s) == Ok(t, y) && Skip(y) == y && !Peek(y, "&") && Peek(y, ";")
             && ParseLine(GetToken(y).1) == Ok(u, z)
    ensures ParseLine(s) == Ok(List(t, u), z)
  {
    hide Skip, Peek, ParsePipe, GetToken;
    assert ParseBacks(t, y) == (t, y);
  }

  // The rest of a line after a command in parentheses.
  lemma LineEnd(t: Tree, s: string, y: string)
    requires Closed(y) && ParseExec(s) == Ok(t, y)
    ensures ParseLine(s) == Ok(t, y)
  {
    assert Skip(y) == y;
    assert ParsePipe(s) == Ok(t, y);
    assert ParseBacks(t, y) == (t, y);
  }

  // Any command that can be written down is read back from its printed form.
  lemma {:induction false} LineRound(t: Tree, y: string)
    requires Writable(t) && Closed(y)
    ensures ParseLine(Print(t) + y) == Ok(t, y)
    decreases t, 2
  {
    hide ParseLine, Join, Paren, IsWord, Closed;
    match t
    case Exec(words) =>
      ExecRound(words, y);
    case Redir(c, op, file) =>
      RedirectRound(c, op, file, y);
    case Back(c) =>
      BackRound(c, y);
    case Pipe(l, r) =>
      PipeRound(l, r, y);
    case List(l, r) =>
      ListRound(l, r, y);
  }

  lemma ExecRound(words: seq<string>, y: string)
    requires Writable(Exec(words)) && Closed(y)
    ensures ParseLine(Join(words) + y) == Ok(Exec(words), y)
  {
    hide ParseArgs, ParseLine, Join;
    var s := Join(words) + y;
    WordsFirst(words, y);
    NoRedirs(s);
    ArgsRound([], words, y);
    assert [] + words == words;
    LineEnd(Exec(words), s, y);
  }

  lemma {:induction false} RedirectRound(c: Tree, op: char, file: string, y: string)
    requires Writable(Redir(c, op, file)) && Closed(y)
    ensures ParseLine(Paren(c) + (if op == '+' then ">>" else [op]) + file + y) == Ok(Redir(c, op, file), y)
    decreases c, 4
  {
    hide ParseLine, ParseExec, ParseRedirs, Print;
    var head := if op == '+' then ">>" else [op];
    var tail := head + file + y;
    LineRound(c, ")" + tail);
    RedirRound(op, file, y);
    assert Print(c) + (")" + tail) == Print(c) + ")" + tail;
    BlockRound(c, tail, [(op, file)], y);
    assert Paren(c) + head + file + y == Paren(c) + tail;
    assert Wrap(c, [(op, file)]) == Redir(c, op, file);
    LineEnd(Redir(c, op, file), Paren(c) + tail, y);
  }

  // A command in parentheses, where no redirection follows.
  lemma {:induction false} PlainBlock(t: Tree, y: string)
    requires Writable(t) && (y != "" ==> !IsWhite(y[0]) && y[0] != '<' && y[0] != '>')
    ensures ParseExec(Paren(t) + y) == Ok(t, y)
    decreases t, 3
  {
    hide ParseLine, ParseExec, Print;
    LineRound(t, ")" + y);
    assert Print(t) + (")" + y) == Print(t) + ")" + y;
    NoRedirs(y);
    BlockRound(t, y, [], y);
  }

  lemma {:induction false} BackRound(c: Tree, y: string)
    requires Writable(c) && Closed(y)
    ensures ParseLine(Paren(c) + "&" + y) == Ok(Back(c), y)
    decreases c, 4
  {
    var s := Paren(c) + "&" + y;
    assert s == Paren(c) + ("&" + y) && "&" + y == ['&'] + y;
    PlainBlock(c, "&" + y);
    SymbolFirst('&', y);
    assert ParsePipe(s) == Ok(c, "&" + y);
    assert Skip(y) == y;
    assert ParseBacks(Back(c), y) == (Back(c), y);
    assert ParseBacks(c, "&" + y) == (Back(c), y);
  }

  lemma {:induction false} PipeRound(l: Tree, r: Tree, y: string)
    requires Writable(l) && Writable(r) && Closed(y)
    ensures ParseLine(Paren(l) + "|" + Paren(r) + y) == Ok(Pipe(l, r), y)
    decreases Pipe(l, r), 1
  {
    var s, right := Paren(l) + "|" + Paren(r) + y, Paren(r) + y;
    assert s == Paren(l) + ("|" + right) && "|" + right == ['|'] + right;
    PlainBlock(l, "|" + right);
    PlainBlock(r, y);
    assert right[0] == '(';
    SymbolFirst('|', right);
    assert Skip(y) == y;
    assert ParsePipe(right) == Ok(r, y);
    assert ParsePipe(s) == Ok(Pipe(l, r), y);
    assert ParseBacks(Pipe(l, r), y) == (Pipe(l, r), y);
  }

  lemma {:induction false} ListRound(l: Tree, r: Tree, y: string)
    requires Writable(l) && Writable(r) && Closed(y)
    ensures ParseLine(Paren(l) + ";" + Paren(r) + y) == Ok(List(l, r), y)
    decreases List(l, r), 1
  {
    hide ParseLine, ParsePipe, ParseExec, Print, GetToken;
    var s, right := Paren(l) + ";" + Paren(r) + y, Paren(r) + y;
    assert s == Paren(l) + (";" + right) && ";" + right == [';'] + right;
    PlainBlock(l, ";" + right);
    PlainBlock(r, y);
    LineEnd(r, right, y);
    assert right[0] == '(';
    SymbolFirst(';', right);
    PipeEnd(l, s, ";" + right);
    ListStep(l, s, ";" + right, r, y);
  }

  lemma RoundTrip(t: Tree)
    requires Writable(t)
    ensures ParseCmd(Print(t)) == Ok(t, "")
  {
    LineRound(t, "");
    assert Print(t) + "" == Print(t);
  }

  // Ten words are too many.
  lemma {:induction false} ArgsOverflow(done: seq<string>, words: seq<string>, y: string)
    requires |done| < MAXARGS <= |done| + |words| && (forall i :: 0 <= i < |words| ==> IsWord(words[i])) && Closed(y)
    ensures ParseArgs(done, [], Join(words) + y) == Fail
    decreases |words|
  {
    hide Skip, GetToken, ParseRedirs, ParseArgs, IsWordChar, WordLength;
    var w, rest := words[0], words[1..];
    assert IsWord(w);
    var tail := JoinSplit(words, y);
    WordFirst(w, tail);
    WordsFirst(rest, y);
    if |done| + 1 < MAXARGS {
      NoRedirs(Join(rest) + y);
      ArgsStep(done, w, tail, Join(rest) + y);
      ArgsOverflow(done + [w], rest, y);
    } else {
      ArgsFull(done, w, tail, Join(rest) + y);
    }
  }

  lemma ArgsFull(done: seq<string>, w: string, tail: string, next: string)
    requires IsWord(w) && Skip(w + tail) == w + tail && GetToken(w + tail) == (Word(w), next) && |done| + 1 >= MAXARGS
    ensures ParseArgs(done, [], w + tail) == Fail
  {
    assert (w + tail)[0] == w[0] && IsWordChar(w[0]);
    assert !Peek(w + tail, "|)&;");
  }

  // A plain command is read back exactly when it has at most nine words.
  lemma NineWords(words: seq<string>)
    requires forall i :: 0 <= i < |words| ==> IsWord(words[i])
    ensures ParseCmd(Join(words)) == Ok(Exec(words), "") <==> |words| < MAXARGS
  {
    hide ParseArgs, ParseCmd, ParseRedirs, Join, Skip, IsWhite;
    if |words| < MAXARGS {
      RoundTrip(Exec(words));
    } else {
      WordsFirst(words, "");
      assert Join(words) + "" == Join(words);
      NoRedirs(Join(words));
      ArgsOverflow([], words, "");
      ExecFails(Join(words));
    }
  }

  lemma ExecFails(s: string)
    requires ParseRedirs(s) == Ok([], s) && Skip(s) == s && (s != "" ==> s[0] != '(') && ParseArgs([], [], s) == Fail
    ensures ParseCmd(s) == Fail
  {
    hide ParseRedirs, ParseArgs, Skip;
    assert !Peek(s, "(");
    assert ParseExec(s) == Fail;
    assert ParsePipe(s) == Fail;
    assert ParseLine(s) == Fail;
  }

  // ----- the loops, one round at a time

  lemma SkipTwice(inp: string)
    ensures Skip(Skip(inp)) == Skip(inp) && GetToken(Skip(inp)) == GetToken(inp)
            && Skip(GetToken(inp).1) == GetToken(inp).1
  {
  }

  lemma PeekSkip(inp: string, toks: string)
    ensures Peek(Skip(inp), toks) == Peek(inp, toks)
  {
  }

  lemma TokenKinds(inp: string)
    ensures GetToken(inp).0.Sym? ==> IsSymbol(GetToken(inp).0.c) || GetToken(inp).0.c == '+'
    ensures Peek(inp, "<>")
            ==> GetToken(inp).0.Sym?
                && (GetToken(inp).0.c == '<' || GetToken(inp).0.c == '>' || GetToken(inp).0.c == '+')
  {
  }

  // parseredirs on `from` has read the redirections `done`, up to inp.
  ghost predicate RedirsFrom(from: string, done: seq<(char, string)>, inp: string) {
    ParseRedirs(from) == match ParseRedirs(inp) case Ok(rs, rest) => Ok(done + rs, rest) case Fail => Fail
  }

  lemma RedirsStart(inp: string)
    ensures RedirsFrom(inp, [], Skip(inp))
  {
    hide Skip, GetToken;
    SkipTwice(inp);
    PeekSkip(inp, "<>");
    var r := ParseRedirs(inp);
    assert ParseRedirs(Skip(inp)) == r;
    if r.Ok? {
      assert [] + r.value == r.value;
    }
  }

  lemma RedirsNext(from: string, done: seq<(char, string)>, inp: string)
    requires RedirsFrom(from, done, inp) && Peek(inp, "<>")
    ensures var (tok, mid) := GetToken(inp); var (file, rest) := GetToken(mid);
            && tok.Sym? && (tok.c == '<' || tok.c == '>' || tok.c == '+')
            && if file.Word? then RedirsFrom(from, done + [(tok.c, file.w)], rest) else ParseRedirs(from) == Fail
  {
    hide Skip, GetToken, Peek;
    TokenKinds(inp);
    var (tok, mid) := GetToken(inp);
    var (file, rest) := GetToken(mid);
    if file.Word? {
      var r := ParseRedirs(rest);
      if r.Ok? {
        assert done + ([(tok.c, file.w)] + r.value) == done + [(tok.c, file.w)] + r.value;
      }
    }
  }

  lemma RedirsEnd(from: string, done: seq<(char, string)>, inp: string)
    requires RedirsFrom(from, done, inp) && !Peek(inp, "<>")
    ensures ParseRedirs(from) == Ok(done, Skip(inp))
  {
    hide Skip, GetToken, Peek;
    assert done + [] == done;
  }

  lemma {:induction false} WrapLast(t: Tree, rs: seq<(char, string)>, op: char, file: string)
    ensures Wrap(t, rs + [(op, file)]) == Redir(Wrap(t, rs), op, file)
    decreases |rs|
  {
    if rs == [] {
      assert rs + [(op, file)] == [(op, file)];
    } else {
      assert (rs + [(op, file)])[1..] == rs[1..] + [(op, file)];
      WrapLast(Redir(t, rs[0].0, rs[0].1), rs[1..], op, file);
    }
  }

  lemma {:induction false} WrapMore(t: Tree, rs: seq<(char, string)>, rs': seq<(char, string)>)
    ensures Wrap(Wrap(t, rs), rs') == Wrap(t, rs + rs')
    decreases |rs|
  {
    if rs == [] {
      assert rs + rs' == rs';
    } else {
      assert (rs + rs')[1..] == rs[1..] + rs';
      WrapMore(Redir(t, rs[0].0, rs[0].1), rs[1..], rs');
    }
  }

  lemma SameRedirs(inp: string)
    ensures ParseRedirs(Skip(inp)) == ParseRedirs(inp)
  {
    hide Skip, GetToken;
    SkipTwice(inp);
    PeekSkip(inp, "<>");
  }

  lemma SameArgs(words: seq<string>, rs: seq<(char, string)>, inp: string)
    ensures ParseArgs(words, rs, Skip(inp)) == ParseArgs(words, rs, inp)
  {
    hide Skip, GetToken, ParseRedirs;
    SkipTwice(inp);
    PeekSkip(inp, "|)&;");
  }

  lemma SameBlock(inp: string)
    ensures Peek(inp, "(") ==> Peek(Skip(inp), "(") && ParseBlock(Skip(inp)) == ParseBlock(inp)
  {
    hide Skip, GetToken, ParseRedirs, ParseLine;
    SkipTwice(inp);
    PeekSkip(inp, "(");
  }

  lemma SameBacks(t: Tree, inp: string)
    ensures ParseBacks(t, Skip(inp)) == ParseBacks(t, inp)
  {
    hide Skip, GetToken;
    SkipTwice(inp);
    PeekSkip(inp, "&");
  }

  lemma BacksNext(t: Tree, inp: string)
    ensures ParseBacks(t, inp) == if Peek(inp, "&") then ParseBacks(Back(t), GetToken(inp).1) else (t, Skip(inp))
  {
    hide Skip, GetToken, Peek;
  }

  lemma PeekToken(inp: string, toks: string)
    requires Peek(inp, toks)
    ensures |GetToken(inp).1| < |inp|
  {
    hide WordLength;
    assert Skip(inp) != "";
  }

  lemma TokenEnd(inp: string)
    requires GetToken(inp).0 == End
    ensures GetToken(inp).1 == ""
  {
  }

  // A round of the loop of parseexec.
  lemma ArgsNext(words: seq<string>, rs: seq<(char, string)>, inp: string)
    ensures Peek(inp, "|)&;") ==> ParseArgs(words, rs, inp) == Ok(Wrap(Exec(words), rs), Skip(inp))
    ensures !Peek(inp, "|)&;") && GetToken(inp).0 == End
            ==> ParseArgs(words, rs, inp) == Ok(Wrap(Exec(words), rs), GetToken(inp).1)
    ensures !Peek(inp, "|)&;") && GetToken(inp).0.Sym? ==> ParseArgs(words, rs, inp) == Fail
    ensures !Peek(inp, "|)&;") && GetToken(inp).0.Word? ==>
              var r := ParseRedirs(GetToken(inp).1);
              ParseArgs(words, rs, inp) ==
              if |words| + 1 >= MAXARGS || r.Fail? then Fail
                  else ParseArgs(words + [GetToken(inp).0.w], rs + r.value, r.rest)
  {
    hide Skip, GetToken, Peek, ParseRedirs, Wrap;
  }
}
