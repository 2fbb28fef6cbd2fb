/**
  Command lines as text: tokens written down with blanks between them as one likes, and
  commands written down without needless parentheses.
 */
module ShellLayout {
  import opened ShellSpec
  import opened ShellGrammar

  // ----- text

  // A token, and the blanks before it.
  datatype Piece = Piece(gap: string, tok: Token)

  predicate Blank(s: string) { forall i :: 0 <= i < |s| ==> IsWhite(s[i]) }

  predicate Spellable(t: Token) {
    match t
    case End => false
    case Sym(c) => IsSymbol(c) || c == '+'
    case Word(w) => IsWord(w)
  }

  function Spelling(t: Token): string {
    match t
    case End => ""
    case Sym(c) => if c == '+' then ">>" else [c]
    case Word(w) => w
  }

  // Two tokens that run into each other unless there is a blank between them.
  predicate Clash(t: Token, u: Token) { (t.Word? && u.Word?) || (t == Sym('>') && (u == Sym('>') || u == Sym('+'))) }

  predicate GoodPieces(ps: seq<Piece>) {
    && (forall i :: 0 <= i < |ps| ==> Blank(ps[i].gap) && Spellable(ps[i].tok))
    && (forall i :: 0 < i < |ps| && ps[i].gap == "" ==> !Clash(ps[i - 1].tok, ps[i].tok))
  }

  function Spell(ps: seq<Piece>, tail: string): string {
    if ps == [] then tail else ps[0].gap + (Spelling(ps[0].tok) + Spell(ps[1..], tail))
  }

  function Tokens(ps: seq<Piece>): seq<Token> { seq(|ps|, i requires 0 <= i < |ps| => ps[i].tok) }

  lemma {:induction false} SkipBlank(gap: string, s: string)
    requires Blank(gap)
    ensures Skip(gap + s) == Skip(s)
  {
    if gap == "" {
      assert gap + s == s;
    } else {
      assert (gap + s)[1..] == gap[1..] + s;
      SkipBlank(gap[1..], s);
    }
  }

  // What follows a token does not run into it.
  predicate Apart(t: Token, s: string) {
    s != "" ==> (t.Word? ==> !IsWordChar(s[0])) && (t == Sym('>') ==> s[0] != '>')
  }

  lemma NextApart(ps: seq<Piece>, tail: string)
    requires GoodPieces(ps) && ps != [] && Blank(tail)
    ensures Apart(ps[0].tok, Spell(ps[1..], tail))
  {
    var s := Spell(ps[1..], tail);
    if |ps| > 1 {
      var p := ps[1];
      assert s == p.gap + (Spelling(p.tok) + Spell(ps[1..][1..], tail));
      if p.gap == "" {
        assert s == Spelling(p.tok) + Spell(ps[1..][1..], tail);
        assert !Clash(ps[0].tok, p.tok);
        assert s[0] == Spelling(p.tok)[0];
      } else {
        assert s[0] == p.gap[0] && IsWhite(p.gap[0]);
      }
    }
  }

  // A token is read back from its spelling.
  lemma TokenRead(t: Token, s: string)
    requires Spellable(t) && Apart(t, s)
    ensures var x := Spelling(t) + s; Skip(x) == x && GetToken(x) == (t, Skip(s)) && t != End
  {
    hide WordLength;
    var x := Spelling(t) + s;
    match t
    case Word(w) =>
      WordFirst(w, s);
    case Sym(c) =>
      assert x[0] == if c == '+' then '>' else c;
      assert x[|Spelling(t)|..] == s;
  }

  // Text is read as the tokens that were written, however they are laid out.
  lemma {:induction false} LayoutRead(ps: seq<Piece>, tail: string)
    requires GoodPieces(ps) && Blank(tail)
    ensures Toks(Spell(ps, tail)) == Tokens(ps)
    decreases |ps|
  {
    hide GetToken, Skip, Spellable, Toks, Blank;
    if ps == [] {
      SkipBlank(tail, "");
      assert tail + "" == tail && Skip("") == "";
      ToksNone(tail);
    } else {
      var t, rest := ps[0].tok, Spell(ps[1..], tail);
      NextApart(ps, tail);
      TokenRead(t, rest);
      var x := Spelling(t) + rest;
      SkipBlank(ps[0].gap, x);
      ToksSkip(Spell(ps, tail));
      ToksSkip(x);
      ToksCons(x);
      ToksSkip(rest);
      LayoutRead(ps[1..], tail);
      assert Tokens(ps) == [t] + Tokens(ps[1..]);
    }
  }

  // A line of the grammar, laid out as one likes, is parsed as what it stands for.
  lemma AnyLayout(l: Line, ps: seq<Piece>, tail: string)
    requires GoodLine(l) && GoodPieces(ps) && Blank(tail) && Tokens(ps) == LineToks(l)
    ensures ParseCmd(Spell(ps, tail)) == Ok(LineTree(l), "")
  {
    hide GoodLine, LineToks, LineTree, Toks, ParseCmd;
    LayoutRead(ps, tail);
    ParsesExactly(Spell(ps, tail), LineTree(l));
  }

  // The grammar is unambiguous: tokens that can be written down stand for one command.
  lemma Unambiguous(k: Line, l: Line)
    requires GoodLine(k) && GoodLine(l) && LineToks(k) == LineToks(l)
    requires forall i :: 0 <= i < |LineToks(l)| ==> Spellable(LineToks(l)[i])
    ensures LineTree(k) == LineTree(l)
  {
    hide GoodLine, LineToks, LineTree, Spellable, ParseCmd;
    var ts := LineToks(l);
    var ps := seq(|ts|, i requires 0 <= i < |ts| => Piece(" ", ts[i]));
    assert Tokens(ps) == ts;
    AnyLayout(k, ps, "");
    AnyLayout(l, ps, "");
  }

  // ----- commands without needless parentheses

  // A command with redirections stays a plain command, what stands to the right of | may
  // be another pipe, and what stands to the right of ; another list.
  predicate Compound(t: Tree) { t.Pipe? || t.List? || t.Back? }

  function AtomOf(t: Tree): Atom
    decreases t, if Compound(t) then 5 else 0
  {
    match t
    case Exec(words) => Plain([], seq(|words|, i requires 0 <= i < |words| => Arg(words[i], [])))
    case Redir(c, op, file) =>
      var a := AtomOf(c);
      if a.Plain? && a.args == [] then Plain(a.redirs + [(op, file)], [])
      else if a.Plain? then Plain(a.redirs, AddRedir(a.args, op, file))
      else Block(a.line, a.redirs + [(op, file)])
    case _ => Block(LineOf(t), [])
  }

  // The last argument gets another redirection.
  function AddRedir(args: seq<Arg>, op: char, file: string): (r: seq<Arg>)
    requires args != []
  {
    var n := |args| - 1;
    args[n := Arg(args[n].word, args[n].redirs + [(op, file)])]
  }

  function PipesOf(t: Tree): Pipes
    decreases t, if t.Pipe? then 2 else if Compound(t) then 6 else 1
  {
    if t.Pipe? then Bar(AtomOf(t.left), PipesOf(t.right)) else Last(AtomOf(t))
  }

  // t without the & at its end, and how many there are.
  function Strip(t: Tree): (r: (Tree, nat))
    ensures Backs(r.0, r.1) == t && !r.0.Back?
    ensures r.0 == t || r.0 < t
  {
    if t.Back? then
      var (u, n) := Strip(t.cmd);
      (u, n + 1)
    else (t, 0)
  }

  function LineOf(t: Tree): Line
    decreases t, 3
  {
    if t.List? then
      var (u, n) := Strip(t.left);
      Line(PipesOf(u), n, Semi(LineOf(t.right)))
    else
      var (u, n) := Strip(t);
      Line(PipesOf(u), n, Done)
  }

  lemma RedirectedLast(t: Tree, rs: Redirs, op: char, file: string)
    ensures Redirected(t, rs + [(op, file)]) == Redir(Redirected(t, rs), op, file)
  {
    assert (rs + [(op, file)])[..|rs|] == rs;
  }

  lemma {:induction false} BareArgs(args: seq<Arg>, words: seq<string>)
    requires |args| == |words| && forall i :: 0 <= i < |args| ==> args[i] == Arg(words[i], [])
    ensures Words(args) == words && ArgRedirs(args) == []
    decreases |args|
  {
    if args != [] {
      BareArgs(args[1..], words[1..]);
    }
  }

  lemma {:induction false} AddRedirReads(args: seq<Arg>, op: char, file: string)
    requires args != []
    ensures Words(AddRedir(args, op, file)) == Words(args)
    ensures ArgRedirs(AddRedir(args, op, file)) == ArgRedirs(args) + [(op, file)]
    decreases |args|
  {
    var r := AddRedir(args, op, file);
    if |args| > 1 {
      AddRedirReads(args[1..], op, file);
      assert r[1..] == AddRedir(args[1..], op, file);
    } else {
      assert r[1..] == [] && args[1..] == [];
    }
  }

  lemma {:induction false} AtomOfReads(t: Tree)
    requires Writable(t)
    ensures GoodAtom(AtomOf(t)) && AtomTree(AtomOf(t)) == t
    decreases t, if Compound(t) then 5 else 0
  {
    hide LineOf, LineTree, GoodLine, IsWord;
    match t
    case Exec(words) =>
      BareArgs(AtomOf(t).args, words);
    case Redir(c, op, file) =>
      AtomOfReads(c);
      RedirAtom(AtomOf(c), op, file);
    case _ =>
      LineOfReads(t);
  }

  lemma RedirAtom(a: Atom, op: char, file: string)
    requires GoodAtom(a) && IsRedirOp(op)
    ensures var b := if a.Plain? && a.args == [] then Plain(a.redirs + [(op, file)], [])
                     else if a.Plain? then Plain(a.redirs, AddRedir(a.args, op, file))
                     else Block(a.line, a.redirs + [(op, file)]);
            GoodAtom(b) && AtomTree(b) == Redir(AtomTree(a), op, file)
  {
    hide GoodLine, LineTree, Redirected;
    match a
    case Block(l, rs) =>
      RedirectedLast(LineTree(l), rs, op, file);
    case Plain(rs, args) =>
      RedirectedLast(Exec(Words(args)), rs + ArgRedirs(args), op, file);
      if args == [] {
        assert rs + [(op, file)] + ArgRedirs([]) == rs + ArgRedirs(args) + [(op, file)];
      } else {
        AddRedirReads(args, op, file);
        assert rs + (ArgRedirs(args) + [(op, file)]) == rs + ArgRedirs(args) + [(op, file)];
      }
  }

  lemma {:induction false} PipesOfReads(t: Tree)
    requires Writable(t)
    ensures GoodPipes(PipesOf(t)) && PipeTree(PipesOf(t)) == t
    decreases t, if t.Pipe? then 2 else if Compound(t) then 6 else 1
  {
    hide AtomOf, AtomTree, GoodAtom, IsWord;
    if t.Pipe? {
      AtomOfReads(t.left);
      PipesOfReads(t.right);
    } else {
      AtomOfReads(t);
    }
  }

  lemma {:induction false} StripWritable(t: Tree)
    requires Writable(t)
    ensures Writable(Strip(t).0)
  {
    hide IsWord;
    if t.Back? {
      StripWritable(t.cmd);
    }
  }

  lemma {:induction false} LineOfReads(t: Tree)
    requires Writable(t)
    ensures GoodLine(LineOf(t)) && LineTree(LineOf(t)) == t
    decreases t, 3
  {
    hide PipesOf, PipeTree, GoodPipes, IsWord, Strip;
    var s := if t.List? then t.left else t;
    StripWritable(s);
    PipesOfReads(Strip(s).0);
    if t.List? {
      LineOfReads(t.right);
    }
  }

  // A command that can be written down is read back from its text without needless
  // parentheses, laid out as one likes.
  lemma PlainRoundTrip(t: Tree, ps: seq<Piece>, tail: string)
    requires Writable(t) && GoodPieces(ps) && Blank(tail) && Tokens(ps) == LineToks(LineOf(t))
    ensures ParseCmd(Spell(ps, tail)) == Ok(t, "")
  {
    LineOfReads(t);
    AnyLayout(LineOf(t), ps, tail);
  }

  // ----- plain commands joined by | or by ;

  function WordToks(words: seq<string>): seq<Token> {
    seq(|words|, i requires 0 <= i < |words| => Word(words[i]))
  }

  lemma {:induction false} JoinRead(words: seq<string>, y: string)
    requires (forall i :: 0 <= i < |words| ==> IsWord(words[i])) && (y == "" || IsSymbol(y[0]))
    ensures Toks(Join(words) + y) == WordToks(words) + Toks(y)
    decreases |words|
  {
    hide Toks, IsWord, Join, WordToks;
    if words == [] {
      NoWords(y);
    } else {
      var w, rest := words[0], words[1..];
      var next := Join(rest) + y;
      JoinRead(rest, y);
      JoinIs(words, y);
      if |words| == 1 {
        WordRead(w, y);
      } else {
        WordRead(w, " " + next);
        BlankRead(next);
      }
    }
  }

  lemma NoWords(y: string)
    ensures Join([]) + y == y && WordToks([]) == []
  {
  }

  lemma {:induction false} JoinIs(words: seq<string>, y: string)
    requires words != []
    ensures WordToks(words) == [Word(words[0])] + WordToks(words[1..])
    ensures |words| == 1 ==> Join(words) + y == words[0] + y && Join(words[1..]) + y == y
    ensures |words| > 1 ==> Join(words) + y == words[0] + (" " + (Join(words[1..]) + y))
  {
  }

  lemma WordRead(w: string, y: string)
    requires IsWord(w) && (y == "" || !IsWordChar(y[0]))
    ensures Toks(w + y) == [Word(w)] + Toks(y)
  {
    hide GetToken, Skip, Toks, IsWord;
    WordFirst(w, y);
    ToksCons(w + y);
    ToksSkip(y);
  }

  lemma BlankRead(s: string)
    ensures Toks(" " + s) == Toks(s)
  {
    hide GetToken, Skip, Toks;
    SkipBlank(" ", s);
    ToksSkip(" " + s);
    ToksSkip(s);
  }

  lemma SymbolRead(c: char, y: string)
    requires c == '|' || c == ';'
    ensures Toks([c] + y) == [Sym(c)] + Toks(y)
  {
    hide WordLength;
    assert ([c] + y)[1..] == y;
    assert GetToken([c] + y) == (Sym(c), Skip(y));
    ToksCons([c] + y);
    ToksSkip(y);
  }

  predicate PlainCommands(cmds: seq<seq<string>>) {
    cmds != [] && forall i :: 0 <= i < |cmds| ==> Writable(Exec(cmds[i]))
  }

  function Separated(cmds: seq<seq<string>>, sep: char): string
    requires cmds != []
  {
    if |cmds| == 1 then Join(cmds[0]) else Join(cmds[0]) + [sep] + Separated(cmds[1..], sep)
  }

  function PipeOf(cmds: seq<seq<string>>): Tree
    requires cmds != []
  {
    if |cmds| == 1 then Exec(cmds[0]) else Pipe(Exec(cmds[0]), PipeOf(cmds[1..]))
  }

  function ListOf(cmds: seq<seq<string>>): Tree
    requires cmds != []
  {
    if |cmds| == 1 then Exec(cmds[0]) else List(Exec(cmds[0]), ListOf(cmds[1..]))
  }

  lemma PlainToks(words: seq<string>)
    ensures AtomToks(AtomOf(Exec(words))) == WordToks(words)
  {
    BareToks(AtomOf(Exec(words)).args, words);
  }

  lemma {:induction false} BareToks(args: seq<Arg>, words: seq<string>)
    requires |args| == |words| && forall i :: 0 <= i < |args| ==> args[i] == Arg(words[i], [])
    ensures ArgToks(args) == WordToks(words)
    decreases |args|
  {
    if args != [] {
      BareToks(args[1..], words[1..]);
      assert WordToks(words) == [Word(words[0])] + WordToks(words[1..]);
    }
  }

  lemma {:induction false} PipeText(cmds: seq<seq<string>>)
    requires PlainCommands(cmds)
    ensures Writable(PipeOf(cmds)) && Toks(Separated(cmds, '|')) == PipeToks(PipesOf(PipeOf(cmds)))
    decreases |cmds|
  {
    hide Toks, Join, AtomToks, AtomOf, IsWord, WordToks;
    var rest := if |cmds| == 1 then "" else ['|'] + Separated(cmds[1..], '|');
    assert Separated(cmds, '|') == Join(cmds[0]) + rest;
    PlainToks(cmds[0]);
    JoinRead(cmds[0], rest);
    if |cmds| == 1 {
      ToksNone("");
    } else {
      PipeText(cmds[1..]);
      SymbolRead('|', Separated(cmds[1..], '|'));
    }
  }

  lemma {:induction false} ListText(cmds: seq<seq<string>>)
    requires PlainCommands(cmds)
    ensures Writable(ListOf(cmds)) && Toks(Separated(cmds, ';')) == LineToks(LineOf(ListOf(cmds)))
    decreases |cmds|
  {
    hide Toks, Join, AtomToks, AtomOf, IsWord, WordToks;
    var rest := if |cmds| == 1 then "" else [';'] + Separated(cmds[1..], ';');
    assert Separated(cmds, ';') == Join(cmds[0]) + rest;
    PlainToks(cmds[0]);
    JoinRead(cmds[0], rest);
    if |cmds| == 1 {
      ToksNone("");
    } else {
      ListText(cmds[1..]);
      SymbolRead(';', Separated(cmds[1..], ';'));
    }
  }

  // Any number of plain commands joined by | is a pipe that groups to the right, and
  // joined by ; a list that groups to the right.
  lemma PlainSequences(cmds: seq<seq<string>>)
    requires PlainCommands(cmds)
    ensures ParseCmd(Separated(cmds, '|')) == Ok(PipeOf(cmds), "")
    ensures ParseCmd(Separated(cmds, ';')) == Ok(ListOf(cmds), "")
  {
    hide Toks, ParseCmd, PipesOf, GoodLine, PipeToks, LineTree, PipeTree, Separated;
    PipeText(cmds);
    LineOfReads(PipeOf(cmds));
    assert LineToks(LineOf(PipeOf(cmds))) == PipeToks(PipesOf(PipeOf(cmds)));
    ParsesExactly(Separated(cmds, '|'), PipeOf(cmds));
    ListText(cmds);
    LineOfReads(ListOf(cmds));
    ParsesExactly(Separated(cmds, ';'), ListOf(cmds));
  }
}
