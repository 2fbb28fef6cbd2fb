/**
  The grammar of the shell, as a grammar: what a command line may consist of, without
  saying how it is read.

    line  = pipe {"&"} [";" line]
    pipe  = atom ["|" pipe]
    atom  = {redir} {word {redir}}  |  "(" line ")" {redir}
    redir = ("<" | ">" | ">>") word

  The parser of ShellSpec accepts exactly the lines of this grammar, and builds the
  command that their derivation stands for.
 */
module ShellGrammar {
  import opened ShellSpec

  type Redirs = seq<(char, string)>

  // Derivations.
  datatype Arg = Arg(word: string, redirs: Redirs)
  datatype Atom = Plain(redirs: Redirs, args: seq<Arg>) | Block(line: Line, redirs: Redirs)
  datatype Pipes = Last(atom: Atom) | Bar(atom: Atom, more: Pipes)
  datatype Line = Line(pipes: Pipes, amps: nat, more: More)
  datatype More = Done | Semi(line: Line)

  predicate IsRedirOp(c: char) { c == '<' || c == '>' || c == '+' }
  predicate GoodRedirs(rs: Redirs) { forall i :: 0 <= i < |rs| ==> IsRedirOp(rs[i].0) }

  predicate GoodArgs(args: seq<Arg>) {
    |args| < MAXARGS && forall i :: 0 <= i < |args| ==> GoodRedirs(args[i].redirs)
  }

  predicate GoodAtom(a: Atom) {
    match a
    case Plain(rs, args) => GoodRedirs(rs) && GoodArgs(args)
    case Block(l, rs) => GoodLine(l) && GoodRedirs(rs)
  }

  predicate GoodPipes(p: Pipes) {
    match p
    case Last(a) => GoodAtom(a)
    case Bar(a, q) => GoodAtom(a) && GoodPipes(q)
  }

  predicate GoodLine(l: Line) { GoodPipes(l.pipes) && (l.more.Semi? ==> GoodLine(l.more.line)) }

  // The tokens of a derivation.
  function RedirToks(rs: Redirs): seq<Token> {
    if rs == [] then [] else [Sym(rs[0].0), Word(rs[0].1)] + RedirToks(rs[1..])
  }

  function ArgToks(args: seq<Arg>): seq<Token> {
    if args == [] then [] else [Word(args[0].word)] + RedirToks(args[0].redirs) + ArgToks(args[1..])
  }

  function AtomToks(a: Atom): seq<Token> {
    match a
    case Plain(rs, args) => RedirToks(rs) + ArgToks(args)
    case Block(l, rs) => [Sym('(')] + (LineToks(l) + ([Sym(')')] + RedirToks(rs)))
  }

  function PipeToks(p: Pipes): seq<Token> {
    match p
    case Last(a) => AtomToks(a)
    case Bar(a, q) => AtomToks(a) + ([Sym('|')] + PipeToks(q))
  }

  function Amps(n: nat): seq<Token> { if n == 0 then [] else [Sym('&')] + Amps(n - 1) }

  function MoreToks(m: More): seq<Token> {
    match m
    case Done => []
    case Semi(l) => [Sym(';')] + LineToks(l)
  }

  function LineToks(l: Line): seq<Token> { PipeToks(l.pipes) + (Amps(l.amps) + MoreToks(l.more)) }

  // The command that a derivation stands for.  The last redirection is the outermost,
  // | and ; group to the right, and & applies to what comes before it.
  function Redirected(t: Tree, rs: Redirs): Tree {
    if rs == [] then t
    else
      var n := |rs| - 1;
      Redir(Redirected(t, rs[..n]), rs[n].0, rs[n].1)
  }

  function Words(args: seq<Arg>): seq<string> {
    if args == [] then [] else [args[0].word] + Words(args[1..])
  }

  function ArgRedirs(args: seq<Arg>): Redirs {
    if args == [] then [] else args[0].redirs + ArgRedirs(args[1..])
  }

  function AtomTree(a: Atom): Tree {
    match a
    case Plain(rs, args) => Redirected(Exec(Words(args)), rs + ArgRedirs(args))
    case Block(l, rs) => Redirected(LineTree(l), rs)
  }

  function PipeTree(p: Pipes): Tree {
    match p
    case Last(a) => AtomTree(a)
    case Bar(a, q) => Pipe(AtomTree(a), PipeTree(q))
  }

  function Backs(t: Tree, n: nat): Tree { if n == 0 then t else Back(Backs(t, n - 1)) }

  function LineTree(l: Line): Tree {
    var t := Backs(PipeTree(l.pipes), l.amps);
    if l.more.Done? then t else List(t, LineTree(l.more.line))
  }

  // The tokens of an input.
  function Toks(inp: string): seq<Token>
    decreases |inp|
  {
    if GetToken(inp).0 == End then [] else [GetToken(inp).0] + Toks(GetToken(inp).1)
  }

  // s reads as the command t.
  ghost predicate Reads(s: string, t: Tree) {
    exists l :: GoodLine(l) && LineToks(l) == Toks(s) && LineTree(l) == t
  }

  // ----- tokens

  lemma PeekFirst(inp: string)
    ensures Peek(inp, "<>") <==> GetToken(inp).0.Sym? && IsRedirOp(GetToken(inp).0.c)
    ensures Peek(inp, "|)&;") <==> GetToken(inp).0.Sym? && GetToken(inp).0.c in "|)&;"
    ensures Peek(inp, "(") <==> GetToken(inp).0 == Sym('(')
    ensures Peek(inp, ")") <==> GetToken(inp).0 == Sym(')')
    ensures Peek(inp, "|") <==> GetToken(inp).0 == Sym('|')
    ensures Peek(inp, "&") <==> GetToken(inp).0 == Sym('&')
    ensures Peek(inp, ";") <==> GetToken(inp).0 == Sym(';')
  {
    hide WordLength;
  }

  lemma ToksSkip(inp: string)
    ensures Toks(Skip(inp)) == Toks(inp)
  {
    hide GetToken, Skip;
    SkipTwice(inp);
  }

  lemma ToksFirst(inp: string, t: Token, z: seq<Token>)
    requires Toks(inp) == [t] + z
    ensures GetToken(inp).0 == t && t != End && Toks(GetToken(inp).1) == z && |GetToken(inp).1| < |inp|
  {
    hide GetToken;
    assert Toks(inp)[0] == t && Toks(inp)[1..] == z;
  }

  lemma ToksNone(inp: string)
    ensures Toks(inp) == [] <==> GetToken(inp).0 == End
    ensures Toks(inp) == [] <==> Skip(inp) == ""
    ensures Toks(inp) != [] ==> Toks(inp)[0] == GetToken(inp).0
  {
    hide WordLength;
  }

  // The next token is one of cs, or there is none.
  predicate Stops(z: seq<Token>, cs: string) { z == [] || (z[0].Sym? && z[0].c in cs) }

  // A parsing function answers v and leaves the tokens z.
  ghost predicate Yields<T(!new)>(r: Result<T>, v: T, z: seq<Token>) { r.Ok? && r.value == v && Toks(r.rest) == z }

  // ----- every line of the grammar is accepted

  lemma {:induction false} RedirsAccepted(rs: Redirs, inp: string, z: seq<Token>)
    requires GoodRedirs(rs) && Toks(inp) == RedirToks(rs) + z && (z != [] && z[0].Sym? ==> !IsRedirOp(z[0].c))
    ensures Yields(ParseRedirs(inp), rs, z)
    decreases |rs|
  {
    hide GetToken, Skip, Peek, Toks;
    PeekFirst(inp);
    ToksNone(inp);
    if rs == [] {
      ToksSkip(inp);
      assert Toks(inp) == z;
    } else {
      var tail := RedirToks(rs[1..]) + z;
      assert Toks(inp) == [Sym(rs[0].0)] + ([Word(rs[0].1)] + tail);
      ToksFirst(inp, Sym(rs[0].0), [Word(rs[0].1)] + tail);
      ToksFirst(GetToken(inp).1, Word(rs[0].1), tail);
      RedirsAccepted(rs[1..], GetToken(GetToken(inp).1).1, z);
      assert rs == [rs[0]] + rs[1..];
    }
  }

  lemma {:induction false} ArgsAccepted(words: seq<string>, rs: Redirs, args: seq<Arg>, inp: string, z: seq<Token>)
    requires |words| + |args| < MAXARGS && (forall i :: 0 <= i < |args| ==> GoodRedirs(args[i].redirs))
    requires Toks(inp) == ArgToks(args) + z && Stops(z, "|)&;")
    ensures Yields(ParseArgs(words, rs, inp), Wrap(Exec(words + Words(args)), rs + ArgRedirs(args)), z)
    decreases |args|
  {
    hide GetToken, Skip, Peek, Toks, ParseRedirs, GoodRedirs, ParseArgs, RedirToks;
    PeekFirst(inp);
    ToksNone(inp);
    ArgsNext(words, rs, inp);
    if args == [] {
      ToksSkip(inp);
      assert Toks(inp) == z && words + [] == words && rs + [] == rs;
      if z == [] {
        TokenEnd(inp);
        ToksNone("");
      }
    } else {
      var w, tail := args[0].word, ArgToks(args[1..]) + z;
      assert Toks(inp) == [Word(w)] + (RedirToks(args[0].redirs) + tail);
      ToksFirst(inp, Word(w), RedirToks(args[0].redirs) + tail);
      var next := GetToken(inp).1;
      RedirsAccepted(args[0].redirs, next, tail);
      ArgsAccepted(words + [w], rs + args[0].redirs, args[1..], ParseRedirs(next).rest, z);
      assert words + [w] + Words(args[1..]) == words + Words(args);
      assert rs + args[0].redirs + ArgRedirs(args[1..]) == rs + ArgRedirs(args);
    }
  }

  lemma {:induction false} WrapIs(t: Tree, rs: Redirs)
    ensures Wrap(t, rs) == Redirected(t, rs)
    decreases |rs|
  {
    if rs != [] {
      var n := |rs| - 1;
      WrapIs(t, rs[..n]);
      WrapLast(t, rs[..n], rs[n].0, rs[n].1);
      assert rs == rs[..n] + [rs[n]];
    }
  }

  lemma {:induction false} BacksAccepted(t: Tree, n: nat, inp: string, z: seq<Token>)
    requires Toks(inp) == Amps(n) + z && (z != [] ==> z[0] != Sym('&'))
    ensures ParseBacks(t, inp).0 == Backs(t, n) && Toks(ParseBacks(t, inp).1) == z
    decreases n
  {
    hide GetToken, Skip, Peek, Toks, ParseBacks;
    PeekFirst(inp);
    ToksNone(inp);
    BacksNext(t, inp);
    if n == 0 {
      ToksSkip(inp);
      assert Toks(inp) == z;
    } else {
      assert Toks(inp) == [Sym('&')] + (Amps(n - 1) + z);
      ToksFirst(inp, Sym('&'), Amps(n - 1) + z);
      BacksAccepted(Back(t), n - 1, GetToken(inp).1, z);
      BacksInside(t, n - 1);
    }
  }

  lemma {:induction false} BacksInside(t: Tree, n: nat)
    ensures Backs(Back(t), n) == Back(Backs(t, n))
  {
    if n > 0 {
      BacksInside(t, n - 1);
    }
  }

  lemma PlainAccepted(rs: Redirs, args: seq<Arg>, inp: string, z: seq<Token>)
    requires GoodAtom(Plain(rs, args)) && Toks(inp) == RedirToks(rs) + ArgToks(args) + z && Stops(z, "|)&;")
    ensures Yields(ParseExec(inp), AtomTree(Plain(rs, args)), z)
  {
    hide GetToken, Skip, Peek, Toks, ParseRedirs, ParseArgs, GoodRedirs, Redirected, RedirToks, ArgToks;
    PeekFirst(inp);
    ToksNone(inp);
    var tail := ArgToks(args) + z;
    assert Toks(inp) == RedirToks(rs) + tail;
    PlainFirst(rs, args, z);
    RedirsAccepted(rs, inp, tail);
    ArgsAccepted([], rs, args, ParseRedirs(inp).rest, z);
    assert [] + Words(args) == Words(args);
    WrapIs(Exec(Words(args)), rs + ArgRedirs(args));
  }

  lemma {:induction false} BlockAccepted(l: Line, rs: Redirs, inp: string, z: seq<Token>)
    requires GoodLine(l) && GoodRedirs(rs) && Stops(z, "|)&;")
    requires Toks(inp) == [Sym('(')] + (LineToks(l) + ([Sym(')')] + RedirToks(rs))) + z
    ensures Yields(ParseExec(inp), Redirected(LineTree(l), rs), z)
    decreases l, 1
  {
    hide GetToken, Skip, Peek, Toks, ParseRedirs, ParseLine, GoodRedirs, LineToks, LineTree, Redirected, RedirToks;
    PeekFirst(inp);
    ToksNone(inp);
    var close := [Sym(')')] + (RedirToks(rs) + z);
    assert Toks(inp) == [Sym('(')] + (LineToks(l) + close);
    ToksFirst(inp, Sym('('), LineToks(l) + close);
    LineAccepted(l, GetToken(inp).1, close);
    var rest := ParseLine(GetToken(inp).1).rest;
    PeekFirst(rest);
    ToksFirst(rest, Sym(')'), RedirToks(rs) + z);
    RedirsAccepted(rs, GetToken(rest).1, z);
    WrapIs(LineTree(l), rs);
  }

  lemma {:induction false} AtomAccepted(a: Atom, inp: string, z: seq<Token>)
    requires GoodAtom(a) && Toks(inp) == AtomToks(a) + z && Stops(z, "|)&;")
    ensures Yields(ParseExec(inp), AtomTree(a), z)
    decreases a, 0
  {
    hide Toks, Yields, GoodRedirs, GoodArgs, LineToks, LineTree, Redirected, ParseExec;
    match a
    case Plain(rs, args) => PlainAccepted(rs, args, inp, z);
    case Block(l, rs) => BlockAccepted(l, rs, inp, z);
  }

  lemma PlainFirst(rs: Redirs, args: seq<Arg>, z: seq<Token>)
    requires GoodRedirs(rs) && Stops(z, "|)&;")
    ensures var t := ArgToks(args) + z; t != [] && t[0].Sym? ==> !IsRedirOp(t[0].c)
    ensures var t := RedirToks(rs) + (ArgToks(args) + z); t != [] ==> t[0] != Sym('(')
  {
    if args == [] {
      assert ArgToks(args) + z == z;
    }
    if rs == [] {
      assert RedirToks(rs) + (ArgToks(args) + z) == ArgToks(args) + z;
    }
  }

  lemma {:induction false} PipesAccepted(p: Pipes, inp: string, z: seq<Token>)
    requires GoodPipes(p) && Toks(inp) == PipeToks(p) + z && Stops(z, ")&;")
    ensures Yields(ParsePipe(inp), PipeTree(p), z)
    decreases p, 0
  {
    hide GetToken, Skip, Peek, Toks, ParseExec, GoodAtom, AtomToks, AtomTree;
    var more := if p.Last? then z else [Sym('|')] + (PipeToks(p.more) + z);
    assert Toks(inp) == AtomToks(p.atom) + more;
    AtomAccepted(p.atom, inp, more);
    var rest := ParseExec(inp).rest;
    PeekFirst(rest);
    ToksNone(rest);
    if p.Last? {
      ToksSkip(rest);
    } else {
      ToksFirst(rest, Sym('|'), PipeToks(p.more) + z);
      PipesAccepted(p.more, GetToken(rest).1, z);
    }
  }

  lemma {:induction false} LineAccepted(l: Line, inp: string, z: seq<Token>)
    requires GoodLine(l) && Toks(inp) == LineToks(l) + z && Stops(z, ")")
    ensures Yields(ParseLine(inp), LineTree(l), z)
    decreases l, 0
  {
    hide GetToken, Skip, Peek, Toks, ParsePipe, ParseBacks, GoodPipes, PipeToks, PipeTree, Amps, Backs;
    var more := MoreToks(l.more) + z;
    assert Toks(inp) == PipeToks(l.pipes) + (Amps(l.amps) + more);
    AmpsFirst(l.amps, l.more, z);
    PipesAccepted(l.pipes, inp, Amps(l.amps) + more);
    BacksAccepted(PipeTree(l.pipes), l.amps, ParsePipe(inp).rest, more);
    var rest := ParseBacks(PipeTree(l.pipes), ParsePipe(inp).rest).1;
    PeekFirst(rest);
    ToksNone(rest);
    if l.more.Done? {
      assert more == z;
      ToksSkip(rest);
    } else {
      assert more == [Sym(';')] + (LineToks(l.more.line) + z);
      ToksFirst(rest, Sym(';'), LineToks(l.more.line) + z);
      LineAccepted(l.more.line, GetToken(rest).1, z);
    }
  }

  lemma AmpsFirst(n: nat, m: More, z: seq<Token>)
    requires Stops(z, ")")
    ensures Stops(MoreToks(m) + z, ");") && Stops(Amps(n) + (MoreToks(m) + z), ")&;")
  {
    if m.Done? {
      assert MoreToks(m) + z == z;
    }
    if n == 0 {
      assert Amps(n) + (MoreToks(m) + z) == MoreToks(m) + z;
    }
  }

  // ----- every line that is accepted is one of the grammar

  lemma ToksCons(inp: string)
    requires GetToken(inp).0 != End
    ensures Toks(inp) == [GetToken(inp).0] + Toks(GetToken(inp).1)
  {
    hide GetToken;
  }

  lemma {:induction false} RedirsDerived(inp: string)
    requires ParseRedirs(inp).Ok?
    ensures GoodRedirs(ParseRedirs(inp).value)
    ensures Toks(inp) == RedirToks(ParseRedirs(inp).value) + Toks(ParseRedirs(inp).rest)
    decreases |inp|
  {
    hide GetToken, Skip, Peek, Toks;
    PeekFirst(inp);
    if Peek(inp, "<>") {
      ToksCons(inp);
      var mid := GetToken(inp).1;
      ToksCons(mid);
      var r := ParseRedirs(GetToken(mid).1);
      RedirsDerived(GetToken(mid).1);
      assert ParseRedirs(inp).value[1..] == r.value;
    } else {
      ToksSkip(inp);
    }
  }

  lemma {:induction false} ArgsDerived(words: seq<string>, rs: Redirs, inp: string) returns (args: seq<Arg>)
    requires ParseArgs(words, rs, inp).Ok? && |words| < MAXARGS
    ensures |words| + |args| < MAXARGS && (forall i :: 0 <= i < |args| ==> GoodRedirs(args[i].redirs))
    ensures Toks(inp) == ArgToks(args) + Toks(ParseArgs(words, rs, inp).rest)
    ensures ParseArgs(words, rs, inp).value == Wrap(Exec(words + Words(args)), rs + ArgRedirs(args))
    decreases |inp|
  {
    hide GetToken, Skip, Peek, Toks, ParseRedirs, GoodRedirs, ParseArgs, RedirToks;
    PeekFirst(inp);
    ArgsNext(words, rs, inp);
    if Peek(inp, "|)&;") || GetToken(inp).0 == End {
      args := [];
      ToksSkip(inp);
      ToksNone(inp);
      if GetToken(inp).0 == End {
        TokenEnd(inp);
        ToksNone("");
      }
      assert words + [] == words && rs + [] == rs;
    } else {
      ToksCons(inp);
      var w, next := GetToken(inp).0.w, GetToken(inp).1;
      RedirsDerived(next);
      var r := ParseRedirs(next);
      var more := ArgsDerived(words + [w], rs + r.value, r.rest);
      args := [Arg(w, r.value)] + more;
      assert args[1..] == more;
      assert words + [w] + Words(more) == words + Words(args);
      assert rs + r.value + ArgRedirs(more) == rs + ArgRedirs(args);
    }
  }

  lemma {:induction false} AtomDerived(inp: string) returns (a: Atom)
    requires ParseExec(inp).Ok?
    ensures GoodAtom(a) && AtomTree(a) == ParseExec(inp).value
    ensures Toks(inp) == AtomToks(a) + Toks(ParseExec(inp).rest)
    decreases |inp|, 1
  {
    hide GetToken, Skip, Peek, Toks, ParseRedirs, ParseArgs, ParseLine, GoodRedirs, LineToks, LineTree, Redirected,
         GoodLine, RedirToks, ArgToks, GoodAtom, AtomTree, AtomToks;
    if Peek(inp, "(") {
      a := BlockDerived(inp);
    } else {
      RedirsDerived(inp);
      var r := ParseRedirs(inp);
      var args := ArgsDerived([], r.value, r.rest);
      a := PlainFrom(r.value, args);
      assert [] + Words(args) == Words(args);
    }
  }

  lemma PlainFrom(rs: Redirs, args: seq<Arg>) returns (a: Atom)
    requires GoodRedirs(rs) && GoodArgs(args)
    ensures GoodAtom(a) && AtomTree(a) == Wrap(Exec(Words(args)), rs + ArgRedirs(args))
    ensures AtomToks(a) == RedirToks(rs) + ArgToks(args)
  {
    a := Plain(rs, args);
    WrapIs(Exec(Words(args)), rs + ArgRedirs(args));
  }

  lemma {:induction false} BlockDerived(inp: string) returns (a: Atom)
    requires Peek(inp, "(") && ParseBlock(inp).Ok?
    ensures GoodAtom(a) && AtomTree(a) == ParseBlock(inp).value
    ensures Toks(inp) == AtomToks(a) + Toks(ParseBlock(inp).rest)
    decreases |inp|, 0
  {
    hide GetToken, Skip, Peek, Toks, ParseRedirs, ParseLine, GoodRedirs, LineToks, LineTree, Redirected, GoodLine,
         RedirToks;
    PeekFirst(inp);
    ToksCons(inp);
    PeekToken(inp, "(");
    var l := LineDerived(GetToken(inp).1);
    var rest := ParseLine(GetToken(inp).1).rest;
    PeekFirst(rest);
    ToksCons(rest);
    var r := ParseRedirs(GetToken(rest).1);
    RedirsDerived(GetToken(rest).1);
    a := Block(l, r.value);
    WrapIs(LineTree(l), r.value);
  }

  lemma {:induction false} PipesDerived(inp: string) returns (p: Pipes)
    requires ParsePipe(inp).Ok?
    ensures GoodPipes(p) && PipeTree(p) == ParsePipe(inp).value
    ensures Toks(inp) == PipeToks(p) + Toks(ParsePipe(inp).rest)
    decreases |inp|, 2
  {
    hide GetToken, Skip, Peek, Toks, ParseExec, GoodAtom, AtomToks, AtomTree;
    var a := AtomDerived(inp);
    var rest := ParseExec(inp).rest;
    PeekFirst(rest);
    if Peek(rest, "|") {
      ToksCons(rest);
      PeekToken(rest, "|");
      var q := PipesDerived(GetToken(rest).1);
      p := Bar(a, q);
    } else {
      ToksSkip(rest);
      p := Last(a);
    }
  }

  lemma {:induction false} BacksDerived(t: Tree, inp: string) returns (n: nat)
    ensures ParseBacks(t, inp).0 == Backs(t, n) && Toks(inp) == Amps(n) + Toks(ParseBacks(t, inp).1)
    decreases |inp|
  {
    hide GetToken, Skip, Peek, Toks, ParseBacks;
    PeekFirst(inp);
    BacksNext(t, inp);
    if Peek(inp, "&") {
      ToksCons(inp);
      PeekToken(inp, "&");
      var m := BacksDerived(Back(t), GetToken(inp).1);
      n := m + 1;
      BacksInside(t, m);
    } else {
      ToksSkip(inp);
      n := 0;
    }
  }

  lemma {:induction false} LineDerived(inp: string) returns (l: Line)
    requires ParseLine(inp).Ok?
    ensures GoodLine(l) && LineTree(l) == ParseLine(inp).value
    ensures Toks(inp) == LineToks(l) + Toks(ParseLine(inp).rest)
    decreases |inp|, 3
  {
    hide GetToken, Skip, Peek, Toks, ParsePipe, ParseBacks, GoodPipes, PipeToks, PipeTree, Amps, Backs;
    var p := PipesDerived(inp);
    var mid := ParsePipe(inp).rest;
    var n := BacksDerived(PipeTree(p), mid);
    var rest := ParseBacks(PipeTree(p), mid).1;
    PeekFirst(rest);
    if Peek(rest, ";") {
      ToksCons(rest);
      PeekToken(rest, ";");
      var m := LineDerived(GetToken(rest).1);
      l := Line(p, n, Semi(m));
    } else {
      ToksSkip(rest);
      l := Line(p, n, Done);
    }
  }

  // The parser accepts exactly the lines of the grammar, as what they stand for.
  lemma ParsesExactly(s: string, t: Tree)
    ensures ParseCmd(s) == Ok(t, "") <==> Reads(s, t)
  {
    hide Toks, ParseLine, LineToks, LineTree, GoodLine, Skip, GetToken;
    if ParseCmd(s) == Ok(t, "") {
      var l := LineDerived(s);
      ToksNone(ParseLine(s).rest);
      assert LineToks(l) + [] == LineToks(l);
    }
    if Reads(s, t) {
      var l :| GoodLine(l) && LineToks(l) == Toks(s) && LineTree(l) == t;
      assert LineToks(l) + [] == LineToks(l);
      LineAccepted(l, s, []);
      ToksNone(ParseLine(s).rest);
    }
  }
}
