/** The grammar of command lines, and that the parser follows it: it accepts a
    line exactly when the line's tokens are a sentence of the grammar, and then
    what it builds means what the sentence does. */
module ShellGrammar {
  import opened Shell
  import opened ShellPrint

  // ---- tokens ----

  datatype Tok = Sign(c: char) | Shift | Text(w: string)

  function TokOf(s: string, t: Token): Tok {
    match t.kind
    case Symbol(c) => Sign(c)
    case More => Shift
    case _ => Text(Sub(s, t.span))
  }

  /** The tokens of a line, from a position on. */
  function Toks(s: string, i: nat): seq<Tok>
    requires i <= |s|
    decreases |s| - i
  {
    var t := GetToken(s, i);
    if t.kind.End? then [] else [TokOf(s, t)] + Toks(s, t.next)
  }

  // ---- sentences ----

  datatype Redirection = Redirection(mode: Mode, file: string)
  datatype Item = Item(word: string, redirs: seq<Redirection>)

  /** line: pipe &* [; line]    pipe: exec [| pipe]    exec: ( line ) redir*, or redir* (word redir*)* */
  datatype LineTree = Final(p: PipeTree, amps: nat) | Then(p: PipeTree, amps: nat, rest: LineTree)
  datatype PipeTree = Stage(e: ExecTree) | Into(e: ExecTree, rest: PipeTree)
  datatype ExecTree = Group(l: LineTree, redirs: seq<Redirection>) | Command(redirs: seq<Redirection>, items: seq<Item>)

  function OpTok(m: Mode): Tok {
    match m
    case In => Sign('<')
    case Out => Sign('>')
    case Append => Shift
  }

  /** The tokens of redirections, and then rest; so with the others. */
  function RedirToks(rs: seq<Redirection>, rest: seq<Tok>): seq<Tok> {
    if rs == [] then rest else [OpTok(rs[0].mode)] + ([Text(rs[0].file)] + RedirToks(rs[1..], rest))
  }

  function ItemToks(xs: seq<Item>, rest: seq<Tok>): seq<Tok> {
    if xs == [] then rest else [Text(xs[0].word)] + RedirToks(xs[0].redirs, ItemToks(xs[1..], rest))
  }

  function Amps(n: nat, rest: seq<Tok>): seq<Tok> { if n == 0 then rest else [Sign('&')] + Amps(n - 1, rest) }

  function ExecToks(e: ExecTree, rest: seq<Tok>): seq<Tok> {
    match e
    case Group(l, rs) => [Sign('(')] + LineToks(l, [Sign(')')] + RedirToks(rs, rest))
    case Command(rs, xs) => RedirToks(rs, ItemToks(xs, rest))
  }

  function PipeToks(p: PipeTree, rest: seq<Tok>): seq<Tok> {
    match p
    case Stage(e) => ExecToks(e, rest)
    case Into(e, q) => ExecToks(e, [Sign('|')] + PipeToks(q, rest))
  }

  function LineToks(l: LineTree, rest: seq<Tok>): seq<Tok> {
    match l
    case Final(p, n) => PipeToks(p, Amps(n, rest))
    case Then(p, n, m) => PipeToks(p, Amps(n, [Sign(';')] + LineToks(m, rest)))
  }

  /** No command has more words than parseexec takes. */
  predicate Fits(l: LineTree) { FitsPipe(l.p) && (l.Then? ==> Fits(l.rest)) }

  predicate FitsPipe(p: PipeTree) { FitsExec(p.e) && (p.Into? ==> FitsPipe(p.rest)) }

  predicate FitsExec(e: ExecTree) {
    match e
    case Group(l, _) => Fits(l)
    case Command(_, xs) => |xs| < MAXARGS
  }

  // ---- what a sentence means ----

  /** The last redirection is the outermost: it is done first, and the others after it. */
  function Redirecting(t: Ast, rs: seq<Redirection>): Ast {
    if rs == [] then t else var r := rs[|rs| - 1]; Redirected(Redirecting(t, rs[..|rs| - 1]), r.file, r.mode)
  }

  function WordsOf(xs: seq<Item>): seq<string> { if xs == [] then [] else [xs[0].word] + WordsOf(xs[1..]) }

  function RedirsOf(xs: seq<Item>): seq<Redirection> { if xs == [] then [] else xs[0].redirs + RedirsOf(xs[1..]) }

  function Backed(t: Ast, n: nat): Ast { if n == 0 then t else Background(Backed(t, n - 1)) }

  function OfExec(e: ExecTree): Ast {
    match e
    case Group(l, rs) => Redirecting(OfLine(l), rs)
    case Command(rs, xs) => Redirecting(Simple(WordsOf(xs)), rs + RedirsOf(xs))
  }

  function OfPipe(p: PipeTree): Ast {
    match p
    case Stage(e) => OfExec(e)
    case Into(e, q) => Piped(OfExec(e), OfPipe(q))
  }

  function OfLine(l: LineTree): Ast {
    match l
    case Final(p, n) => Backed(OfPipe(p), n)
    case Then(p, n, m) => Sequence(Backed(OfPipe(p), n), OfLine(m))
  }

  // ---- what the scanner sees of the tokens ----

  lemma SkipAgain(s: string, i: nat)
    requires i <= |s|
    ensures Skip(s, Skip(s, i)) == Skip(s, i)
  {
  }

  lemma SkipToks(s: string, i: nat)
    requires i <= |s|
    ensures Toks(s, Skip(s, i)) == Toks(s, i)
  {
    SkipAgain(s, i);
  }

  /** The first token, and the rest. */
  lemma FirstTok(s: string, i: nat)
    requires i <= |s|
    ensures var t := GetToken(s, i);
            if Toks(s, i) == [] then t.kind.End?
            else !t.kind.End? && TokOf(s, t) == Toks(s, i)[0] && Toks(s, t.next) == Toks(s, i)[1..]
  {
  }

  predicate Begins(ts: seq<Tok>, toks: string) {
    ts != [] && match ts[0]
                case Sign(c) => c in toks
                case Shift => '>' in toks
                case Text(_) => false
  }

  /** A peek for symbols looks at the first token. */
  lemma PeekIs(s: string, i: nat, toks: string)
    requires i <= |s| && forall c :: c in toks ==> Sym(c)
    ensures Peek(s, i, toks) <==> Begins(Toks(s, i), toks)
  {
    FirstTok(s, i);
  }

  // ---- redirections ----

  /** What parsed redirections say. */
  function Read(s: string, rs: seq<Redirect>): seq<Redirection> {
    if rs == [] then [] else [Redirection(rs[0].mode, Sub(s, rs[0].file))] + Read(s, rs[1..])
  }

  /** What follows is not a redirection. */
  predicate NoRedir(ts: seq<Tok>) { !Begins(ts, "<>") }

  lemma ReadCons(s: string, r: Redirect, rs: seq<Redirect>)
    ensures Read(s, [r] + rs) == [Redirection(r.mode, Sub(s, r.file))] + Read(s, rs)
  {
    assert ([r] + rs)[1..] == rs;
  }

  lemma OpHere(s: string, i: nat)
    requires i <= |s|
    ensures Peek(s, i, "<>") <==> Toks(s, i) != [] && exists m :: Toks(s, i)[0] == OpTok(m)
    ensures Peek(s, i, "<>") ==> var t := GetToken(s, i); Toks(s, i) == [OpTok(ModeOf(t.kind))] + Toks(s, t.next)
  {
    hide GetToken, Toks, Skip, Peek;
    PeekIs(s, i, "<>");
    FirstTok(s, i);
    if Peek(s, i, "<>") { assert Toks(s, i)[0] == OpTok(ModeOf(GetToken(s, i).kind)); }
  }

  lemma TextHere(s: string, i: nat)
    requires i <= |s|
    ensures var t := GetToken(s, i);
            && (t.kind.Word? <==> Toks(s, i) != [] && Toks(s, i)[0].Text?)
            && (t.kind.Word? ==> Toks(s, i) == [Text(Sub(s, t.span))] + Toks(s, t.next))
  {
    hide GetToken, Toks;
    FirstTok(s, i);
  }

  lemma {:induction false} RedirsParse(s: string, i: nat, qs: seq<Redirection>, rest: seq<Tok>)
    requires i <= |s| && Toks(s, i) == RedirToks(qs, rest) && NoRedir(rest)
    ensures var r := Redirs(s, i); r.Ok? && Read(s, r.value) == qs && Toks(s, r.pos) == rest
    decreases |qs|
  {
    hide GetToken, Toks, Skip, Peek, Read, Begins, ModeOf, OpTok, Sub;
    if qs == [] {
      PeekIs(s, i, "<>");
      SkipToks(s, i);
      ReadNone(s);
    } else {
      OpHere(s, i);
      var t := GetToken(s, i);
      assert Toks(s, i)[0] == OpTok(qs[0].mode);
      assert Toks(s, t.next) == Toks(s, i)[1..];
      TextHere(s, t.next);
      var w := GetToken(s, t.next);
      assert Toks(s, w.next) == Toks(s, t.next)[1..];
      RedirsParse(s, w.next, qs[1..], rest);
      SameOp(ModeOf(t.kind), qs[0].mode);
      ReadCons(s, Redirect(w.span, ModeOf(t.kind)), Redirs(s, w.next).value);
    }
  }

  lemma SameOp(m: Mode, n: Mode)
    requires OpTok(m) == OpTok(n)
    ensures m == n
  {
  }

  lemma {:induction false} RedirsFollow(s: string, i: nat)
    requires i <= |s| && Redirs(s, i).Ok?
    ensures var r := Redirs(s, i); Toks(s, i) == RedirToks(Read(s, r.value), Toks(s, r.pos))
    decreases |s| - i
  {
    hide GetToken, Toks, Skip, Peek, ModeOf, OpTok, Sub, Read;
    if !Peek(s, i, "<>") {
      SkipToks(s, i);
      assert Read(s, []) == [] by { ReadNone(s); }
    } else {
      OpHere(s, i);
      var t := GetToken(s, i);
      TextHere(s, t.next);
      var w := GetToken(s, t.next);
      RedirsFollow(s, w.next);
      ReadCons(s, Redirect(w.span, ModeOf(t.kind)), Redirs(s, w.next).value);
      var qs := Read(s, Redirs(s, i).value);
      assert qs[1..] == Read(s, Redirs(s, w.next).value);
    }
  }

  lemma ReadNone(s: string)
    ensures Read(s, []) == []
  {
  }

  lemma {:induction false} ReadBoth(s: string, rs: seq<Redirect>, qs: seq<Redirect>)
    ensures Read(s, rs + qs) == Read(s, rs) + Read(s, qs)
  {
    if rs == [] {
      assert rs + qs == qs;
    } else {
      assert (rs + qs)[1..] == rs[1..] + qs;
      ReadBoth(s, rs[1..], qs);
    }
  }

  // ---- words ----

  /** What follows a command: nothing, or a symbol that ends it. */
  predicate Ends(ts: seq<Tok>, toks: string) { ts == [] || (ts[0].Sign? && ts[0].c in toks) }

  lemma ItemsNoRedir(xs: seq<Item>, rest: seq<Tok>)
    requires Ends(rest, "|)&;")
    ensures NoRedir(ItemToks(xs, rest))
  {
  }

  lemma LineDone(s: string, i: nat)
    requires i <= |s| && GetToken(s, i).kind.End?
    ensures Toks(s, i) == [] && Toks(s, GetToken(s, i).next) == []
  {
  }

  lemma SubsCons(s: string, x: Span, xs: seq<Span>)
    ensures Subs(s, [x] + xs) == [Sub(s, x)] + Subs(s, xs)
  {
    assert ([x] + xs)[1..] == xs;
  }

  lemma {:induction false} WordsParse(s: string, i: nat, n: nat, xs: seq<Item>, rest: seq<Tok>)
    requires i <= |s| && Toks(s, i) == ItemToks(xs, rest) && Ends(rest, "|)&;") && (xs == [] || n + |xs| < MAXARGS)
    ensures var r := Words(s, i, n); r.Ok? && Toks(s, r.pos) == rest
    ensures var r := Words(s, i, n).value; Subs(s, r.0) == WordsOf(xs) && Read(s, r.1) == RedirsOf(xs)
    decreases |xs|
  {
    hide GetToken, Toks, Skip, Peek, Redirs, Read, Subs, Sub;
    PeekIs(s, i, "|)&;");
    if xs == [] {
      WordsNone(s, i, n, rest);
    } else {
      TextHere(s, i);
      var t := GetToken(s, i);
      var more := ItemToks(xs[1..], rest);
      assert Toks(s, t.next) == Toks(s, i)[1..] == RedirToks(xs[0].redirs, more);
      ItemsNoRedir(xs[1..], rest);
      RedirsParse(s, t.next, xs[0].redirs, more);
      var rs := Redirs(s, t.next);
      WordsParse(s, rs.pos, n + 1, xs[1..], rest);
      var ws := Words(s, rs.pos, n + 1);
      SubsCons(s, t.span, ws.value.0);
      ReadBoth(s, rs.value, ws.value.1);
    }
  }

  lemma WordsNone(s: string, i: nat, n: nat, rest: seq<Tok>)
    requires i <= |s| && Toks(s, i) == rest && Ends(rest, "|)&;")
    ensures var r := Words(s, i, n); r.Ok? && Toks(s, r.pos) == rest && r.value == ([], [])
    ensures Subs(s, []) == [] && Read(s, []) == []
  {
    hide GetToken, Toks, Skip, Peek;
    PeekIs(s, i, "|)&;");
    FirstTok(s, i);
    SkipToks(s, i);
    if GetToken(s, i).kind.End? { LineDone(s, i); }
  }

  lemma {:induction false} WordsFollow(s: string, i: nat, n: nat) returns (xs: seq<Item>)
    requires i <= |s| && Words(s, i, n).Ok?
    ensures var r := Words(s, i, n); Toks(s, i) == ItemToks(xs, Toks(s, r.pos)) && Subs(s, r.value.0) == WordsOf(xs) && Read(s, r.value.1) == RedirsOf(xs)
    ensures xs == [] || n + |xs| < MAXARGS
    decreases |s| - i
  {
    hide GetToken, Toks, Skip, Peek, Redirs, Read, Subs, Sub;
    if Peek(s, i, "|)&;") || GetToken(s, i).kind.End? {
      xs := [];
      WordsEmpty(s, i, n);
    } else {
      TextHere(s, i);
      var t := GetToken(s, i);
      var rs := Redirs(s, t.next);
      RedirsFollow(s, t.next);
      var ws := Words(s, rs.pos, n + 1);
      var ys := WordsFollow(s, rs.pos, n + 1);
      xs := [Item(Sub(s, t.span), Read(s, rs.value))] + ys;
      assert xs[1..] == ys;
      SubsCons(s, t.span, ws.value.0);
      ReadBoth(s, rs.value, ws.value.1);
    }
  }

  lemma WordsEmpty(s: string, i: nat, n: nat)
    requires i <= |s| && (Peek(s, i, "|)&;") || GetToken(s, i).kind.End?)
    ensures var r := Words(s, i, n); r.Ok? && Toks(s, r.pos) == Toks(s, i) && r.value == ([], [])
    ensures Subs(s, []) == [] && Read(s, []) == []
  {
    hide GetToken, Toks, Skip, Peek;
    SkipToks(s, i);
    if GetToken(s, i).kind.End? { LineDone(s, i); }
  }

  // ---- commands ----

  lemma {:induction false} WrapLast(c: Cmd, rs: seq<Redirect>)
    requires rs != []
    ensures Wrap(c, rs) == Redir(Wrap(c, rs[..|rs| - 1]), rs[|rs| - 1])
    decreases |rs|
  {
    if |rs| > 1 {
      WrapLast(Redir(c, rs[0]), rs[1..]);
      assert rs[1..][..|rs| - 2] == rs[..|rs| - 1][1..];
    }
  }

  /** Redirections are applied in the order of the line, each around what came before it. */
  lemma {:induction false} WrapMeans(s: string, c: Cmd, rs: seq<Redirect>)
    ensures Meaning(s, Wrap(c, rs)) == Redirecting(Meaning(s, c), Read(s, rs))
    decreases |rs|
  {
    if rs != [] {
      var k := |rs| - 1;
      WrapLast(c, rs);
      WrapMeans(s, c, rs[..k]);
      ReadBoth(s, rs[..k], rs[k..]);
      assert rs == rs[..k] + rs[k..];
      var qs := Read(s, rs);
      assert Read(s, rs[k..]) == [Redirection(rs[k].mode, Sub(s, rs[k].file))] by { ReadCons(s, rs[k], []); assert rs[k..] == [rs[k]] + []; }
      assert qs[..|qs| - 1] == Read(s, rs[..k]);
    }
  }

  lemma {:induction false} BackedOnce(t: Ast, n: nat)
    ensures Backed(Background(t), n) == Backed(t, n + 1)
  {
    if n > 0 { BackedOnce(t, n - 1); }
  }

  lemma SignHere(s: string, i: nat, c: char)
    requires i <= |s| && Sym(c)
    ensures Peek(s, i, [c]) && c != '>' ==> Toks(s, i) == [Sign(c)] + Toks(s, GetToken(s, i).next) && i < GetToken(s, i).next
    ensures Toks(s, i) != [] && Toks(s, i)[0] == Sign(c) ==> Peek(s, i, [c])
    ensures Toks(s, i) == [] || (Toks(s, i)[0] != Sign(c) && c != '>') ==> !Peek(s, i, [c])
  {
    hide GetToken, Toks, Peek;
    PeekIs(s, i, [c]);
    FirstTok(s, i);
  }

  lemma {:induction false} BacksParse(s: string, i: nat, c: Cmd, n: nat, rest: seq<Tok>)
    requires i <= |s| && Toks(s, i) == Amps(n, rest) && (rest == [] || rest[0] != Sign('&'))
    ensures var r := Backs(s, i, c); Meaning(s, r.0) == Backed(Meaning(s, c), n) && Toks(s, r.1) == rest
    decreases n
  {
    hide GetToken, Toks, Skip, Peek;
    SignHere(s, i, '&');
    if n == 0 {
      SkipToks(s, i);
    } else {
      var j := GetToken(s, i).next;
      assert Toks(s, j) == Toks(s, i)[1..];
      BacksParse(s, j, Back(c), n - 1, rest);
      BackedOnce(Meaning(s, c), n - 1);
    }
  }

  lemma {:induction false} BacksFollow(s: string, i: nat, c: Cmd) returns (n: nat)
    requires i <= |s|
    ensures var r := Backs(s, i, c); Meaning(s, r.0) == Backed(Meaning(s, c), n) && Toks(s, i) == Amps(n, Toks(s, r.1))
    decreases |s| - i
  {
    hide GetToken, Toks, Skip, Peek;
    SignHere(s, i, '&');
    if Peek(s, i, "&") {
      n := BacksFollow(s, GetToken(s, i).next, Back(c));
      BackedOnce(Meaning(s, c), n);
      n := n + 1;
    } else {
      SkipToks(s, i);
      n := 0;
    }
  }

  lemma CommandParse(s: string, i: nat, rs: seq<Redirection>, xs: seq<Item>, rest: seq<Tok>)
    requires i <= |s| && Toks(s, i) == RedirToks(rs, ItemToks(xs, rest)) && Ends(rest, "|)&;") && |xs| < MAXARGS
    ensures var r := ParseExec(s, i); r.Ok? && Meaning(s, r.value) == OfExec(Command(rs, xs)) && Toks(s, r.pos) == rest
  {
    hide GetToken, Toks, Peek, Redirs, Words, Read, Subs, ParseBlock;
    NotGroup(rs, xs, rest);
    SignHere(s, i, '(');
    ItemsNoRedir(xs, rest);
    RedirsParse(s, i, rs, ItemToks(xs, rest));
    var a := Redirs(s, i);
    WordsParse(s, a.pos, 0, xs, rest);
    var b := Words(s, a.pos, 0);
    ReadBoth(s, a.value, b.value.1);
    WrapMeans(s, Exec(b.value.0), a.value + b.value.1);
  }

  lemma NotGroup(rs: seq<Redirection>, xs: seq<Item>, rest: seq<Tok>)
    requires Ends(rest, "|)&;")
    ensures var ts := RedirToks(rs, ItemToks(xs, rest)); ts == [] || ts[0] != Sign('(')
  {
  }

  lemma CommandFollow(s: string, i: nat) returns (e: ExecTree)
    requires i <= |s| && ParseExec(s, i).Ok? && !Peek(s, i, "(")
    ensures var r := ParseExec(s, i); Toks(s, i) == ExecToks(e, Toks(s, r.pos)) && Meaning(s, r.value) == OfExec(e) && FitsExec(e)
  {
    hide GetToken, Toks, Peek, Redirs, Words, Read, Subs, ParseBlock;
    var a := Redirs(s, i);
    RedirsFollow(s, i);
    var xs := WordsFollow(s, a.pos, 0);
    var b := Words(s, a.pos, 0);
    ReadBoth(s, a.value, b.value.1);
    WrapMeans(s, Exec(b.value.0), a.value + b.value.1);
    e := Command(Read(s, a.value), xs);
  }

  // ---- the parser follows the grammar ----

  /** A position where a command has been parsed: what was before it reads as it should. */
  ghost predicate Reads(s: string, r: Result<Cmd>, t: Ast, rest: seq<Tok>) {
    r.Ok? && r.pos <= |s| && Meaning(s, r.value) == t && Toks(s, r.pos) == rest
  }

  lemma GroupParse(s: string, i: nat, t: Ast, rs: seq<Redirection>, rest: seq<Tok>)
    requires i <= |s| && Peek(s, i, "(") && GetToken(s, i).next <= |s|
    requires Reads(s, ParseLine(s, GetToken(s, i).next), t, [Sign(')')] + RedirToks(rs, rest)) && NoRedir(rest)
    ensures Reads(s, ParseExec(s, i), Redirecting(t, rs), rest)
  {
    hide GetToken, Toks, Peek, Redirs, Read, ParseLine, Meaning, NoRedir;
    var c := ParseLine(s, GetToken(s, i).next);
    SignHere(s, c.pos, ')');
    var j := GetToken(s, c.pos).next;
    assert Toks(s, j) == Toks(s, c.pos)[1..];
    RedirsParse(s, j, rs, rest);
    WrapMeans(s, c.value, Redirs(s, j).value);
  }

  lemma {:induction false} ExecParse(s: string, i: nat, e: ExecTree, rest: seq<Tok>)
    requires i <= |s| && Toks(s, i) == ExecToks(e, rest) && FitsExec(e) && Ends(rest, "|)&;")
    ensures Reads(s, ParseExec(s, i), OfExec(e), rest)
    decreases e
  {
    hide GetToken, Toks, Peek, ParseExec, LineToks, Redirecting;
    match e
    case Group(l, rs) =>
      SignHere(s, i, '(');
      var j := GetToken(s, i).next;
      var after := [Sign(')')] + RedirToks(rs, rest);
      assert Toks(s, j) == Toks(s, i)[1..] == LineToks(l, after);
      LineParse(s, j, l, after);
      GroupParse(s, i, OfLine(l), rs, rest);
    case Command(rs, xs) => CommandParse(s, i, rs, xs, rest);
  }

  lemma {:induction false} PipeParse(s: string, i: nat, p: PipeTree, rest: seq<Tok>)
    requires i <= |s| && Toks(s, i) == PipeToks(p, rest) && FitsPipe(p) && Ends(rest, ")&;")
    ensures Reads(s, ParsePipe(s, i), OfPipe(p), rest)
    decreases p
  {
    hide GetToken, Toks, Peek, ParseExec, ExecToks, Skip;
    match p
    case Stage(e) =>
      ExecParse(s, i, e, rest);
      var c := ParseExec(s, i);
      SignHere(s, c.pos, '|');
      SkipToks(s, c.pos);
    case Into(e, q) =>
      var after := [Sign('|')] + PipeToks(q, rest);
      ExecParse(s, i, e, after);
      var c := ParseExec(s, i);
      SignHere(s, c.pos, '|');
      var j := GetToken(s, c.pos).next;
      assert Toks(s, j) == Toks(s, c.pos)[1..] == PipeToks(q, rest);
      PipeParse(s, j, q, rest);
  }

  lemma {:induction false} LineParse(s: string, i: nat, l: LineTree, rest: seq<Tok>)
    requires i <= |s| && Toks(s, i) == LineToks(l, rest) && Fits(l) && Ends(rest, ")")
    ensures Reads(s, ParseLine(s, i), OfLine(l), rest)
    decreases l
  {
    hide Toks, ParseLine, ParsePipe, PipeToks, Amps, Backed, GetToken, Peek;
    var after := if l.Final? then rest else [Sign(';')] + LineToks(l.rest, rest);
    AmpsEnd(l.amps, after);
    PipeParse(s, i, l.p, Amps(l.amps, after));
    if l.Final? {
      LastParse(s, i, OfPipe(l.p), l.amps, rest);
    } else {
      var j := ThenParse(s, i, OfPipe(l.p), l.amps, LineToks(l.rest, rest));
      LineParse(s, j, l.rest, rest);
      ThenReads(s, i, OfPipe(l.p), l.amps, j, OfLine(l.rest), rest);
    }
  }

  /** The & signs after a pipeline. */
  lemma BackedParse(s: string, i: nat, t: Ast, n: nat, after: seq<Tok>)
    requires i <= |s| && Reads(s, ParsePipe(s, i), t, Amps(n, after)) && Ends(after, ");")
    ensures var c := ParsePipe(s, i); var b := Backs(s, c.pos, c.value); Meaning(s, b.0) == Backed(t, n) && Toks(s, b.1) == after
  {
    hide Toks, ParsePipe, Backs, Meaning;
    var c := ParsePipe(s, i);
    BacksParse(s, c.pos, c.value, n, after);
  }

  lemma LastParse(s: string, i: nat, t: Ast, n: nat, rest: seq<Tok>)
    requires i <= |s| && Reads(s, ParsePipe(s, i), t, Amps(n, rest)) && Ends(rest, ")")
    ensures Reads(s, ParseLine(s, i), Backed(t, n), rest)
  {
    hide Toks, ParsePipe, Backs, Meaning, Skip, Peek;
    BackedParse(s, i, t, n, rest);
    var c := ParsePipe(s, i);
    var b := Backs(s, c.pos, c.value);
    SignHere(s, b.1, ';');
    SkipToks(s, b.1);
  }

  /** Where the line after a ; begins. */
  lemma ThenParse(s: string, i: nat, t: Ast, n: nat, more: seq<Tok>) returns (j: nat)
    requires i <= |s| && Reads(s, ParsePipe(s, i), t, Amps(n, [Sign(';')] + more))
    ensures var c := ParsePipe(s, i); var b := Backs(s, c.pos, c.value);
            Meaning(s, b.0) == Backed(t, n) && Peek(s, b.1, ";") && j == GetToken(s, b.1).next && j <= |s| && Toks(s, j) == more
  {
    hide Toks, ParsePipe, Backs, Meaning, Peek, GetToken;
    BackedParse(s, i, t, n, [Sign(';')] + more);
    var c := ParsePipe(s, i);
    var b := Backs(s, c.pos, c.value);
    SignHere(s, b.1, ';');
    j := GetToken(s, b.1).next;
    assert Toks(s, j) == Toks(s, b.1)[1..];
  }

  lemma ThenReads(s: string, i: nat, t: Ast, n: nat, j: nat, u: Ast, rest: seq<Tok>)
    requires i <= |s| && ParsePipe(s, i).Ok? && j <= |s| && Reads(s, ParseLine(s, j), u, rest)
    requires var c := ParsePipe(s, i); var b := Backs(s, c.pos, c.value);
             Meaning(s, b.0) == Backed(t, n) && Peek(s, b.1, ";") && j == GetToken(s, b.1).next
    ensures Reads(s, ParseLine(s, i), Sequence(Backed(t, n), u), rest)
  {
    hide Toks, ParsePipe, Backs, Peek, GetToken, Backed;
  }

  lemma AmpsEnd(n: nat, rest: seq<Tok>)
    requires Ends(rest, ");")
    ensures Ends(Amps(n, rest), ")&;")
  {
  }

  // ---- and accepts nothing else ----

  lemma {:induction false} ExecFollow(s: string, i: nat) returns (e: ExecTree)
    requires i <= |s| && ParseExec(s, i).Ok?
    ensures Toks(s, i) == ExecToks(e, Toks(s, ParseExec(s, i).pos)) && Meaning(s, ParseExec(s, i).value) == OfExec(e) && FitsExec(e)
    decreases |s| - i, 1
  {
    hide GetToken, Toks, Peek, Redirs, Read, ParseLine, Meaning;
    if !Peek(s, i, "(") {
      e := CommandFollow(s, i);
    } else {
      SignHere(s, i, '(');
      var j := GetToken(s, i).next;
      var c := ParseLine(s, j);
      var l := LineFollow(s, j);
      SignHere(s, c.pos, ')');
      var k := GetToken(s, c.pos).next;
      var rs := Redirs(s, k);
      RedirsFollow(s, k);
      WrapMeans(s, c.value, rs.value);
      e := Group(l, Read(s, rs.value));
    }
  }

  lemma {:induction false} PipeFollow(s: string, i: nat) returns (p: PipeTree)
    requires i <= |s| && ParsePipe(s, i).Ok?
    ensures Toks(s, i) == PipeToks(p, Toks(s, ParsePipe(s, i).pos)) && Meaning(s, ParsePipe(s, i).value) == OfPipe(p) && FitsPipe(p)
    decreases |s| - i, 2
  {
    hide GetToken, Toks, Peek, ParseExec, Skip;
    var e := ExecFollow(s, i);
    var c := ParseExec(s, i);
    SignHere(s, c.pos, '|');
    if Peek(s, c.pos, "|") {
      var q := PipeFollow(s, GetToken(s, c.pos).next);
      p := Into(e, q);
    } else {
      SkipToks(s, c.pos);
      p := Stage(e);
    }
  }

  lemma {:induction false} LineFollow(s: string, i: nat) returns (l: LineTree)
    requires i <= |s| && ParseLine(s, i).Ok?
    ensures Toks(s, i) == LineToks(l, Toks(s, ParseLine(s, i).pos)) && Meaning(s, ParseLine(s, i).value) == OfLine(l) && Fits(l)
    decreases |s| - i, 3
  {
    hide GetToken, Toks, Peek, ParsePipe, Skip, Backs;
    var p := PipeFollow(s, i);
    var c := ParsePipe(s, i);
    var n := BacksFollow(s, c.pos, c.value);
    var b := Backs(s, c.pos, c.value);
    SignHere(s, b.1, ';');
    if Peek(s, b.1, ";") {
      var m := LineFollow(s, GetToken(s, b.1).next);
      l := Then(p, n, m);
    } else {
      SkipToks(s, b.1);
      l := Final(p, n);
    }
  }

  /** parsecmd accepts a line whose tokens are those of a sentence, and builds what the sentence means:
      pipelines and lists grow to the right, & takes the pipeline before it, and each redirection goes
      around those before it. */
  lemma AcceptsSentence(s: string, l: LineTree)
    requires Toks(s, 0) == LineToks(l, []) && Fits(l)
    ensures ParseCmd(s).Ok? && Meaning(s, ParseCmd(s).value) == OfLine(l)
  {
    hide GetToken, Toks, ParseLine, LineToks, Skip;
    LineParse(s, 0, l, []);
    NoneLeft(s, ParseLine(s, 0).pos);
  }

  /** A line parsecmd accepts has the tokens of a sentence, and what was built means what it does. */
  lemma AcceptsOnlySentences(s: string) returns (l: LineTree)
    requires ParseCmd(s).Ok?
    ensures Toks(s, 0) == LineToks(l, []) && Fits(l) && Meaning(s, ParseCmd(s).value) == OfLine(l)
  {
    hide GetToken, Toks, ParseLine, LineToks, Skip;
    l := LineFollow(s, 0);
    NoneLeft(s, ParseLine(s, 0).pos);
  }

  lemma NoneLeft(s: string, i: nat)
    requires i <= |s|
    ensures Toks(s, i) == [] <==> Skip(s, i) == |s|
  {
  }

  // ---- sentences written out ----

  function Letters(t: Tok): string {
    match t
    case Sign(c) => [c]
    case Shift => ">>"
    case Text(w) => w
  }

  /** The tokens, each with a blank after it. */
  function Spelled(ts: seq<Tok>): string { if ts == [] then "" else Letters(ts[0]) + (" " + Spelled(ts[1..])) }

  predicate Proper(t: Tok) {
    match t
    case Sign(c) => Sym(c)
    case Shift => true
    case Text(w) => Plain(w)
  }

  lemma LettersHere(s: string, i: nat, t: Tok, e: nat)
    requires Proper(t) && e == i + |Letters(t)| < |s| && s[i..e] == Letters(t) && s[e] == ' '
    ensures var k := GetToken(s, i); !k.kind.End? && TokOf(s, k) == t && k.next == Skip(s, e)
  {
    assert s[i] == s[i..e][0];
    match t
    case Sign(_) =>
    case Shift => assert s[i + 1] == s[i..e][1];
    case Text(w) =>
      PlainRun(s, i, w);
      WordToken(s, i, e);
  }

  lemma {:induction false} SpelledToks(s: string, i: nat, ts: seq<Tok>)
    requires From(s, i, Spelled(ts)) && forall k :: 0 <= k < |ts| ==> Proper(ts[k])
    ensures i <= |s| && Toks(s, i) == ts
    decreases |ts|
  {
    hide Toks, GetToken, Letters, Proper, TokOf;
    if ts == [] {
      NoneLeft(s, i);
    } else {
      var e := i + |Letters(ts[0])|;
      FromApp(s, i, Letters(ts[0]), " " + Spelled(ts[1..]));
      FromApp(s, e, " ", Spelled(ts[1..]));
      assert s[e + 0] == ' ';
      LettersHere(s, i, ts[0], e);
      SpelledToks(s, e + 1, ts[1..]);
      FirstTok(s, i);
      SkipToks(s, e);
      SkipToks(s, e + 1);
      assert Skip(s, e) == Skip(s, e + 1);
      TokSplit(s, i);
    }
  }

  lemma TokSplit(s: string, i: nat)
    requires i <= |s| && !GetToken(s, i).kind.End?
    ensures Toks(s, i) == [TokOf(s, GetToken(s, i))] + Toks(s, GetToken(s, i).next)
  {
  }

  /** parsecmd on a sentence written out gives back what the sentence means. */
  lemma SentenceRoundTrip(l: LineTree)
    requires Fits(l) && forall k :: 0 <= k < |LineToks(l, [])| ==> Proper(LineToks(l, [])[k])
    ensures var s := Spelled(LineToks(l, [])); ParseCmd(s).Ok? && Meaning(s, ParseCmd(s).value) == OfLine(l)
  {
    hide Toks, ParseCmd, LineToks, OfLine, Proper, Spelled;
    var s := Spelled(LineToks(l, []));
    assert s[0..] == s;
    SpelledToks(s, 0, LineToks(l, []));
    AcceptsSentence(s, l);
  }
}
