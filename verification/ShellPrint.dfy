/** Parsing undoes printing: a fully parenthesised command parses back to itself. */
module ShellPrint {
  import opened Shell

  datatype Ast =
    | Simple(words: seq<string>)
    | Redirected(cmd: Ast, file: string, mode: Mode)
    | Piped(left: Ast, right: Ast)
    | Sequence(left: Ast, right: Ast)
    | Background(cmd: Ast)

  function Join(ws: seq<string>): string {
    if ws == [] then "" else if |ws| == 1 then ws[0] else ws[0] + " " + Join(ws[1..])
  }

  function Op(m: Mode): string {
    match m
    case In => "<"
    case Out => ">"
    case Append => ">>"
  }

  function Print(t: Ast): string {
    match t
    case Simple(ws) => Join(ws)
    case Redirected(c, f, m) => "(" + (Print(c) + (")" + (Op(m) + f)))
    case Piped(l, r) => "(" + (Print(l) + (")|(" + (Print(r) + ")")))
    case Sequence(l, r) => "(" + (Print(l) + (");(" + (Print(r) + ")")))
    case Background(c) => "(" + (Print(c) + ")&")
  }

  predicate Plain(w: string) { |w| > 0 && forall i :: 0 <= i < |w| ==> WordChar(w[i]) }

  /** Plain words, and no more of them in a command than parseexec takes. */
  predicate Printable(t: Ast) {
    match t
    case Simple(ws) => |ws| < MAXARGS && forall i :: 0 <= i < |ws| ==> Plain(ws[i])
    case Redirected(c, f, _) => Printable(c) && Plain(f)
    case Piped(l, r) => Printable(l) && Printable(r)
    case Sequence(l, r) => Printable(l) && Printable(r)
    case Background(c) => Printable(c)
  }

  function Sub(s: string, x: Span): string { if x.q <= x.eq <= |s| then s[x.q..x.eq] else "" }

  function Subs(s: string, xs: seq<Span>): seq<string> {
    if xs == [] then [] else [Sub(s, xs[0])] + Subs(s, xs[1..])
  }

  /** What a parsed command says. */
  function Meaning(s: string, c: Cmd): Ast {
    match c
    case Exec(args) => Simple(Subs(s, args))
    case Redir(d, r) => Redirected(Meaning(s, d), Sub(s, r.file), r.mode)
    case Pipe(l, r) => Piped(Meaning(s, l), Meaning(s, r))
    case List(l, r) => Sequence(Meaning(s, l), Meaning(s, r))
    case Back(d) => Background(Meaning(s, d))
  }

  // ---- where the text stands ----

  predicate From(s: string, i: nat, x: string) { i <= |s| && s[i..] == x }

  lemma FromApp(s: string, i: nat, x: string, y: string)
    requires From(s, i, x + y)
    ensures From(s, i + |x|, y) && i + |x| <= |s| && s[i..i + |x|] == x && forall k :: 0 <= k < |x| ==> s[i + k] == x[k]
  {
    assert s[i..][..|x|] == x && s[i..][|x|..] == y;
    assert forall k :: 0 <= k < |x| ==> s[i..][k] == x[k];
  }

  /** A command ends here: the line does, or its block. */
  predicate Stop(s: string, p: nat) { p == |s| || (p < |s| && s[p] == ')') }

  /** No blank to skip here. */
  predicate Tight(s: string, p: nat) { p <= |s| && (p < |s| ==> !Ws(s[p])) }

  lemma PeekHere(s: string, p: nat, toks: string)
    requires Tight(s, p)
    ensures Skip(s, p) == p && (Peek(s, p, toks) <==> p < |s| && s[p] in toks)
  {
  }

  lemma SymbolHere(s: string, p: nat)
    requires p < |s| && Sym(s[p]) && Tight(s, p + 1) && (p + 1 < |s| && s[p] == '>' ==> s[p + 1] != '>')
    ensures GetToken(s, p) == Token(Symbol(s[p]), Span(p, p + 1), p + 1)
  {
  }

  lemma WordToken(s: string, p: nat, e: nat)
    requires p < e <= |s| && (forall k :: p <= k < e ==> WordChar(s[k])) && (e < |s| ==> !WordChar(s[e]))
    ensures GetToken(s, p) == Token(Word, Span(p, e), Skip(s, e))
  {
    WordEnds(s, p, e);
    assert WordChar(s[p]);
  }

  lemma WordHere(s: string, p: nat, w: string, y: string)
    requires Plain(w) && From(s, p, w + y) && (y != "" ==> !WordChar(y[0]))
    ensures var e := p + |w|; e <= |s| && GetToken(s, p) == Token(Word, Span(p, e), Skip(s, e)) && s[p..e] == w
    ensures From(s, p + |w|, y) && p < |s| && s[p] == w[0] && WordChar(s[p])
  {
    hide GetToken, WordChar, Plain, From;
    FromApp(s, p, w, y);
    PlainRun(s, p, w);
    NextChar(s, p + |w|, y);
    WordToken(s, p, p + |w|);
  }

  lemma PlainRun(s: string, p: nat, w: string)
    requires Plain(w) && p + |w| <= |s| && s[p..p + |w|] == w
    ensures |w| > 0 && s[p] == w[0] && forall k :: p <= k < p + |w| ==> WordChar(s[k])
  {
    forall k | p <= k < p + |w| ensures WordChar(s[k]) { assert s[k] == s[p..p + |w|][k - p]; }
    assert s[p] == s[p..p + |w|][0];
  }

  lemma NextChar(s: string, p: nat, y: string)
    requires From(s, p, y)
    ensures if y == "" then p == |s| else p < |s| && s[p] == y[0]
  {
    assert y != "" ==> s[p] == s[p..][0];
  }

  lemma {:induction false} WordEnds(s: string, p: nat, e: nat)
    requires p <= e <= |s| && (forall k :: p <= k < e ==> WordChar(s[k])) && (e < |s| ==> !WordChar(s[e]))
    ensures WordEnd(s, p) == e
    decreases e - p
  {
    if p < e { WordEnds(s, p + 1, e); }
  }

  // ---- a line made of one exec or block ----

  lemma LineOfExec(s: string, i: nat, c: Cmd, p: nat)
    requires i <= |s| && ParseExec(s, i) == Ok(c, p) && Stop(s, p)
    ensures ParsePipe(s, i) == Ok(c, p) && ParseLine(s, i) == Ok(c, p)
  {
    hide ParseExec;
    PeekHere(s, p, "|");
    PeekHere(s, p, "&");
    PeekHere(s, p, ";");
  }

  lemma ExecOfBlock(s: string, i: nat, c: Cmd, j: nat)
    requires i + 1 <= j < |s| && s[i] == '(' && Tight(s, i + 1) && ParseLine(s, i + 1) == Ok(c, j) && s[j] == ')' && Tight(s, j + 1)
    ensures ParseExec(s, i) == var rs := Redirs(s, j + 1); if rs.Err? then Err else Ok(Wrap(c, rs.value), rs.pos)
  {
    hide ParseLine, Redirs, Wrap;
    PeekHere(s, i, "(");
    SymbolHere(s, i);
    PeekHere(s, j, ")");
    SymbolHere(s, j);
  }

  lemma BareBlock(s: string, i: nat, c: Cmd, j: nat)
    requires i + 1 <= j < |s| && s[i] == '(' && Tight(s, i + 1) && ParseLine(s, i + 1) == Ok(c, j) && s[j] == ')' && Tight(s, j + 1)
    requires j + 1 < |s| ==> s[j + 1] != '<' && s[j + 1] != '>'
    ensures ParseExec(s, i) == Ok(c, j + 1)
  {
    hide ParseLine, ParseExec;
    ExecOfBlock(s, i, c, j);
    PeekHere(s, j + 1, "<>");
  }

  // ---- words ----

  lemma {:induction false} WordsJoin(s: string, i: nat, n: nat, ws: seq<string>, y: string)
    requires From(s, i, Join(ws) + y) && (y == "" || y[0] == ')') && n + |ws| < MAXARGS
    requires forall k :: 0 <= k < |ws| ==> Plain(ws[k])
    ensures i <= |s| && Words(s, i, n).Ok? && Words(s, i, n).pos == i + |Join(ws)|
    ensures Words(s, i, n).value.1 == [] && Subs(s, Words(s, i, n).value.0) == ws
    decreases |ws|
  {
    hide Words, GetToken, Redirs, Subs, WordChar, Skip, Join, From;
    if ws == [] {
      JoinNone(s, i, ws, y);
      StopsHere(s, i, n);
    } else {
      var w := ws[0];
      var next := JoinStep(s, i, ws, y);
      WordsJoin(s, next, n + 1, ws[1..], y);
      WordsOne(s, i, n, i + |w|, next, w);
    }
  }

  lemma JoinNone(s: string, i: nat, ws: seq<string>, y: string)
    requires ws == [] && From(s, i, Join(ws) + y) && (y == "" || y[0] == ')')
    ensures Stop(s, i) && Join(ws) == ""
  {
    assert Join(ws) + y == y;
    assert y != "" ==> s[i] == s[i..][0];
  }

  /** The first word, and where the rest begins. */
  lemma JoinStep(s: string, i: nat, ws: seq<string>, y: string) returns (next: nat)
    requires ws != [] && From(s, i, Join(ws) + y) && (y == "" || y[0] == ')')
    requires forall k :: 0 <= k < |ws| ==> Plain(ws[k])
    ensures var e := i + |ws[0]|;
            && i < e <= next <= |s| && WordChar(s[i]) && s[i..e] == ws[0]
            && GetToken(s, i) == Token(Word, Span(i, e), next) && Redirs(s, next) == Ok([], next)
    ensures From(s, next, Join(ws[1..]) + y) && next + |Join(ws[1..])| == i + |Join(ws)|
  {
    hide GetToken, Redirs, WordChar, Skip;
    var w := ws[0];
    var e := i + |w|;
    if |ws| == 1 {
      assert Join(ws) + y == w + y;
      NotInWord(y);
      WordHere(s, i, w, y);
      next := e;
      assert y != "" ==> s[e] == s[e..][0];
      assert Join(ws[1..]) + y == y;
    } else {
      var tail := Join(ws[1..]) + y;
      assert Join(ws) + y == w + (" " + tail);
      NotInWord(" " + tail);
      WordHere(s, i, w, " " + tail);
      FromApp(s, e, " ", tail);
      JoinStarts(ws[1..]);
      next := e + 1;
      assert s[e + 0] == ' ' && s[next] == s[next..][0];
    }
    NextWord(s, e, next);
  }

  lemma NotInWord(y: string)
    requires y == "" || y[0] == ')' || y[0] == ' '
    ensures y != "" ==> !WordChar(y[0])
  {
  }

  lemma JoinStarts(ws: seq<string>)
    requires ws != [] && Plain(ws[0])
    ensures |Join(ws)| > 0 && WordChar(Join(ws)[0])
  {
  }

  lemma StopsHere(s: string, i: nat, n: nat)
    requires Stop(s, i)
    ensures Words(s, i, n) == Ok(([], []), i) && Subs(s, []) == []
  {
    PeekHere(s, i, "|)&;");
  }

  /** After a word, at most one blank, then another word or the end of the command. */
  lemma NextWord(s: string, e: nat, next: nat)
    requires e <= next <= |s| && ((next == e && Stop(s, e)) || (next == e + 1 && s[e] == ' ' && next < |s| && WordChar(s[next])))
    ensures Skip(s, e) == next && Redirs(s, next) == Ok([], next)
  {
    PeekHere(s, next, "<>");
    if next == e + 1 { assert Skip(s, e) == Skip(s, e + 1); }
  }

  lemma WordsOne(s: string, i: nat, n: nat, e: nat, next: nat, w: string)
    requires i < e <= next <= |s| && n + 1 < MAXARGS && WordChar(s[i]) && s[i..e] == w
    requires GetToken(s, i) == Token(Word, Span(i, e), next) && Redirs(s, next) == Ok([], next)
    requires Words(s, next, n + 1).Ok? && Words(s, next, n + 1).value.1 == []
    ensures var v := Words(s, next, n + 1);
            Words(s, i, n).Ok? && Words(s, i, n).pos == v.pos && Words(s, i, n).value.1 == []
            && Subs(s, Words(s, i, n).value.0) == [w] + Subs(s, v.value.0)
  {
    hide GetToken, Redirs;
    PeekHere(s, i, "|)&;");
    var v := Words(s, next, n + 1);
    var args := [Span(i, e)] + v.value.0;
    assert Words(s, i, n).value.0 == args;
    assert args[1..] == v.value.0;
  }

  // ---- the round trip ----

  /** The line at i begins with t, and t parses back to itself there. */
  ghost predicate Parses(s: string, i: nat, t: Ast) {
    && i <= |s| && ParseLine(s, i).Ok? && ParseLine(s, i).pos == i + |Print(t)|
    && Meaning(s, ParseLine(s, i).value) == t
  }

  lemma PrintTight(t: Ast, y: string)
    requires Printable(t) && (y == "" || !Ws(y[0]))
    ensures Print(t) + y == "" || !Ws((Print(t) + y)[0])
  {
    if t.Simple? && t.words != [] { JoinStarts(t.words); }
  }

  /** A block: '(' t ')' and then y. */
  lemma BlockText(s: string, i: nat, t: Ast, y: string)
    requires From(s, i, "(" + (Print(t) + (")" + y))) && Printable(t) && (y == "" || !Ws(y[0]))
    ensures var j := i + 1 + |Print(t)|;
            && j < |s| && s[i] == '(' && Tight(s, i + 1) && s[j] == ')' && Tight(s, j + 1) && From(s, j + 1, y)
            && From(s, i + 1, Print(t) + (")" + y))
  {
    hide Print, Printable, Ws;
    FromApp(s, i, "(", Print(t) + (")" + y));
    FromApp(s, i + 1, Print(t), ")" + y);
    FromApp(s, i + 1 + |Print(t)|, ")", y);
    assert !Ws((")" + y)[0]) by { NotBlank(); }
    PrintTight(t, ")" + y);
    NextChar(s, i, "(" + (Print(t) + (")" + y)));
    NextChar(s, i + 1, Print(t) + (")" + y));
    NextChar(s, i + 1 + |Print(t)|, ")" + y);
    NextChar(s, i + 2 + |Print(t)|, y);
  }

  lemma NotBlank()
    ensures !Ws(')') && !Ws('(') && !Ws('|') && !Ws(';') && !Ws('&') && !Ws('<') && !Ws('>')
  {
  }

  /** A block with nothing to redirect, given that its inside parses. */
  lemma PlainBlock(s: string, i: nat, t: Ast, y: string)
    requires From(s, i, "(" + (Print(t) + (")" + y))) && Printable(t) && Parses(s, i + 1, t)
    requires y == "" || y[0] == ')' || y[0] == '|' || y[0] == ';' || y[0] == '&'
    ensures var j := i + 1 + |Print(t)|;
            i <= |s| && From(s, j + 1, y) && ParseExec(s, i) == Ok(ParseLine(s, i + 1).value, j + 1)
  {
    hide Print, Printable, ParseExec, ParseLine, Meaning;
    NotBlank();
    BlockText(s, i, t, y);
    NextChar(s, i + 2 + |Print(t)|, y);
    BareBlock(s, i, ParseLine(s, i + 1).value, i + 1 + |Print(t)|);
  }

  lemma {:induction false} RoundTripAt(s: string, i: nat, t: Ast, y: string)
    requires From(s, i, Print(t) + y) && Printable(t) && (y == "" || y[0] == ')')
    ensures Parses(s, i, t)
    decreases t
  {
    hide Print, Parses, From;
    match t
    case Simple(ws) =>
      PrintSimple(ws);
      SimpleAt(s, i, ws, y);
    case Redirected(c, f, m) =>
      PrintRedirected(c, f, m, y);
      BlockText(s, i, c, Op(m) + (f + y));
      RoundTripAt(s, i + 1, c, ")" + (Op(m) + (f + y)));
      RedirectedAt(s, i, c, f, m, y);
    case Piped(l, r) =>
      PrintTwo(l, "|", r, y);
      PairText(s, i, l, "|", r, y);
      RoundTripAt(s, i + 1, l, ")" + ("|" + ("(" + (Print(r) + (")" + y)))));
      RoundTripAt(s, i + |Print(l)| + 4, r, ")" + y);
      PipedAt(s, i, l, r, y);
    case Sequence(l, r) =>
      PrintTwo(l, ";", r, y);
      PairText(s, i, l, ";", r, y);
      RoundTripAt(s, i + 1, l, ")" + (";" + ("(" + (Print(r) + (")" + y)))));
      RoundTripAt(s, i + |Print(l)| + 4, r, ")" + y);
      SequenceAt(s, i, l, r, y);
    case Background(c) =>
      PrintBackground(c, y);
      BlockText(s, i, c, "&" + y);
      RoundTripAt(s, i + 1, c, ")" + ("&" + y));
      BackgroundAt(s, i, c, y);
  }

  lemma PrintSimple(ws: seq<string>)
    ensures Print(Simple(ws)) == Join(ws)
  {
  }

  lemma PrintRedirected(c: Ast, f: string, m: Mode, y: string)
    requires y == "" || y[0] == ')'
    ensures Print(Redirected(c, f, m)) + y == "(" + (Print(c) + (")" + (Op(m) + (f + y))))
    ensures |Print(Redirected(c, f, m))| == |Print(c)| + 2 + |Op(m)| + |f|
    ensures !Ws((Op(m) + (f + y))[0])
  {
  }

  lemma PrintBackground(c: Ast, y: string)
    ensures Print(Background(c)) + y == "(" + (Print(c) + (")" + ("&" + y)))
    ensures |Print(Background(c))| == |Print(c)| + 3 && !Ws('&')
  {
  }

  function Two(l: Ast, op: string, r: Ast, y: string): string { "(" + (Print(l) + (")" + (op + ("(" + (Print(r) + (")" + y)))))) }

  lemma PrintTwo(l: Ast, op: string, r: Ast, y: string)
    requires op == "|" || op == ";"
    ensures (if op == "|" then Print(Piped(l, r)) else Print(Sequence(l, r))) + y == Two(l, op, r, y)
    ensures |Print(Piped(l, r))| == |Print(Sequence(l, r))| == |Print(l)| + |Print(r)| + 5
  {
    hide Two, Print;
    PairIs(l, r);
    TwoIs(Print(l), op, Print(r), y);
    TwoUnfold(l, op, r, y);
  }

  lemma PairIs(l: Ast, r: Ast)
    ensures Print(Piped(l, r)) == "(" + (Print(l) + ((")" + "|" + "(") + (Print(r) + ")")))
    ensures Print(Sequence(l, r)) == "(" + (Print(l) + ((")" + ";" + "(") + (Print(r) + ")")))
  {
    assert ")|(" == ")" + "|" + "(";
    assert ");(" == ")" + ";" + "(";
  }

  lemma TwoUnfold(l: Ast, op: string, r: Ast, y: string)
    ensures Two(l, op, r, y) == "(" + (Print(l) + (")" + (op + ("(" + (Print(r) + (")" + y))))))
  {
  }

  lemma TwoIs(a: string, op: string, b: string, y: string)
    requires |op| == 1
    ensures ("(" + (a + ((")" + op + "(") + (b + ")")))) + y == "(" + (a + (")" + (op + ("(" + (b + (")" + y))))))
  {
  }

  /** Where the two blocks of a pipeline or list stand. */
  lemma PairText(s: string, i: nat, l: Ast, op: string, r: Ast, y: string)
    requires (op == "|" || op == ";") && From(s, i, Two(l, op, r, y)) && Printable(l) && Printable(r) && (y == "" || y[0] == ')')
    ensures var rest := "(" + (Print(r) + (")" + y)); var j := i + 2 + |Print(l)|; var k := j + 3 + |Print(r)|;
            && From(s, i, "(" + (Print(l) + (")" + (op + rest)))) && From(s, i + 1, Print(l) + (")" + (op + rest)))
            && j + 1 < |s| && s[j] == op[0] && Tight(s, j + 1) && From(s, j + 1, rest)
            && From(s, j + 2, Print(r) + (")" + y)) && k <= |s| && From(s, k, y) && Stop(s, k)
  {
    hide Print, Printable, From, Ws;
    NotBlank();
    var rest := "(" + (Print(r) + (")" + y));
    BlockText(s, i, l, op + rest);
    var j := i + 2 + |Print(l)|;
    FromApp(s, j, op, rest);
    NextChar(s, j, op + rest);
    BlockText(s, j + 1, r, y);
    NextChar(s, j + 3 + |Print(r)|, y);
  }

  lemma SimpleAt(s: string, i: nat, ws: seq<string>, y: string)
    requires From(s, i, Join(ws) + y) && Printable(Simple(ws)) && (y == "" || y[0] == ')')
    ensures Parses(s, i, Simple(ws))
  {
    WordsJoin(s, i, 0, ws, y);
    ExecOfWords(s, i, ws, y);
    FromApp(s, i, Join(ws), y);
    NextChar(s, i + |Join(ws)|, y);
    LineOfExec(s, i, Exec(Words(s, i, 0).value.0), i + |Join(ws)|);
  }

  lemma ExecOfWords(s: string, i: nat, ws: seq<string>, y: string)
    requires From(s, i, Join(ws) + y) && Printable(Simple(ws)) && (y == "" || y[0] == ')')
    requires Words(s, i, 0).Ok? && Words(s, i, 0).value.1 == []
    ensures i <= |s| && ParseExec(s, i) == Ok(Exec(Words(s, i, 0).value.0), Words(s, i, 0).pos)
  {
    hide Words;
    if ws != [] { JoinStarts(ws); }
    NextChar(s, i, Join(ws) + y);
    PeekHere(s, i, "(");
    PeekHere(s, i, "<>");
    assert Redirs(s, i) == Ok([], i);
    var none: seq<Redirect> := [];
    assert none + Words(s, i, 0).value.1 == [];
  }

  lemma BackgroundAt(s: string, i: nat, c: Ast, y: string)
    requires From(s, i, "(" + (Print(c) + (")" + ("&" + y)))) && Printable(c) && (y == "" || y[0] == ')') && Parses(s, i + 1, c)
    ensures Parses(s, i, Background(c))
  {
    hide Print, Printable, From, ParseLine, ParseExec;
    PrintBackground(c, y);
    PlainBlock(s, i, c, "&" + y);
    var j := i + 2 + |Print(c)|;
    FromApp(s, j, "&", y);
    NextChar(s, j, "&" + y);
    NextChar(s, j + 1, y);
    LineOfBack(s, i, ParseLine(s, i + 1).value, j);
  }

  lemma LineOfBack(s: string, i: nat, c: Cmd, j: nat)
    requires i <= |s| && ParseExec(s, i) == Ok(c, j) && j < |s| && s[j] == '&' && Stop(s, j + 1)
    ensures ParseLine(s, i) == Ok(Back(c), j + 1)
  {
    hide ParseExec;
    PeekHere(s, j, "|");
    PeekHere(s, j, "&");
    SymbolHere(s, j);
    PeekHere(s, j + 1, "&");
    PeekHere(s, j + 1, ";");
    assert Backs(s, j, c) == (Back(c), j + 1);
  }

  lemma PipedAt(s: string, i: nat, l: Ast, r: Ast, y: string)
    requires From(s, i, Two(l, "|", r, y)) && Printable(l) && Printable(r) && (y == "" || y[0] == ')')
    requires Parses(s, i + 1, l) && Parses(s, i + |Print(l)| + 4, r)
    ensures Parses(s, i, Piped(l, r))
  {
    hide Print, Printable, From, ParseLine, ParseExec, Two;
    PrintTwo(l, "|", r, y);
    PairText(s, i, l, "|", r, y);
    var rest := "(" + (Print(r) + (")" + y));
    PlainBlock(s, i, l, "|" + rest);
    var j := i + 2 + |Print(l)|;
    PlainBlock(s, j + 1, r, y);
    LineOfPipe(s, i, ParseLine(s, i + 1).value, j, ParseLine(s, j + 2).value, j + 3 + |Print(r)|);
  }

  lemma LineOfPipe(s: string, i: nat, c: Cmd, j: nat, d: Cmd, k: nat)
    requires i <= |s| && ParseExec(s, i) == Ok(c, j) && j + 1 < |s| && s[j] == '|' && Tight(s, j + 1)
    requires ParseExec(s, j + 1) == Ok(d, k) && Stop(s, k)
    ensures ParseLine(s, i) == Ok(Pipe(c, d), k)
  {
    hide ParseExec;
    LineOfExec(s, j + 1, d, k);
    PeekHere(s, j, "|");
    SymbolHere(s, j);
    PeekHere(s, k, "&");
    PeekHere(s, k, ";");
    assert ParsePipe(s, i) == Ok(Pipe(c, d), k);
  }

  lemma SequenceAt(s: string, i: nat, l: Ast, r: Ast, y: string)
    requires From(s, i, Two(l, ";", r, y)) && Printable(l) && Printable(r) && (y == "" || y[0] == ')')
    requires Parses(s, i + 1, l) && Parses(s, i + |Print(l)| + 4, r)
    ensures Parses(s, i, Sequence(l, r))
  {
    hide Print, Printable, From, ParseLine, ParseExec, Two;
    PrintTwo(l, ";", r, y);
    PairText(s, i, l, ";", r, y);
    var rest := "(" + (Print(r) + (")" + y));
    PlainBlock(s, i, l, ";" + rest);
    var j := i + 2 + |Print(l)|;
    PlainBlock(s, j + 1, r, y);
    LineOfList(s, i, ParseLine(s, i + 1).value, j, ParseLine(s, j + 2).value, j + 3 + |Print(r)|);
  }

  lemma LineOfList(s: string, i: nat, c: Cmd, j: nat, d: Cmd, k: nat)
    requires i <= |s| && ParseExec(s, i) == Ok(c, j) && j + 1 < |s| && s[j] == ';' && Tight(s, j + 1)
    requires ParseExec(s, j + 1) == Ok(d, k) && Stop(s, k)
    ensures ParseLine(s, i) == Ok(List(c, d), k)
  {
    hide ParseExec;
    LineOfExec(s, j + 1, d, k);
    PeekHere(s, j, "|");
    PeekHere(s, j, "&");
    PeekHere(s, j, ";");
    SymbolHere(s, j);
    assert ParsePipe(s, i) == Ok(c, j);
    assert Backs(s, j, c) == (c, j);
  }

  lemma RedirectedAt(s: string, i: nat, c: Ast, f: string, m: Mode, y: string)
    requires From(s, i, "(" + (Print(c) + (")" + (Op(m) + (f + y))))) && Printable(c) && Plain(f) && (y == "" || y[0] == ')')
    requires Parses(s, i + 1, c)
    ensures Parses(s, i, Redirected(c, f, m))
  {
    hide Print, Printable, From, ParseLine, ParseExec, Redirs, Plain, Op;
    PrintRedirected(c, f, m, y);
    BlockText(s, i, c, Op(m) + (f + y));
    var j := i + 1 + |Print(c)|;
    var d := ParseLine(s, i + 1).value;
    ExecOfBlock(s, i, d, j);
    OneRedirection(s, j + 1, f, m, y);
    var rs := Redirs(s, j + 1);
    assert Wrap(d, rs.value) == Redir(d, rs.value[0]);
    LineOfExec(s, i, Redir(d, rs.value[0]), rs.pos);
  }

  lemma OneRedirection(s: string, p: nat, f: string, m: Mode, y: string)
    requires From(s, p, Op(m) + (f + y)) && Plain(f) && (y == "" || y[0] == ')')
    ensures var q := p + |Op(m)|; var e := q + |f|;
            Redirs(s, p) == Ok([Redirect(Span(q, e), m)], e) && e <= |s| && s[q..e] == f && Stop(s, e)
  {
    hide Redirs, GetToken, From, Plain, WordChar;
    var q := p + |Op(m)|;
    var e := q + |f|;
    FromApp(s, p, Op(m), f + y);
    NotInWord(y);
    WordHere(s, q, f, y);
    NextChar(s, e, y);
    PeekHere(s, e, "<>");
    OpToken(s, p, m);
    RedirectOne(s, p, m, q, e);
  }

  lemma RedirectOne(s: string, p: nat, m: Mode, q: nat, e: nat)
    requires p < q < e <= |s| && Stop(s, e) && s[p] in "<>" && Tight(s, p)
    requires ModeOf(GetToken(s, p).kind) == m && GetToken(s, p).next == q && GetToken(s, q) == Token(Word, Span(q, e), e)
    ensures Redirs(s, p) == Ok([Redirect(Span(q, e), m)], e)
  {
    hide GetToken;
    PeekHere(s, p, "<>");
    PeekHere(s, e, "<>");
    assert Redirs(s, e) == Ok([], e);
    var one, none: seq<Redirect> := [Redirect(Span(q, e), m)], [];
    assert one + none == one;
  }

  lemma OpToken(s: string, p: nat, m: Mode)
    requires p + |Op(m)| < |s| && s[p..p + |Op(m)|] == Op(m) && WordChar(s[p + |Op(m)|])
    ensures var t := GetToken(s, p); !t.kind.Word? && ModeOf(t.kind) == m && t.next == p + |Op(m)| && s[p] in "<>" && Tight(s, p)
  {
    assert s[p] == s[p..p + |Op(m)|][0];
    if m == Append { assert s[p + 1] == s[p..p + 2][1]; }
  }

  /** parsecmd on the fully parenthesised print of a command gives that command. */
  lemma RoundTrip(t: Ast)
    requires Printable(t)
    ensures ParseCmd(Print(t)).Ok? && Meaning(Print(t), ParseCmd(Print(t)).value) == t
  {
    hide Print, ParseLine, Meaning;
    var s := Print(t);
    assert s[0..] == s + "";
    RoundTripAt(s, 0, t, "");
  }
}
