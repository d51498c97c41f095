/** The shell's parser. The line is the characters before the terminating NUL;
    tokens are spans of it. */
module Shell {
  const MAXARGS := 10

  datatype Span = Span(q: nat, eq: nat)
  datatype Mode = In | Out | Append     // < > >>
  datatype Redirect = Redirect(file: Span, mode: Mode)
  datatype Cmd =
    | Exec(args: seq<Span>)
    | Redir(cmd: Cmd, r: Redirect)
    | Pipe(left: Cmd, right: Cmd)
    | List(left: Cmd, right: Cmd)
    | Back(cmd: Cmd)

  datatype Kind = End | Symbol(c: char) | More | Word
  datatype Token = Token(kind: Kind, span: Span, next: nat)

  /** A panic is an error; which one does not matter to the caller. */
  datatype Result<T> = Ok(value: T, pos: nat) | Err

  predicate Ws(c: char) { c in " \t\r\n\U{0B}" }

  predicate Sym(c: char) { c in "<|>&;()" }

  predicate WordChar(c: char) { !Ws(c) && !Sym(c) }

  // ---- the scanner ----

  function Skip(s: string, i: nat): (j: nat)
    requires i <= |s|
    ensures i <= j <= |s| && (j < |s| ==> !Ws(s[j]))
    decreases |s| - i
  {
    if i < |s| && Ws(s[i]) then Skip(s, i + 1) else i
  }

  function WordEnd(s: string, i: nat): (j: nat)
    requires i <= |s|
    ensures i <= j <= |s| && (j < |s| ==> !WordChar(s[j])) && forall k :: i <= k < j ==> WordChar(s[k])
    decreases |s| - i
  {
    if i < |s| && WordChar(s[i]) then WordEnd(s, i + 1) else i
  }

  function KindAt(s: string, i: nat): Kind
    requires i <= |s|
  {
    if i == |s| then End
    else if s[i] == '>' && i + 1 < |s| && s[i + 1] == '>' then More
    else if Sym(s[i]) then Symbol(s[i])
    else Word
  }

  function TokenEnd(s: string, i: nat): (j: nat)
    requires i <= |s|
    ensures i <= j <= |s|
  {
    match KindAt(s, i)
    case End => i
    case Symbol(_) => i + 1
    case More => i + 2
    case Word => WordEnd(s, i)
  }

  function GetToken(s: string, i: nat): (t: Token)
    requires i <= |s|
    ensures i <= t.span.q <= t.span.eq <= t.next <= |s|
    ensures t.kind.Word? ==> IsWord(s, t.span)
    ensures !t.kind.End? ==> i < t.next
  {
    var q := Skip(s, i);
    var e := TokenEnd(s, q);
    Token(KindAt(s, q), Span(q, e), Skip(s, e))
  }

  /** A maximal run of word characters, as far as it goes to the right. */
  predicate IsWord(s: string, x: Span) {
    && x.q < x.eq <= |s| && (forall k :: x.q <= k < x.eq ==> WordChar(s[k]))
    && (x.eq < |s| ==> !WordChar(s[x.eq]))
  }

  predicate Peek(s: string, i: nat, toks: string)
    requires i <= |s|
  {
    Skip(s, i) < |s| && s[Skip(s, i)] in toks
  }

  // ---- the parser ----

  function ModeOf(k: Kind): Mode { if k == Symbol('<') then In else if k == More then Append else Out }

  function Redirs(s: string, i: nat): (r: Result<seq<Redirect>>)
    requires i <= |s|
    ensures r.Ok? ==> i <= r.pos <= |s|
    decreases |s| - i
  {
    if !Peek(s, i, "<>") then Ok([], Skip(s, i)) else
    var t := GetToken(s, i);
    var w := GetToken(s, t.next);
    if !w.kind.Word? then Err else
    var rest := Redirs(s, w.next);
    if rest.Err? then Err else Ok([Redirect(w.span, ModeOf(t.kind))] + rest.value, rest.pos)
  }

  function Wrap(c: Cmd, rs: seq<Redirect>): Cmd
    decreases |rs|
  {
    if rs == [] then c else Wrap(Redir(c, rs[0]), rs[1..])
  }

  /** The words and redirections of parseexec, n words having been seen. */
  function Words(s: string, i: nat, n: nat): (r: Result<(seq<Span>, seq<Redirect>)>)
    requires i <= |s|
    ensures r.Ok? ==> i <= r.pos <= |s|
    decreases |s| - i
  {
    if Peek(s, i, "|)&;") then Ok(([], []), Skip(s, i)) else
    var t := GetToken(s, i);
    if t.kind.End? then Ok(([], []), t.next)
    else if !t.kind.Word? || n + 1 >= MAXARGS then Err else
    var rs := Redirs(s, t.next);
    if rs.Err? then Err else
    var rest := Words(s, rs.pos, n + 1);
    if rest.Err? then Err else Ok(([t.span] + rest.value.0, rs.value + rest.value.1), rest.pos)
  }

  function ParseExec(s: string, i: nat): (r: Result<Cmd>)
    requires i <= |s|
    ensures r.Ok? ==> i <= r.pos <= |s|
    decreases |s| - i, 1
  {
    if Peek(s, i, "(") then ParseBlock(s, i) else
    var rs := Redirs(s, i);
    if rs.Err? then Err else
    var ws := Words(s, rs.pos, 0);
    if ws.Err? then Err else Ok(Wrap(Exec(ws.value.0), rs.value + ws.value.1), ws.pos)
  }

  function ParseBlock(s: string, i: nat): (r: Result<Cmd>)
    requires i <= |s|
    ensures r.Ok? ==> i <= r.pos <= |s|
    decreases |s| - i, 0
  {
    if !Peek(s, i, "(") then Err else
    var c := ParseLine(s, GetToken(s, i).next);
    if c.Err? || !Peek(s, c.pos, ")") then Err else
    var rs := Redirs(s, GetToken(s, c.pos).next);
    if rs.Err? then Err else Ok(Wrap(c.value, rs.value), rs.pos)
  }

  function ParsePipe(s: string, i: nat): (r: Result<Cmd>)
    requires i <= |s|
    ensures r.Ok? ==> i <= r.pos <= |s|
    decreases |s| - i, 2
  {
    var c := ParseExec(s, i);
    if c.Err? then Err
    else if !Peek(s, c.pos, "|") then Ok(c.value, Skip(s, c.pos)) else
    var d := ParsePipe(s, GetToken(s, c.pos).next);
    if d.Err? then Err else Ok(Pipe(c.value, d.value), d.pos)
  }

  function Backs(s: string, i: nat, c: Cmd): (r: (Cmd, nat))
    requires i <= |s|
    ensures i <= r.1 <= |s|
    decreases |s| - i
  {
    if Peek(s, i, "&") then Backs(s, GetToken(s, i).next, Back(c)) else (c, Skip(s, i))
  }

  function ParseLine(s: string, i: nat): (r: Result<Cmd>)
    requires i <= |s|
    ensures r.Ok? ==> i <= r.pos <= |s|
    decreases |s| - i, 3
  {
    var c := ParsePipe(s, i);
    if c.Err? then Err else
    var b := Backs(s, c.pos, c.value);
    if !Peek(s, b.1, ";") then Ok(b.0, Skip(s, b.1)) else
    var d := ParseLine(s, GetToken(s, b.1).next);
    if d.Err? then Err else Ok(List(b.0, d.value), d.pos)
  }

  /** parsecmd up to its nulterminate */
  function ParseCmd(s: string): Result<Cmd> {
    var c := ParseLine(s, 0);
    if c.Err? || Skip(s, c.pos) != |s| then Err else Ok(c.value, |s|)
  }
}
