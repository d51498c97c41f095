/** The parser as it runs: a cursor advancing over the line. Each routine takes
    the cursor and returns where it leaves it. */
module ShellCode {
  import opened Shell

  lemma SkipTwice(s: string, i: nat)
    requires i <= |s|
    ensures Skip(s, Skip(s, i)) == Skip(s, i) && GetToken(s, Skip(s, i)) == GetToken(s, i)
  {
  }

  method SkipSpace(s: string, i: nat) returns (j: nat)
    requires i <= |s|
    ensures j == Skip(s, i)
  {
    j := i;
    while j < |s| && Ws(s[j])
      invariant i <= j <= |s| && Skip(s, j) == Skip(s, i)
    {
      j := j + 1;
    }
  }

  method Gettoken(s: string, i: nat) returns (t: Token)
    requires i <= |s|
    ensures t == GetToken(s, i)
  {
    var q := SkipSpace(s, i);
    var e := q;
    var kind := End;
    if q < |s| {
      if s[q] == '>' {
        e := e + 1;
        kind := Symbol('>');
        if e < |s| && s[e] == '>' {
          kind := More;
          e := e + 1;
        }
      } else if Sym(s[q]) {
        kind := Symbol(s[q]);
        e := e + 1;
      } else {
        kind := Word;
        while e < |s| && !Ws(s[e]) && !Sym(s[e])
          invariant q <= e <= |s| && WordEnd(s, e) == WordEnd(s, q)
        {
          e := e + 1;
        }
      }
    }
    var n := SkipSpace(s, e);
    t := Token(kind, Span(q, e), n);
  }

  method PeekAt(s: string, i: nat, toks: string) returns (b: bool, j: nat)
    requires i <= |s|
    ensures b == Peek(s, i, toks) && j == Skip(s, i)
    ensures GetToken(s, j) == GetToken(s, i) && Skip(s, j) == j
  {
    j := SkipSpace(s, i);
    SkipTwice(s, i);
    b := j < |s| && s[j] in toks;
  }

  /** Redirections around a command, outermost last: what is already there, then those at i. */
  function Joined(rs: seq<Redirect>, r: Result<seq<Redirect>>): Result<seq<Redirect>> {
    if r.Err? then Err else Ok(rs + r.value, r.pos)
  }

  /** parseredirs, the nest of redircmd nodes given by its redirections */
  method ParseRedirs(rs0: seq<Redirect>, s: string, i: nat) returns (r: Result<seq<Redirect>>)
    requires i <= |s|
    ensures r == Joined(rs0, Redirs(s, i))
  {
    var rs, ps := rs0, i;
    while true
      invariant i <= ps <= |s| && Joined(rs, Redirs(s, ps)) == Joined(rs0, Redirs(s, i))
      decreases |s| - ps
    {
      var b, j := PeekAt(s, ps, "<>");
      if !b {
        assert rs + [] == rs;
        return Ok(rs, j);
      }
      var tok := Gettoken(s, j);
      var w := Gettoken(s, tok.next);
      if w.kind != Word { return Err; }
      ghost var rest := Redirs(s, w.next);
      assert rest.Ok? ==> rs + ([Redirect(w.span, ModeOf(tok.kind))] + rest.value) == (rs + [Redirect(w.span, ModeOf(tok.kind))]) + rest.value;
      rs := rs + [Redirect(w.span, ModeOf(tok.kind))];
      ps := w.next;
    }
  }

  ghost function Rest(args: seq<Span>, rs: seq<Redirect>, r: Result<(seq<Span>, seq<Redirect>)>): Result<Cmd> {
    if r.Err? then Err else Ok(Wrap(Exec(args + r.value.0), rs + r.value.1), r.pos)
  }

  lemma WordsStop(args: seq<Span>, rs: seq<Redirect>, s: string, i: nat, n: nat)
    requires i <= |s| && (Peek(s, i, "|)&;") || GetToken(s, i).kind.End?)
    ensures Rest(args, rs, Words(s, i, n)) == Ok(Wrap(Exec(args), rs), if Peek(s, i, "|)&;") then Skip(s, i) else GetToken(s, i).next)
  {
    assert args + [] == args && rs + [] == rs;
  }

  lemma WordsMore(args: seq<Span>, rs: seq<Redirect>, s: string, i: nat, n: nat)
    requires i <= |s| && !Peek(s, i, "|)&;") && GetToken(s, i).kind.Word? && n + 1 < MAXARGS
    ensures var t := GetToken(s, i); var q := Redirs(s, t.next);
            Rest(args, rs, Words(s, i, n)) == if q.Err? then Err else Rest(args + [t.span], rs + q.value, Words(s, q.pos, n + 1))
  {
    var t := GetToken(s, i);
    var q := Redirs(s, t.next);
    if q.Ok? {
      var v := Words(s, q.pos, n + 1);
      if v.Ok? {
        assert args + ([t.span] + v.value.0) == (args + [t.span]) + v.value.0;
        assert rs + (q.value + v.value.1) == (rs + q.value) + v.value.1;
      }
    }
  }

  lemma ExecStart(s: string, i: nat)
    requires i <= |s| && !Peek(s, i, "(")
    ensures var q := Redirs(s, i);
            ParseExec(s, i) == if q.Err? then Err else Rest([], q.value, Words(s, q.pos, 0))
  {
    var q := Redirs(s, i);
    if q.Ok? {
      var v := Words(s, q.pos, 0);
      if v.Ok? { assert [] + v.value.0 == v.value.0; }
    }
  }

  /** parseexec */
  method ParseExecAt(s: string, i: nat) returns (r: Result<Cmd>)
    requires i <= |s|
    ensures r == ParseExec(s, i)
    decreases |s| - i, 1
  {
    hide Rest, Wrap, Redirs, GetToken, Skip;
    var b, ps := PeekAt(s, i, "(");
    if b {
      r := ParseBlockAt(s, i);
      return;
    }
    ExecStart(s, i);
    r := ParseWords(s, i);
  }

  method ParseWords(s: string, i: nat) returns (r: Result<Cmd>)
    requires i <= |s| && !Peek(s, i, "(")
    ensures var q := Redirs(s, i); r == if q.Err? then Err else Rest([], q.value, Words(s, q.pos, 0))
  {
    hide Rest, Wrap, Redirs, GetToken, Skip, Peek, Words;
    var args, argc := [], 0;
    var q := ParseRedirs([], s, i);
    if q.Err? { return Err; }
    var rs, ps := q.value, q.pos;
    assert rs == Redirs(s, i).value;
    ghost var goal := Rest([], rs, Words(s, ps, 0));
    while true
      invariant i <= ps <= |s| && argc == |args| < MAXARGS
      invariant Rest(args, rs, Words(s, ps, argc)) == goal
      decreases |s| - ps
    {
      var stop, j := PeekAt(s, ps, "|)&;");
      if stop {
        WordsStop(args, rs, s, ps, argc);
        return Ok(Wrap(Exec(args), rs), j);
      }
      var t := Gettoken(s, j);
      if t.kind == End {
        WordsStop(args, rs, s, ps, argc);
        return Ok(Wrap(Exec(args), rs), t.next);
      }
      if t.kind != Word {
        WordsFail(args, rs, s, ps, argc);
        return Err;
      }
      if argc + 1 < MAXARGS { WordsMore(args, rs, s, ps, argc); } else { WordsFail(args, rs, s, ps, argc); }
      args := args + [t.span];
      argc := argc + 1;
      if argc >= MAXARGS { return Err; }
      q := ParseRedirs(rs, s, t.next);
      if q.Err? { return Err; }
      rs, ps := q.value, q.pos;
    }
  }

  lemma WordsFail(args: seq<Span>, rs: seq<Redirect>, s: string, i: nat, n: nat)
    requires i <= |s| && !Peek(s, i, "|)&;") && !GetToken(s, i).kind.End? && (!GetToken(s, i).kind.Word? || n + 1 >= MAXARGS)
    ensures Rest(args, rs, Words(s, i, n)) == Err
  {
  }

  /** parseblock */
  method ParseBlockAt(s: string, i: nat) returns (r: Result<Cmd>)
    requires i <= |s|
    ensures r == ParseBlock(s, i)
    decreases |s| - i, 0
  {
    var b, j := PeekAt(s, i, "(");
    if !b { return Err; }
    var t := Gettoken(s, j);
    var c := ParseLineAt(s, t.next);
    if c.Err? { return Err; }
    b, j := PeekAt(s, c.pos, ")");
    if !b { return Err; }
    t := Gettoken(s, j);
    var q := ParseRedirs([], s, t.next);
    if q.Err? { return Err; }
    assert [] + Redirs(s, t.next).value == Redirs(s, t.next).value;
    return Ok(Wrap(c.value, q.value), q.pos);
  }

  /** parsepipe */
  method ParsePipeAt(s: string, i: nat) returns (r: Result<Cmd>)
    requires i <= |s|
    ensures r == ParsePipe(s, i)
    decreases |s| - i, 2
  {
    var c := ParseExecAt(s, i);
    if c.Err? { return Err; }
    var b, j := PeekAt(s, c.pos, "|");
    if b {
      var t := Gettoken(s, j);
      var d := ParsePipeAt(s, t.next);
      if d.Err? { return Err; }
      return Ok(Pipe(c.value, d.value), d.pos);
    }
    return Ok(c.value, j);
  }

  /** parseline */
  method ParseLineAt(s: string, i: nat) returns (r: Result<Cmd>)
    requires i <= |s|
    ensures r == ParseLine(s, i)
    decreases |s| - i, 3
  {
    var c := ParsePipeAt(s, i);
    if c.Err? { return Err; }
    var cmd, ps := c.value, c.pos;
    while true
      invariant i <= ps <= |s| && Backs(s, ps, cmd) == Backs(s, c.pos, c.value)
      decreases |s| - ps
    {
      var b, j := PeekAt(s, ps, "&");
      if !b {
        ps := j;
        break;
      }
      var t := Gettoken(s, j);
      ps := t.next;
      cmd := Back(cmd);
    }
    assert (cmd, ps) == Backs(s, c.pos, c.value);
    var b, j := PeekAt(s, ps, ";");
    if b {
      var t := Gettoken(s, j);
      var d := ParseLineAt(s, t.next);
      if d.Err? { return Err; }
      return Ok(List(cmd, d.value), d.pos);
    }
    return Ok(cmd, j);
  }
}
