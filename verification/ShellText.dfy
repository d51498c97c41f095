/** The tokens of a parsed line never touch, so ending each with a NUL in place
    is safe. */
module ShellText {
  import opened Shell
  import opened ShellCode

  function Files(rs: seq<Redirect>): set<Span> { set r | r in rs :: r.file }

  function Args(args: seq<Span>): set<Span> { set x | x in args }

  function Spans(c: Cmd): set<Span> {
    match c
    case Exec(args) => Args(args)
    case Redir(d, r) => Spans(d) + {r.file}
    case Pipe(l, r) => Spans(l) + Spans(r)
    case List(l, r) => Spans(l) + Spans(r)
    case Back(d) => Spans(d)
  }

  /** All are words of s between lo and hi, with at least one character after each before the next. */
  predicate Apart(s: string, X: set<Span>, lo: nat, hi: nat) {
    && (forall x :: x in X ==> IsWord(s, x) && lo <= x.q && x.eq <= hi)
    && (forall x, y :: x in X && y in X && x != y ==> x.eq < y.q || y.eq < x.q)
  }

  /** A word ends before the next one begins. */
  lemma ApartUnion(s: string, X: set<Span>, Y: set<Span>, lo: nat, mid: nat, hi: nat)
    requires Apart(s, X, lo, mid) && Apart(s, Y, mid, hi) && lo <= mid <= hi
    ensures Apart(s, X + Y, lo, hi)
  {
    forall x, y | x in X && y in Y ensures x.eq < y.q {
      assert IsWord(s, x) && IsWord(s, y);
      assert WordChar(s[y.q]);
    }
  }

  lemma ApartWiden(s: string, X: set<Span>, lo: nat, hi: nat, lo1: nat, hi1: nat)
    requires Apart(s, X, lo, hi) && lo1 <= lo && hi <= hi1
    ensures Apart(s, X, lo1, hi1)
  {
  }

  lemma PeekAdvances(s: string, i: nat, toks: string)
    requires i <= |s| && Peek(s, i, toks)
    ensures i < GetToken(s, i).next
  {
  }

  lemma NoneApart(s: string, lo: nat, hi: nat)
    ensures Apart(s, {}, lo, hi)
  {
  }

  lemma TokenApart(s: string, i: nat)
    requires i <= |s| && GetToken(s, i).kind.Word?
    ensures Apart(s, {GetToken(s, i).span}, i, GetToken(s, i).next)
  {
  }

  lemma BothCons(x: Span, rs: seq<Redirect>, args: seq<Span>, qs: seq<Redirect>)
    ensures Both(([x] + args, rs + qs)) == {x} + Files(rs) + Both((args, qs))
  {
  }

  lemma FilesCons(r: Redirect, rs: seq<Redirect>)
    ensures Files([r] + rs) == {r.file} + Files(rs)
  {
  }

  lemma {:induction false} WrapSpans(c: Cmd, rs: seq<Redirect>)
    ensures Spans(Wrap(c, rs)) == Spans(c) + Files(rs)
    decreases |rs|
  {
    if rs != [] {
      WrapSpans(Redir(c, rs[0]), rs[1..]);
      assert rs == [rs[0]] + rs[1..];
    }
  }

  lemma {:induction false} RedirsApart(s: string, i: nat)
    requires i <= |s| && Redirs(s, i).Ok?
    ensures Apart(s, Files(Redirs(s, i).value), i, Redirs(s, i).pos)
    decreases |s| - i
  {
    hide Apart, GetToken, Skip, Peek, Files, IsWord;
    if Peek(s, i, "<>") {
      var t := GetToken(s, i);
      var w := GetToken(s, t.next);
      RedirsApart(s, w.next);
      var rest := Redirs(s, w.next);
      TokenApart(s, t.next);
      ApartWiden(s, {w.span}, t.next, w.next, i, w.next);
      ApartUnion(s, {w.span}, Files(rest.value), i, w.next, rest.pos);
      FilesCons(Redirect(w.span, ModeOf(t.kind)), rest.value);
    } else {
      NoneApart(s, i, Skip(s, i));
      assert Files([]) == {} by { NoFiles(); }
    }
  }

  lemma NoFiles()
    ensures Files([]) == {} && Both(([], [])) == {}
  {
  }

  function Both(r: (seq<Span>, seq<Redirect>)): set<Span> { Args(r.0) + Files(r.1) }

  lemma {:induction false} WordsApart(s: string, i: nat, n: nat)
    requires i <= |s| && Words(s, i, n).Ok?
    ensures Apart(s, Both(Words(s, i, n).value), i, Words(s, i, n).pos)
    decreases |s| - i
  {
    hide Apart, GetToken, Skip, Peek, Files, Both, IsWord, Redirs;
    var t := GetToken(s, i);
    if !Peek(s, i, "|)&;") && !t.kind.End? {
      var rs := Redirs(s, t.next);
      RedirsApart(s, t.next);
      WordsApart(s, rs.pos, n + 1);
      var rest := Words(s, rs.pos, n + 1);
      TokenApart(s, i);
      ApartUnion(s, {t.span}, Files(rs.value), i, t.next, rs.pos);
      ApartUnion(s, {t.span} + Files(rs.value), Both(rest.value), i, rs.pos, rest.pos);
      BothCons(t.span, rs.value, rest.value.0, rest.value.1);
    } else {
      NoFiles();
      NoneApart(s, i, Words(s, i, n).pos);
    }
  }

  lemma {:induction false} ExecApart(s: string, i: nat)
    requires i <= |s| && ParseExec(s, i).Ok?
    ensures Apart(s, Spans(ParseExec(s, i).value), i, ParseExec(s, i).pos)
    decreases |s| - i, 1
  {
    hide Apart, GetToken, Skip, Peek, IsWord, Redirs, Words, ParseBlock;
    if Peek(s, i, "(") {
      BlockApart(s, i);
    } else {
      var rs := Redirs(s, i);
      var ws := Words(s, rs.pos, 0);
      RedirsApart(s, i);
      WordsApart(s, rs.pos, 0);
      ApartUnion(s, Files(rs.value), Both(ws.value), i, rs.pos, ws.pos);
      WrapSpans(Exec(ws.value.0), rs.value + ws.value.1);
      assert Files(rs.value + ws.value.1) == Files(rs.value) + Files(ws.value.1);
      assert Spans(ParseExec(s, i).value) == Files(rs.value) + Both(ws.value);
    }
  }

  lemma {:induction false} BlockApart(s: string, i: nat)
    requires i <= |s| && ParseBlock(s, i).Ok?
    ensures Apart(s, Spans(ParseBlock(s, i).value), i, ParseBlock(s, i).pos)
    decreases |s| - i, 0
  {
    hide Apart, GetToken, Skip, Peek, IsWord, Redirs, ParseLine, Files, Spans;
    var j := GetToken(s, i).next;
    var c := ParseLine(s, j);
    PeekAdvances(s, i, "(");
    LineApart(s, j);
    var k := GetToken(s, c.pos).next;
    RedirsApart(s, k);
    var rs := Redirs(s, k);
    ApartWiden(s, Spans(c.value), j, c.pos, i, k);
    ApartUnion(s, Spans(c.value), Files(rs.value), i, k, rs.pos);
    WrapSpans(c.value, rs.value);
  }

  lemma {:induction false} PipeApart(s: string, i: nat)
    requires i <= |s| && ParsePipe(s, i).Ok?
    ensures Apart(s, Spans(ParsePipe(s, i).value), i, ParsePipe(s, i).pos)
    decreases |s| - i, 2
  {
    hide Apart, GetToken, Skip, Peek, IsWord, ParseExec;
    ExecApart(s, i);
    var c := ParseExec(s, i);
    if Peek(s, c.pos, "|") {
      var j := GetToken(s, c.pos).next;
      PeekAdvances(s, c.pos, "|");
      PipeApart(s, j);
      var d := ParsePipe(s, j);
      ApartWiden(s, Spans(c.value), i, c.pos, i, j);
      ApartUnion(s, Spans(c.value), Spans(d.value), i, j, d.pos);
    } else {
      ApartWiden(s, Spans(c.value), i, c.pos, i, Skip(s, c.pos));
    }
  }

  lemma {:induction false} BacksSpans(s: string, i: nat, c: Cmd)
    requires i <= |s|
    ensures Spans(Backs(s, i, c).0) == Spans(c)
    decreases |s| - i
  {
    if Peek(s, i, "&") { BacksSpans(s, GetToken(s, i).next, Back(c)); }
  }

  lemma {:induction false} LineApart(s: string, i: nat)
    requires i <= |s| && ParseLine(s, i).Ok?
    ensures Apart(s, Spans(ParseLine(s, i).value), i, ParseLine(s, i).pos)
    decreases |s| - i, 3
  {
    hide Apart, GetToken, Skip, Peek, IsWord, ParsePipe, Backs;
    PipeApart(s, i);
    var c := ParsePipe(s, i);
    var b := Backs(s, c.pos, c.value);
    BacksSpans(s, c.pos, c.value);
    if Peek(s, b.1, ";") {
      var j := GetToken(s, b.1).next;
      PeekAdvances(s, b.1, ";");
      LineApart(s, j);
      var d := ParseLine(s, j);
      ApartWiden(s, Spans(c.value), i, c.pos, i, j);
      ApartUnion(s, Spans(c.value), Spans(d.value), i, j, d.pos);
    } else {
      ApartWiden(s, Spans(c.value), i, c.pos, i, Skip(s, b.1));
    }
  }

  /** No word ends inside another. */
  lemma EndsOutside(s: string, X: set<Span>, hi: nat, x: Span, k: nat)
    requires Apart(s, X, 0, hi) && x in X && x.q <= k < x.eq
    ensures !Ends(X, k)
  {
    forall y | y in X ensures y.eq != k { assert IsWord(s, x) && IsWord(s, y); }
  }

  // ---- nulterminate ----

  ghost predicate Ends(X: set<Span>, k: nat) { exists x :: x in X && x.eq == k }

  /** Write a NUL at the end of every word of the command, and nowhere else. */
  method NulTerminate(c: Cmd, buf: array<char>)
    requires forall x :: x in Spans(c) ==> x.eq < buf.Length
    modifies buf
    ensures forall k :: 0 <= k < buf.Length ==> buf[k] == if Ends(Spans(c), k) then '\0' else old(buf[k])
  {
    match c
    case Exec(args) =>
      var i := 0;
      while i < |args|
        invariant 0 <= i <= |args|
        invariant forall k :: 0 <= k < buf.Length ==> buf[k] == if Ends(Args(args[..i]), k) then '\0' else old(buf[k])
      {
        assert args[i] in Spans(c);
        buf[args[i].eq] := '\0';
        assert args[..i + 1] == args[..i] + [args[i]];
        assert Args(args[..i + 1]) == Args(args[..i]) + {args[i]};
        i := i + 1;
      }
      assert args[..i] == args;
    case Redir(d, r) =>
      NulTerminate(d, buf);
      buf[r.file.eq] := '\0';
    case Pipe(l, r) =>
      NulTerminate(l, buf);
      NulTerminate(r, buf);
    case List(l, r) =>
      NulTerminate(l, buf);
      NulTerminate(r, buf);
    case Back(d) =>
      NulTerminate(d, buf);
  }

  /** parsecmd on the NUL-terminated line in buf: every word of the result is afterwards a C string
      holding exactly the word as it was typed. */
  method ParseCommand(buf: array<char>) returns (r: Result<Cmd>)
    requires buf.Length > 0 && buf[buf.Length - 1] == '\0' && forall k :: 0 <= k < buf.Length - 1 ==> buf[k] != '\0'
    modifies buf
    ensures r == ParseCmd(old(buf[..buf.Length - 1]))
    ensures r.Err? ==> buf[..] == old(buf[..])
    ensures r.Ok? ==> forall x :: x in Spans(r.value) ==>
              && x.q < x.eq < buf.Length && buf[x.eq] == '\0' && buf[x.q..x.eq] == old(buf[x.q..x.eq])
              && '\0' !in buf[x.q..x.eq]
  {
    hide Spans, Skip, ParseLine;
    var s := buf[..buf.Length - 1];
    var c := ParseLineAt(s, 0);
    if c.Err? { return Err; }
    var j := SkipSpace(s, c.pos);
    if j != |s| { return Err; }
    LineApart(s, 0);
    NulTerminate(c.value, buf);
    r := Ok(c.value, |s|);
    forall x | x in Spans(r.value)
      ensures x.q < x.eq < buf.Length && buf[x.eq] == '\0'
      ensures forall k :: x.q <= k < x.eq ==> buf[k] == old(buf[k])
    {
      assert IsWord(s, x);
      assert Ends(Spans(r.value), x.eq);
      forall k | x.q <= k < x.eq ensures buf[k] == old(buf[k]) { EndsOutside(s, Spans(r.value), c.pos, x, k); }
    }
  }
}
