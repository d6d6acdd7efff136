/** The grammar of the shell's command lines, over tokens, and that the parser accepts exactly that. Words and
    redirections of a command come in any order; | & ; need no parentheses. */
module ShellGrammar {
  import opened ShellSpec
  import opened ShellPrint

  // ---- tokens of a line ----

  function Tokens(s: string, i: nat): seq<Token>
    requires i <= |s|
    decreases |s| - i
  {
    var t := TokenAt(s, i);
    if t.kind == '0' then [] else [t] + Tokens(s, t.next)
  }

  /** What a token is: blanks before and after, a whole word, a symbol, or >> taken together. */
  lemma TokenMeans(s: string, i: nat)
    requires i <= |s|
    ensures var t := TokenAt(s, i); var q, eq := t.span.q, t.span.eq;
            && i <= q <= eq <= t.next <= |s|
            && (forall k :: i <= k < q || eq <= k < t.next ==> IsSpace(s[k])) && (t.next < |s| ==> !IsSpace(s[t.next]))
            && if q == |s| then t.kind == '0'
               else if IsWordChar(s[q]) then t.kind == 'a' && IsWord(s, t.span)
               else if s[q] == '>' && q + 1 < |s| && s[q + 1] == '>' then t.kind == '+' && eq == q + 2
               else t.kind == s[q] && IsSymbol(s[q]) && eq == q + 1
  {
    Blanks(s, i);
    var q := Skip(s, i);
    if q < |s| {
      var eq := if IsWordChar(s[q]) then WordEnd(s, q)
                else if s[q] == '>' && q + 1 < |s| && s[q + 1] == '>' then q + 2 else q + 1;
      Blanks(s, eq);
    }
  }

  lemma {:induction false} Blanks(s: string, i: nat)
    requires i <= |s|
    ensures forall k :: i <= k < Skip(s, i) ==> IsSpace(s[k])
    decreases |s| - i
  {
    if i < |s| && IsSpace(s[i]) {
      Blanks(s, i + 1);
    }
  }

  lemma SameTokens(s: string, i: nat)
    requires i <= |s|
    ensures TokenAt(s, Skip(s, i)) == TokenAt(s, i) && Tokens(s, Skip(s, i)) == Tokens(s, i)
  {
    SkipTwice(s, i);
  }

  /** The first character of a token of that kind, a word aside. */
  function Glyph(kind: char): char {
    if kind == '+' then '>' else kind
  }

  /** The tokens go on with one of the symbols. */
  predicate Begins(ts: seq<Token>, toks: string) {
    ts != [] && ts[0].kind != 'a' && Glyph(ts[0].kind) in toks
  }

  lemma PeekToken(s: string, i: nat, toks: string)
    requires i <= |s| && forall k :: 0 <= k < |toks| ==> IsSymbol(toks[k])
    ensures Peeks(s, i, toks) <==> Begins(Tokens(s, i), toks)
  {}

  lemma FirstToken(s: string, i: nat)
    requires i <= |s|
    ensures var t, ts := TokenAt(s, i), Tokens(s, i);
            && (t.kind == '0' <==> ts == [])
            && (ts != [] ==> ts[0] == t && ts[1..] == Tokens(s, t.next) && i < t.next <= |s|)
            && (t.kind == 'a' ==> IsWord(s, t.span))
  {}

  // ---- the grammar ----

  predicate IsArrow(kind: char) {
    kind == '<' || kind == '>' || kind == '+'
  }

  function ModeOf(kind: char): Mode {
    if kind == '<' then Input else Output
  }

  /** Words, and arrows with a word after each. */
  predicate Simple(ts: seq<Token>)
    decreases |ts|
  {
    || ts == []
    || (ts[0].kind == 'a' && Simple(ts[1..]))
    || (IsArrow(ts[0].kind) && |ts| > 1 && ts[1].kind == 'a' && Simple(ts[2..]))
  }

  /** The words of a simple command, without those after arrows. */
  function Words(ts: seq<Token>): seq<Span>
    decreases |ts|
  {
    if ts == [] then []
    else if IsArrow(ts[0].kind) then if |ts| > 1 then Words(ts[2..]) else []
    else [ts[0].span] + Words(ts[1..])
  }

  function Redirs(ts: seq<Token>): seq<Redirection>
    decreases |ts|
  {
    if ts == [] then []
    else if IsArrow(ts[0].kind) then
      if |ts| > 1 then [Redirection(ts[1].span, ModeOf(ts[0].kind))] + Redirs(ts[2..]) else []
    else Redirs(ts[1..])
  }

  /** line: pipe &... , or pipe &... ; line */
  ghost predicate IsLine(ts: seq<Token>, c: Cmd<Span>)
    decreases |ts|, 4
  {
    || IsAmps(ts, c)
    || (c.List? && exists k :: 0 <= k < |ts| && ts[k].kind == ';' && IsAmps(ts[..k], c.left)
                               && IsLine(ts[k + 1..], c.right))
  }

  ghost predicate IsAmps(ts: seq<Token>, c: Cmd<Span>)
    decreases |ts|, 3
  {
    || IsPipe(ts, c)
    || (c.Back? && ts != [] && ts[|ts| - 1].kind == '&' && IsAmps(ts[..|ts| - 1], c.cmd))
  }

  /** pipe: exec, or exec | pipe */
  ghost predicate IsPipe(ts: seq<Token>, c: Cmd<Span>)
    decreases |ts|, 2
  {
    || IsExec(ts, c)
    || (c.Pipe? && exists k :: 0 <= k < |ts| && ts[k].kind == '|' && IsExec(ts[..k], c.left)
                               && IsPipe(ts[k + 1..], c.right))
  }

  /** exec: a simple command, with its redirections around it, the first innermost; or a block */
  ghost predicate IsExec(ts: seq<Token>, c: Cmd<Span>)
    decreases |ts|, 1
  {
    (Simple(ts) && c == Wrap(Exec(Words(ts)), Redirs(ts))) || IsBlock(ts, c)
  }

  /** block: ( line ), or block and a redirection */
  ghost predicate IsBlock(ts: seq<Token>, c: Cmd<Span>)
    decreases |ts|, 0
  {
    var n := |ts|;
    n >= 2 &&
    if ts[n - 1].kind == ')' then ts[0].kind == '(' && IsLine(ts[1..n - 1], c)
    else
      && IsArrow(ts[n - 2].kind) && ts[n - 1].kind == 'a'
      && c.Redir? && c.file == ts[n - 1].span && c.mode == ModeOf(ts[n - 2].kind) && IsBlock(ts[..n - 2], c.cmd)
  }

  /** No command has MAXARGS words. */
  predicate Short(c: Cmd<Span>) {
    match c
    case Exec(argv) => |argv| < MAXARGS
    case Redir(sub, _, _) => Short(sub)
    case Pipe(left, right) => Short(left) && Short(right)
    case List(left, right) => Short(left) && Short(right)
    case Back(sub) => Short(sub)
  }

  lemma {:induction false} WordsOkShort(s: string, c: Cmd<Span>)
    requires WordsOk(s, c)
    ensures Short(c)
    decreases c
  {
    match c
    case Exec(_) =>
    case Redir(sub, _, _) => WordsOkShort(s, sub);
    case Pipe(left, right) =>
      WordsOkShort(s, left);
      WordsOkShort(s, right);
    case List(left, right) =>
      WordsOkShort(s, left);
      WordsOkShort(s, right);
    case Back(sub) => WordsOkShort(s, sub);
  }

  lemma {:induction false} ShortWrap(c: Cmd<Span>, rs: seq<Redirection>)
    ensures Short(Wrap(c, rs)) == Short(c)
    decreases |rs|
  {
    if rs != [] {
      ShortWrap(c, rs[..|rs| - 1]);
    }
  }

  lemma {:induction false} WrapFirst(c: Cmd<Span>, r: Redirection, rs: seq<Redirection>)
    ensures Wrap(c, [r] + rs) == Wrap(Redir(c, r.file, r.mode), rs)
    decreases |rs|
  {
    if rs == [] {
      assert [r] + rs == [r] && [r][..0] == [];
      assert Wrap(c, []) == c;
    } else {
      WrapFirst(c, r, rs[..|rs| - 1]);
      assert ([r] + rs)[..|rs|] == [r] + rs[..|rs| - 1];
    }
  }

  lemma NoTokens()
    ensures Simple([]) && Words([]) == [] && Redirs([]) == []
  {}

  lemma OneWord(t: Token, ts: seq<Token>)
    requires t.kind == 'a'
    ensures Words([t] + ts) == [t.span] + Words(ts) && Redirs([t] + ts) == Redirs(ts)
    ensures Simple([t] + ts) == Simple(ts)
  {
    assert ([t] + ts)[1..] == ts;
  }

  lemma OneRedirection(t: Token, f: Token, ts: seq<Token>)
    requires IsArrow(t.kind) && f.kind == 'a'
    ensures Words([t, f] + ts) == Words(ts)
    ensures Redirs([t, f] + ts) == [Redirection(f.span, ModeOf(t.kind))] + Redirs(ts)
    ensures Simple([t, f] + ts) == Simple(ts)
  {
    assert ([t, f] + ts)[2..] == ts;
  }

  lemma SimpleCases(ts: seq<Token>)
    requires Simple(ts) && ts != []
    ensures if ts[0].kind == 'a' then ts == [ts[0]] + ts[1..] && Simple(ts[1..])
            else
              && |ts| > 1 && IsArrow(ts[0].kind) && ts[1].kind == 'a'
              && ts == [ts[0], ts[1]] + ts[2..] && Simple(ts[2..])
  {}

  lemma {:induction false} SimpleJoin(a: seq<Token>, b: seq<Token>)
    requires Simple(a)
    ensures Simple(b) ==> Simple(a + b)
    ensures Words(a + b) == Words(a) + Words(b) && Redirs(a + b) == Redirs(a) + Redirs(b)
    decreases |a|
  {
    hide Simple, Words, Redirs;
    if a == [] {
      NoTokens();
      assert a + b == b && Words(a) + Words(b) == Words(b) && Redirs(a) + Redirs(b) == Redirs(b);
    } else {
      SimpleCases(a);
      if a[0].kind == 'a' {
        var x := a[1..];
        SimpleJoin(x, b);
        OneWord(a[0], x);
        OneWord(a[0], x + b);
        assert a + b == [a[0]] + (x + b);
      } else {
        var x := a[2..];
        SimpleJoin(x, b);
        OneRedirection(a[0], a[1], x);
        OneRedirection(a[0], a[1], x + b);
        assert a + b == [a[0], a[1]] + (x + b);
      }
    }
  }

  // ---- one token ----

  /** The next token, and what peek says of it. */
  lemma Head(s: string, i: nat, toks: string)
    requires i <= |s| && forall k :: 0 <= k < |toks| ==> IsSymbol(toks[k])
    ensures var t, ts := TokenAt(s, Skip(s, i)), Tokens(s, i);
            && Tokens(s, Skip(s, i)) == ts && (Peeks(s, i, toks) <==> Begins(ts, toks))
            && (t.kind == '0' <==> ts == []) && t.next <= |s|
            && (ts == [] ==> Tokens(s, t.next) == [])
            && (ts != [] ==> ts == [t] + Tokens(s, t.next) && i < t.next)
            && (t.kind == 'a' ==> IsWord(s, t.span))
  {
    SameTokens(s, i);
    FirstToken(s, i);
    PeekToken(s, i, toks);
    if TokenAt(s, i).kind == '0' {
      EndIsEnd(s, i);
    }
  }

  lemma EndIsEnd(s: string, i: nat)
    requires i <= |s| && TokenAt(s, Skip(s, i)).kind == '0'
    ensures Tokens(s, TokenAt(s, Skip(s, i)).next) == []
  {
    SkipTwice(s, i);
  }

  // ---- what is read is by the grammar ----

  /** One turn of parseredirs. */
  lemma RedirStep(s: string, i: nat, rs: seq<Redirection>)
    requires i <= |s| && FilesOk(s, rs)
    ensures !Begins(Tokens(s, i), "<>") ==> ReadRedirs(s, i, rs) == Ok(rs, Skip(s, i))
    ensures Begins(Tokens(s, i), "<>") ==>
              var t := TokenAt(s, Skip(s, i));
              IsArrow(t.kind) && t.next <= |s| && i < t.next && Tokens(s, i) == [t] + Tokens(s, t.next)
    ensures Begins(Tokens(s, i), "<>") ==>
              var t := TokenAt(s, Skip(s, i));
              var f := TokenAt(s, Skip(s, t.next));
              && (f.kind != 'a' ==> ReadRedirs(s, i, rs).Panic?)
              && (f.kind == 'a' ==>
                    var one := Redirection(f.span, ModeOf(t.kind));
                    && f.next <= |s| && t.next < f.next && FilesOk(s, rs + [one])
                    && Tokens(s, t.next) == [f] + Tokens(s, f.next)
                    && ReadRedirs(s, i, rs) == ReadRedirs(s, f.next, rs + [one]))
  {
    Head(s, i, "<>");
    var t := TokenAt(s, Skip(s, i));
    Head(s, t.next, "<>");
    SameTokens(s, t.next);
    hide Tokens, TokenAt, Skip, Peeks, IsWord;
  }

  lemma {:induction false} RedirsRead(s: string, i: nat, rs: seq<Redirection>) returns (ts: seq<Token>)
    requires i <= |s| && FilesOk(s, rs) && ReadRedirs(s, i, rs).Ok?
    ensures var r := ReadRedirs(s, i, rs);
            && Tokens(s, i) == ts + Tokens(s, r.next) && Simple(ts) && Words(ts) == [] && r.value == rs + Redirs(ts)
    decreases |s| - i
  {
    hide Tokens, TokenAt, Skip, Peeks, IsWord, FilesOk, ReadRedirs, Simple, Words, Redirs;
    RedirStep(s, i, rs);
    if !Begins(Tokens(s, i), "<>") {
      Head(s, i, "<>");
      ts := [];
      NoTokens();
      assert rs + Redirs(ts) == rs;
    } else {
      var t := TokenAt(s, Skip(s, i));
      var f := TokenAt(s, Skip(s, t.next));
      var one := Redirection(f.span, ModeOf(t.kind));
      var us := RedirsRead(s, f.next, rs + [one]);
      OneRedirection(t, f, us);
      ts := [t, f] + us;
      assert rs + [one] + Redirs(us) == rs + ([one] + Redirs(us));
      assert [t] + ([f] + (us + Tokens(s, ReadRedirs(s, i, rs).next))) == ts + Tokens(s, ReadRedirs(s, i, rs).next);
    }
  }

  /** One turn of parseexec's loop. */
  lemma ArgsStep(s: string, i: nat, args: seq<Span>, rs: seq<Redirection>)
    requires i <= |s| && FilesOk(s, rs) && |args| < MAXARGS && forall k :: 0 <= k < |args| ==> IsWord(s, args[k])
    ensures var t, r := TokenAt(s, Skip(s, i)), ReadArgs(s, i, args, rs);
            if Begins(Tokens(s, i), "|)&;") || Tokens(s, i) == [] then
              r.Ok? && r.value == Wrap(Exec(args), rs) && r.next <= |s| && Tokens(s, r.next) == Tokens(s, i)
            else if t.kind != 'a' || |args| + 1 >= MAXARGS then r.Panic?
            else
              && t.next <= |s| && i < t.next && IsWord(s, t.span) && Tokens(s, i) == [t] + Tokens(s, t.next)
              && var more := ReadRedirs(s, t.next, rs);
                 if more.Panic? then r.Panic? else r == ReadArgs(s, more.next, args + [t.span], more.value)
  {
    Head(s, i, "|)&;");
    hide Tokens, TokenAt, Skip, Peeks, ReadRedirs, Wrap;
  }

  lemma {:induction false} ArgsRead(s: string, i: nat, args: seq<Span>, rs: seq<Redirection>) returns (ts: seq<Token>)
    requires i <= |s| && FilesOk(s, rs) && |args| < MAXARGS && forall k :: 0 <= k < |args| ==> IsWord(s, args[k])
    requires ReadArgs(s, i, args, rs).Ok?
    ensures var r := ReadArgs(s, i, args, rs);
            && Tokens(s, i) == ts + Tokens(s, r.next) && Simple(ts)
            && r.value == Wrap(Exec(args + Words(ts)), rs + Redirs(ts))
    decreases |s| - i
  {
    hide Tokens, TokenAt, Skip, Peeks, IsWord, FilesOk, ReadRedirs, ReadArgs, Simple, Words, Redirs, Wrap, WordsOk;
    ArgsStep(s, i, args, rs);
    if Begins(Tokens(s, i), "|)&;") || Tokens(s, i) == [] {
      ts := [];
      NoTokens();
      assert args + Words(ts) == args && rs + Redirs(ts) == rs;
    } else {
      var t := TokenAt(s, Skip(s, i));
      var more := ReadRedirs(s, t.next, rs);
      var us := RedirsRead(s, t.next, rs);
      var vs := ArgsRead(s, more.next, args + [t.span], more.value);
      ts := [t] + (us + vs);
      SimpleJoin(us, vs);
      OneWord(t, us + vs);
      assert args + [t.span] + Words(vs) == args + ([t.span] + ([] + Words(vs)));
      assert rs + Redirs(us) + Redirs(vs) == rs + (Redirs(us) + Redirs(vs));
      assert [t] + (us + (vs + Tokens(s, ReadArgs(s, i, args, rs).next)))
          == ts + Tokens(s, ReadArgs(s, i, args, rs).next);
    }
  }

  lemma {:induction false} BlockWrap(ts: seq<Token>, c: Cmd<Span>, us: seq<Token>)
    requires IsBlock(ts, c) && Simple(us) && Words(us) == []
    ensures IsBlock(ts + us, Wrap(c, Redirs(us)))
    decreases |us|
  {
    hide IsBlock, Wrap;
    if us == [] {
      assert ts + us == ts;
      assert Wrap(c, []) == c by { WrapNone(c); }
    } else {
      var t, f := us[0], us[1];
      var d := Redir(c, f.span, ModeOf(t.kind));
      BlockMore(ts, c, t, f);
      BlockWrap(ts + [t, f], d, us[2..]);
      assert ts + [t, f] + us[2..] == ts + us;
      WrapFirst(c, Redirection(f.span, ModeOf(t.kind)), Redirs(us[2..]));
    }
  }

  lemma WrapNone(c: Cmd<Span>)
    ensures Wrap(c, []) == c
  {}

  lemma BlockMore(ts: seq<Token>, c: Cmd<Span>, t: Token, f: Token)
    requires IsBlock(ts, c) && IsArrow(t.kind) && f.kind == 'a'
    ensures IsBlock(ts + [t, f], Redir(c, f.span, ModeOf(t.kind)))
  {
    assert (ts + [t, f])[..|ts|] == ts;
  }

  lemma ExecStep(s: string, i: nat)
    requires i <= |s|
    ensures if Begins(Tokens(s, i), "(") then Peeks(s, Skip(s, i), "(") && ReadExec(s, i) == ReadBlock(s, Skip(s, i))
            else
              var rs := ReadRedirs(s, Skip(s, i), []);
              ReadExec(s, i) == if rs.Panic? then Panic(rs.msg) else ReadArgs(s, rs.next, [], rs.value)
  {
    Head(s, i, "(");
    SkipTwice(s, i);
  }

  lemma {:induction false} ExecRead(s: string, i: nat) returns (ts: seq<Token>)
    requires i <= |s| && ReadExec(s, i).Ok?
    ensures Tokens(s, i) == ts + Tokens(s, ReadExec(s, i).next) && IsExec(ts, ReadExec(s, i).value)
    decreases |s| - i, 1
  {
    hide Tokens, TokenAt, Skip, Peeks, ReadRedirs, ReadArgs, ReadExec, ReadBlock, Simple, Words, Redirs, Wrap, IsBlock;
    ExecStep(s, i);
    SameTokens(s, i);
    if Begins(Tokens(s, i), "(") {
      ts := BlockRead(s, Skip(s, i));
    } else {
      var rs := ReadRedirs(s, Skip(s, i), []);
      var us := RedirsRead(s, Skip(s, i), []);
      var vs := ArgsRead(s, rs.next, [], rs.value);
      ts := us + vs;
      SimpleJoin(us, vs);
      assert [] + Words(vs) == Words(us) + Words(vs) && [] + Redirs(us) == Redirs(us);
      assert us + (vs + Tokens(s, ReadExec(s, i).next)) == ts + Tokens(s, ReadExec(s, i).next);
    }
  }

  /** parseblock, with its parentheses. */
  lemma BlockStep(s: string, i: nat)
    requires i <= |s| && Peeks(s, i, "(")
    ensures var t := TokenAt(s, Skip(s, i));
            && t.kind == '(' && i < t.next <= |s| && Tokens(s, i) == [t] + Tokens(s, t.next)
            && var r := ReadLine(s, t.next);
               if r.Panic? || !Begins(Tokens(s, r.next), ")") then ReadBlock(s, i).Panic?
               else
                 var u := TokenAt(s, Skip(s, r.next));
                 && u.kind == ')' && r.next < u.next <= |s| && Tokens(s, r.next) == [u] + Tokens(s, u.next)
                 && var rs := ReadRedirs(s, u.next, []);
                    ReadBlock(s, i) == if rs.Panic? then Panic(rs.msg) else Ok(Wrap(r.value, rs.value), rs.next)
  {
    Head(s, i, "(");
    var t := TokenAt(s, Skip(s, i));
    var r := ReadLine(s, t.next);
    if r.Ok? { Head(s, r.next, ")"); }
    hide Tokens, TokenAt, Skip, ReadLine, ReadRedirs, Wrap;
  }

  lemma {:induction false} BlockRead(s: string, i: nat) returns (ts: seq<Token>)
    requires i <= |s| && Peeks(s, i, "(") && ReadBlock(s, i).Ok?
    ensures Tokens(s, i) == ts + Tokens(s, ReadBlock(s, i).next) && IsBlock(ts, ReadBlock(s, i).value)
    decreases |s| - i, 0
  {
    hide Tokens, TokenAt, Skip, Peeks, ReadRedirs, ReadLine, ReadBlock, Simple, Words, Redirs, Wrap, IsBlock, IsLine;
    BlockStep(s, i);
    var t := TokenAt(s, Skip(s, i));
    var r := ReadLine(s, t.next);
    var us := LineRead(s, t.next);
    var u := TokenAt(s, Skip(s, r.next));
    var vs := RedirsRead(s, u.next, []);
    BlockInside(t, us, u, r.value);
    BlockWrap([t] + us + [u], r.value, vs);
    assert [] + Redirs(vs) == Redirs(vs);
    ts := [t] + us + [u] + vs;
    assert [t] + (us + ([u] + (vs + Tokens(s, ReadBlock(s, i).next)))) == ts + Tokens(s, ReadBlock(s, i).next);
  }

  lemma BlockInside(t: Token, us: seq<Token>, u: Token, c: Cmd<Span>)
    requires t.kind == '(' && u.kind == ')' && IsLine(us, c)
    ensures IsBlock([t] + us + [u], c)
  {
    var ts := [t] + us + [u];
    assert ts[1..|ts| - 1] == us;
  }

  lemma PipeStep(s: string, i: nat)
    requires i <= |s|
    ensures var r := ReadExec(s, i);
            if r.Panic? then ReadPipe(s, i).Panic?
            else if !Begins(Tokens(s, r.next), "|") then
              ReadPipe(s, i) == Ok(r.value, Skip(s, r.next)) && Tokens(s, Skip(s, r.next)) == Tokens(s, r.next)
            else
              var t := TokenAt(s, Skip(s, r.next));
              && t.kind == '|' && r.next < t.next <= |s| && Tokens(s, r.next) == [t] + Tokens(s, t.next)
              && var rest := ReadPipe(s, t.next);
                 if rest.Panic? then ReadPipe(s, i).Panic?
                 else ReadPipe(s, i) == Ok(Pipe(r.value, rest.value), rest.next)
  {
    var r := ReadExec(s, i);
    if r.Ok? { Head(s, r.next, "|"); }
    hide Tokens, TokenAt, Skip, ReadExec;
  }

  lemma {:induction false} PipeRead(s: string, i: nat) returns (ts: seq<Token>)
    requires i <= |s| && ReadPipe(s, i).Ok?
    ensures Tokens(s, i) == ts + Tokens(s, ReadPipe(s, i).next) && IsPipe(ts, ReadPipe(s, i).value)
    decreases |s| - i, 2
  {
    hide Tokens, TokenAt, Skip, Peeks, ReadExec, ReadPipe, IsExec;
    PipeStep(s, i);
    var r := ReadExec(s, i);
    ts := ExecRead(s, i);
    if Begins(Tokens(s, r.next), "|") {
      var t := TokenAt(s, Skip(s, r.next));
      var us := ts;
      var vs := PipeRead(s, t.next);
      ts := us + [t] + vs;
      assert ts[..|us|] == us && ts[|us|] == t && ts[|us| + 1..] == vs;
      assert us + ([t] + (vs + Tokens(s, ReadPipe(s, i).next))) == ts + Tokens(s, ReadPipe(s, i).next);
    }
  }

  lemma AmpStep(s: string, c: Cmd<Span>, i: nat)
    requires i <= |s| && WordsOk(s, c)
    ensures if !Begins(Tokens(s, i), "&") then
              ReadAmps(s, c, i) == (c, Skip(s, i)) && Tokens(s, Skip(s, i)) == Tokens(s, i)
            else
              var t := TokenAt(s, Skip(s, i));
              && t.kind == '&' && i < t.next <= |s| && Tokens(s, i) == [t] + Tokens(s, t.next)
              && WordsOk(s, Back(c)) && ReadAmps(s, c, i) == ReadAmps(s, Back(c), t.next)
  {
    Head(s, i, "&");
    hide Tokens, TokenAt, Skip;
  }

  lemma {:induction false} AmpsRead(s: string, c: Cmd<Span>, i: nat, us: seq<Token>) returns (ts: seq<Token>)
    requires i <= |s| && WordsOk(s, c) && IsAmps(us, c)
    ensures us + Tokens(s, i) == ts + Tokens(s, ReadAmps(s, c, i).1) && IsAmps(ts, ReadAmps(s, c, i).0)
    decreases |s| - i
  {
    hide Tokens, TokenAt, Skip, Peeks, ReadAmps, IsPipe, WordsOk;
    AmpStep(s, c, i);
    if Begins(Tokens(s, i), "&") {
      var t := TokenAt(s, Skip(s, i));
      var more := us + [t];
      assert more[..|more| - 1] == us;
      ts := AmpsRead(s, Back(c), t.next, more);
      assert us + ([t] + Tokens(s, t.next)) == more + Tokens(s, t.next);
    } else {
      ts := us;
    }
  }

  lemma LineStep(s: string, i: nat)
    requires i <= |s| && ReadPipe(s, i).Ok?
    ensures var (c, j) := ReadAmps(s, ReadPipe(s, i).value, ReadPipe(s, i).next);
            if !Begins(Tokens(s, j), ";") then
              ReadLine(s, i) == Ok(c, Skip(s, j)) && Tokens(s, Skip(s, j)) == Tokens(s, j)
            else
              var t := TokenAt(s, Skip(s, j));
              && t.kind == ';' && j < t.next <= |s| && Tokens(s, j) == [t] + Tokens(s, t.next)
              && var rest := ReadLine(s, t.next);
                 if rest.Panic? then ReadLine(s, i).Panic? else ReadLine(s, i) == Ok(List(c, rest.value), rest.next)
  {
    var (c, j) := ReadAmps(s, ReadPipe(s, i).value, ReadPipe(s, i).next);
    Head(s, j, ";");
    hide Tokens, TokenAt, Skip, ReadPipe, ReadAmps;
  }

  lemma {:induction false} LineRead(s: string, i: nat) returns (ts: seq<Token>)
    requires i <= |s| && ReadLine(s, i).Ok?
    ensures Tokens(s, i) == ts + Tokens(s, ReadLine(s, i).next) && IsLine(ts, ReadLine(s, i).value)
    decreases |s| - i, 3
  {
    hide Tokens, TokenAt, Skip, Peeks, ReadPipe, ReadAmps, IsAmps, IsPipe, WordsOk;
    LinePipe(s, i);
    hide ReadLine;
    LineStep(s, i);
    var r := ReadPipe(s, i);
    var us := PipeRead(s, i);
    var (c, j) := ReadAmps(s, r.value, r.next);
    PipeIsAmps(us, r.value);
    ts := AmpsRead(s, r.value, r.next, us);
    if Begins(Tokens(s, j), ";") {
      var t := TokenAt(s, Skip(s, j));
      var vs := ts;
      var ws := LineRead(s, t.next);
      ts := vs + [t] + ws;
      assert ts[..|vs|] == vs && ts[|vs|] == t && ts[|vs| + 1..] == ws;
      assert vs + ([t] + (ws + Tokens(s, ReadLine(s, i).next))) == ts + Tokens(s, ReadLine(s, i).next);
    }
  }

  lemma LinePipe(s: string, i: nat)
    requires i <= |s|
    ensures ReadPipe(s, i).Panic? ==> ReadLine(s, i).Panic?
  {}

  lemma PipeIsAmps(ts: seq<Token>, c: Cmd<Span>)
    requires IsPipe(ts, c)
    ensures IsAmps(ts, c)
  {}

  // ---- whatever is by the grammar is read ----

  /** The reader has used up ts, and rest is next. */
  predicate Leaves<T(==)>(s: string, r: Result<T>, v: T, rest: seq<Token>) {
    r.Ok? && r.value == v && r.next <= |s| && Tokens(s, r.next) == rest
  }

  lemma Cut(t: Token, x: seq<Token>, u: Token, y: seq<Token>)
    requires [t] + x == [u] + y
    ensures t == u && x == y
  {
    assert ([t] + x)[0] == t && ([t] + x)[1..] == x && ([u] + y)[0] == u && ([u] + y)[1..] == y;
  }

  lemma {:induction false} RedirsTake(s: string, i: nat, rs: seq<Redirection>, ts: seq<Token>, rest: seq<Token>)
    requires i <= |s| && FilesOk(s, rs) && Tokens(s, i) == ts + rest && Simple(ts) && Words(ts) == []
    requires !Begins(rest, "<>")
    ensures Leaves(s, ReadRedirs(s, i, rs), rs + Redirs(ts), rest)
    decreases |ts|
  {
    hide Tokens, TokenAt, Skip, Peeks, IsWord, FilesOk, ReadRedirs;
    RedirStep(s, i, rs);
    if ts == [] {
      Head(s, i, "<>");
      assert ts + rest == rest && rs + Redirs(ts) == rs;
    } else {
      var t, f, us := ts[0], ts[1], ts[2..];
      assert ts + rest == [t] + ([f] + (us + rest));
      Cut(TokenAt(s, Skip(s, i)), Tokens(s, TokenAt(s, Skip(s, i)).next), t, [f] + (us + rest));
      Head(s, t.next, "<>");
      Cut(TokenAt(s, Skip(s, t.next)), Tokens(s, TokenAt(s, Skip(s, t.next)).next), f, us + rest);
      var one := Redirection(f.span, ModeOf(t.kind));
      RedirsTake(s, f.next, rs + [one], us, rest);
      assert rs + [one] + Redirs(us) == rs + ([one] + Redirs(us));
    }
  }

  /** How many tokens the redirections at the front are. */
  function Leading(ts: seq<Token>): (k: nat)
    ensures k <= |ts|
    decreases |ts|
  {
    if |ts| > 1 && IsArrow(ts[0].kind) then 2 + Leading(ts[2..]) else 0
  }

  lemma {:induction false} LeadSplit(ts: seq<Token>)
    requires Simple(ts)
    ensures var k := Leading(ts);
            && Simple(ts[..k]) && Words(ts[..k]) == [] && Simple(ts[k..]) && (ts[k..] != [] ==> ts[k].kind == 'a')
            && Words(ts) == Words(ts[k..]) && Redirs(ts) == Redirs(ts[..k]) + Redirs(ts[k..])
    decreases |ts|
  {
    hide Simple, Words, Redirs;
    var k := Leading(ts);
    if ts == [] || !IsArrow(ts[0].kind) {
      NoTokens();
      if ts != [] { SimpleCases(ts); }
      assert ts[..0] == [] && ts[0..] == ts && Redirs(ts[..0]) + Redirs(ts) == Redirs(ts);
    } else {
      SimpleCases(ts);
      LeadSplit(ts[2..]);
      assert ts[..k] == [ts[0], ts[1]] + ts[2..][..k - 2] && ts[k..] == ts[2..][k - 2..];
      OneRedirection(ts[0], ts[1], ts[2..][..k - 2]);
      OneRedirection(ts[0], ts[1], ts[2..]);
    }
  }

  /** What may come after a simple command or a block. */
  predicate After(rest: seq<Token>, toks: string) {
    rest == [] || Begins(rest, toks)
  }

  /** A word, the redirections after it, and what follows them. */
  lemma WordSplit(ts: seq<Token>)
    requires Simple(ts) && ts != [] && ts[0].kind == 'a'
    ensures var us := ts[1..];
            var a, b := us[..Leading(us)], us[Leading(us)..];
            && Simple(a) && Words(a) == [] && Simple(b) && (b != [] ==> b[0].kind == 'a')
            && Words(ts) == [ts[0].span] + Words(b) && Redirs(ts) == Redirs(a) + Redirs(b)
  {
    hide Simple, Words, Redirs, Leading;
    assert ts == [ts[0]] + ts[1..];
    OneWord(ts[0], ts[1..]);
    LeadSplit(ts[1..]);
  }

  lemma Rejoin(ts: seq<Token>, k: nat, rest: seq<Token>)
    requires k <= |ts| && (ts[k..] != [] ==> ts[k].kind == 'a') && After(rest, "|)&;")
    ensures ts + rest == ts[..k] + (ts[k..] + rest) && !Begins(ts[k..] + rest, "<>")
  {
    assert ts == ts[..k] + ts[k..];
    assert ts[k..] == [] ==> ts[k..] + rest == rest;
    assert ts[k..] != [] ==> (ts[k..] + rest)[0] == ts[k];
  }

  lemma {:induction false} ArgsTake(s: string, i: nat, args: seq<Span>, rs: seq<Redirection>, ts: seq<Token>,
                                    rest: seq<Token>)
    requires i <= |s| && FilesOk(s, rs) && |args| < MAXARGS && forall k :: 0 <= k < |args| ==> IsWord(s, args[k])
    requires Tokens(s, i) == ts + rest && Simple(ts) && (ts != [] ==> ts[0].kind == 'a')
    requires After(rest, "|)&;") && |args| + |Words(ts)| < MAXARGS
    ensures Leaves(s, ReadArgs(s, i, args, rs), Wrap(Exec(args + Words(ts)), rs + Redirs(ts)), rest)
    decreases |ts|
  {
    hide Tokens, TokenAt, Skip, Peeks, IsWord, FilesOk, ReadRedirs, ReadArgs, Wrap, WordsOk, Leading, Simple, Words,
      Redirs;
    ArgsStep(s, i, args, rs);
    if ts == [] {
      NoTokens();
      assert ts + rest == rest && args + Words(ts) == args && rs + Redirs(ts) == rs;
    } else {
      WordSplit(ts);
      var t, us := ts[0], ts[1..];
      var a, b := us[..Leading(us)], us[Leading(us)..];
      Rejoin(us, Leading(us), rest);
      assert ts + rest == [t] + (us + rest);
      Head(s, i, "|)&;");
      Cut(TokenAt(s, Skip(s, i)), Tokens(s, TokenAt(s, Skip(s, i)).next), t, a + (b + rest));
      RedirsTake(s, t.next, rs, a, b + rest);
      var more := ReadRedirs(s, t.next, rs);
      ArgsTake(s, more.next, args + [t.span], more.value, b, rest);
      assert args + [t.span] + Words(b) == args + Words(ts);
      assert rs + Redirs(a) + Redirs(b) == rs + Redirs(ts);
    }
  }

  /** A block is a line in parentheses and redirections. */
  lemma {:induction false} BlockSplit(ts: seq<Token>, c: Cmd<Span>) returns (m: nat, sub: Cmd<Span>)
    requires IsBlock(ts, c)
    ensures 2 <= m <= |ts| && ts[0].kind == '(' && ts[m - 1].kind == ')' && IsLine(ts[1..m - 1], sub)
    ensures Simple(ts[m..]) && Words(ts[m..]) == [] && c == Wrap(sub, Redirs(ts[m..]))
    decreases |ts|
  {
    hide IsLine;
    var n := |ts|;
    if ts[n - 1].kind == ')' {
      m, sub := n, c;
      assert ts[n..] == [];
      WrapNone(c);
    } else {
      m, sub := BlockSplit(ts[..n - 2], c.cmd);
      var us, t, f := ts[..n - 2][m..], ts[n - 2], ts[n - 1];
      assert ts[..n - 2][1..m - 1] == ts[1..m - 1] && ts[m..] == us + [t, f];
      OneRedirection(t, f, []);
      assert [t, f] + [] == [t, f];
      SimpleJoin(us, [t, f]);
      var one := Redirection(f.span, ModeOf(t.kind));
      assert (Redirs(us) + [one])[..|Redirs(us)|] == Redirs(us);
    }
  }

  lemma {:induction false} BlockTake(s: string, i: nat, ts: seq<Token>, rest: seq<Token>, c: Cmd<Span>)
    requires i <= |s| && Peeks(s, i, "(") && Tokens(s, i) == ts + rest && IsBlock(ts, c) && Short(c)
    requires !Begins(rest, "<>")
    ensures Leaves(s, ReadBlock(s, i), c, rest)
    decreases |ts|, 0
  {
    hide Tokens, TokenAt, Skip, Peeks, ReadRedirs, ReadLine, ReadBlock, Simple, Words, Redirs, Wrap, IsBlock, IsLine,
      Short;
    BlockStep(s, i);
    var m, sub := BlockSplit(ts, c);
    var us, vs, t, u := ts[1..m - 1], ts[m..], ts[0], ts[m - 1];
    ShortWrap(sub, Redirs(vs));
    assert ts + rest == [t] + (us + ([u] + (vs + rest)));
    Cut(TokenAt(s, Skip(s, i)), Tokens(s, TokenAt(s, Skip(s, i)).next), t, us + ([u] + (vs + rest)));
    LineTake(s, t.next, us, [u] + (vs + rest), sub);
    var r := ReadLine(s, t.next);
    Cut(TokenAt(s, Skip(s, r.next)), Tokens(s, TokenAt(s, Skip(s, r.next)).next), u, vs + rest);
    RedirsTake(s, u.next, [], vs, rest);
    assert [] + Redirs(vs) == Redirs(vs);
  }

  lemma SimpleStarts(ts: seq<Token>, rest: seq<Token>)
    requires Simple(ts) && After(rest, "|)&;")
    ensures !Begins(ts + rest, "(")
  {
    assert ts != [] ==> (ts + rest)[0] == ts[0];
    assert ts == [] ==> ts + rest == rest;
  }

  lemma {:induction false} ExecTake(s: string, i: nat, ts: seq<Token>, rest: seq<Token>, c: Cmd<Span>)
    requires i <= |s| && Tokens(s, i) == ts + rest && IsExec(ts, c) && Short(c) && After(rest, "|)&;")
    ensures Leaves(s, ReadExec(s, i), c, rest)
    decreases |ts|, 1
  {
    hide Tokens, TokenAt, Skip, Peeks, ReadRedirs, ReadArgs, ReadExec, ReadBlock, Wrap, IsBlock, Leading;
    ExecStep(s, i);
    SameTokens(s, i);
    if IsBlock(ts, c) {
      BlockStarts(ts, c);
      assert (ts + rest)[0] == ts[0];
      BlockTake(s, Skip(s, i), ts, rest, c);
    } else {
      var k := Leading(ts);
      LeadSplit(ts);
      ShortWrap(Exec(Words(ts)), Redirs(ts));
      SimpleStarts(ts, rest);
      Rejoin(ts, k, rest);
      RedirsTake(s, Skip(s, i), [], ts[..k], ts[k..] + rest);
      var more := ReadRedirs(s, Skip(s, i), []);
      ArgsTake(s, more.next, [], more.value, ts[k..], rest);
      assert [] + Words(ts[k..]) == Words(ts) && [] + Redirs(ts[..k]) + Redirs(ts[k..]) == Redirs(ts);
    }
  }

  lemma {:induction false} BlockStarts(ts: seq<Token>, c: Cmd<Span>)
    requires IsBlock(ts, c)
    ensures ts != [] && ts[0].kind == '('
    decreases |ts|
  {
    if ts[|ts| - 1].kind != ')' {
      BlockStarts(ts[..|ts| - 2], c.cmd);
    }
  }

  lemma {:induction false} PipeTake(s: string, i: nat, ts: seq<Token>, rest: seq<Token>, c: Cmd<Span>)
    requires i <= |s| && Tokens(s, i) == ts + rest && IsPipe(ts, c) && Short(c) && After(rest, ")&;")
    ensures Leaves(s, ReadPipe(s, i), c, rest)
    decreases |ts|, 2
  {
    hide Tokens, TokenAt, Skip, Peeks, ReadExec, ReadPipe, IsExec;
    PipeStep(s, i);
    if IsExec(ts, c) {
      ExecTake(s, i, ts, rest, c);
    } else {
      var k: nat :| k < |ts| && ts[k].kind == '|' && IsExec(ts[..k], c.left) && IsPipe(ts[k + 1..], c.right);
      assert ts + rest == ts[..k] + ([ts[k]] + (ts[k + 1..] + rest));
      ExecTake(s, i, ts[..k], [ts[k]] + (ts[k + 1..] + rest), c.left);
      var r := ReadExec(s, i);
      Cut(TokenAt(s, Skip(s, r.next)), Tokens(s, TokenAt(s, Skip(s, r.next)).next), ts[k], ts[k + 1..] + rest);
      PipeTake(s, ts[k].next, ts[k + 1..], rest, c.right);
    }
  }

  function Backs(c: Cmd<Span>, n: nat): Cmd<Span>
    decreases n
  {
    if n == 0 then c else Backs(Back(c), n - 1)
  }

  predicate AllAmps(ts: seq<Token>) {
    forall k :: 0 <= k < |ts| ==> ts[k].kind == '&'
  }

  lemma {:induction false} BacksLast(c: Cmd<Span>, n: nat)
    ensures Backs(c, n + 1) == Back(Backs(c, n)) && Short(Backs(c, n)) == Short(c)
    decreases n
  {
    if n > 0 {
      BacksLast(Back(c), n - 1);
    }
  }

  lemma {:induction false} AmpSplit(ts: seq<Token>, c: Cmd<Span>) returns (m: nat, p: Cmd<Span>)
    requires IsAmps(ts, c)
    ensures m <= |ts| && IsPipe(ts[..m], p) && AllAmps(ts[m..]) && c == Backs(p, |ts| - m)
    decreases |ts|
  {
    hide IsPipe;
    if IsPipe(ts, c) {
      m, p := |ts|, c;
      assert ts[..m] == ts;
    } else {
      var us := ts[..|ts| - 1];
      m, p := AmpSplit(us, c.cmd);
      assert us[..m] == ts[..m] && ts[m..] == us[m..] + [ts[|ts| - 1]];
      BacksLast(p, |us| - m);
    }
  }

  lemma {:induction false} AmpsTake(s: string, c: Cmd<Span>, i: nat, ts: seq<Token>, rest: seq<Token>)
    requires i <= |s| && WordsOk(s, c) && AllAmps(ts) && Tokens(s, i) == ts + rest && !Begins(rest, "&")
    ensures ReadAmps(s, c, i).0 == Backs(c, |ts|) && Tokens(s, ReadAmps(s, c, i).1) == rest
    decreases |ts|
  {
    hide Tokens, TokenAt, Skip, Peeks, ReadAmps, WordsOk;
    AmpStep(s, c, i);
    if ts == [] {
      assert ts + rest == rest;
    } else {
      var t := TokenAt(s, Skip(s, i));
      assert ts + rest == [ts[0]] + (ts[1..] + rest);
      Cut(t, Tokens(s, t.next), ts[0], ts[1..] + rest);
      AmpsTake(s, Back(c), t.next, ts[1..], rest);
    }
  }

  /** Up to the line's first ; or its end. */
  lemma {:induction false} FirstTake(s: string, i: nat, ts: seq<Token>, rest: seq<Token>, c: Cmd<Span>)
    requires i <= |s| && Tokens(s, i) == ts + rest && IsAmps(ts, c) && Short(c) && After(rest, ");")
    ensures ReadPipe(s, i).Ok?
    ensures var (d, j) := ReadAmps(s, ReadPipe(s, i).value, ReadPipe(s, i).next); d == c && Tokens(s, j) == rest
    decreases |ts|, 3
  {
    hide Tokens, TokenAt, Skip, Peeks, ReadPipe, ReadAmps, IsPipe, IsAmps, WordsOk, Short;
    var m, p := AmpSplit(ts, c);
    assert ts + rest == ts[..m] + (ts[m..] + rest);
    BacksLast(p, |ts| - m);
    assert ts[m..] != [] ==> (ts[m..] + rest)[0] == ts[m];
    assert ts[m..] == [] ==> ts[m..] + rest == rest;
    PipeTake(s, i, ts[..m], ts[m..] + rest, p);
    AmpsTake(s, p, ReadPipe(s, i).next, ts[m..], rest);
  }

  lemma {:induction false} LineTake(s: string, i: nat, ts: seq<Token>, rest: seq<Token>, c: Cmd<Span>)
    requires i <= |s| && Tokens(s, i) == ts + rest && IsLine(ts, c) && Short(c) && After(rest, ")")
    ensures Leaves(s, ReadLine(s, i), c, rest)
    decreases |ts|, 4
  {
    hide Tokens, TokenAt, Skip, Peeks, ReadPipe, ReadAmps, ReadLine, IsAmps, IsPipe, WordsOk;
    if IsAmps(ts, c) {
      FirstTake(s, i, ts, rest, c);
      LineStep(s, i);
    } else {
      var k: nat :| k < |ts| && ts[k].kind == ';' && IsAmps(ts[..k], c.left) && IsLine(ts[k + 1..], c.right);
      assert ts + rest == ts[..k] + ([ts[k]] + (ts[k + 1..] + rest));
      FirstTake(s, i, ts[..k], [ts[k]] + (ts[k + 1..] + rest), c.left);
      LineStep(s, i);
      var j := ReadAmps(s, ReadPipe(s, i).value, ReadPipe(s, i).next).1;
      Cut(TokenAt(s, Skip(s, j)), Tokens(s, TokenAt(s, Skip(s, j)).next), ts[k], ts[k + 1..] + rest);
      LineTake(s, ts[k].next, ts[k + 1..], rest, c.right);
    }
  }

  /** The shell accepts a line exactly when its tokens are a line of the grammar with at most nine words to a command,
      and the tree it builds is the one the grammar gives. */
  lemma ParsesExactly(s: string, c: Cmd<Span>)
    ensures ReadCmd(s) == Ok(c, |s|) <==> IsLine(Tokens(s, 0), c) && Short(c)
  {
    hide Tokens, TokenAt, Skip, ReadLine, IsLine, WordsOk, Short;
    var r, ts := ReadLine(s, 0), Tokens(s, 0);
    if r.Ok? {
      Head(s, r.next, "");
      AtEnd(s, r.next);
    }
    if ReadCmd(s) == Ok(c, |s|) {
      var us := LineRead(s, 0);
      assert us + [] == us;
      WordsOkShort(s, c);
    }
    if IsLine(ts, c) && Short(c) {
      assert ts + [] == ts;
      LineTake(s, 0, ts, [], c);
    }
  }

  lemma AtEnd(s: string, i: nat)
    requires i <= |s|
    ensures Skip(s, i) == |s| <==> Tokens(s, i) == []
  {}

  // ---- no word is lost ----

  /** How many of the tokens are the word w. */
  function Named(ts: seq<Token>, w: Span): nat
    decreases |ts|
  {
    if ts == [] then 0 else (if ts[0].kind == 'a' && ts[0].span == w then 1 else 0) + Named(ts[1..], w)
  }

  /** How many of the tree's words are w. */
  function Uses(c: Cmd<Span>, w: Span): nat {
    multiset(Spans(c))[w]
  }

  lemma {:induction false} NamedJoin(a: seq<Token>, b: seq<Token>, w: Span)
    ensures Named(a + b, w) == Named(a, w) + Named(b, w)
    decreases |a|
  {
    if a == [] {
      assert a + b == b;
    } else {
      NamedJoin(a[1..], b, w);
      assert (a + b)[1..] == a[1..] + b;
    }
  }

  /** Two parts with a symbol between them. */
  lemma NamedAround(ts: seq<Token>, k: nat, w: Span)
    requires k < |ts| && ts[k].kind != 'a'
    ensures Named(ts, w) == Named(ts[..k], w) + Named(ts[k + 1..], w)
  {
    assert ts == ts[..k] + ts[k..];
    NamedJoin(ts[..k], ts[k..], w);
    assert ts[k..][1..] == ts[k + 1..];
  }

  lemma UsesRedir(c: Cmd<Span>, file: Span, mode: Mode, w: Span)
    ensures Uses(Redir(c, file, mode), w) == Uses(c, w) + if file == w then 1 else 0
  {}

  function Files(rs: seq<Redirection>, w: Span): nat {
    if rs == [] then 0 else (if rs[0].file == w then 1 else 0) + Files(rs[1..], w)
  }

  lemma {:induction false} WrapUses(c: Cmd<Span>, rs: seq<Redirection>, w: Span)
    ensures Uses(Wrap(c, rs), w) == Uses(c, w) + Files(rs, w)
    decreases |rs|
  {
    hide Uses;
    if rs != [] {
      var d := Redir(c, rs[0].file, rs[0].mode);
      assert rs == [rs[0]] + rs[1..];
      WrapFirst(c, rs[0], rs[1..]);
      UsesRedir(c, rs[0].file, rs[0].mode, w);
      WrapUses(d, rs[1..], w);
    }
  }

  lemma {:induction false} SimpleNamed(ts: seq<Token>, w: Span)
    requires Simple(ts)
    ensures multiset(Words(ts))[w] + Files(Redirs(ts), w) == Named(ts, w)
    decreases |ts|
  {
    if ts != [] && ts[0].kind == 'a' {
      SimpleNamed(ts[1..], w);
    } else if ts != [] {
      SimpleNamed(ts[2..], w);
      assert ts[1..][1..] == ts[2..];
      assert ([Redirection(ts[1].span, ModeOf(ts[0].kind))] + Redirs(ts[2..]))[1..] == Redirs(ts[2..]);
    }
  }

  lemma SimpleUses(ts: seq<Token>, w: Span)
    requires Simple(ts)
    ensures Uses(Wrap(Exec(Words(ts)), Redirs(ts)), w) == Named(ts, w)
  {
    SimpleNamed(ts, w);
    WrapUses(Exec(Words(ts)), Redirs(ts), w);
    hide Simple, Words, Redirs, Files, Named, Wrap;
  }

  lemma UsesTwo(c: Cmd<Span>, d: Cmd<Span>, w: Span)
    ensures Uses(Pipe(c, d), w) == Uses(c, w) + Uses(d, w) && Uses(List(c, d), w) == Uses(c, w) + Uses(d, w)
    ensures Uses(Back(c), w) == Uses(c, w)
  {}

  lemma {:induction false} LineUses(ts: seq<Token>, c: Cmd<Span>, w: Span)
    requires IsLine(ts, c)
    ensures Uses(c, w) == Named(ts, w)
    decreases |ts|, 4
  {
    hide IsAmps, IsPipe, Uses, Named;
    if IsAmps(ts, c) {
      AmpsUses(ts, c, w);
    } else {
      var k: nat :| k < |ts| && ts[k].kind == ';' && IsAmps(ts[..k], c.left) && IsLine(ts[k + 1..], c.right);
      AmpsUses(ts[..k], c.left, w);
      LineUses(ts[k + 1..], c.right, w);
      NamedAround(ts, k, w);
      UsesTwo(c.left, c.right, w);
    }
  }

  lemma {:induction false} AmpsUses(ts: seq<Token>, c: Cmd<Span>, w: Span)
    requires IsAmps(ts, c)
    ensures Uses(c, w) == Named(ts, w)
    decreases |ts|, 3
  {
    hide IsPipe, Uses;
    if IsPipe(ts, c) {
      PipeUses(ts, c, w);
    } else {
      var n := |ts| - 1;
      AmpsUses(ts[..n], c.cmd, w);
      NamedAround(ts, n, w);
      UsesTwo(c.cmd, c.cmd, w);
    }
  }

  lemma {:induction false} PipeUses(ts: seq<Token>, c: Cmd<Span>, w: Span)
    requires IsPipe(ts, c)
    ensures Uses(c, w) == Named(ts, w)
    decreases |ts|, 2
  {
    hide IsExec, Uses, Named;
    if IsExec(ts, c) {
      ExecUses(ts, c, w);
    } else {
      var k: nat :| k < |ts| && ts[k].kind == '|' && IsExec(ts[..k], c.left) && IsPipe(ts[k + 1..], c.right);
      ExecUses(ts[..k], c.left, w);
      PipeUses(ts[k + 1..], c.right, w);
      NamedAround(ts, k, w);
      UsesTwo(c.left, c.right, w);
    }
  }

  lemma {:induction false} ExecUses(ts: seq<Token>, c: Cmd<Span>, w: Span)
    requires IsExec(ts, c)
    ensures Uses(c, w) == Named(ts, w)
    decreases |ts|, 1
  {
    hide IsBlock, Uses, Named, Simple, Words, Redirs, Wrap;
    if IsBlock(ts, c) {
      BlockUses(ts, c, w);
    } else {
      SimpleUses(ts, w);
    }
  }

  lemma {:induction false} BlockUses(ts: seq<Token>, c: Cmd<Span>, w: Span)
    requires IsBlock(ts, c)
    ensures Uses(c, w) == Named(ts, w)
    decreases |ts|, 0
  {
    hide IsLine, IsBlock, Uses, Simple, Words, Redirs, Wrap;
    var m, sub := BlockSplit(ts, c);
    var us, vs := ts[1..m - 1], ts[m..];
    LineUses(us, sub, w);
    SimpleNamed(vs, w);
    WrapUses(sub, Redirs(vs), w);
    NamedAround(ts, m - 1, w);
    NamedAround(ts[..m - 1], 0, w);
    assert ts[m - 1 + 1..] == vs && ts[..m - 1][0 + 1..] == us;
    assert Named(ts[..m - 1][..0], w) == 0;
  }

  /** Each word of an accepted line is in the tree as often as it is in the line, and nothing else is. */
  lemma EveryWord(s: string, w: Span)
    requires ReadCmd(s).Ok?
    ensures multiset(Spans(ReadCmd(s).value))[w] == Named(Tokens(s, 0), w)
  {
    hide Tokens, IsLine, ReadLine, WordsOk, Short, Named;
    ParsesExactly(s, ReadCmd(s).value);
    LineUses(Tokens(s, 0), ReadCmd(s).value, w);
  }

  /** A line has one tree at most. */
  lemma OneTree(s: string, c: Cmd<Span>, d: Cmd<Span>)
    requires IsLine(Tokens(s, 0), c) && Short(c) && IsLine(Tokens(s, 0), d) && Short(d)
    ensures c == d
  {
    ParsesExactly(s, c);
    ParsesExactly(s, d);
  }
}
