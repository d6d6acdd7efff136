/** sh.c's parser as it runs: the cursor moves over the line, and at the end nulterminate writes into it. */
module Shell {
  import opened ShellSpec
  import opened ShellPrint

  method Gettoken(s: string, start: nat) returns (t: Token)
    requires start <= |s|
    ensures t == TokenAt(s, start)
  {
    hide IsWord;
    var i := start;
    while i < |s| && IsSpace(s[i])
      invariant i <= |s| && Skip(s, i) == Skip(s, start)
    {
      i := i + 1;
    }
    var q, kind := i, '0';
    if i < |s| {
      kind := s[i];
      if kind == '|' || kind == '(' || kind == ')' || kind == ';' || kind == '&' || kind == '<' {
        i := i + 1;
      } else if kind == '>' {
        i := i + 1;
        if i < |s| && s[i] == '>' {
          kind := '+';
          i := i + 1;
        }
      } else {
        kind := 'a';
        while i < |s| && !IsSpace(s[i]) && !IsSymbol(s[i])
          invariant i <= |s| && WordEnd(s, i) == WordEnd(s, q)
        {
          i := i + 1;
        }
      }
    }
    var eq := i;
    while i < |s| && IsSpace(s[i])
      invariant i <= |s| && Skip(s, i) == Skip(s, eq)
    {
      i := i + 1;
    }
    return Token(kind, Span(q, eq), i);
  }

  method Peek(s: string, start: nat, toks: string) returns (found: bool, i: nat)
    requires start <= |s|
    ensures i == Skip(s, start) && found == Peeks(s, start, toks)
  {
    i := start;
    while i < |s| && IsSpace(s[i])
      invariant i <= |s| && Skip(s, i) == Skip(s, start)
    {
      i := i + 1;
    }
    found := i < |s| && s[i] in toks;
  }

  method Parseredirs(s: string, start: nat, before: seq<Redirection>) returns (r: Result<seq<Redirection>>)
    requires start <= |s| && FilesOk(s, before)
    ensures r == ReadRedirs(s, start, before)
  {
    var i, rs := start, before;
    while true
      invariant i <= |s| && FilesOk(s, rs) && ReadRedirs(s, i, rs) == ReadRedirs(s, start, before)
      decreases |s| - i
    {
      var redirs, p := Peek(s, i, "<>");
      if !redirs {
        return Ok(rs, p);
      }
      var t := Gettoken(s, p);
      var f := Gettoken(s, t.next);
      if f.kind != 'a' {
        return Panic("missing file for redirection");
      }
      rs := rs + [Redirection(f.span, if t.kind == '<' then Input else Output)];
      i := f.next;
    }
  }

  method Parseline(s: string, start: nat) returns (r: Result<Cmd<Span>>)
    requires start <= |s|
    ensures r == ReadLine(s, start)
    decreases |s| - start, 3
  {
    r := Parsepipe(s, start);
    if r.Panic? {
      return;
    }
    var c, i := r.value, r.next;
    while true
      invariant start <= i <= |s| && WordsOk(s, c) && ReadAmps(s, c, i) == ReadAmps(s, r.value, r.next)
      decreases |s| - i
    {
      var back, p := Peek(s, i, "&");
      if !back {
        i := p;
        break;
      }
      var t := Gettoken(s, p);
      c := Back(c);
      i := t.next;
    }
    SkipTwice(s, r.next);
    assert (c, i) == ReadAmps(s, r.value, r.next);
    var list, p := Peek(s, i, ";");
    if list {
      var t := Gettoken(s, p);
      var rest := Parseline(s, t.next);
      if rest.Panic? {
        return rest;
      }
      return Ok(List(c, rest.value), rest.next);
    }
    return Ok(c, p);
  }

  method Parsepipe(s: string, start: nat) returns (r: Result<Cmd<Span>>)
    requires start <= |s|
    ensures r == ReadPipe(s, start)
    decreases |s| - start, 2
  {
    r := Parseexec(s, start);
    if r.Panic? {
      return;
    }
    var more, p := Peek(s, r.next, "|");
    if more {
      var t := Gettoken(s, p);
      var rest := Parsepipe(s, t.next);
      if rest.Panic? {
        return rest;
      }
      return Ok(Pipe(r.value, rest.value), rest.next);
    }
    return Ok(r.value, p);
  }

  method Parseblock(s: string, start: nat) returns (r: Result<Cmd<Span>>)
    requires start <= |s| && Peeks(s, start, "(")
    ensures r == ReadBlock(s, start)
    decreases |s| - start, 0
  {
    var open, p := Peek(s, start, "(");
    var t := Gettoken(s, p);
    r := Parseline(s, t.next);
    if r.Panic? {
      return;
    }
    var c := r.value;
    var close, e := Peek(s, r.next, ")");
    if !close {
      return Panic("syntax - missing )");
    }
    t := Gettoken(s, e);
    var rs := Parseredirs(s, t.next, []);
    if rs.Panic? {
      return Panic(rs.msg);
    }
    return Ok(Wrap(c, rs.value), rs.next);
  }

  lemma PeekTwice(s: string, i: nat)
    requires i <= |s|
    ensures Peeks(s, Skip(s, i), "(") == Peeks(s, i, "(") && Skip(s, Skip(s, i)) == Skip(s, i)
  {}

  /** args grows where the C code fills argv and eargv; rs are the nodes it wraps around the command. */
  method Parseexec(s: string, start: nat) returns (r: Result<Cmd<Span>>)
    requires start <= |s|
    ensures r == ReadExec(s, start)
    decreases |s| - start, 1
  {
    hide Skip, TokenAt, Peeks, ReadRedirs, ReadBlock, Wrap, IsWord, FilesOk, WordsOk;
    var block, i := Peek(s, start, "(");
    if block {
      PeekTwice(s, start);
      r := Parseblock(s, i);
      return;
    }
    var args: seq<Span> := [];
    var rs := Parseredirs(s, i, []);
    if rs.Panic? {
      return Panic(rs.msg);
    }
    ghost var first := rs;
    i := rs.next;
    while true
      invariant rs.Ok? && i <= |s| && FilesOk(s, rs.value) && |args| < MAXARGS
      invariant forall k :: 0 <= k < |args| ==> IsWord(s, args[k])
      invariant ReadArgs(s, i, args, rs.value) == ReadArgs(s, first.next, [], first.value)
      decreases |s| - i
    {
      var over, p := Peek(s, i, "|)&;");
      if over {
        return Ok(Wrap(Exec(args), rs.value), p);
      }
      var t := Gettoken(s, p);
      if t.kind == '0' {
        return Ok(Wrap(Exec(args), rs.value), t.next);
      }
      if t.kind != 'a' {
        return Panic("syntax");
      }
      if |args| + 1 >= MAXARGS {
        return Panic("too many args");
      }
      args := args + [t.span];
      var more := Parseredirs(s, t.next, rs.value);
      if more.Panic? {
        return Panic(more.msg);
      }
      rs := more;
      i := more.next;
    }
  }

  // ---- nulterminate ----

  predicate EndsAt(words: seq<Span>, k: nat) {
    exists i :: 0 <= i < |words| && words[i].eq == k
  }

  lemma EndsAtBoth(a: seq<Span>, b: seq<Span>, k: nat)
    ensures EndsAt(a + b, k) <==> EndsAt(a, k) || EndsAt(b, k)
  {
    if EndsAt(a, k) {
      var i :| 0 <= i < |a| && a[i].eq == k;
      assert (a + b)[i].eq == k;
    }
    if EndsAt(b, k) {
      var i :| 0 <= i < |b| && b[i].eq == k;
      assert (a + b)[|a| + i].eq == k;
    }
  }

  /** buf is what it was, with a NUL at the end of each of the words. */
  ghost predicate Terminated(was: seq<char>, now: seq<char>, words: seq<Span>) {
    |now| == |was| && forall k: nat :: k < |was| ==> now[k] == if EndsAt(words, k) then '\0' else was[k]
  }

  lemma TerminatedThen(a: seq<char>, b: seq<char>, c: seq<char>, v: seq<Span>, w: seq<Span>)
    requires Terminated(a, b, v) && Terminated(b, c, w)
    ensures Terminated(a, c, v + w)
  {
    forall k: nat | k < |a| ensures c[k] == if EndsAt(v + w, k) then '\0' else a[k] {
      EndsAtBoth(v, w, k);
    }
  }

  predicate Within(words: seq<Span>, n: nat) {
    forall i :: 0 <= i < |words| ==> words[i].eq < n
  }

  method Nulterminate(buf: array<char>, c: Cmd<Span>)
    requires Within(Spans(c), buf.Length)
    modifies buf
    ensures Terminated(old(buf[..]), buf[..], Spans(c))
    decreases c
  {
    match c
    case Exec(argv) =>
      var i := 0;
      assert Spans(c) == argv;
      while i < |argv|
        invariant 0 <= i <= |argv| && Terminated(old(buf[..]), buf[..], argv[..i])
      {
        ghost var was := buf[..];
        buf[argv[i].eq] := '\0';
        OneMore(was, buf[..], argv[i]);
        TerminatedThen(old(buf[..]), was, buf[..], argv[..i], [argv[i]]);
        assert argv[..i + 1] == argv[..i] + [argv[i]];
        i := i + 1;
      }
      assert argv[..|argv|] == argv;
    case Redir(sub, file, _) =>
      PartOf(Spans(sub), [file], buf.Length);
      assert [file][0] == file;
      Nulterminate(buf, sub);
      ghost var was := buf[..];
      buf[file.eq] := '\0';
      OneMore(was, buf[..], file);
      TerminatedThen(old(buf[..]), was, buf[..], Spans(sub), [file]);
    case Pipe(left, right) =>
      PartOf(Spans(left), Spans(right), buf.Length);
      Nulterminate(buf, left);
      ghost var was := buf[..];
      Nulterminate(buf, right);
      TerminatedThen(old(buf[..]), was, buf[..], Spans(left), Spans(right));
    case List(left, right) =>
      PartOf(Spans(left), Spans(right), buf.Length);
      Nulterminate(buf, left);
      ghost var was := buf[..];
      Nulterminate(buf, right);
      TerminatedThen(old(buf[..]), was, buf[..], Spans(left), Spans(right));
    case Back(sub) =>
      assert Spans(c) == Spans(sub);
      Nulterminate(buf, sub);
  }

  lemma PartOf(a: seq<Span>, b: seq<Span>, n: nat)
    requires Within(a + b, n)
    ensures Within(a, n) && Within(b, n)
  {
    forall i | 0 <= i < |a| ensures a[i].eq < n {
      assert (a + b)[i] == a[i];
    }
    forall i | 0 <= i < |b| ensures b[i].eq < n {
      assert (a + b)[|a| + i] == b[i];
    }
  }

  lemma OneMore(was: seq<char>, now: seq<char>, w: Span)
    requires w.eq < |was| && now == was[w.eq := '\0']
    ensures Terminated(was, now, [w])
  {
    assert [w][0].eq == w.eq;
  }

  /** The C string at q. */
  function CString(b: seq<char>, q: nat): string
    requires q <= |b|
    decreases |b| - q
  {
    if q < |b| && b[q] != '\0' then [b[q]] + CString(b, q + 1) else []
  }

  lemma {:induction false} SpansAreWords(s: string, c: Cmd<Span>)
    requires WordsOk(s, c)
    ensures forall i :: 0 <= i < |Spans(c)| ==> IsWord(s, Spans(c)[i])
    decreases c
  {
    match c
    case Exec(argv) =>
    case Redir(sub, file, _) => SpansAreWords(s, sub);
    case Pipe(left, right) =>
      SpansAreWords(s, left);
      SpansAreWords(s, right);
    case List(left, right) =>
      SpansAreWords(s, left);
      SpansAreWords(s, right);
    case Back(sub) => SpansAreWords(s, sub);
  }

  /** A word is never cut by the end of another, so each becomes a C string of its own. */
  lemma {:induction false} StringIsToken(s: string, now: seq<char>, words: seq<Span>, w: Span, q: nat)
    requires (forall k :: 0 <= k < |s| ==> s[k] != '\0') && Terminated(s + ['\0'], now, words)
    requires (forall i :: 0 <= i < |words| ==> IsWord(s, words[i])) && w in words && w.q <= q <= w.eq <= |s|
    ensures CString(now, q) == s[q..w.eq]
    decreases w.eq - q
  {
    var i :| 0 <= i < |words| && words[i] == w;
    assert IsWord(s, w);
    if q == w.eq {
      assert EndsAt(words, q);
    } else {
      if EndsAt(words, q) {
        NoEndInside(s, words, w, q);
      }
      StringIsToken(s, now, words, w, q + 1);
      assert s[q..w.eq] == [s[q]] + s[q + 1..w.eq];
    }
  }

  lemma NoEndInside(s: string, words: seq<Span>, w: Span, q: nat)
    requires (forall i :: 0 <= i < |words| ==> IsWord(s, words[i])) && IsWord(s, w) && w.q <= q < w.eq
    ensures !EndsAt(words, q)
  {}

  /** parsecmd: on success each argv and file string of the tree is its token. */
  method Parsecmd(buf: array<char>) returns (r: Result<Cmd<Span>>)
    requires buf.Length > 0 && buf[buf.Length - 1] == '\0'
    requires forall k :: 0 <= k < buf.Length - 1 ==> buf[k] != '\0'
    modifies buf
    ensures r == ReadCmd(old(buf[..buf.Length - 1]))
    ensures r.Panic? ==> buf[..] == old(buf[..])
    ensures r.Ok? ==> forall i :: 0 <= i < |Spans(r.value)| ==>
              TokenString(old(buf[..buf.Length - 1]), buf[..], Spans(r.value)[i])
  {
    hide ReadLine, WordsOk, Skip, Peeks, Spans, CString, TokenString, Terminated, IsWord;
    var s := buf[..buf.Length - 1];
    r := Parseline(s, 0);
    if r.Panic? {
      return;
    }
    var end, i := Peek(s, r.next, "");
    if i != |s| {
      return Panic("syntax");
    }
    SpansWithin(s, r.value);
    assert buf[..] == s + ['\0'];
    Nulterminate(buf, r.value);
    AllTokens(s, buf[..], r.value);
    r := Ok(r.value, |s|);
  }

  lemma SpansWithin(s: string, c: Cmd<Span>)
    requires WordsOk(s, c)
    ensures Within(Spans(c), |s| + 1)
  {}

  lemma AllTokens(s: string, now: seq<char>, c: Cmd<Span>)
    requires (forall k :: 0 <= k < |s| ==> s[k] != '\0') && WordsOk(s, c) && Terminated(s + ['\0'], now, Spans(c))
    ensures forall i :: 0 <= i < |Spans(c)| ==> TokenString(s, now, Spans(c)[i])
  {
    SpansAreWords(s, c);
    var words := Spans(c);
    forall k | 0 <= k < |words| ensures TokenString(s, now, words[k]) {
      assert IsWord(s, words[k]);
      StringIsToken(s, now, words, words[k], words[k].q);
    }
  }

  predicate TokenString(s: string, now: seq<char>, w: Span) {
    IsWord(s, w) && w.q <= |now| && CString(now, w.q) == Chars(s, w)
  }
}
