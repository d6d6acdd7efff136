/** sh.c: what the shell's parser reads from a line, and what it writes back into it. A pointer into the line is an
    index; the line stops at its length, where the C string has its NUL. */
module ShellSpec {
  const MAXARGS: nat := 10

  // ---- tokens ----

  predicate IsSpace(c: char) {
    c == ' ' || c == '\t' || c == '\r' || c == '\n' || c == '\U{000B}'
  }

  predicate IsSymbol(c: char) {
    c == '<' || c == '|' || c == '>' || c == '&' || c == ';' || c == '(' || c == ')'
  }

  predicate IsWordChar(c: char) {
    !IsSpace(c) && !IsSymbol(c)
  }

  function Skip(s: string, i: nat): (j: nat)
    requires i <= |s|
    ensures i <= j <= |s| && (j < |s| ==> !IsSpace(s[j]))
    decreases |s| - i
  {
    if i < |s| && IsSpace(s[i]) then Skip(s, i + 1) else i
  }

  function WordEnd(s: string, i: nat): (j: nat)
    requires i <= |s|
    ensures i <= j <= |s| && (j < |s| ==> !IsWordChar(s[j]))
    ensures forall k :: i <= k < j ==> IsWordChar(s[k])
    decreases |s| - i
  {
    if i < |s| && IsWordChar(s[i]) then WordEnd(s, i + 1) else i
  }

  /** A stretch of the line, [q, eq). */
  datatype Span = Span(q: nat, eq: nat)

  /** kind is 'a' for a word, '+' for >>, '0' at the end of the line, and otherwise the symbol. */
  datatype Token = Token(kind: char, span: Span, next: nat)

  predicate IsWord(s: string, w: Span) {
    && w.q < w.eq <= |s|
    && (forall k :: w.q <= k < w.eq ==> IsWordChar(s[k]))
    && (w.eq < |s| ==> !IsWordChar(s[w.eq]))
  }

  function TokenAt(s: string, i: nat): (t: Token)
    requires i <= |s|
    ensures i <= t.span.q <= t.span.eq <= t.next <= |s|
    ensures t.kind == 'a' <==> t.span.q < |s| && IsWordChar(s[t.span.q])
    ensures t.kind == 'a' ==> IsWord(s, t.span)
    ensures t.kind == '0' <==> t.span.q == |s|
    ensures t.kind != '0' ==> t.next > i
  {
    var q := Skip(s, i);
    if q == |s| then Token('0', Span(q, q), q)
    else if s[q] == '>' then
      if q + 1 < |s| && s[q + 1] == '>' then Token('+', Span(q, q + 2), Skip(s, q + 2))
      else Token('>', Span(q, q + 1), Skip(s, q + 1))
    else if IsSymbol(s[q]) then Token(s[q], Span(q, q + 1), Skip(s, q + 1))
    else Token('a', Span(q, WordEnd(s, q)), Skip(s, WordEnd(s, q)))
  }

  /** The character the parser looks at next is one of toks. */
  predicate Peeks(s: string, i: nat, toks: string)
    requires i <= |s|
  {
    var p := Skip(s, i);
    p < |s| && s[p] in toks
  }

  // ---- commands ----

  datatype Mode = Input | Output // O_RDONLY on 0; O_WRONLY|O_CREATE on 1, for > and for >>

  datatype Cmd<W> =
    | Exec(argv: seq<W>)
    | Redir(cmd: Cmd<W>, file: W, mode: Mode)
    | Pipe(left: Cmd<W>, right: Cmd<W>)
    | List(left: Cmd<W>, right: Cmd<W>)
    | Back(cmd: Cmd<W>)

  datatype Redirection = Redirection(file: Span, mode: Mode)

  datatype Result<T> = Ok(value: T, next: nat) | Panic(msg: string)

  /** The redirections wrapped around a command, the first one innermost. */
  function Wrap(c: Cmd<Span>, rs: seq<Redirection>): Cmd<Span>
    decreases |rs|
  {
    if rs == [] then c else Redir(Wrap(c, rs[..|rs| - 1]), rs[|rs| - 1].file, rs[|rs| - 1].mode)
  }

  /** Every word the tree points to is a whole word of the line, and no command has MAXARGS words. */
  predicate WordsOk(s: string, c: Cmd<Span>) {
    match c
    case Exec(argv) => |argv| < MAXARGS && forall k :: 0 <= k < |argv| ==> IsWord(s, argv[k])
    case Redir(sub, file, _) => WordsOk(s, sub) && IsWord(s, file)
    case Pipe(left, right) => WordsOk(s, left) && WordsOk(s, right)
    case List(left, right) => WordsOk(s, left) && WordsOk(s, right)
    case Back(sub) => WordsOk(s, sub)
  }

  /** Every word the tree points to, argv and file. */
  function Spans(c: Cmd<Span>): seq<Span> {
    match c
    case Exec(argv) => argv
    case Redir(sub, file, _) => Spans(sub) + [file]
    case Pipe(left, right) => Spans(left) + Spans(right)
    case List(left, right) => Spans(left) + Spans(right)
    case Back(sub) => Spans(sub)
  }

  predicate FilesOk(s: string, rs: seq<Redirection>) {
    forall k :: 0 <= k < |rs| ==> IsWord(s, rs[k].file)
  }

  lemma {:induction false} WrapWords(s: string, c: Cmd<Span>, rs: seq<Redirection>)
    requires WordsOk(s, c) && FilesOk(s, rs)
    ensures WordsOk(s, Wrap(c, rs))
    decreases |rs|
  {
    if rs != [] {
      WrapWords(s, c, rs[..|rs| - 1]);
    }
  }

  // ---- the parser ----

  /** parseredirs, after the redirections rs. */
  function ReadRedirs(s: string, i: nat, rs: seq<Redirection>): (r: Result<seq<Redirection>>)
    requires i <= |s| && FilesOk(s, rs)
    ensures r.Ok? ==> i <= r.next <= |s| && FilesOk(s, r.value) && rs <= r.value && !Peeks(s, r.next, "<>")
    decreases |s| - i
  {
    var p := Skip(s, i);
    if !Peeks(s, i, "<>") then Ok(rs, p)
    else
      var t := TokenAt(s, p);
      var f := TokenAt(s, t.next);
      if f.kind != 'a' then Panic("missing file for redirection")
      else ReadRedirs(s, f.next, rs + [Redirection(f.span, if t.kind == '<' then Input else Output)])
  }

  function ReadLine(s: string, i: nat): (r: Result<Cmd<Span>>)
    requires i <= |s|
    ensures r.Ok? ==> i <= r.next <= |s| && WordsOk(s, r.value)
    decreases |s| - i, 3
  {
    var r := ReadPipe(s, i);
    if r.Panic? then r
    else
      var (c, j) := ReadAmps(s, r.value, r.next);
      if !Peeks(s, j, ";") then Ok(c, Skip(s, j))
      else
        var rest := ReadLine(s, TokenAt(s, Skip(s, j)).next);
        if rest.Panic? then rest else Ok(List(c, rest.value), rest.next)
  }

  function ReadAmps(s: string, c: Cmd<Span>, i: nat): (r: (Cmd<Span>, nat))
    requires i <= |s| && WordsOk(s, c)
    ensures i <= r.1 <= |s| && WordsOk(s, r.0)
    decreases |s| - i
  {
    if Peeks(s, i, "&") then ReadAmps(s, Back(c), TokenAt(s, Skip(s, i)).next) else (c, Skip(s, i))
  }

  function ReadPipe(s: string, i: nat): (r: Result<Cmd<Span>>)
    requires i <= |s|
    ensures r.Ok? ==> i <= r.next <= |s| && WordsOk(s, r.value)
    decreases |s| - i, 2
  {
    var r := ReadExec(s, i);
    if r.Panic? then r
    else if !Peeks(s, r.next, "|") then Ok(r.value, Skip(s, r.next))
    else
      var rest := ReadPipe(s, TokenAt(s, Skip(s, r.next)).next);
      if rest.Panic? then rest else Ok(Pipe(r.value, rest.value), rest.next)
  }

  function ReadExec(s: string, i: nat): (r: Result<Cmd<Span>>)
    requires i <= |s|
    ensures r.Ok? ==> i <= r.next <= |s| && WordsOk(s, r.value)
    decreases |s| - i, 1
  {
    if Peeks(s, i, "(") then ReadBlock(s, Skip(s, i))
    else
      var rs := ReadRedirs(s, Skip(s, i), []);
      if rs.Panic? then Panic(rs.msg) else ReadArgs(s, rs.next, [], rs.value)
  }

  /** The loop of parseexec, after the words args and the redirections rs. */
  function ReadArgs(s: string, i: nat, args: seq<Span>, rs: seq<Redirection>): (r: Result<Cmd<Span>>)
    requires i <= |s| && FilesOk(s, rs) && |args| < MAXARGS && forall k :: 0 <= k < |args| ==> IsWord(s, args[k])
    ensures r.Ok? ==> i <= r.next <= |s| && WordsOk(s, r.value)
    decreases |s| - i
  {
    WrapWords(s, Exec(args), rs);
    if Peeks(s, i, "|)&;") then Ok(Wrap(Exec(args), rs), Skip(s, i))
    else
      var t := TokenAt(s, Skip(s, i));
      if t.kind == '0' then Ok(Wrap(Exec(args), rs), t.next)
      else if t.kind != 'a' then Panic("syntax")
      else if |args| + 1 >= MAXARGS then Panic("too many args")
      else
        var more := ReadRedirs(s, t.next, rs);
        if more.Panic? then Panic(more.msg) else ReadArgs(s, more.next, args + [t.span], more.value)
  }

  function ReadBlock(s: string, i: nat): (r: Result<Cmd<Span>>)
    requires i <= |s| && Peeks(s, i, "(")
    ensures r.Ok? ==> i <= r.next <= |s| && WordsOk(s, r.value)
    decreases |s| - i, 0
  {
    var r := ReadLine(s, TokenAt(s, Skip(s, i)).next);
    if r.Panic? then r
    else if !Peeks(s, r.next, ")") then Panic("syntax - missing )")
    else
      var rs := ReadRedirs(s, TokenAt(s, Skip(s, r.next)).next, []);
      if rs.Panic? then Panic(rs.msg)
      else
        WrapWords(s, r.value, rs.value);
        Ok(Wrap(r.value, rs.value), rs.next)
  }

  /** parsecmd, up to nulterminate. */
  function ReadCmd(s: string): (r: Result<Cmd<Span>>)
    ensures r.Ok? ==> r.next == |s| && WordsOk(s, r.value)
  {
    var r := ReadLine(s, 0);
    if r.Panic? then r else if Skip(s, r.next) != |s| then Panic("syntax") else Ok(r.value, |s|)
  }
}
