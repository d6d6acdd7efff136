/** Writing a command down so that the shell reads it back: words apart by a space, every subcommand in parentheses. */
module ShellPrint {
  import opened ShellSpec

  function Join(words: seq<string>): string {
    if words == [] then ""
    else if |words| == 1 then words[0]
    else words[0] + " " + Join(words[1..])
  }

  function Print(c: Cmd<string>): string
    decreases c, 0
  {
    match c
    case Exec(argv) => Join(argv)
    case Redir(sub, file, mode) => Sub(sub) + (if mode.Input? then "<" else ">") + file
    case Pipe(left, right) => Sub(left) + "|" + Sub(right)
    case List(left, right) => Sub(left) + ";" + Sub(right)
    case Back(sub) => Sub(sub) + "&"
  }

  function Sub(c: Cmd<string>): string
    decreases c, 1
  {
    "(" + Print(c) + ")"
  }

  predicate GoodWord(w: string) {
    w != [] && forall k :: 0 <= k < |w| ==> IsWordChar(w[k])
  }

  /** Commands the shell can hold: words that are words, and at most nine of them to a command. */
  predicate Writable(c: Cmd<string>) {
    match c
    case Exec(argv) => |argv| < MAXARGS && forall k :: 0 <= k < |argv| ==> GoodWord(argv[k])
    case Redir(sub, file, _) => Writable(sub) && GoodWord(file)
    case Pipe(left, right) => Writable(left) && Writable(right)
    case List(left, right) => Writable(left) && Writable(right)
    case Back(sub) => Writable(sub)
  }

  function Chars(s: string, w: Span): string
    requires IsWord(s, w)
  {
    s[w.q..w.eq]
  }

  /** The tree with each stretch of the line replaced by its characters. */
  function Text(s: string, c: Cmd<Span>): Cmd<string>
    requires WordsOk(s, c)
  {
    match c
    case Exec(argv) => Exec(Texts(s, argv))
    case Redir(sub, file, mode) => Redir(Text(s, sub), Chars(s, file), mode)
    case Pipe(left, right) => Pipe(Text(s, left), Text(s, right))
    case List(left, right) => List(Text(s, left), Text(s, right))
    case Back(sub) => Back(Text(s, sub))
  }

  function Texts(s: string, words: seq<Span>): (r: seq<string>)
    requires forall k :: 0 <= k < |words| ==> IsWord(s, words[k])
    ensures |r| == |words| && forall k :: 0 <= k < |r| ==> r[k] == Chars(s, words[k])
  {
    seq(|words|, k requires 0 <= k < |words| => Chars(s, words[k]))
  }

  /** p stands at i in s. */
  predicate At(s: string, i: nat, p: string) {
    i + |p| <= |s| && s[i..i + |p|] == p
  }

  lemma AtBoth(s: string, i: nat, a: string, b: string)
    requires At(s, i, a + b)
    ensures At(s, i, a) && At(s, i + |a|, b)
  {
    assert s[i..i + |a + b|][..|a|] == a && s[i..i + |a + b|][|a|..] == b;
  }

  lemma AtChar(s: string, i: nat, c: char)
    requires At(s, i, [c])
    ensures i < |s| && s[i] == c
  {}

  /** The parser stops at j: the line ends, or a parenthesis closes. */
  predicate Stop(s: string, j: nat) {
    j == |s| || (j < |s| && s[j] == ')')
  }

  /** No space and no redirection at j. */
  predicate Clear(s: string, j: nat) {
    j == |s| || (j < |s| && !IsSpace(s[j]) && s[j] != '<' && s[j] != '>')
  }

  lemma {:induction false} WordEndIs(s: string, i: nat, w: string)
    requires At(s, i, w) && forall k :: 0 <= k < |w| ==> IsWordChar(w[k])
    requires i + |w| < |s| ==> !IsWordChar(s[i + |w|])
    ensures WordEnd(s, i) == i + |w|
    decreases |w|
  {
    if w != [] {
      AtBoth(s, i, [w[0]], w[1..]);
      assert w == [w[0]] + w[1..];
      AtChar(s, i, w[0]);
      WordEndIs(s, i + 1, w[1..]);
    }
  }

  /** A word at i, up to a blank or a symbol, is read as one. */
  lemma WordToken(s: string, i: nat, w: string)
    requires At(s, i, w) && GoodWord(w) && (i + |w| < |s| ==> !IsWordChar(s[i + |w|]))
    ensures TokenAt(s, i) == Token('a', Span(i, i + |w|), Skip(s, i + |w|)) && s[i..i + |w|] == w
    ensures i < |s| && IsWordChar(s[i])
  {
    AtBoth(s, i, [w[0]], w[1..]);
    assert w == [w[0]] + w[1..];
    AtChar(s, i, w[0]);
    WordEndIs(s, i, w);
  }

  lemma SymbolToken(s: string, i: nat)
    requires i < |s| && IsSymbol(s[i]) && s[i] != '>'
    ensures TokenAt(s, i) == Token(s[i], Span(i, i + 1), Skip(s, i + 1))
  {}

  lemma NoRedirs(s: string, i: nat, rs: seq<Redirection>)
    requires i <= |s| && FilesOk(s, rs) && Clear(s, i)
    ensures ReadRedirs(s, i, rs) == Ok(rs, i) && !Peeks(s, i, "<>") && Skip(s, i) == i
  {}

  // ---- one step of the parser ----

  /** The next character at j, which is no blank. */
  predicate Next(s: string, j: nat, c: char) {
    j < |s| && s[j] == c && !IsSpace(c)
  }

  lemma PeeksAt(s: string, j: nat, toks: string)
    requires j <= |s| && (j < |s| ==> !IsSpace(s[j]))
    ensures Skip(s, j) == j && (Peeks(s, j, toks) <==> j < |s| && s[j] in toks)
  {}

  lemma LineEnds(s: string, i: nat, c: Cmd<Span>, j: nat)
    requires i <= |s| && ReadPipe(s, i) == Ok(c, j) && j <= |s| && Stop(s, j) && WordsOk(s, c)
    ensures ReadLine(s, i) == Ok(c, j)
  {
    PeeksAt(s, j, "&");
    PeeksAt(s, j, ";");
    hide ReadPipe, Skip, Peeks, TokenAt, WordsOk;
  }

  lemma LineBack(s: string, i: nat, c: Cmd<Span>, j: nat)
    requires i <= |s| && ReadPipe(s, i) == Ok(c, j) && Next(s, j, '&') && Stop(s, j + 1) && WordsOk(s, c)
    ensures ReadLine(s, i) == Ok(Back(c), j + 1)
  {
    PeeksAt(s, j, "&");
    SymbolToken(s, j);
    PeeksAt(s, j + 1, "&");
    PeeksAt(s, j + 1, ";");
    hide ReadPipe, Skip, Peeks, TokenAt;
    assert ReadAmps(s, Back(c), j + 1) == (Back(c), j + 1);
    assert ReadAmps(s, c, j) == (Back(c), j + 1);
  }

  lemma LineList(s: string, i: nat, c: Cmd<Span>, j: nat, d: Cmd<Span>, k: nat)
    requires i <= |s| && ReadPipe(s, i) == Ok(c, j) && Next(s, j, ';') && WordsOk(s, c)
    requires Next(s, j + 1, '(') && ReadLine(s, j + 1) == Ok(d, k)
    ensures ReadLine(s, i) == Ok(List(c, d), k)
  {
    PeeksAt(s, j, "&");
    PeeksAt(s, j, ";");
    SymbolToken(s, j);
    PeeksAt(s, j + 1, "");
    hide ReadPipe, Skip, Peeks, TokenAt, WordsOk;
    assert ReadAmps(s, c, j) == (c, j);
  }

  lemma PipeEnds(s: string, i: nat, c: Cmd<Span>, j: nat)
    requires i <= |s| && ReadExec(s, i) == Ok(c, j) && j <= |s| && (j < |s| ==> !IsSpace(s[j]) && s[j] != '|')
    ensures ReadPipe(s, i) == Ok(c, j)
  {}

  lemma PipeMore(s: string, i: nat, c: Cmd<Span>, j: nat, d: Cmd<Span>, k: nat)
    requires i <= |s| && ReadExec(s, i) == Ok(c, j) && Next(s, j, '|')
    requires Next(s, j + 1, '(') && ReadPipe(s, j + 1) == Ok(d, k)
    ensures ReadPipe(s, i) == Ok(Pipe(c, d), k)
  {
    hide ReadExec, Skip, Peeks, TokenAt, WordsOk, IsWord;
    PeeksAt(s, j, "|");
    SymbolToken(s, j);
    PeeksAt(s, j + 1, "");
    assert TokenAt(s, Skip(s, j)).next == j + 1;
  }

  lemma ExecBlock(s: string, i: nat, c: Cmd<Span>, j: nat)
    requires Next(s, i, '(') && Skip(s, i + 1) == i + 1 && ReadLine(s, i + 1) == Ok(c, j) && Next(s, j, ')')
    requires WordsOk(s, c)
    ensures var rs := ReadRedirs(s, j + 1, []);
            ReadExec(s, i) == if rs.Panic? then Panic(rs.msg) else Ok(Wrap(c, rs.value), rs.next)
  {
    PeeksAt(s, i, "(");
    SymbolToken(s, i);
    PeeksAt(s, j, ")");
    SymbolToken(s, j);
    RedirsSkip(s, j + 1);
    hide ReadLine, Skip, Peeks, TokenAt, ReadRedirs, WordsOk;
  }

  lemma ExecWords(s: string, i: nat)
    requires i <= |s| && Clear(s, i) && (i < |s| ==> s[i] != '(')
    ensures ReadExec(s, i) == ReadArgs(s, i, [], [])
  {}

  lemma ArgsEnd(s: string, i: nat, args: seq<Span>)
    requires i <= |s| && Stop(s, i) && |args| < MAXARGS && forall k :: 0 <= k < |args| ==> IsWord(s, args[k])
    ensures ReadArgs(s, i, args, []) == Ok(Exec(args), i)
  {}

  lemma ArgsMore(s: string, i: nat, w: string, args: seq<Span>, next: nat)
    requires i <= |s| && |args| + 1 < MAXARGS && forall k :: 0 <= k < |args| ==> IsWord(s, args[k])
    requires At(s, i, w) && GoodWord(w) && (i + |w| < |s| ==> !IsWordChar(s[i + |w|]))
    requires Skip(s, i + |w|) == next && next <= |s| && Clear(s, next)
    ensures IsWord(s, Span(i, i + |w|)) && Chars(s, Span(i, i + |w|)) == w
    ensures ReadArgs(s, i, args, []) == ReadArgs(s, next, args + [Span(i, i + |w|)], [])
  {
    WordToken(s, i, w);
    PeeksAt(s, i, "|)&;");
    NoRedirs(s, next, []);
    hide Skip, Peeks, TokenAt, ReadRedirs, Wrap, Clear;
  }

  // ---- words ----

  /** The words of a command, from the k-th on. */
  lemma {:induction false} ArgsRoundTrip(s: string, i: nat, words: seq<string>, args: seq<Span>)
    requires i <= |s| && At(s, i, Join(words)) && Stop(s, i + |Join(words)|)
    requires (forall k :: 0 <= k < |words| ==> GoodWord(words[k])) && |args| + |words| < MAXARGS
    requires forall k :: 0 <= k < |args| ==> IsWord(s, args[k])
    ensures var r := ReadArgs(s, i, args, []);
            && r.Ok? && r.next == i + |Join(words)| && r.value.Exec? && WordsOk(s, r.value)
            && Texts(s, r.value.argv) == Texts(s, args) + words
    decreases |words|
  {
    hide ReadArgs, Skip, GoodWord, At;
    if words == [] {
      assert Texts(s, args) + words == Texts(s, args);
      ArgsEnd(s, i, args);
    } else {
      var w := words[0];
      var span, next := Span(i, i + |w|), if |words| == 1 then i + |w| else i + |w| + 1;
      WordFirst(s, i, words);
      AfterWord(s, i, words);
      ArgsMore(s, i, w, args, next);
      ArgsRoundTrip(s, next, words[1..], args + [span]);
      TextsMore(s, args, span, w, words);
    }
  }

  lemma TextsMore(s: string, args: seq<Span>, span: Span, w: string, words: seq<string>)
    requires (forall k :: 0 <= k < |args| ==> IsWord(s, args[k])) && IsWord(s, span) && Chars(s, span) == w
    requires words != [] && words[0] == w
    ensures Texts(s, args + [span]) + words[1..] == Texts(s, args) + words
  {}

  lemma RedirsSkip(s: string, i: nat)
    requires i <= |s|
    ensures ReadRedirs(s, i, []) == ReadRedirs(s, Skip(s, i), [])
  {}

  lemma {:induction false} SkipTwice(s: string, i: nat)
    requires i <= |s|
    ensures Skip(s, Skip(s, i)) == Skip(s, i)
  {}

  lemma WordFirst(s: string, i: nat, words: seq<string>)
    requires At(s, i, Join(words)) && words != [] && Stop(s, i + |Join(words)|)
    ensures At(s, i, words[0]) && (i + |words[0]| < |s| ==> !IsWordChar(s[i + |words[0]|]))
    ensures |words| > 1 ==> At(s, i + |words[0]|, " ") && At(s, i + |words[0]| + 1, Join(words[1..]))
  {
    if |words| > 1 {
      var w := words[0];
      assert Join(words) == w + (" " + Join(words[1..]));
      AtBoth(s, i, w, " " + Join(words[1..]));
      AtBoth(s, i + |w|, " ", Join(words[1..]));
      AtChar(s, i + |w|, ' ');
    }
  }

  lemma AfterWord(s: string, i: nat, words: seq<string>)
    requires At(s, i, Join(words)) && words != [] && Stop(s, i + |Join(words)|)
    requires forall k :: 0 <= k < |words| ==> GoodWord(words[k])
    ensures var next := if |words| == 1 then i + |words[0]| else i + |words[0]| + 1;
            && next <= |s| && Clear(s, next) && Skip(s, i + |words[0]|) == next && At(s, next, Join(words[1..]))
            && next + |Join(words[1..])| == i + |Join(words)|
  {
    WordFirst(s, i, words);
    if |words| > 1 {
      NextWord(s, i, words);
    } else {
      assert words[1..] == [];
    }
  }

  lemma NextWord(s: string, i: nat, words: seq<string>)
    requires At(s, i, Join(words)) && |words| > 1 && Stop(s, i + |Join(words)|)
    requires forall k :: 0 <= k < |words| ==> GoodWord(words[k])
    ensures var next := i + |words[0]| + 1;
            && next <= |s| && Clear(s, next) && Skip(s, next - 1) == next
            && next + |Join(words[1..])| == i + |Join(words)|
  {
    WordFirst(s, i, words);
    AtChar(s, i + |words[0]|, ' ');
    WordFirst(s, i + |words[0]| + 1, words[1..]);
    WordToken(s, i + |words[0]| + 1, words[1]);
  }

  // ---- commands ----

  /** From i on the parser reads c, up to j. */
  predicate Reads(s: string, r: Result<Cmd<Span>>, c: Cmd<string>, j: nat) {
    r.Ok? && r.next == j && WordsOk(s, r.value) && Text(s, r.value) == c
  }

  lemma TwoParts(s: string, i: nat, left: Cmd<string>, op: string, right: Cmd<string>)
    requires At(s, i, Sub(left) + op + Sub(right)) && |op| == 1
    ensures At(s, i, Sub(left)) && i + |Sub(left)| < |s| && s[i + |Sub(left)|] == op[0]
    ensures At(s, i + |Sub(left)| + 1, Sub(right))
  {
    hide Sub;
    assert Sub(left) + op + Sub(right) == Sub(left) + (op + Sub(right));
    AtBoth(s, i, Sub(left), op + Sub(right));
    AtBoth(s, i + |Sub(left)|, op, Sub(right));
    assert op == [op[0]];
    AtChar(s, i + |Sub(left)|, op[0]);
  }

  lemma ParenNoSpace(s: string, i: nat, c: Cmd<string>)
    requires At(s, i, Sub(c))
    ensures i < |s| && s[i] == '(' && Skip(s, i) == i && Peeks(s, i, "(")
  {}

  lemma BackParts(s: string, i: nat, sub: Cmd<string>)
    requires At(s, i, Sub(sub) + "&")
    ensures At(s, i, Sub(sub)) && Next(s, i + |Sub(sub)|, '&')
  {
    AtBoth(s, i, Sub(sub), "&");
    AtChar(s, i + |Sub(sub)|, '&');
  }

  lemma RedirParts(s: string, i: nat, sub: Cmd<string>, file: string, mode: Mode)
    requires i <= |s| && At(s, i, Print(Redir(sub, file, mode)))
    ensures var op, j := if mode.Input? then '<' else '>', i + |Sub(sub)|;
            && At(s, i, Sub(sub)) && Next(s, j, op) && At(s, j + 1, file)
            && |Print(Redir(sub, file, mode))| == |Sub(sub)| + 1 + |file|
  {
    var op := if mode.Input? then "<" else ">";
    assert Print(Redir(sub, file, mode)) == Sub(sub) + op + file == Sub(sub) + (op + file);
    AtBoth(s, i, Sub(sub), op + file);
    AtBoth(s, i + |Sub(sub)|, op, file);
    AtChar(s, i + |Sub(sub)|, op[0]);
  }

  /** What is printed never starts with a blank. */
  lemma PrintStarts(s: string, i: nat, c: Cmd<string>)
    requires i <= |s| && At(s, i, Print(c)) && Writable(c) && Stop(s, i + |Print(c)|)
    ensures Skip(s, i) == i
    ensures c.Exec? ==> Clear(s, i) && (i < |s| ==> s[i] != '(')
  {
    match c
    case Exec(argv) => WordsStart(s, i, argv);
    case Redir(sub, file, mode) =>
      hide At, Sub, Skip;
      RedirParts(s, i, sub, file, mode);
      ParenNoSpace(s, i, sub);
    case Pipe(left, right) =>
      hide At, Sub, Skip;
      TwoParts(s, i, left, "|", right);
      ParenNoSpace(s, i, left);
    case List(left, right) =>
      hide At, Sub, Skip;
      TwoParts(s, i, left, ";", right);
      ParenNoSpace(s, i, left);
    case Back(sub) =>
      hide At, Sub, Skip;
      BackParts(s, i, sub);
      ParenNoSpace(s, i, sub);
  }

  lemma WordsStart(s: string, i: nat, argv: seq<string>)
    requires i <= |s| && At(s, i, Join(argv)) && Writable(Exec(argv)) && Stop(s, i + |Join(argv)|)
    ensures Skip(s, i) == i && Clear(s, i) && (i < |s| ==> s[i] != '(')
  {}

  /** A command read as a whole line, where a line may stop. */
  lemma {:induction false} LineRoundTrip(s: string, i: nat, c: Cmd<string>)
    requires i <= |s| && At(s, i, Print(c)) && Writable(c) && Stop(s, i + |Print(c)|)
    ensures Reads(s, ReadLine(s, i), c, i + |Print(c)|)
    decreases c, 1
  {
    hide Reads, ReadLine, At, Stop;
    match c
    case Exec(argv) => ExecLine(s, i, argv);
    case Redir(sub, file, mode) => RedirLine(s, i, sub, file, mode);
    case Pipe(left, right) => PipeLine(s, i, left, right);
    case List(left, right) => ListLine(s, i, left, right);
    case Back(sub) => BackLine(s, i, sub);
  }

  lemma ReadsAre(s: string, r: Result<Cmd<Span>>, c: Cmd<string>, j: nat)
    requires Reads(s, r, c, j)
    ensures r.Ok? && r == Ok(r.value, j) && WordsOk(s, r.value) && Text(s, r.value) == c
  {}

  /** A tree over two trees that read as left and right. */
  lemma MakesTwo(s: string, a: Cmd<Span>, left: Cmd<string>, b: Cmd<Span>, right: Cmd<string>, j: nat)
    requires WordsOk(s, a) && WordsOk(s, b) && Text(s, a) == left && Text(s, b) == right
    ensures WordsOk(s, Pipe(a, b)) && WordsOk(s, List(a, b)) && WordsOk(s, Back(a))
    ensures Reads(s, Ok(Pipe(a, b), j), Pipe(left, right), j) && Reads(s, Ok(List(a, b), j), List(left, right), j)
    ensures Reads(s, Ok(Back(a), j), Back(left), j)
  {}

  /** Where the parts of a printed pipe or list stand. */
  lemma TwoFacts(s: string, i: nat, left: Cmd<string>, op: char, right: Cmd<string>)
    requires i <= |s| && At(s, i, Sub(left) + [op] + Sub(right)) && (op == '|' || op == ';')
    requires Stop(s, i + |Sub(left) + [op] + Sub(right)|)
    ensures var j := i + |Sub(left)|; var end := j + 1 + |Sub(right)|;
            && At(s, i, Sub(left)) && Clear(s, j) && Next(s, j, op) && Next(s, j + 1, '(') && At(s, j + 1, Sub(right))
            && Clear(s, end) && end == i + |Sub(left) + [op] + Sub(right)| && end <= |s|
            && (end < |s| ==> s[end] == ')')
  {
    hide At, Sub, Skip, Peeks, Print;
    TwoParts(s, i, left, [op], right);
    ParenNoSpace(s, i + |Sub(left)| + 1, right);
    AtEnd(s, i + |Sub(left)| + 1, Sub(right));
  }

  lemma AtEnd(s: string, i: nat, p: string)
    requires At(s, i, p)
    ensures i + |p| <= |s|
  {}

  lemma {:induction false} PipeLine(s: string, i: nat, left: Cmd<string>, right: Cmd<string>)
    requires i <= |s| && At(s, i, Sub(left) + "|" + Sub(right)) && Writable(left) && Writable(right)
    requires Stop(s, i + |Sub(left) + "|" + Sub(right)|)
    ensures Reads(s, ReadLine(s, i), Pipe(left, right), i + |Sub(left) + "|" + Sub(right)|)
    decreases Pipe(left, right), 0
  {
    hide ReadLine, ReadPipe, ReadExec, At, Sub, Reads, Writable, Text, WordsOk, Clear, Next, Print;
    var j := i + |Sub(left)|;
    var end := j + 1 + |Sub(right)|;
    TwoFacts(s, i, left, '|', right);
    SubRoundTrip(s, i, left);
    SubRoundTrip(s, j + 1, right);
    ReadsAre(s, ReadExec(s, i), left, j);
    ReadsAre(s, ReadExec(s, j + 1), right, end);
    var a, b := ReadExec(s, i).value, ReadExec(s, j + 1).value;
    PipeEnds(s, j + 1, b, end);
    PipeMore(s, i, a, j, b, end);
    MakesTwo(s, a, left, b, right, end);
    LineEnds(s, i, Pipe(a, b), end);
  }

  lemma {:induction false} ListLine(s: string, i: nat, left: Cmd<string>, right: Cmd<string>)
    requires i <= |s| && At(s, i, Sub(left) + ";" + Sub(right)) && Writable(left) && Writable(right)
    requires Stop(s, i + |Sub(left) + ";" + Sub(right)|)
    ensures Reads(s, ReadLine(s, i), List(left, right), i + |Sub(left) + ";" + Sub(right)|)
    decreases List(left, right), 0
  {
    hide ReadLine, ReadPipe, ReadExec, At, Sub, Reads, Writable, Text, WordsOk, Clear, Print;
    var j := i + |Sub(left)|;
    var end := j + 1 + |Sub(right)|;
    TwoFacts(s, i, left, ';', right);
    SubRoundTrip(s, i, left);
    SubRoundTrip(s, j + 1, right);
    ReadsAre(s, ReadExec(s, i), left, j);
    ReadsAre(s, ReadExec(s, j + 1), right, end);
    var a, b := ReadExec(s, i).value, ReadExec(s, j + 1).value;
    PipeEnds(s, j + 1, b, end);
    LineEnds(s, j + 1, b, end);
    PipeEnds(s, i, a, j);
    MakesTwo(s, a, left, b, right, end);
    LineList(s, i, a, j, b, end);
  }

  lemma {:induction false} BackLine(s: string, i: nat, sub: Cmd<string>)
    requires i <= |s| && At(s, i, Sub(sub) + "&") && Writable(sub) && Stop(s, i + |Sub(sub)| + 1)
    ensures Reads(s, ReadLine(s, i), Back(sub), i + |Sub(sub)| + 1)
    decreases Back(sub), 0
  {
    var j := i + |Sub(sub)|;
    hide ReadLine, ReadPipe, ReadExec, At, Sub, Reads, Writable, Text, WordsOk, Print, Skip, Peeks, TokenAt;
    BackParts(s, i, sub);
    SubRoundTrip(s, i, sub);
    ReadsAre(s, ReadExec(s, i), sub, j);
    var a := ReadExec(s, i).value;
    PipeEnds(s, i, a, j);
    MakesTwo(s, a, sub, a, sub, j + 1);
    LineBack(s, i, a, j);
  }

  lemma ExecLine(s: string, i: nat, argv: seq<string>)
    requires i <= |s| && At(s, i, Join(argv)) && Writable(Exec(argv)) && Stop(s, i + |Join(argv)|)
    ensures Reads(s, ReadLine(s, i), Exec(argv), i + |Join(argv)|)
  {
    hide ReadLine, ReadPipe, ReadExec, ReadArgs, At, Join, Text, WordsOk, Reads, Skip, Peeks, TokenAt;
    var end := i + |Join(argv)|;
    WordsStart(s, i, argv);
    ArgsRoundTrip(s, i, argv, []);
    ExecWords(s, i);
    var r := ReadArgs(s, i, [], []);
    ExecReads(s, r, argv);
    PipeEnds(s, i, r.value, end);
    LineEnds(s, i, r.value, end);
  }

  lemma ExecReads(s: string, r: Result<Cmd<Span>>, argv: seq<string>)
    requires r.Ok? && r.value.Exec? && WordsOk(s, r.value) && Texts(s, r.value.argv) == Texts(s, []) + argv
    ensures Reads(s, r, Exec(argv), r.next) && r == Ok(r.value, r.next)
  {}

  /** A command in parentheses, whatever may follow it but a redirection or a blank. */
  lemma {:induction false} SubRoundTrip(s: string, i: nat, c: Cmd<string>)
    requires i <= |s| && At(s, i, Sub(c)) && Writable(c) && Clear(s, i + |Sub(c)|)
    ensures Reads(s, ReadExec(s, i), c, i + |Sub(c)|)
    decreases c, 3
  {
    hide ReadExec, ReadRedirs, At, Sub, WordsOk, Text, Writable, Print;
    NoRedirs(s, i + |Sub(c)|, []);
    var sub := BlockInner(s, i, c);
    assert Wrap(sub, []) == sub;
  }

  /** What is inside the parentheses is read, and then the redirections after them. */
  lemma {:induction false} BlockInner(s: string, i: nat, c: Cmd<string>) returns (sub: Cmd<Span>)
    requires i <= |s| && At(s, i, Sub(c)) && Writable(c)
    ensures WordsOk(s, sub) && Text(s, sub) == c && i + |Sub(c)| <= |s|
    ensures var rs := ReadRedirs(s, i + |Sub(c)|, []);
            ReadExec(s, i) == if rs.Panic? then Panic(rs.msg) else Ok(Wrap(sub, rs.value), rs.next)
    decreases c, 2
  {
    hide ReadLine, ReadExec, ReadRedirs, At, Print, Sub, WordsOk, Text, Writable, Wrap, Skip, Peeks, TokenAt;
    var j := i + 1 + |Print(c)|;
    SubParts(s, i, c);
    PrintStarts(s, i + 1, c);
    LineRoundTrip(s, i + 1, c);
    ReadsAre(s, ReadLine(s, i + 1), c, j);
    sub := ReadLine(s, i + 1).value;
    ExecBlock(s, i, sub, j);
  }

  lemma SubParts(s: string, i: nat, c: Cmd<string>)
    requires At(s, i, Sub(c))
    ensures var j := i + 1 + |Print(c)|;
            && Next(s, i, '(') && At(s, i + 1, Print(c)) && Next(s, j, ')') && j + 1 == i + |Sub(c)| <= |s|
  {
    ParenNoSpace(s, i, c);
    assert Sub(c) == "(" + Print(c) + ")" == "(" + (Print(c) + ")");
    AtBoth(s, i, "(", Print(c) + ")");
    AtBoth(s, i + 1, Print(c), ")");
    AtChar(s, i + 1 + |Print(c)|, ')');
  }

  lemma OneRedir(s: string, j: nat, file: string, mode: Mode)
    requires Next(s, j, if mode.Input? then '<' else '>') && At(s, j + 1, file) && GoodWord(file)
    requires Stop(s, j + 1 + |file|)
    ensures IsWord(s, Span(j + 1, j + 1 + |file|)) && Chars(s, Span(j + 1, j + 1 + |file|)) == file
    ensures ReadRedirs(s, j, []) == Ok([Redirection(Span(j + 1, j + 1 + |file|), mode)], j + 1 + |file|)
  {
    var end := j + 1 + |file|;
    WordToken(s, j + 1, file);
    PeeksAt(s, j, "<>");
    PeeksAt(s, j + 1, "");
    PeeksAt(s, end, "");
    assert TokenAt(s, j) == Token(s[j], Span(j, j + 1), j + 1);
    var rs := [Redirection(Span(j + 1, end), mode)];
    NoRedirs(s, end, rs);
    hide Skip, Peeks, TokenAt;
    assert [] + rs == rs;
  }

  lemma {:induction false} RedirLine(s: string, i: nat, sub: Cmd<string>, file: string, mode: Mode)
    requires i <= |s| && At(s, i, Print(Redir(sub, file, mode))) && Writable(sub) && GoodWord(file)
    requires Stop(s, i + |Print(Redir(sub, file, mode))|)
    ensures Reads(s, ReadLine(s, i), Redir(sub, file, mode), i + |Print(Redir(sub, file, mode))|)
    decreases Redir(sub, file, mode), 0
  {
    hide ReadLine, ReadPipe, ReadExec, ReadRedirs, At, Sub, Print, Writable, GoodWord, Text, WordsOk, Wrap, Reads;
    hide Skip, Peeks, TokenAt, IsWord;
    RedirParts(s, i, sub, file, mode);
    var j, end := i + |Sub(sub)|, i + |Sub(sub)| + 1 + |file|;
    OneRedir(s, j, file, mode);
    var inner := BlockInner(s, i, sub);
    var span := Span(j + 1, end);
    WrapOne(s, inner, sub, span, file, mode, end);
    PipeEnds(s, i, Redir(inner, span, mode), end);
    LineEnds(s, i, Redir(inner, span, mode), end);
  }

  lemma WrapOne(s: string, inner: Cmd<Span>, sub: Cmd<string>, span: Span, file: string, mode: Mode, end: nat)
    requires WordsOk(s, inner) && Text(s, inner) == sub && IsWord(s, span) && Chars(s, span) == file
    ensures Wrap(inner, [Redirection(span, mode)]) == Redir(inner, span, mode)
    ensures WordsOk(s, Redir(inner, span, mode))
    ensures Reads(s, Ok(Redir(inner, span, mode), end), Redir(sub, file, mode), end)
  {}

  /** Printing any command the shell can hold and parsing what was printed gives the command back. */
  lemma RoundTrip(c: Cmd<string>)
    requires Writable(c)
    ensures var s := Print(c); ReadCmd(s).Ok? && Text(s, ReadCmd(s).value) == c
  {
    var s := Print(c);
    assert s[0..0 + |s|] == s;
    LineRoundTrip(s, 0, c);
  }
}
