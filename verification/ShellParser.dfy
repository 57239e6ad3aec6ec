/** user/sh.c: the tokenizer and the recursive-descent parser of the shell.  The input line is a string without
    NUL; the parser's pointers into it are positions, and reading at its end gives NUL.  Each parsing routine
    is given as a function of the line and the cursor, and as a method with the loops of the program. */
module ShellParser {
  const MAXARGS: nat := 10

  predicate IsSpace(c: char) {
    c == ' ' || c == '\t' || c == '\r' || c == '\n' || c == '\U{b}'
  }

  predicate IsSymbol(c: char) {
    c == '<' || c == '|' || c == '>' || c == '&' || c == ';' || c == '(' || c == ')'
  }

  predicate IsWordChar(c: char) {
    c != '\0' && !IsSpace(c) && !IsSymbol(c)
  }

  predicate NoNul(s: string) {
    forall i :: 0 <= i < |s| ==> s[i] != '\0'
  }

  function Chr(s: string, p: nat): char {
    if p < |s| then s[p] else '\0'
  }

  datatype Span = Span(q: nat, eq: nat)
  datatype Mode = In | Out | Append
  datatype File = File(name: Span, mode: Mode)

  datatype Cmd =
    | Exec(args: seq<Span>)
    | Redir(cmd: Cmd, file: Span, mode: Mode)
    | PipeCmd(left: Cmd, right: Cmd)
    | List(left: Cmd, right: Cmd)
    | Back(cmd: Cmd)

  // ---------- Tokens ----------

  function Skip(s: string, p: nat): (r: nat)
    requires p <= |s|
    ensures p <= r <= |s| && !IsSpace(Chr(s, r))
    ensures !IsSpace(Chr(s, p)) ==> r == p
    decreases |s| - p
  {
    if p < |s| && IsSpace(s[p]) then Skip(s, p + 1) else p
  }

  function WordEnd(s: string, p: nat): (r: nat)
    requires p <= |s|
    ensures p <= r <= |s| && (r < |s| ==> IsSpace(s[r]) || IsSymbol(s[r]))
    ensures forall i :: p <= i < r ==> !IsSpace(s[i]) && !IsSymbol(s[i])
    decreases |s| - p
  {
    if p < |s| && !IsSpace(s[p]) && !IsSymbol(s[p]) then WordEnd(s, p + 1) else p
  }

  datatype Token = Token(kind: char, q: nat, eq: nat, pos: nat)

  /** gettoken: the kind is the symbol, '+' for >>, 'a' for a word, and NUL at the end. */
  function GetToken(s: string, p: nat): (t: Token)
    requires p <= |s|
    ensures p <= t.q <= t.eq <= t.pos <= |s|
    ensures NoNul(s) ==> (t.kind == '\0' <==> t.q == |s|) && (t.q < |s| ==> t.q < t.eq)
    ensures NoNul(s) && t.kind == 'a' ==> IsWord(s, Span(t.q, t.eq))
  {
    var q := Skip(s, p);
    var c := Chr(s, q);
    if c == '\0' then Token(c, q, q, Skip(s, q))
    else if c == '>' && Chr(s, q + 1) == '>' then Token('+', q, q + 2, Skip(s, q + 2))
    else if IsSymbol(c) then Token(c, q, q + 1, Skip(s, q + 1))
    else Token('a', q, WordEnd(s, q), Skip(s, WordEnd(s, q)))
  }

  /** A maximal run of word characters. */
  predicate IsWord(s: string, w: Span) {
    && w.q < w.eq <= |s| && (forall i :: w.q <= i < w.eq ==> IsWordChar(s[i]))
    && (w.eq < |s| ==> !IsWordChar(s[w.eq]))
  }

  /** peek: the next character that is not space is one of these. */
  predicate Peek(s: string, p: nat, toks: string)
    requires p <= |s|
  {
    Chr(s, Skip(s, p)) != '\0' && Chr(s, Skip(s, p)) in toks
  }

  // ---------- The parser, as functions ----------

  datatype Files = NoFiles | Files(fs: seq<File>, pos: nat)
  datatype Words = NoWords | Words(args: seq<Span>, fs: seq<File>, pos: nat)
  datatype Parse = Panic | Parse(cmd: Cmd, pos: nat)

  function ModeOf(kind: char): Mode {
    if kind == '<' then In else if kind == '>' then Out else Append
  }

  /** Words, and room for the null that ends argv. */
  predicate ArgsOk(s: string, args: seq<Span>) {
    |args| < MAXARGS && forall a :: a in args ==> IsWord(s, a)
  }

  predicate FilesOk(s: string, fs: seq<File>) {
    forall f :: f in fs ==> IsWord(s, f.name)
  }

  /** parseredirs: a panic, or the redirections and where they end. */
  function ParseRedirs(s: string, p: nat): (r: Files)
    requires p <= |s| && NoNul(s)
    ensures r.Files? ==> p <= r.pos <= |s| && FilesOk(s, r.fs)
    decreases |s| - p
  {
    if !Peek(s, p, "<>") then Files([], Skip(s, p)) else
      var t := GetToken(s, Skip(s, p));
      var f := GetToken(s, t.pos);
      if f.kind != 'a' then NoFiles else
        match ParseRedirs(s, f.pos)
        case NoFiles => NoFiles
        case Files(fs, pos) => Files([File(Span(f.q, f.eq), ModeOf(t.kind))] + fs, pos)
  }

  /** The loop of parseexec over the words and the redirections among them. */
  function ParseWords(s: string, p: nat, args: seq<Span>, fs: seq<File>): (r: Words)
    requires p <= |s| && NoNul(s) && ArgsOk(s, args) && FilesOk(s, fs)
    ensures r.Words? ==> p <= r.pos <= |s| && ArgsOk(s, r.args) && FilesOk(s, r.fs)
    decreases |s| - p
  {
    if Peek(s, p, "|)&;") then Words(args, fs, Skip(s, p)) else
      var t := GetToken(s, Skip(s, p));
      if t.kind == '\0' then Words(args, fs, t.pos)
      else if t.kind != 'a' || |args| + 1 >= MAXARGS then NoWords
      else
        match ParseRedirs(s, t.pos)
        case NoFiles => NoWords
        case Files(more, pos) =>
          assert ArgsOk(s, args + [Span(t.q, t.eq)]) && FilesOk(s, fs + more);
          ParseWords(s, pos, args + [Span(t.q, t.eq)], fs + more)
  }

  /** The command inside its redirections, the first innermost. */
  function Wrap(cmd: Cmd, fs: seq<File>): Cmd {
    if fs == [] then cmd else Redir(Wrap(cmd, fs[..|fs| - 1]), fs[|fs| - 1].name, fs[|fs| - 1].mode)
  }

  /** Every name in the command is a word of the line. */
  predicate AllWords(s: string, cmd: Cmd) {
    match cmd
    case Exec(args) => ArgsOk(s, args)
    case Redir(c, f, _) => AllWords(s, c) && IsWord(s, f)
    case PipeCmd(l, r) => AllWords(s, l) && AllWords(s, r)
    case List(l, r) => AllWords(s, l) && AllWords(s, r)
    case Back(c) => AllWords(s, c)
  }

  lemma {:induction false} WrapWords(s: string, cmd: Cmd, fs: seq<File>)
    requires AllWords(s, cmd) && FilesOk(s, fs)
    ensures AllWords(s, Wrap(cmd, fs))
  {
    if fs != [] {
      WrapWords(s, cmd, fs[..|fs| - 1]);
    }
  }

  function ParseExec(s: string, p: nat): (r: Parse)
    requires p <= |s| && NoNul(s)
    ensures r.Parse? ==> p <= r.pos <= |s| && AllWords(s, r.cmd)
    decreases |s| - p, 1
  {
    if Peek(s, p, "(") then ParseBlock(s, Skip(s, p)) else
      match ParseRedirs(s, Skip(s, p))
      case NoFiles => Panic
      case Files(fs, pos) =>
        match ParseWords(s, pos, [], fs)
        case NoWords => Panic
        case Words(args, all, end) => WrapWords(s, Exec(args), all); Parse(Wrap(Exec(args), all), end)
  }

  function ParseBlock(s: string, p: nat): (r: Parse)
    requires p <= |s| && NoNul(s)
    ensures r.Parse? ==> p <= r.pos <= |s| && AllWords(s, r.cmd)
    decreases |s| - p, 0
  {
    if !Peek(s, p, "(") then Panic else
      match ParseLine(s, GetToken(s, Skip(s, p)).pos)
      case Panic => Panic
      case Parse(cmd, pos) =>
        if !Peek(s, pos, ")") then Panic else
          match ParseRedirs(s, GetToken(s, Skip(s, pos)).pos)
          case NoFiles => Panic
          case Files(fs, end) => WrapWords(s, cmd, fs); Parse(Wrap(cmd, fs), end)
  }

  function ParsePipe(s: string, p: nat): (r: Parse)
    requires p <= |s| && NoNul(s)
    ensures r.Parse? ==> p <= r.pos <= |s| && AllWords(s, r.cmd)
    decreases |s| - p, 2
  {
    match ParseExec(s, p)
    case Panic => Panic
    case Parse(l, pos) =>
      if !Peek(s, pos, "|") then Parse(l, Skip(s, pos)) else
        match ParsePipe(s, GetToken(s, Skip(s, pos)).pos)
        case Panic => Panic
        case Parse(r, end) => Parse(PipeCmd(l, r), end)
  }

  /** The loop of parseline over the & signs. */
  function ParseBacks(s: string, p: nat, cmd: Cmd): (r: Parse)
    requires p <= |s| && NoNul(s) && AllWords(s, cmd)
    ensures r.Parse? && p <= r.pos <= |s| && AllWords(s, r.cmd)
    decreases |s| - p
  {
    if !Peek(s, p, "&") then Parse(cmd, Skip(s, p)) else ParseBacks(s, GetToken(s, Skip(s, p)).pos, Back(cmd))
  }

  function ParseLine(s: string, p: nat): (r: Parse)
    requires p <= |s| && NoNul(s)
    ensures r.Parse? ==> p <= r.pos <= |s| && AllWords(s, r.cmd)
    decreases |s| - p, 3
  {
    match ParsePipe(s, p)
    case Panic => Panic
    case Parse(c, pos) =>
      var b := ParseBacks(s, pos, c);
      if !Peek(s, b.pos, ";") then Parse(b.cmd, Skip(s, b.pos)) else
        match ParseLine(s, GetToken(s, Skip(s, b.pos)).pos)
        case Panic => Panic
        case Parse(r, end) => Parse(List(b.cmd, r), end)
  }

  /** parsecmd, up to nulterminate: the whole line is one command, or a panic. */
  function ParseCmd(s: string): (r: Parse)
    requires NoNul(s)
    ensures r.Parse? ==> r.pos == |s| && AllWords(s, r.cmd)
  {
    match ParseLine(s, 0)
    case Panic => Panic
    case Parse(cmd, pos) => if Skip(s, pos) != |s| then Panic else Parse(cmd, |s|)
  }

  // ---------- The parser, as the program runs it ----------

  /** gettoken. */
  method NextToken(s: string, p: nat) returns (t: Token)
    requires p <= |s| && NoNul(s)
    ensures t == GetToken(s, p)
  {
    var i := SkipSpace(s, p);
    var q := i;
    var kind := Chr(s, i);
    if kind == '\0' {
    } else if kind == '|' || kind == '(' || kind == ')' || kind == ';' || kind == '&' || kind == '<' {
      i := i + 1;
    } else if kind == '>' {
      i := i + 1;
      if Chr(s, i) == '>' {
        kind := '+';
        i := i + 1;
      }
    } else {
      kind := 'a';
      while i < |s| && !IsSpace(s[i]) && !IsSymbol(s[i])
        invariant q <= i <= |s| && WordEnd(s, q) == WordEnd(s, i)
      {
        i := i + 1;
      }
    }
    var eq := i;
    i := SkipSpace(s, i);
    t := Token(kind, q, eq, i);
  }

  method SkipSpace(s: string, p: nat) returns (i: nat)
    requires p <= |s|
    ensures i == Skip(s, p)
  {
    i := p;
    while i < |s| && IsSpace(s[i])
      invariant p <= i <= |s| && Skip(s, p) == Skip(s, i)
    {
      i := i + 1;
    }
  }

  /** peek, which also moves the cursor past spaces. */
  method PeekNext(s: string, p: nat, toks: string) returns (found: bool, i: nat)
    requires p <= |s|
    ensures found == Peek(s, p, toks) && i == Skip(s, p)
  {
    i := SkipSpace(s, p);
    found := Chr(s, i) != '\0' && Chr(s, i) in toks;
  }

  /** What comes behind redirections already found. */
  ghost function After(fs: seq<File>, r: Files): Files {
    match r
    case NoFiles => NoFiles
    case Files(more, pos) => Files(fs + more, pos)
  }

  /** parseredirs. */
  method Redirections(s: string, p: nat) returns (r: Files)
    requires p <= |s| && NoNul(s)
    ensures r == ParseRedirs(s, p)
  {
    hide GetToken, Peek, FilesOk, IsWord;
    var fs: seq<File> := [];
    var found, i := PeekNext(s, p, "<>");
    ghost var at := p;
    while found
      invariant at <= |s| && i == Skip(s, at) && found == Peek(s, at, "<>") && p <= at
      invariant ParseRedirs(s, p) == After(fs, ParseRedirs(s, at))
      decreases |s| - at
    {
      var t := NextToken(s, i);
      var f := NextToken(s, t.pos);
      if f.kind != 'a' {
        return NoFiles;
      }
      ghost var rest := ParseRedirs(s, f.pos);
      assert rest.Files? ==>
               fs + ([File(Span(f.q, f.eq), ModeOf(t.kind))] + rest.fs) == fs + [File(Span(f.q, f.eq), ModeOf(t.kind))]
               + rest.fs;
      fs := fs + [File(Span(f.q, f.eq), ModeOf(t.kind))];
      at := f.pos;
      found, i := PeekNext(s, f.pos, "<>");
    }
    r := Files(fs, i);
  }

  /** parseexec. */
  method Simple(s: string, p: nat) returns (r: Parse)
    requires p <= |s| && NoNul(s)
    ensures r == ParseExec(s, p)
    decreases |s| - p, 1
  {
    var open, i := PeekNext(s, p, "(");
    if open {
      r := Block(s, i);
      return;
    }
    var files := Redirections(s, i);
    if files.NoFiles? {
      return Panic;
    }
    var words := WordLoop(s, files.pos, files.fs);
    r := if words.NoWords? then Panic else Parse(Wrap(Exec(words.args), words.fs), words.pos);
  }

  /** The loop of parseexec. */
  method WordLoop(s: string, p: nat, first: seq<File>) returns (r: Words)
    requires p <= |s| && NoNul(s) && FilesOk(s, first)
    ensures r == ParseWords(s, p, [], first)
  {
    hide ArgsOk, FilesOk, Peek, GetToken, ParseRedirs;
    ArgsNone(s);
    var args: seq<Span>, fs := [], first;
    var stop, j := PeekNext(s, p, "|)&;");
    ghost var at := p;
    while !stop
      invariant at <= |s| && p <= at && j == Skip(s, at) && stop == Peek(s, at, "|)&;") && ArgsOk(s, args)
                && FilesOk(s, fs)
      invariant ParseWords(s, p, [], first) == ParseWords(s, at, args, fs)
      decreases |s| - at
    {
      var t := NextToken(s, j);
      if t.kind == '\0' {
        j := t.pos;
        break;
      }
      if t.kind != 'a' {
        return NoWords;
      }
      if |args| + 1 >= MAXARGS {
        return NoWords;
      }
      ArgsMore(s, args, Span(t.q, t.eq));
      args := args + [Span(t.q, t.eq)];
      var files := Redirections(s, t.pos);
      if files.NoFiles? {
        return NoWords;
      }
      FilesMore(s, fs, files.fs);
      fs := fs + files.fs;
      at := files.pos;
      stop, j := PeekNext(s, files.pos, "|)&;");
    }
    r := Words(args, fs, j);
  }

  lemma ArgsNone(s: string)
    ensures ArgsOk(s, [])
  {
  }

  lemma ArgsMore(s: string, args: seq<Span>, w: Span)
    requires ArgsOk(s, args) && IsWord(s, w) && |args| + 1 < MAXARGS
    ensures ArgsOk(s, args + [w])
  {
  }

  lemma FilesMore(s: string, fs: seq<File>, more: seq<File>)
    requires FilesOk(s, fs) && FilesOk(s, more)
    ensures FilesOk(s, fs + more)
  {
  }

  /** parseblock. */
  method Block(s: string, p: nat) returns (r: Parse)
    requires p <= |s| && NoNul(s)
    ensures r == ParseBlock(s, p)
    decreases |s| - p, 0
  {
    var open, i := PeekNext(s, p, "(");
    if !open {
      return Panic;
    }
    var t := NextToken(s, i);
    var line := Line(s, t.pos);
    if line.Panic? {
      return Panic;
    }
    var close, j := PeekNext(s, line.pos, ")");
    if !close {
      return Panic;
    }
    t := NextToken(s, j);
    var files := Redirections(s, t.pos);
    if files.NoFiles? {
      return Panic;
    }
    r := Parse(Wrap(line.cmd, files.fs), files.pos);
  }

  /** parsepipe. */
  method Pipeline(s: string, p: nat) returns (r: Parse)
    requires p <= |s| && NoNul(s)
    ensures r == ParsePipe(s, p)
    decreases |s| - p, 2
  {
    r := Simple(s, p);
    if r.Panic? {
      return;
    }
    var bar, i := PeekNext(s, r.pos, "|");
    if !bar {
      return Parse(r.cmd, i);
    }
    var t := NextToken(s, i);
    var rest := Pipeline(s, t.pos);
    r := if rest.Panic? then Panic else Parse(PipeCmd(r.cmd, rest.cmd), rest.pos);
  }

  /** parseline. */
  method Line(s: string, p: nat) returns (r: Parse)
    requires p <= |s| && NoNul(s)
    ensures r == ParseLine(s, p)
    decreases |s| - p, 3
  {
    r := Pipeline(s, p);
    if r.Panic? {
      return;
    }
    ghost var first := r;
    var cmd := r.cmd;
    var amp, i := PeekNext(s, r.pos, "&");
    ghost var at := r.pos;
    while amp
      invariant at <= |s| && p <= at && i == Skip(s, at) && amp == Peek(s, at, "&") && AllWords(s, cmd)
      invariant ParseBacks(s, first.pos, first.cmd) == ParseBacks(s, at, cmd)
      decreases |s| - at
    {
      var t := NextToken(s, i);
      cmd := Back(cmd);
      at := t.pos;
      amp, i := PeekNext(s, t.pos, "&");
    }
    var semi, k := PeekNext(s, i, ";");
    if !semi {
      return Parse(cmd, k);
    }
    var t := NextToken(s, k);
    var rest := Line(s, t.pos);
    r := if rest.Panic? then Panic else Parse(List(cmd, rest.cmd), rest.pos);
  }

  /** parsecmd, up to nulterminate. */
  method Command(s: string) returns (r: Parse)
    requires NoNul(s)
    ensures r == ParseCmd(s)
  {
    r := Line(s, 0);
    if r.Parse? {
      var any, i := PeekNext(s, r.pos, "");
      r := if i != |s| then Panic else Parse(r.cmd, i);
    }
  }

  // ---------- nulterminate ----------

  ghost function AsSet(args: seq<Span>): set<Span> {
    set a | a in args
  }

  ghost function Names(cmd: Cmd): set<Span> {
    match cmd
    case Exec(args) => AsSet(args)
    case Redir(c, f, _) => Names(c) + {f}
    case PipeCmd(l, r) => Names(l) + Names(r)
    case List(l, r) => Names(l) + Names(r)
    case Back(c) => Names(c)
  }

  ghost function Ends(ws: set<Span>): set<nat> {
    set w | w in ws :: w.eq
  }

  ghost function Cleared(b: seq<char>, at: set<nat>): seq<char> {
    seq(|b|, i requires 0 <= i < |b| => if i in at then '\0' else b[i])
  }

  lemma ClearedMore(b: seq<char>, x: set<nat>, y: set<nat>)
    ensures Cleared(Cleared(b, x), y) == Cleared(b, x + y)
  {
  }

  lemma EndsMore(x: set<Span>, y: set<Span>)
    ensures Ends(x + y) == Ends(x) + Ends(y)
  {
  }

  /** nulterminate writes NUL at the end of every name, and nowhere else. */
  method NulTerminate(buf: array<char>, cmd: Cmd)
    requires forall w :: w in Names(cmd) ==> w.eq < buf.Length
    modifies buf
    ensures buf[..] == Cleared(old(buf[..]), Ends(Names(cmd)))
    decreases cmd
  {
    hide Cleared, Ends;
    match cmd
    case Exec(args) =>
      ClearArgs(buf, args);
    case Redir(c, f, _) =>
      NulTerminate(buf, c);
      ghost var b := buf[..];
      assert f in Names(cmd);
      buf[f.eq] := '\0';
      ClearOne(b, f, buf[..]);
      ClearTwo(old(buf[..]), b, buf[..], Names(c), {f});
    case PipeCmd(l, r) =>
      NulTerminate(buf, l);
      ghost var b := buf[..];
      NulTerminate(buf, r);
      ClearTwo(old(buf[..]), b, buf[..], Names(l), Names(r));
    case List(l, r) =>
      NulTerminate(buf, l);
      ghost var b := buf[..];
      NulTerminate(buf, r);
      ClearTwo(old(buf[..]), b, buf[..], Names(l), Names(r));
    case Back(c) =>
      NulTerminate(buf, c);
  }

  method ClearArgs(buf: array<char>, args: seq<Span>)
    requires forall a :: a in args ==> a.eq < buf.Length
    modifies buf
    ensures buf[..] == Cleared(old(buf[..]), Ends(AsSet(args)))
  {
    var i := 0;
    ClearNone(buf[..]);
    assert args[..0] == [];
    while i < |args|
      invariant i <= |args| && buf[..] == Cleared(old(buf[..]), Ends(AsSet(args[..i])))
    {
      ghost var b := buf[..];
      assert args[i] in args;
      buf[args[i].eq] := '\0';
      ClearOne(b, args[i], buf[..]);
      ClearTwo(old(buf[..]), b, buf[..], AsSet(args[..i]), {args[i]});
      assert args[..i + 1] == args[..i] + [args[i]];
      assert AsSet(args[..i + 1]) == AsSet(args[..i]) + {args[i]};
      i := i + 1;
    }
    assert args[..|args|] == args;
  }

  lemma ClearNone(b: seq<char>)
    ensures Cleared(b, Ends({})) == b
  {
  }

  lemma ClearOne(b: seq<char>, w: Span, b': seq<char>)
    requires w.eq < |b| && b' == b[w.eq := '\0']
    ensures b' == Cleared(b, Ends({w}))
  {
    assert Ends({w}) == {w.eq};
  }

  lemma ClearTwo(b0: seq<char>, b1: seq<char>, b2: seq<char>, x: set<Span>, y: set<Span>)
    requires b1 == Cleared(b0, Ends(x)) && b2 == Cleared(b1, Ends(y))
    ensures b2 == Cleared(b0, Ends(x + y))
  {
    ClearedMore(b0, Ends(x), Ends(y));
    EndsMore(x, y);
  }

  /** A C string. */
  ghost function CString(b: seq<char>, q: nat): string
    decreases |b| - q
  {
    if q < |b| && b[q] != '\0' then [b[q]] + CString(b, q + 1) else []
  }

  lemma {:induction false} NamesAreWords(s: string, cmd: Cmd, w: Span)
    requires AllWords(s, cmd) && w in Names(cmd)
    ensures IsWord(s, w)
  {
    match cmd
    case Exec(args) =>
    case Redir(c, f, _) => if w != f { NamesAreWords(s, c, w); }
    case PipeCmd(l, r) => if w in Names(l) { NamesAreWords(s, l, w); } else { NamesAreWords(s, r, w); }
    case List(l, r) => if w in Names(l) { NamesAreWords(s, l, w); } else { NamesAreWords(s, r, w); }
    case Back(c) => NamesAreWords(s, c, w);
  }

  /** nulterminate overwrites no character of any name: afterwards each name is a C string with its own text. */
  lemma NamesReadBack(s: string, cmd: Cmd, w: Span)
    requires NoNul(s) && AllWords(s, cmd) && w in Names(cmd)
    ensures w.eq <= |s| && w.q < w.eq && CString(Cleared(s + ['\0'], Ends(Names(cmd))), w.q) == s[w.q..w.eq]
  {
    NamesAreWords(s, cmd, w);
    var b := Cleared(s + ['\0'], Ends(Names(cmd)));
    forall i | w.q <= i < w.eq ensures b[i] == s[i] {
      forall x | x in Names(cmd) ensures x.eq != i {
        NamesAreWords(s, cmd, x);
      }
    }
    assert w.eq in Ends(Names(cmd));
    ReadsBack(s, b, w.q, w.eq);
  }

  lemma {:induction false} ReadsBack(s: string, b: seq<char>, q: nat, e: nat)
    requires q <= e <= |s| && e < |b| && b[e] == '\0' && NoNul(s) && forall i :: q <= i < e ==> b[i] == s[i]
    ensures CString(b, q) == s[q..e]
    decreases e - q
  {
    if q < e {
      ReadsBack(s, b, q + 1, e);
      assert s[q..e] == [s[q]] + s[q + 1..e];
    }
  }
}
