/** Printing a command tree and parsing it again (user/sh.c): every tree of words, redirections, pipes, lists
    and background commands with at most nine words per command comes back as it was. */
module ShellRoundTrip {
  import opened ShellParser

  datatype Tree =
    | Run(words: seq<string>)
    | To(cmd: Tree, file: string, mode: Mode)
    | Piped(left: Tree, right: Tree)
    | Then(left: Tree, right: Tree)
    | Behind(cmd: Tree)

  predicate Word(w: string) {
    w != [] && forall i :: 0 <= i < |w| ==> IsWordChar(w[i])
  }

  predicate Printable(t: Tree) {
    match t
    case Run(ws) => |ws| < MAXARGS && forall i :: 0 <= i < |ws| ==> Word(ws[i])
    case To(c, f, _) => Printable(c) && Word(f)
    case Piped(l, r) => Printable(l) && Printable(r)
    case Then(l, r) => Printable(l) && Printable(r)
    case Behind(c) => Printable(c)
  }

  /** What the parser's tree over the line s says. */
  function Meaning(s: string, c: Cmd): Tree
    requires AllWords(s, c)
  {
    match c
    case Exec(args) => Run(seq(|args|, i requires 0 <= i < |args| => assert IsWord(s,
        args[i]); s[args[i].q..args[i].eq]))
    case Redir(d, f, m) => To(Meaning(s, d), s[f.q..f.eq], m)
    case PipeCmd(l, r) => Piped(Meaning(s, l), Meaning(s, r))
    case List(l, r) => Then(Meaning(s, l), Meaning(s, r))
    case Back(d) => Behind(Meaning(s, d))
  }

  // ---------- Printing ----------

  /** 0: a simple command; 1: a pipeline; 2: in the background; 3: a list. */
  function Level(t: Tree): nat {
    if t.Piped? then 1 else if t.Behind? then 2 else if t.Then? then 3 else 0
  }

  function Symbol(m: Mode): string {
    match m
    case In => "< "
    case Out => "> "
    case Append => ">> "
  }

  function PrintWords(ws: seq<string>): string {
    if ws == [] then "" else ws[0] + " " + PrintWords(ws[1..])
  }

  /** In a place for commands up to this level, with parentheses if the tree is above it. */
  function Print(level: nat, t: Tree): string
    decreases t, 1
  {
    if Level(t) <= level then Body(t) else "( " + Body(t) + ") "
  }

  function Body(t: Tree): string
    decreases t, 0
  {
    match t
    case Run(ws) => PrintWords(ws)
    case To(c, f, m) => Print(0, c) + (Symbol(m) + (f + " "))
    case Piped(l, r) => Print(0, l) + "| " + Print(1, r)
    case Behind(c) => Print(2, c) + "& "
    case Then(l, r) => Print(2, l) + "; " + Print(3, r)
  }

  // ---------- Pieces of a line ----------

  predicate Has(s: string, p: nat, x: string) {
    p + |x| <= |s| && s[p..p + |x|] == x
  }

  lemma HasParts(s: string, p: nat, x: string, y: string)
    ensures Has(s, p, x + y) <==> Has(s, p, x) && Has(s, p + |x|, y)
  {
    if p + |x| + |y| <= |s| {
      assert s[p..p + |x + y|] == s[p..p + |x|] + s[p + |x|..p + |x| + |y|];
      if Has(s, p, x + y) {
        assert s[p..p + |x|] == (x + y)[..|x|] && s[p + |x|..p + |x| + |y|] == (x + y)[|x|..];
      }
    }
  }

  /** The next character is not space. */
  predicate Clean(s: string, p: nat) {
    p <= |s| && !IsSpace(Chr(s, p))
  }

  /** What may follow a command of this level: what ends its loops in the parser. */
  predicate Follows(level: nat, s: string, p: nat) {
    && p <= |s|
    && var c := Chr(s, p);
    c == '\0' || c == ')' || (level < 3 && c == ';') || (level < 2 && c == '&') || (level < 1 && c == '|')
  }

  lemma SymbolToken(s: string, p: nat, c: char)
    requires NoNul(s) && Has(s, p, [c, ' ']) && IsSymbol(c) && Clean(s, p + 2)
    ensures p <= |s| && Skip(s, p) == p && GetToken(s, p) == Token(c, p, p + 1, p + 2)
  {
    assert s[p..p + 2][0] == c && s[p..p + 2][1] == ' ';
    assert Skip(s, p + 1) == Skip(s, p + 2);
  }

  lemma AppendToken(s: string, p: nat)
    requires NoNul(s) && Has(s, p, ">> ") && Clean(s, p + 3)
    ensures p <= |s| && Skip(s, p) == p && GetToken(s, p) == Token('+', p, p + 2, p + 3)
  {
    assert s[p..p + 3][0] == '>' && s[p..p + 3][1] == '>' && s[p..p + 3][2] == ' ';
    assert Skip(s, p + 2) == Skip(s, p + 3);
  }

  lemma WordToken(s: string, p: nat, w: string)
    requires NoNul(s) && Word(w) && Has(s, p, w) && Has(s, p + |w|, " ") && Clean(s, p + |w| + 1)
    ensures p <= |s| && Skip(s, p) == p && GetToken(s, p) == Token('a', p, p + |w|, p + |w| + 1)
  {
    var e := p + |w|;
    forall i | p <= i < e ensures IsWordChar(s[i]) {
      assert s[i] == s[p..e][i - p];
    }
    assert s[e] == s[e..e + 1][0] == ' ';
    EndOfWord(s, p, e);
    assert Skip(s, e) == Skip(s, e + 1);
  }

  lemma {:induction false} EndOfWord(s: string, p: nat, e: nat)
    requires p <= e < |s| && IsSpace(s[e]) && forall i :: p <= i < e ==> IsWordChar(s[i])
    ensures WordEnd(s, p) == e
    decreases e - p
  {
    if p < e {
      EndOfWord(s, p + 1, e);
    }
  }

  // ---------- Redirections ----------

  datatype Target = Target(file: string, mode: Mode)

  function Base(t: Tree): Tree {
    if t.To? then Base(t.cmd) else t
  }

  function Outs(t: Tree): seq<Target> {
    if t.To? then Outs(t.cmd) + [Target(t.file, t.mode)] else []
  }

  function Onto(t: Tree, os: seq<Target>): Tree {
    if os == [] then t else To(Onto(t, os[..|os| - 1]), os[|os| - 1].file, os[|os| - 1].mode)
  }

  function PrintOut(o: Target): string {
    Symbol(o.mode) + (o.file + " ")
  }

  function PrintOuts(os: seq<Target>): string {
    if os == [] then "" else PrintOut(os[0]) + PrintOuts(os[1..])
  }

  ghost predicate OutsOk(os: seq<Target>) {
    forall i :: 0 <= i < |os| ==> Word(os[i].file)
  }

  lemma {:induction false} PrintOutsMore(os: seq<Target>, o: Target)
    ensures PrintOuts(os + [o]) == PrintOuts(os) + PrintOut(o)
  {
    hide PrintOut;
    if os == [] {
      assert [o][1..] == [] && PrintOuts([o]) == PrintOut(o) + PrintOuts([o][1..]);
    } else {
      assert (os + [o])[1..] == os[1..] + [o];
      PrintOutsMore(os[1..], o);
    }
  }

  /** A tree is its base with its redirections around it, and prints so. */
  lemma {:induction false} Unwrapped(t: Tree)
    requires Printable(t)
    ensures !Base(t).To? && Printable(Base(t)) && OutsOk(Outs(t)) && Onto(Base(t), Outs(t)) == t
    ensures Print(0, t) == Print(0, Base(t)) + PrintOuts(Outs(t))
  {
    if t.To? {
      Unwrapped(t.cmd);
      PrintOutsMore(Outs(t.cmd), Target(t.file, t.mode));
      assert Outs(t)[..|Outs(t)| - 1] == Outs(t.cmd);
      assert Print(0, t) == Print(0, t.cmd) + PrintOut(Target(t.file, t.mode));
    } else {
      assert PrintOuts([]) == "";
      assert Print(0, t) == Print(0, t) + "";
    }
  }

  ghost predicate FileIs(s: string, f: File, o: Target) {
    f.name.q <= f.name.eq <= |s| && s[f.name.q..f.name.eq] == o.file && f.mode == o.mode
  }

  ghost predicate FilesAre(s: string, fs: seq<File>, os: seq<Target>) {
    |fs| == |os| && forall i :: 0 <= i < |fs| ==> FileIs(s, fs[i], os[i])
  }

  lemma OutStarts(s: string, p: nat, os: seq<Target>)
    requires Has(s, p, PrintOuts(os)) && Clean(s, p + |PrintOuts(os)|)
    ensures Clean(s, p) && (os != [] ==> Chr(s, p) == '<' || Chr(s, p) == '>')
  {
    if os != [] {
      HasFirst(s, p, PrintOuts(os));
    }
  }

  lemma HasFirst(s: string, p: nat, x: string)
    requires Has(s, p, x) && x != ""
    ensures Chr(s, p) == x[0] && p < |s|
  {
    assert s[p..p + |x|][0] == x[0];
  }

  lemma WordStarts(s: string, p: nat, w: string)
    requires Word(w) && Has(s, p, w)
    ensures Clean(s, p) && IsWordChar(Chr(s, p))
  {
    HasFirst(s, p, w);
  }

  /** The symbol and the file of a redirection. */
  lemma OneOut(s: string, p: nat, o: Target)
    requires NoNul(s) && Word(o.file) && Has(s, p, PrintOut(o)) && Clean(s, p + |PrintOut(o)|)
    ensures p <= |s| && Peek(s, p, "<>") && Skip(s, p) == p
    ensures var t := GetToken(s, p); var f := GetToken(s, t.pos);
      f.kind == 'a' && f.pos == p + |PrintOut(o)| && FileIs(s, File(Span(f.q, f.eq), ModeOf(t.kind)), o)
  {
    hide GetToken, Word;
    var m := p + |Symbol(o.mode)|;
    HasParts(s, p, Symbol(o.mode), o.file + " ");
    HasParts(s, m, o.file, " ");
    WordStarts(s, m, o.file);
    WordToken(s, m, o.file);
    HasFirst(s, p, Symbol(o.mode));
    match o.mode
    case In => SymbolToken(s, p, '<');
    case Out => SymbolToken(s, p, '>');
    case Append => AppendToken(s, p);
  }

  lemma {:induction false} RedirsBack(s: string, p: nat, os: seq<Target>)
    requires NoNul(s) && OutsOk(os) && Has(s, p, PrintOuts(os))
    requires var e := p + |PrintOuts(os)|; Clean(s, e) && Chr(s, e) != '<' && Chr(s, e) != '>'
    ensures p <= |s| && var r := ParseRedirs(s, p); r.Files? && r.pos == p + |PrintOuts(os)| && FilesAre(s, r.fs, os)
    decreases |os|
  {
    hide Has, PrintOut, GetToken, FileIs, Word;
    if os != [] {
      var o, rest := os[0], os[1..];
      HasParts(s, p, PrintOut(o), PrintOuts(rest));
      OutStarts(s, p + |PrintOut(o)|, rest);
      OneOut(s, p, o);
      RedirsBack(s, p + |PrintOut(o)|, rest);
    } else {
      HasBound(s, p, "");
    }
  }

  lemma HasBound(s: string, p: nat, x: string)
    requires Has(s, p, x)
    ensures p + |x| <= |s|
  {
  }

  // ---------- Words ----------

  ghost predicate WordsAre(s: string, args: seq<Span>, ws: seq<string>) {
    |args| == |ws| && forall i :: 0 <= i < |args| ==> WordIs(s, args[i], ws[i])
  }

  ghost predicate WordIs(s: string, a: Span, w: string) {
    a.q <= a.eq <= |s| && s[a.q..a.eq] == w
  }

  lemma HasWord(s: string, a: Span, w: string)
    requires Has(s, a.q, w) && a.eq == a.q + |w|
    ensures WordIs(s, a, w)
  {
  }

  ghost predicate WordsOk(ws: seq<string>) {
    forall i :: 0 <= i < |ws| ==> Word(ws[i])
  }

  lemma WordsStart(s: string, p: nat, ws: seq<string>)
    requires WordsOk(ws) && ws != [] && Has(s, p, PrintWords(ws))
    ensures Clean(s, p) && IsWordChar(Chr(s, p))
  {
    HasFirst(s, p, PrintWords(ws));
    assert Word(ws[0]);
  }

  /** One round of the loop over the words. */
  lemma WordTaken(s: string, p: nat, w: string, args: seq<Span>, more: seq<File>, e: nat)
    requires NoNul(s) && Word(w) && Has(s, p, w + " ") && Clean(s, p + |w| + 1) && ArgsOk(s, args)
             && |args| + 1 < MAXARGS
    requires ParseRedirs(s, p + |w| + 1) == Files(more, e)
    ensures p <= |s| && e <= |s| && FilesOk(s, []) && FilesOk(s, more) && ArgsOk(s, args + [Span(p, p + |w|)])
    ensures WordIs(s, Span(p, p + |w|), w) && ParseWords(s, p, args, []) == ParseWords(s, e, args + [Span(p, p + |w|)],
            more)
  {
    hide GetToken, Has, Word, IsWord, WordIs, IsWordChar, ParseRedirs;
    HasParts(s, p, w, " ");
    WordStarts(s, p, w);
    WordToken(s, p, w);
    var a := Span(p, p + |w|);
    HasWord(s, a, w);
    ArgsMore(s, args, a);
    WordChar(Chr(s, p));
    assert [] + more == more;
  }

  /** The loop ends where a simple command may. */
  lemma WordsStop(s: string, e: nat, args: seq<Span>, fs: seq<File>)
    requires NoNul(s) && Follows(0, s, e) && ArgsOk(s, args) && FilesOk(s, fs)
    ensures ParseWords(s, e, args, fs) == Words(args, fs, e)
  {
    hide IsWord;
  }

  /** No redirections here. */
  lemma NoRedirs(s: string, p: nat)
    requires NoNul(s) && Clean(s, p) && Chr(s, p) != '<' && Chr(s, p) != '>'
    ensures ParseRedirs(s, p) == Files([], p)
  {
  }

  ghost predicate GivesWords(s: string, r: Words, ws: seq<string>, os: seq<Target>, e: nat) {
    r.Words? && r.pos == e && WordsAre(s, r.args, ws) && FilesAre(s, r.fs, os)
  }

  /** The words of a simple command, with its redirections after the last. */
  lemma {:induction false} WordsBack(s: string, p: nat, ws: seq<string>, os: seq<Target>, args: seq<Span>,
        done: seq<string>)
    requires NoNul(s) && ws != [] && WordsOk(ws) && OutsOk(os) && Has(s, p, PrintWords(ws))
             && Has(s, p + |PrintWords(ws)|, PrintOuts(os))
    requires Follows(0, s, p + |PrintWords(ws)| + |PrintOuts(os)|) && ArgsOk(s, args) && WordsAre(s, args, done)
             && |done| + |ws| < MAXARGS
    ensures p <= |s| && FilesOk(s, []) && GivesWords(s, ParseWords(s, p, args, []), done + ws, os, p + |PrintWords(ws)|
            + |PrintOuts(os)|)
    decreases |ws|
  {
    hide Has, PrintOuts, GetToken, FileIs, WordIs, Word, IsWord, ParseRedirs, ParseWords, IsWordChar;
    var w, rest := ws[0], ws[1..];
    assert PrintWords(ws) == w + " " + PrintWords(rest) && Word(w);
    HasParts(s, p, w + " ", PrintWords(rest));
    var m, a := p + |w| + 1, Span(p, p + |w|);
    if rest == [] {
      OutStarts(s, m, os);
      RedirsBack(s, m, os);
      var r := ParseRedirs(s, m);
      WordTaken(s, p, w, args, r.fs, r.pos);
      WordsStop(s, r.pos, args + [a], r.fs);
      assert done + ws == done + [w];
    } else {
      WordsStart(s, m, rest);
      WordChar(Chr(s, m));
      NoRedirs(s, m);
      WordTaken(s, p, w, args, [], m);
      WordsBack(s, m, rest, os, args + [a], done + [w]);
      assert done + [w] + rest == done + ws;
    }
  }

  lemma WordChar(c: char)
    requires IsWordChar(c)
    ensures c != '\0' && !IsSpace(c) && !IsSymbol(c)
  {
  }

  // ---------- Commands ----------

  /** The parser stopped at e with a command that says t. */
  ghost predicate Reads(s: string, r: Parse, e: nat, t: Tree) {
    r.Parse? && r.pos == e && AllWords(s, r.cmd) && Meaning(s, r.cmd) == t
  }

  lemma RunMeans(s: string, args: seq<Span>, ws: seq<string>)
    requires ArgsOk(s, args) && WordsAre(s, args, ws)
    ensures Meaning(s, Exec(args)) == Run(ws)
  {
    hide IsWord;
    var m := Meaning(s, Exec(args)).words;
    forall i | 0 <= i < |ws| ensures m[i] == ws[i] {
      assert WordIs(s, args[i], ws[i]);
    }
    assert m == ws;
  }

  lemma {:induction false} WrapMeans(s: string, c: Cmd, fs: seq<File>, os: seq<Target>)
    requires AllWords(s, c) && FilesOk(s, fs) && FilesAre(s, fs, os)
    ensures AllWords(s, Wrap(c, fs)) && Meaning(s, Wrap(c, fs)) == Onto(Meaning(s, c), os)
    decreases |fs|
  {
    hide IsWord;
    if fs != [] {
      var n := |fs| - 1;
      assert FileIs(s, fs[n], os[n]);
      WrapMeans(s, c, fs[..n], os[..n]);
    }
  }

  /** A simple command: words, then redirections. */
  lemma SimpleBack(s: string, p: nat, ws: seq<string>, os: seq<Target>)
    requires NoNul(s) && WordsOk(ws) && |ws| < MAXARGS && OutsOk(os)
    requires Has(s, p, PrintWords(ws)) && Has(s, p + |PrintWords(ws)|, PrintOuts(os))
             && Follows(0, s, p + |PrintWords(ws)| + |PrintOuts(os)|)
    ensures p <= |s| && Reads(s, ParseExec(s, p), p + |PrintWords(ws)| + |PrintOuts(os)|, Onto(Run(ws), os))
  {
    hide Has, PrintWords, PrintOuts, Word, ParseRedirs, ParseWords, IsWord, IsWordChar, Meaning, Onto, Wrap, ParseBlock;
    var e := p + |PrintWords(ws)| + |PrintOuts(os)|;
    ArgsNone(s);
    var r := SimpleWords(s, p, ws, os);
    RunMeans(s, r.args, ws);
    WrapMeans(s, Exec(r.args), r.fs, os);
  }

  lemma SimpleWords(s: string, p: nat, ws: seq<string>, os: seq<Target>) returns (r: Words)
    requires NoNul(s) && WordsOk(ws) && |ws| < MAXARGS && OutsOk(os)
    requires Has(s, p, PrintWords(ws)) && Has(s, p + |PrintWords(ws)|, PrintOuts(os))
             && Follows(0, s, p + |PrintWords(ws)| + |PrintOuts(os)|)
    ensures Clean(s, p) && Chr(s, p) != '(' && ParseRedirs(s, p).Files? && ArgsOk(s, [])
    ensures r == ParseWords(s, ParseRedirs(s, p).pos, [], ParseRedirs(s, p).fs)
    ensures GivesWords(s, r, ws, os, p + |PrintWords(ws)| + |PrintOuts(os)|)
  {
    hide Has, PrintOut, Word, ParseRedirs, ParseWords, IsWord, IsWordChar, FileIs, WordIs;
    ArgsNone(s);
    if ws == [] {
      OutStarts(s, p, os);
      assert PrintOuts([]) == "";
      RedirsBack(s, p, os);
      var f := ParseRedirs(s, p);
      WordsStop(s, f.pos, [], f.fs);
      r := Words([], f.fs, f.pos);
    } else {
      WordsStart(s, p, ws);
      WordChar(Chr(s, p));
      NoRedirs(s, p);
      WordsBack(s, p, ws, os, [], []);
      assert [] + ws == ws;
      r := ParseWords(s, p, [], []);
    }
  }

  /** A command in parentheses, then redirections. */
  lemma BlockBack(s: string, p: nat, m: nat, t: Tree, os: seq<Target>)
    requires NoNul(s) && OutsOk(os) && Has(s, p, "( ") && Clean(s, p + 2) && Reads(s, ParseLine(s, p + 2), m, t)
    requires Has(s, m, ") ") && Has(s, m + 2, PrintOuts(os)) && Follows(0, s, m + 2 + |PrintOuts(os)|)
    ensures p <= |s| && Reads(s, ParseExec(s, p), m + 2 + |PrintOuts(os)|, Onto(t, os))
  {
    hide Has, PrintOuts, Word, ParseRedirs, ParseLine, GetToken, IsWord, Meaning, Onto, Wrap;
    HasFirst(s, p, "( ");
    HasFirst(s, m, ") ");
    OutStarts(s, m + 2, os);
    SymbolToken(s, p, '(');
    SymbolToken(s, m, ')');
    RedirsBack(s, m + 2, os);
    var f := ParseRedirs(s, m + 2);
    WrapMeans(s, ParseLine(s, p + 2).cmd, f.fs, os);
  }

  /** A pipeline: the rest after the first bar. */
  lemma PipeBack(s: string, p: nat, m: nat, e: nat, l: Tree, r: Tree)
    requires NoNul(s) && p <= |s| && Reads(s, ParseExec(s, p), m, l) && Has(s, m, "| ") && Clean(s, m + 2)
             && Reads(s, ParsePipe(s, m + 2), e, r)
    ensures Reads(s, ParsePipe(s, p), e, Piped(l, r))
  {
    hide Has, ParseExec, GetToken, IsWord;
    HasFirst(s, m, "| ");
    SymbolToken(s, m, '|');
  }

  lemma PipeEnds(s: string, p: nat, e: nat, t: Tree)
    requires NoNul(s) && p <= |s| && Reads(s, ParseExec(s, p), e, t) && Follows(1, s, e)
    ensures Reads(s, ParsePipe(s, p), e, t)
  {
    hide ParseExec, GetToken, IsWord, Meaning, AllWords;
  }

  /** A line up to its first semicolon. */
  ghost function LineHead(s: string, p: nat): Parse
    requires p <= |s| && NoNul(s)
  {
    match ParsePipe(s, p)
    case Panic => Panic
    case Parse(c, pos) => ParseBacks(s, pos, c)
  }

  lemma LineBack(s: string, p: nat, m: nat, e: nat, l: Tree, r: Tree)
    requires NoNul(s) && p <= |s| && Reads(s, LineHead(s, p), m, l) && Has(s, m, "; ") && Clean(s, m + 2)
    requires Reads(s, ParseLine(s, m + 2), e, r)
    ensures Reads(s, ParseLine(s, p), e, Then(l, r))
  {
    hide Has, ParsePipe, ParseBacks, GetToken, IsWord;
    HasFirst(s, m, "; ");
    SymbolToken(s, m, ';');
  }

  lemma LineEnds(s: string, p: nat, e: nat, t: Tree)
    requires NoNul(s) && p <= |s| && Reads(s, LineHead(s, p), e, t) && Follows(3, s, e)
    ensures Reads(s, ParseLine(s, p), e, t)
  {
    hide ParsePipe, ParseBacks, GetToken, IsWord, Meaning, AllWords;
  }

  // ---------- Background commands ----------

  function Core(t: Tree): Tree {
    if t.Behind? then Core(t.cmd) else t
  }

  function Depth(t: Tree): nat {
    if t.Behind? then Depth(t.cmd) + 1 else 0
  }

  function Amps(k: nat): string {
    if k == 0 then "" else "& " + Amps(k - 1)
  }

  function Behinds(t: Tree, k: nat): Tree
    decreases k
  {
    if k == 0 then t else Behinds(Behind(t), k - 1)
  }

  lemma {:induction false} AmpsMore(t: Tree, k: nat)
    ensures Amps(k) + "& " == Amps(k + 1) && Behind(Behinds(t, k)) == Behinds(t, k + 1)
    decreases k
  {
    if k > 0 {
      AmpsMore(Behind(t), k - 1);
    }
  }

  lemma {:induction false} Peeled(t: Tree)
    requires Printable(t)
    ensures Printable(Core(t)) && !Core(t).Behind? && Behinds(Core(t), Depth(t)) == t
            && Size(Core(t)) <= Size(t) - Depth(t)
    ensures Print(2, t) == Print(1, Core(t)) + Amps(Depth(t))
  {
    if t.Behind? {
      Peeled(t.cmd);
      AmpsMore(Core(t), Depth(t.cmd));
      assert Print(2, t) == Print(1, Core(t)) + (Amps(Depth(t.cmd)) + "& ");
    } else {
      assert Print(2, t) == Print(1, t) + "";
    }
  }

  lemma {:induction false} BacksBack(s: string, m: nat, c: Cmd, k: nat)
    requires NoNul(s) && m <= |s| && AllWords(s, c) && Has(s, m, Amps(k)) && Follows(2, s, m + |Amps(k)|)
    ensures Reads(s, ParseBacks(s, m, c), m + |Amps(k)|, Behinds(Meaning(s, c), k))
    decreases k
  {
    hide Has, GetToken, IsWord;
    if k > 0 {
      HasParts(s, m, "& ", Amps(k - 1));
      HasFirst(s, m, "& ");
      AmpsStart(s, m + 2, k - 1);
      SymbolToken(s, m, '&');
      BacksBack(s, m + 2, Back(c), k - 1);
    }
  }

  lemma AmpsStart(s: string, m: nat, k: nat)
    requires Has(s, m, Amps(k)) && Clean(s, m + |Amps(k)|)
    ensures Clean(s, m) && (k > 0 ==> Chr(s, m) == '&')
  {
    if k > 0 {
      HasFirst(s, m, Amps(k));
    }
  }

  // ---------- The round trip ----------

  function Size(t: Tree): nat {
    match t
    case Run(_) => 0
    case To(c, _, _) => Size(c) + 1
    case Piped(l, r) => Size(l) + Size(r) + 1
    case Then(l, r) => Size(l) + Size(r) + 1
    case Behind(c) => Size(c) + 1
  }

  predicate Starts(x: string) {
    x == "" || !IsSpace(x[0])
  }

  lemma {:induction false} PrintStarts(level: nat, t: Tree)
    requires Printable(t)
    ensures Starts(Print(level, t))
    decreases t
  {
    match t
    case Run(ws) => assert ws != [] ==> Word(ws[0]);
    case To(c, _, _) => PrintStarts(0, c);
    case Piped(l, _) => PrintStarts(0, l);
    case Then(l, _) => PrintStarts(2, l);
    case Behind(c) => PrintStarts(2, c);
  }

  lemma CleanStart(s: string, p: nat, level: nat, t: Tree)
    requires Printable(t) && Has(s, p, Print(level, t)) && Clean(s, p + |Print(level, t)|)
    ensures Clean(s, p)
  {
    hide Print;
    PrintStarts(level, t);
    if Print(level, t) != "" {
      HasFirst(s, p, Print(level, t));
    }
  }

  /** Which routine is next when the tree stays the same. */
  function Rank(n: nat, t: Tree): nat {
    (n + 4 - Level(t)) % 4
  }

  lemma {:induction false} BaseSmaller(t: Tree)
    ensures Size(Base(t)) <= Size(t) && (t.To? ==> Size(Base(t)) < Size(t))
  {
    if t.To? {
      BaseSmaller(t.cmd);
    }
  }

  lemma {:induction false} ExecReads(s: string, p: nat, t: Tree)
    requires NoNul(s) && Printable(t) && Has(s, p, Print(0, t)) && Follows(0, s, p + |Print(0, t)|)
    ensures p <= |s| && Reads(s, ParseExec(s, p), p + |Print(0, t)|, t)
    decreases Size(t), Rank(0, t)
  {
    hide Has, Follows, Clean, Body, PrintOuts, Word, ParseExec, ParseLine, Reads, Onto, Size, Outs;
    var b, os := Base(t), Outs(t);
    Unwrapped(t);
    BaseSmaller(t);
    HasParts(s, p, Print(0, b), PrintOuts(os));
    if b.Run? {
      PrintRun(b);
      SimpleBack(s, p, b.words, os);
    } else {
      var x := Print(3, b);
      PrintBlock(b);
      HasParts(s, p, "( " + x, ") ");
      HasParts(s, p, "( ", x);
      var m := p + 2 + |x|;
      HasFirst(s, m, ") ");
      CloseFollows(s, m);
      LineReads(s, p + 2, b);
      CleanStart(s, p + 2, 3, b);
      BlockBack(s, p, m, b, os);
    }
  }

  lemma PrintRun(t: Tree)
    requires t.Run? && Printable(t)
    ensures Print(0, t) == PrintWords(t.words) && WordsOk(t.words) && |t.words| < MAXARGS
  {
  }

  lemma PrintBlock(t: Tree)
    requires !t.Run? && !t.To?
    ensures Print(0, t) == "( " + Print(3, t) + ") "
  {
  }

  lemma CloseFollows(s: string, m: nat)
    requires Has(s, m, ") ")
    ensures Follows(3, s, m) && Clean(s, m)
  {
    HasFirst(s, m, ") ");
  }

  lemma FollowsClean(level: nat, s: string, m: nat)
    requires Follows(level, s, m)
    ensures Clean(s, m) && (level > 0 ==> Follows(level - 1, s, m))
  {
  }

  lemma {:induction false} PipeReads(s: string, p: nat, t: Tree)
    requires NoNul(s) && Printable(t) && Has(s, p, Print(1, t)) && Follows(1, s, p + |Print(1, t)|)
    ensures p <= |s| && Reads(s, ParsePipe(s, p), p + |Print(1, t)|, t)
    decreases Size(t), Rank(1, t)
  {
    hide Has, Follows, Clean, Print, ParsePipe, ParseExec, Reads;
    var e := p + |Print(1, t)|;
    FollowsClean(1, s, e);
    if t.Piped? {
      PrintPiped(t);
      var x := Print(0, t.left);
      HasParts(s, p, x + "| ", Print(1, t.right));
      HasParts(s, p, x, "| ");
      var m := p + |x|;
      SignFollows(s, m, '|');
      ExecReads(s, p, t.left);
      PipeReads(s, m + 2, t.right);
      CleanStart(s, m + 2, 1, t.right);
      PipeBack(s, p, m, e, t.left, t.right);
    } else {
      SamePrint(0, t);
      ExecReads(s, p, t);
      PipeEnds(s, p, e, t);
    }
  }

  lemma {:induction false} HeadReads(s: string, p: nat, t: Tree)
    requires NoNul(s) && Printable(t) && Has(s, p, Print(2, t)) && Follows(2, s, p + |Print(2, t)|)
    ensures p <= |s| && Reads(s, LineHead(s, p), p + |Print(2, t)|, t)
    decreases Size(t), Rank(2, t)
  {
    hide Has, Follows, Clean, Print, ParsePipe, ParseBacks, Amps, Behinds, Core, AllWords;
    var c, k := Core(t), Depth(t);
    var e := p + |Print(2, t)|;
    FollowsClean(2, s, e);
    Peeled(t);
    HasParts(s, p, Print(1, c), Amps(k));
    var m := p + |Print(1, c)|;
    AmpsFollow(s, m, k);
    CoreRank(t);
    PipeReads(s, p, c);
    BacksBack(s, m, ParsePipe(s, p).cmd, k);
  }

  lemma {:induction false} LineReads(s: string, p: nat, t: Tree)
    requires NoNul(s) && Printable(t) && Has(s, p, Print(3, t)) && Follows(3, s, p + |Print(3, t)|)
    ensures p <= |s| && Reads(s, ParseLine(s, p), p + |Print(3, t)|, t)
    decreases Size(t), Rank(3, t)
  {
    hide Has, Follows, Clean, Print, ParseLine, LineHead, Reads;
    var e := p + |Print(3, t)|;
    FollowsClean(3, s, e);
    if t.Then? {
      PrintThen(t);
      var x := Print(2, t.left);
      HasParts(s, p, x + "; ", Print(3, t.right));
      HasParts(s, p, x, "; ");
      var m := p + |x|;
      SignFollows(s, m, ';');
      HeadReads(s, p, t.left);
      LineReads(s, m + 2, t.right);
      CleanStart(s, m + 2, 3, t.right);
      LineBack(s, p, m, e, t.left, t.right);
    } else {
      SamePrint(2, t);
      HeadReads(s, p, t);
      LineEnds(s, p, e, t);
    }
  }

  lemma PrintPiped(t: Tree)
    requires t.Piped?
    ensures Print(1, t) == Print(0, t.left) + "| " + Print(1, t.right)
  {
  }

  lemma PrintThen(t: Tree)
    requires t.Then?
    ensures Print(3, t) == Print(2, t.left) + "; " + Print(3, t.right)
  {
  }

  lemma SamePrint(level: nat, t: Tree)
    requires Level(t) != level + 1
    ensures Print(level + 1, t) == Print(level, t)
  {
  }

  lemma SignFollows(s: string, m: nat, c: char)
    requires Has(s, m, [c, ' '])
    ensures c == '|' ==> Follows(0, s, m)
    ensures c == ';' ==> Follows(2, s, m)
  {
    HasFirst(s, m, [c, ' ']);
  }

  lemma AmpsFollow(s: string, m: nat, k: nat)
    requires Has(s, m, Amps(k)) && Follows(2, s, m + |Amps(k)|)
    ensures Follows(1, s, m)
  {
    AmpsStart(s, m, k);
  }

  /** The core of a background command is smaller; any other tree is its own core. */
  lemma CoreRank(t: Tree)
    requires Size(Core(t)) <= Size(t) - Depth(t)
    ensures Size(Core(t)) < Size(t) || (Core(t) == t && Rank(1, t) < Rank(2, t))
  {
  }

  /** Every printable tree, printed and parsed, comes back. */
  lemma PrintThenParse(t: Tree)
    requires Printable(t)
    ensures NoNul(Print(3, t)) && Reads(Print(3, t), ParseCmd(Print(3, t)), |Print(3, t)|, t)
  {
    hide Print, Reads, ParseLine;
    var s := Print(3, t);
    PrintNoNul(3, t);
    assert s[0..0 + |s|] == s;
    LineReads(s, 0, t);
    ReadsAll(s, t);
  }

  lemma ReadsAll(s: string, t: Tree)
    requires NoNul(s) && Reads(s, ParseLine(s, 0), |s|, t)
    ensures Reads(s, ParseCmd(s), |s|, t)
  {
    hide ParseLine, Meaning;
  }

  lemma {:induction false} WordsNoNul(ws: seq<string>)
    requires WordsOk(ws)
    ensures NoNul(PrintWords(ws))
  {
    if ws != [] {
      assert Word(ws[0]);
      WordsNoNul(ws[1..]);
    }
  }

  lemma {:induction false} PrintNoNul(level: nat, t: Tree)
    requires Printable(t)
    ensures NoNul(Print(level, t))
    decreases t
  {
    match t
    case Run(ws) => WordsNoNul(ws);
    case To(c, _, _) => PrintNoNul(0, c);
    case Piped(l, r) => PrintNoNul(0, l); PrintNoNul(1, r);
    case Then(l, r) => PrintNoNul(2, l); PrintNoNul(3, r);
    case Behind(c) => PrintNoNul(2, c);
  }

  // ---------- Every accepted line ----------

  lemma SpanIsWord(s: string, w: Span)
    requires NoNul(s) && IsWord(s, w)
    ensures Word(s[w.q..w.eq])
  {
  }

  lemma {:induction false} MeaningPrintable(s: string, c: Cmd)
    requires NoNul(s) && AllWords(s, c)
    ensures Printable(Meaning(s, c))
  {
    hide IsWord, Word;
    match c
    case Exec(args) =>
      forall i | 0 <= i < |args| ensures Word(Meaning(s, c).words[i]) {
        SpanIsWord(s, args[i]);
      }
    case Redir(d, f, _) => MeaningPrintable(s, d); SpanIsWord(s, f);
    case PipeCmd(l, r) => MeaningPrintable(s, l); MeaningPrintable(s, r);
    case List(l, r) => MeaningPrintable(s, l); MeaningPrintable(s, r);
    case Back(d) => MeaningPrintable(s, d);
  }

  /** Whatever line the parser accepts, its canonical printing is accepted and says the same. */
  lemma ParsePrintParse(s: string)
    requires NoNul(s) && ParseCmd(s).Parse?
    ensures Printable(Meaning(s, ParseCmd(s).cmd)) && var t := Meaning(s, ParseCmd(s).cmd);
      NoNul(Print(3, t)) && Reads(Print(3, t), ParseCmd(Print(3, t)), |Print(3, t)|, t)
  {
    hide Print, ParseCmd, Meaning, Reads, AllWords;
    MeaningPrintable(s, ParseCmd(s).cmd);
    PrintThenParse(Meaning(s, ParseCmd(s).cmd));
  }

  /** The meanings of accepted lines are exactly the printable trees. */
  lemma MeaningsExact(t: Tree)
    ensures Printable(t) <==> exists s :: NoNul(s) && ParseCmd(s).Parse? && Meaning(s, ParseCmd(s).cmd) == t
  {
    hide Print, ParseCmd, Meaning, AllWords, Printable, NoNul;
    if Printable(t) {
      PrintThenParse(t);
    }
    forall s | NoNul(s) && ParseCmd(s).Parse? && Meaning(s, ParseCmd(s).cmd) == t ensures Printable(t) {
      MeaningPrintable(s, ParseCmd(s).cmd);
    }
  }
}
