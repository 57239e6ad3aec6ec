/** What the parser of user/sh.c accepts, and the command it builds, stated without the parser: the tokens of a line are
    determined by its characters, and a line is accepted exactly when its tokens are the yield of a phrase of the
    shell's grammar; the command is that phrase with each simple command's redirections moved around it. */
module ShellGrammar {
  import opened ShellParser

  // ---------- The tokens of a line ----------

  predicate Blank(s: string, p: nat, r: nat) {
    p <= r <= |s| && forall i :: p <= i < r ==> IsSpace(s[i])
  }

  lemma {:induction false} SkipExact(s: string, p: nat, r: nat)
    requires p <= |s|
    ensures r == Skip(s, p) <==> Blank(s, p, r) && (r < |s| ==> !IsSpace(s[r]))
    decreases |s| - p
  {
    if p < |s| && IsSpace(s[p]) {
      SkipExact(s, p + 1, r);
    }
  }

  /** The token between t.q and t.eq: nothing at the end of the line, a maximal word, >>, or one symbol. */
  predicate Lexeme(s: string, t: Token) {
    && t.q <= t.eq <= |s|
    && (|| (t.kind == '\0' && t.q == t.eq == |s|)
        || (t.kind == 'a' && IsWord(s, Span(t.q, t.eq)))
        || (t.kind == '+' && s[t.q..t.eq] == ">>")
        || (IsSymbol(t.kind) && s[t.q..t.eq] == [t.kind] && !(t.kind == '>' && Chr(s, t.eq) == '>')))
  }

  /** gettoken at p finds t: only spaces before it, and all the spaces behind it consumed. */
  predicate TokenAt(s: string, p: nat, t: Token) {
    && Lexeme(s, t) && Blank(s, p, t.q) && (t.q < |s| ==> !IsSpace(s[t.q]))
    && Blank(s, t.eq, t.pos) && (t.pos < |s| ==> !IsSpace(s[t.pos]))
  }

  /** gettoken, characterized: for every line and position there is exactly one such token, and it is the one found. */
  lemma TokenExact(s: string, p: nat, t: Token)
    requires p <= |s| && NoNul(s)
    ensures t == GetToken(s, p) <==> TokenAt(s, p, t)
  {
    hide Blank, Skip, WordEnd;
    var g := GetToken(s, p);
    SkipExact(s, p, g.q);
    SkipExact(s, g.eq, g.pos);
    TokenLexeme(s, p);
    if TokenAt(s, p, t) {
      SkipExact(s, p, t.q);
      LexemeUnique(s, t, g);
      SkipExact(s, t.eq, t.pos);
    }
  }

  lemma TokenLexeme(s: string, p: nat)
    requires p <= |s| && NoNul(s)
    ensures var t := GetToken(s, p); Lexeme(s, t) && t.q == Skip(s, p) && t.pos == Skip(s, t.eq)
  {
  }

  lemma LexemeUnique(s: string, t: Token, u: Token)
    requires NoNul(s) && Lexeme(s, t) && Lexeme(s, u) && t.q == u.q
    ensures t.eq == u.eq && t.kind == u.kind
  {
    if t.kind == 'a' && u.kind == 'a' {
      assert t.eq == u.eq;
    } else if t.q < |s| {
      LexemeFirst(s, t);
      LexemeFirst(s, u);
    } else {
      assert s[t.q..t.eq] == s[u.q..u.eq] == [];
    }
  }

  lemma LexemeFirst(s: string, t: Token)
    requires NoNul(s) && Lexeme(s, t) && t.q < |s|
    ensures t.kind == 'a' <==> IsWordChar(s[t.q])
    ensures t.kind == '+' ==> t.eq == t.q + 2 && s[t.q] == '>' && Chr(s, t.q + 1) == '>'
    ensures t.kind != 'a' && t.kind != '+' ==>
              t.eq == t.q + 1 && t.kind == s[t.q] && !(s[t.q] == '>' && Chr(s, t.q + 1) == '>')
  {
    if t.kind == '+' {
      assert s[t.q..t.eq][0] == '>' && s[t.q..t.eq][1] == '>';
    } else if t.kind != 'a' {
      assert s[t.q..t.eq][0] == t.kind;
    }
  }

  datatype Tok = Sym(kind: char) | Word(at: Span)

  function TokOf(t: Token): Tok {
    if t.kind == 'a' then Word(Span(t.q, t.eq)) else Sym(t.kind)
  }

  /** The tokens from p to the end of the line. */
  function Lex(s: string, p: nat): seq<Tok>
    requires p <= |s| && NoNul(s)
    decreases |s| - p
  {
    var t := GetToken(s, p);
    if t.kind == '\0' then [] else [TokOf(t)] + Lex(s, t.pos)
  }

  predicate Starts(ts: seq<Tok>, kinds: string) {
    ts != [] && ts[0].Sym? && ts[0].kind in kinds
  }

  lemma LexSkip(s: string, p: nat)
    requires p <= |s| && NoNul(s)
    ensures Lex(s, p) == Lex(s, Skip(s, p)) && GetToken(s, p) == GetToken(s, Skip(s, p))
  {
    hide GetToken, Skip;
    TokenSkip(s, p);
  }

  lemma TokenSkip(s: string, p: nat)
    requires p <= |s|
    ensures GetToken(s, p) == GetToken(s, Skip(s, p))
  {
    hide WordEnd;
    var q := Skip(s, p);
    assert Skip(s, q) == q;
  }

  lemma LexEnd(s: string, p: nat)
    requires p <= |s| && NoNul(s)
    ensures Lex(s, p) == [] <==> Skip(s, p) == |s|
  {
  }

  /** The head of the tokens, and the rest behind it. */
  lemma LexHead(s: string, p: nat)
    requires p <= |s| && NoNul(s)
    ensures var t := GetToken(s, Skip(s, p));
            if t.kind == '\0' then Lex(s, p) == []
            else && Lex(s, p) == [TokOf(t)] + Lex(s, t.pos)
                 && t.kind == if Lex(s, p)[0].Sym? then Lex(s, p)[0].kind else 'a'
  {
    LexSkip(s, p);
  }

  lemma LexTail(s: string, p: nat, x: Tok, back: seq<Tok>)
    requires p <= |s| && NoNul(s) && Lex(s, p) == [x] + back
    ensures var t := GetToken(s, Skip(s, p));
            Lex(s, t.pos) == back && TokOf(t) == x && t.kind == if x.Sym? then x.kind else 'a'
  {
    hide Lex, Skip, GetToken;
    LexHead(s, p);
    var t := GetToken(s, Skip(s, p));
    assert Lex(s, p)[0] == x;
    assert back == Lex(s, p)[1..] == Lex(s, t.pos);
  }

  /** peek and the first token agree. */
  lemma PeekHead(s: string, p: nat)
    requires p <= |s| && NoNul(s)
    ensures Peek(s, p, "<>") <==> Starts(Lex(s, p), "<>+")
    ensures Peek(s, p, "|)&;") <==> Starts(Lex(s, p), "|)&;")
    ensures Peek(s, p, "(") <==> Starts(Lex(s, p), "(")
    ensures Peek(s, p, ")") <==> Starts(Lex(s, p), ")")
    ensures Peek(s, p, "|") <==> Starts(Lex(s, p), "|")
    ensures Peek(s, p, "&") <==> Starts(Lex(s, p), "&")
    ensures Peek(s, p, ";") <==> Starts(Lex(s, p), ";")
  {
    hide Skip, WordEnd, IsWord;
    var t := GetToken(s, p);
    assert t.q == Skip(s, p);
  }

  // ---------- The grammar ----------

  /** A word, or a redirection sign with its file name. */
  datatype Item = Arg(at: Span) | To(mode: Mode, at: Span)

  datatype Phrase =
    | Items(items: seq<Item>)
    | Paren(inner: Phrase, files: seq<Item>)
    | Piped(left: Phrase, right: Phrase)
    | Backed(inner: Phrase)
    | Listed(left: Phrase, right: Phrase)

  function Sign(m: Mode): char {
    match m
    case In => '<'
    case Out => '>'
    case Append => '+'
  }

  function ItemToks(it: Item): seq<Tok> {
    match it
    case Arg(at) => [Word(at)]
    case To(m, at) => [Sym(Sign(m)), Word(at)]
  }

  function ItemsToks(items: seq<Item>): seq<Tok> {
    if items == [] then [] else ItemToks(items[0]) + ItemsToks(items[1..])
  }

  function Yield(ph: Phrase): seq<Tok> {
    match ph
    case Items(items) => ItemsToks(items)
    case Paren(c, files) => [Sym('(')] + Yield(c) + [Sym(')')] + ItemsToks(files)
    case Piped(l, r) => Yield(l) + [Sym('|')] + Yield(r)
    case Backed(c) => Yield(c) + [Sym('&')]
    case Listed(l, r) => Yield(l) + [Sym(';')] + Yield(r)
  }

  /** The words, in order. */
  function ArgsOf(items: seq<Item>): seq<Span> {
    if items == [] then []
    else if items[0].Arg? then [items[0].at] + ArgsOf(items[1..]) else ArgsOf(items[1..])
  }

  /** The redirections, in order. */
  function FilesOf(items: seq<Item>): seq<File> {
    if items == [] then []
    else if items[0].To? then [File(items[0].at, items[0].mode)] + FilesOf(items[1..]) else FilesOf(items[1..])
  }

  /** The command that a phrase stands for: redirections are outside their command, the first one innermost. */
  function Tree(ph: Phrase): Cmd {
    match ph
    case Items(items) => Wrap(Exec(ArgsOf(items)), FilesOf(items))
    case Paren(c, files) => Wrap(Tree(c), FilesOf(files))
    case Piped(l, r) => PipeCmd(Tree(l), Tree(r))
    case Backed(c) => Back(Tree(c))
    case Listed(l, r) => List(Tree(l), Tree(r))
  }

  /** A simple command with room for its arguments, or a line in parentheses with redirections behind it. */
  predicate IsExec(ph: Phrase)
    decreases ph, 0
  {
    match ph
    case Items(items) => |ArgsOf(items)| < MAXARGS
    case Paren(c, files) => IsLine(c) && ArgsOf(files) == []
    case _ => false
  }

  predicate IsPipe(ph: Phrase)
    decreases ph, 1
  {
    if ph.Piped? then IsExec(ph.left) && IsPipe(ph.right) else IsExec(ph)
  }

  predicate IsBacks(ph: Phrase)
    decreases ph, 2
  {
    if ph.Backed? then IsBacks(ph.inner) else IsPipe(ph)
  }

  predicate IsLine(ph: Phrase)
    decreases ph, 3
  {
    if ph.Listed? then IsBacks(ph.left) && IsLine(ph.right) else IsBacks(ph)
  }

  lemma {:induction false} ToksMore(a: seq<Item>, b: seq<Item>)
    ensures ItemsToks(a + b) == ItemsToks(a) + ItemsToks(b)
  {
    hide ItemToks;
    if a == [] {
      assert a + b == b;
    } else {
      ToksMore(a[1..], b);
      assert (a + b)[1..] == a[1..] + b && (a + b)[0] == a[0];
    }
  }

  lemma {:induction false} ArgsOfMore(a: seq<Item>, b: seq<Item>)
    ensures ArgsOf(a + b) == ArgsOf(a) + ArgsOf(b)
  {
    if a == [] {
      assert a + b == b;
    } else {
      ArgsOfMore(a[1..], b);
      assert (a + b)[1..] == a[1..] + b && (a + b)[0] == a[0];
    }
  }

  lemma {:induction false} FilesOfMore(a: seq<Item>, b: seq<Item>)
    ensures FilesOf(a + b) == FilesOf(a) + FilesOf(b)
  {
    if a == [] {
      assert a + b == b;
    } else {
      FilesOfMore(a[1..], b);
      assert (a + b)[1..] == a[1..] + b && (a + b)[0] == a[0];
    }
  }

  lemma ItemsMore(a: seq<Item>, b: seq<Item>)
    ensures ItemsToks(a + b) == ItemsToks(a) + ItemsToks(b)
    ensures ArgsOf(a + b) == ArgsOf(a) + ArgsOf(b) && FilesOf(a + b) == FilesOf(a) + FilesOf(b)
  {
    hide ItemsToks, ArgsOf, FilesOf;
    ToksMore(a, b);
    ArgsOfMore(a, b);
    FilesOfMore(a, b);
  }

  lemma NoItems(rest: seq<Tok>)
    ensures ItemsToks([]) + rest == rest && ArgsOf([]) == [] && FilesOf([]) == []
  {
  }

  lemma ArgFirst(items: seq<Item>)
    requires items != [] && items[0].Arg?
    ensures ItemsToks(items) == [Word(items[0].at)] + ItemsToks(items[1..])
    ensures ArgsOf(items) == [items[0].at] + ArgsOf(items[1..]) && FilesOf(items) == FilesOf(items[1..])
  {
  }

  // ---------- What the parser builds is a phrase of the line ----------

  lemma {:induction false} RedirsSound(s: string, p: nat) returns (items: seq<Item>)
    requires p <= |s| && NoNul(s) && ParseRedirs(s, p).Files?
    ensures var r := ParseRedirs(s, p); Lex(s, p) == ItemsToks(items) + Lex(s, r.pos) && FilesOf(items) == r.fs
    ensures ArgsOf(items) == []
    decreases |s| - p
  {
    hide GetToken, Peek, IsWord, FilesOk, Lex;
    PeekHead(s, p);
    LexHead(s, p);
    LexSkip(s, p);
    if !Peek(s, p, "<>") {
      items := [];
    } else {
      var t := GetToken(s, Skip(s, p));
      var f := GetToken(s, t.pos);
      LexHead(s, t.pos);
      LexSkip(s, t.pos);
      var rest := RedirsSound(s, f.pos);
      items := [To(ModeOf(t.kind), Span(f.q, f.eq))] + rest;
      assert items[1..] == rest;
    }
  }

  lemma {:induction false} WordsSound(s: string, p: nat, args: seq<Span>, fs: seq<File>) returns (items: seq<Item>)
    requires p <= |s| && NoNul(s) && ArgsOk(s, args) && FilesOk(s, fs) && ParseWords(s, p, args, fs).Words?
    ensures var r := ParseWords(s, p, args, fs);
            && Lex(s, p) == ItemsToks(items) + Lex(s, r.pos)
            && r.args == args + ArgsOf(items) && r.fs == fs + FilesOf(items)
    decreases |s| - p
  {
    hide GetToken, Peek, IsWord, FilesOk, ArgsOk, Lex, ParseRedirs, Skip, ItemsToks, ArgsOf, FilesOf;
    LexHead(s, p);
    LexSkip(s, p);
    NoItems(Lex(s, p));
    var t := GetToken(s, Skip(s, p));
    if Peek(s, p, "|)&;") {
      items := [];
    } else if t.kind == '\0' {
      items := [];
      EndStays(s, p);
    } else {
      var r := ParseRedirs(s, t.pos);
      var some := RedirsSound(s, t.pos);
      ArgsMore(s, args, Span(t.q, t.eq));
      FilesMore(s, fs, r.fs);
      var rest := WordsSound(s, r.pos, args + [Span(t.q, t.eq)], fs + r.fs);
      ItemsMore(some, rest);
      items := [Arg(Span(t.q, t.eq))] + (some + rest);
      assert items[1..] == some + rest;
      ArgFirst(items);
      var end := ParseWords(s, p, args, fs).pos;
      assert Lex(s, p) == [Word(Span(t.q, t.eq))] + (ItemsToks(some) + ItemsToks(rest)) + Lex(s, end);
    }
  }

  lemma EndStays(s: string, p: nat)
    requires p <= |s| && NoNul(s) && GetToken(s, Skip(s, p)).kind == '\0'
    ensures Lex(s, GetToken(s, Skip(s, p)).pos) == []
  {
  }

  lemma {:induction false} ExecSound(s: string, p: nat) returns (ph: Phrase)
    requires p <= |s| && NoNul(s) && ParseExec(s, p).Parse?
    ensures var r := ParseExec(s, p); IsExec(ph) && Lex(s, p) == Yield(ph) + Lex(s, r.pos) && Tree(ph) == r.cmd
    decreases |s| - p, 1
  {
    hide GetToken, Peek, IsWord, FilesOk, Lex, ParseRedirs, ParseWords, ParseBlock, ItemsToks, ArgsOf, FilesOf, Wrap;
    LexSkip(s, p);
    if Peek(s, p, "(") {
      ph := BlockSound(s, Skip(s, p));
    } else {
      var f := ParseRedirs(s, Skip(s, p));
      var some := RedirsSound(s, Skip(s, p));
      var rest := WordsSound(s, f.pos, [], f.fs);
      ItemsMore(some, rest);
      ph := Items(some + rest);
      assert [] + ArgsOf(rest) == ArgsOf(rest);
    }
  }

  lemma {:induction false} BlockSound(s: string, p: nat) returns (ph: Phrase)
    requires p <= |s| && NoNul(s) && ParseBlock(s, p).Parse?
    ensures var r := ParseBlock(s, p); IsExec(ph) && Lex(s, p) == Yield(ph) + Lex(s, r.pos) && Tree(ph) == r.cmd
    decreases |s| - p, 0
  {
    hide GetToken, Peek, IsWord, FilesOk, Lex, ParseRedirs, ParseLine, ItemsToks, ArgsOf, FilesOf, Wrap, IsLine;
    PeekHead(s, p);
    LexHead(s, p);
    var t := GetToken(s, Skip(s, p));
    var inner := LineSound(s, t.pos);
    var l := ParseLine(s, t.pos);
    PeekHead(s, l.pos);
    LexHead(s, l.pos);
    var u := GetToken(s, Skip(s, l.pos));
    var files := RedirsSound(s, u.pos);
    ph := Paren(inner, files);
  }

  lemma {:induction false} PipeSound(s: string, p: nat) returns (ph: Phrase)
    requires p <= |s| && NoNul(s) && ParsePipe(s, p).Parse?
    ensures var r := ParsePipe(s, p); IsPipe(ph) && Lex(s, p) == Yield(ph) + Lex(s, r.pos) && Tree(ph) == r.cmd
    decreases |s| - p, 2
  {
    hide GetToken, Peek, Lex, ParseExec, IsExec, Wrap, ItemsToks;
    var left := ExecSound(s, p);
    var l := ParseExec(s, p);
    PeekHead(s, l.pos);
    LexHead(s, l.pos);
    LexSkip(s, l.pos);
    if !Peek(s, l.pos, "|") {
      ph := left;
      ExecKind(ph);
    } else {
      var right := PipeSound(s, GetToken(s, Skip(s, l.pos)).pos);
      ph := Piped(left, right);
    }
  }

  lemma ExecKind(ph: Phrase)
    requires IsExec(ph)
    ensures ph.Items? || ph.Paren?
  {
  }

  lemma PipeKind(ph: Phrase)
    requires IsPipe(ph)
    ensures !ph.Backed? && !ph.Listed?
  {
  }

  lemma BacksKind(ph: Phrase)
    requires IsBacks(ph)
    ensures !ph.Listed?
  {
    if !ph.Backed? {
      PipeKind(ph);
    }
  }

  /** The & signs behind a command. */
  lemma {:induction false} BacksSound(s: string, p: nat, ph0: Phrase) returns (ph: Phrase)
    requires p <= |s| && NoNul(s) && IsBacks(ph0) && AllWords(s, Tree(ph0))
    ensures var r := ParseBacks(s, p, Tree(ph0));
            IsBacks(ph) && Yield(ph0) + Lex(s, p) == Yield(ph) + Lex(s, r.pos) && Tree(ph) == r.cmd
    decreases |s| - p
  {
    hide GetToken, Peek, Lex, Wrap, ItemsToks, IsPipe, AllWords;
    PeekHead(s, p);
    LexHead(s, p);
    LexSkip(s, p);
    if !Peek(s, p, "&") {
      ph := ph0;
    } else {
      BackWords(s, Tree(ph0));
      ph := BacksSound(s, GetToken(s, Skip(s, p)).pos, Backed(ph0));
    }
  }

  lemma BackWords(s: string, c: Cmd)
    requires AllWords(s, c)
    ensures AllWords(s, Back(c))
  {
  }

  lemma {:induction false} LineSound(s: string, p: nat) returns (ph: Phrase)
    requires p <= |s| && NoNul(s) && ParseLine(s, p).Parse?
    ensures var r := ParseLine(s, p); IsLine(ph) && Lex(s, p) == Yield(ph) + Lex(s, r.pos) && Tree(ph) == r.cmd
    decreases |s| - p, 3
  {
    hide GetToken, Peek, Lex, ParsePipe, ParseBacks, IsPipe, Wrap, ItemsToks;
    var first := PipeSound(s, p);
    var l := ParsePipe(s, p);
    PipeKind(first);
    var left := BacksSound(s, l.pos, first);
    var b := ParseBacks(s, l.pos, l.cmd);
    BacksKind(left);
    PeekHead(s, b.pos);
    LexHead(s, b.pos);
    LexSkip(s, b.pos);
    if !Peek(s, b.pos, ";") {
      ph := left;
    } else {
      var right := LineSound(s, GetToken(s, Skip(s, b.pos)).pos);
      ph := Listed(left, right);
    }
  }

  // ---------- Every phrase is accepted ----------

  /** How many redirections come first. */
  function Leading(items: seq<Item>): (n: nat)
    ensures n <= |items| && ArgsOf(items[..n]) == [] && (n < |items| ==> items[n].Arg?)
  {
    if items == [] || items[0].Arg? then 0 else
      var n := Leading(items[1..]);
      assert items[..n + 1][1..] == items[1..][..n];
      n + 1
  }

  lemma ModeSign(m: Mode)
    ensures ModeOf(Sign(m)) == m && Sign(m) in "<>+"
  {
  }

  lemma ItemsHead(items: seq<Item>, rest: seq<Tok>)
    requires items != []
    ensures ItemsToks(items) + rest == ItemToks(items[0]) + (ItemsToks(items[1..]) + rest)
  {
  }

  lemma {:induction false} RedirsComplete(s: string, p: nat, items: seq<Item>, rest: seq<Tok>)
    requires p <= |s| && NoNul(s) && ArgsOf(items) == [] && Lex(s, p) == ItemsToks(items) + rest && !Starts(rest, "<>+")
    ensures var r := ParseRedirs(s, p); r.Files? && r.fs == FilesOf(items) && Lex(s, r.pos) == rest
    decreases |items|
  {
    hide GetToken, Peek, IsWord, FilesOk, Lex, Skip, ItemsToks;
    PeekHead(s, p);
    LexHead(s, p);
    LexSkip(s, p);
    if items == [] {
      NoItems(rest);
    } else {
      ItemsHead(items, rest);
      ModeSign(items[0].mode);
      var more := ItemsToks(items[1..]) + rest;
      assert Lex(s, p) == [Sym(Sign(items[0].mode))] + ([Word(items[0].at)] + more);
      LexTail(s, p, Sym(Sign(items[0].mode)), [Word(items[0].at)] + more);
      var t := GetToken(s, Skip(s, p));
      LexSkip(s, t.pos);
      LexTail(s, t.pos, Word(items[0].at), more);
      var f := GetToken(s, t.pos);
      RedirsComplete(s, f.pos, items[1..], rest);
    }
  }

  /** What can come behind a simple command. */
  predicate Follows(ts: seq<Tok>, kinds: string) {
    ts == [] || Starts(ts, kinds)
  }

  lemma NoSign(items: seq<Item>, rest: seq<Tok>)
    requires Follows(rest, "|)&;") && (items == [] || items[0].Arg?)
    ensures var ts := ItemsToks(items) + rest; !Starts(ts, "<>+") && !Starts(ts, "(")
  {
  }

  lemma {:induction false} WordsComplete(s: string, p: nat, args: seq<Span>, fs: seq<File>, items: seq<Item>,
                                         rest: seq<Tok>)
    requires p <= |s| && NoNul(s) && ArgsOk(s, args) && FilesOk(s, fs) && Lex(s, p) == ItemsToks(items) + rest
    requires Follows(rest, "|)&;") && (items == [] || items[0].Arg?) && |args| + |ArgsOf(items)| < MAXARGS
    ensures var r := ParseWords(s, p, args, fs);
            r.Words? && r.args == args + ArgsOf(items) && r.fs == fs + FilesOf(items) && Lex(s, r.pos) == rest
    decreases |items|
  {
    hide GetToken, Peek, IsWord, FilesOk, ArgsOk, Lex, Skip, ParseRedirs, ItemsToks, ArgsOf, FilesOf;
    PeekHead(s, p);
    LexHead(s, p);
    LexSkip(s, p);
    if items == [] {
      NoItems(rest);
      if rest == [] {
        EndStays(s, p);
      }
    } else {
      ArgFirst(items);
      var some, more := SplitItems(items[1..], rest);
      var back := ItemsToks(more) + rest;
      assert Lex(s, p) == [Word(items[0].at)] + (ItemsToks(some) + back);
      LexTail(s, p, Word(items[0].at), ItemsToks(some) + back);
      var t := GetToken(s, Skip(s, p));
      RedirsComplete(s, t.pos, some, back);
      var r := ParseRedirs(s, t.pos);
      ArgsMore(s, args, Span(t.q, t.eq));
      FilesMore(s, fs, r.fs);
      WordsComplete(s, r.pos, args + [Span(t.q, t.eq)], fs + r.fs, more, rest);
    }
  }

  /** The redirections that come first, and what follows them. */
  lemma SplitItems(items: seq<Item>, rest: seq<Tok>) returns (some: seq<Item>, more: seq<Item>)
    requires Follows(rest, "|)&;")
    ensures some + more == items && ArgsOf(some) == [] && (more == [] || more[0].Arg?)
    ensures ArgsOf(more) == ArgsOf(items) && FilesOf(items) == FilesOf(some) + FilesOf(more)
    ensures ItemsToks(items) + rest == ItemsToks(some) + (ItemsToks(more) + rest)
    ensures !Starts(ItemsToks(more) + rest, "<>+") && !Starts(ItemsToks(items) + rest, "(")
  {
    hide ItemsToks, ArgsOf, FilesOf;
    var n := Leading(items);
    some, more := items[..n], items[n..];
    assert some + more == items;
    ItemsMore(some, more);
    NoSign(more, rest);
    NoParen(some, ItemsToks(more) + rest);
    assert [] + ArgsOf(more) == ArgsOf(more);
  }

  lemma {:induction false} ExecComplete(s: string, p: nat, ph: Phrase, rest: seq<Tok>)
    requires p <= |s| && NoNul(s) && IsExec(ph) && Lex(s, p) == Yield(ph) + rest && Follows(rest, "|)&;")
    ensures var r := ParseExec(s, p); r.Parse? && r.cmd == Tree(ph) && Lex(s, r.pos) == rest
    decreases ph, 0
  {
    hide GetToken, Peek, IsWord, Lex, Skip, ParseRedirs, ParseWords, ItemsToks, Wrap, ParseLine, IsLine;
    PeekHead(s, p);
    LexSkip(s, p);
    match ph
    case Items(items) =>
      ItemsComplete(s, p, items, rest);
    case Paren(inner, files) =>
      var back := ItemsToks(files) + rest;
      assert Lex(s, p) == [Sym('(')] + (Yield(inner) + ([Sym(')')] + back));
      SkipTwice(s, p);
      LexTail(s, p, Sym('('), Yield(inner) + ([Sym(')')] + back));
      var t := GetToken(s, Skip(s, p));
      LineComplete(s, t.pos, inner, [Sym(')')] + back);
      var l := ParseLine(s, t.pos);
      PeekHead(s, l.pos);
      LexTail(s, l.pos, Sym(')'), back);
      var u := GetToken(s, Skip(s, l.pos));
      RedirsComplete(s, u.pos, files, rest);
  }

  lemma SkipTwice(s: string, p: nat)
    requires p <= |s|
    ensures Skip(s, Skip(s, p)) == Skip(s, p) && forall toks :: Peek(s, Skip(s, p), toks) <==> Peek(s, p, toks)
  {
  }

  lemma ItemsComplete(s: string, p: nat, items: seq<Item>, rest: seq<Tok>)
    requires p <= |s| && NoNul(s) && |ArgsOf(items)| < MAXARGS && Lex(s, p) == ItemsToks(items) + rest
    requires Follows(rest, "|)&;")
    ensures var r := ParseExec(s, p);
            r.Parse? && r.cmd == Wrap(Exec(ArgsOf(items)), FilesOf(items)) && Lex(s, r.pos) == rest
  {
    hide GetToken, Peek, IsWord, Lex, Skip, ParseRedirs, ParseWords, ItemsToks, Wrap, ArgsOf, FilesOf;
    PeekHead(s, p);
    LexSkip(s, p);
    var some, more := SplitItems(items, rest);
    RedirsComplete(s, Skip(s, p), some, ItemsToks(more) + rest);
    var f := ParseRedirs(s, Skip(s, p));
    ArgsNone(s);
    WordsComplete(s, f.pos, [], f.fs, more, rest);
    assert [] + ArgsOf(more) == ArgsOf(more);
  }

  lemma NoParen(items: seq<Item>, rest: seq<Tok>)
    requires !Starts(rest, "(")
    ensures !Starts(ItemsToks(items) + rest, "(")
  {
    if items == [] {
      assert ItemsToks(items) + rest == rest;
    }
  }

  lemma {:induction false} PipeComplete(s: string, p: nat, ph: Phrase, rest: seq<Tok>)
    requires p <= |s| && NoNul(s) && IsPipe(ph) && Lex(s, p) == Yield(ph) + rest && Follows(rest, ")&;")
    ensures var r := ParsePipe(s, p); r.Parse? && r.cmd == Tree(ph) && Lex(s, r.pos) == rest
    decreases ph, 1
  {
    hide GetToken, Peek, Lex, Skip, ParseExec, IsExec, ItemsToks, Wrap;
    if ph.Piped? {
      var back := [Sym('|')] + (Yield(ph.right) + rest);
      assert Lex(s, p) == Yield(ph.left) + back;
      ExecComplete(s, p, ph.left, back);
      var l := ParseExec(s, p);
      PeekHead(s, l.pos);
      LexTail(s, l.pos, Sym('|'), Yield(ph.right) + rest);
      PipeComplete(s, GetToken(s, Skip(s, l.pos)).pos, ph.right, rest);
    } else {
      ExecComplete(s, p, ph, rest);
      var l := ParseExec(s, p);
      PeekHead(s, l.pos);
      LexSkip(s, l.pos);
    }
  }

  /** The loop over the & signs gets to the end of the phrase with its command. */
  lemma {:induction false} BacksComplete(s: string, p: nat, ph: Phrase, rest: seq<Tok>) returns (e: nat)
    requires p <= |s| && NoNul(s) && IsBacks(ph) && Lex(s, p) == Yield(ph) + rest && Follows(rest, ")&;")
    ensures e <= |s| && Lex(s, e) == rest && ParsePipe(s, p).Parse? && AllWords(s, Tree(ph))
    ensures ParseBacks(s, ParsePipe(s, p).pos, ParsePipe(s, p).cmd) == ParseBacks(s, e, Tree(ph))
    decreases ph, 2
  {
    hide GetToken, Peek, Lex, Skip, ParsePipe, IsPipe, ItemsToks, Wrap;
    if ph.Backed? {
      assert Lex(s, p) == Yield(ph.inner) + ([Sym('&')] + rest);
      var m := BacksComplete(s, p, ph.inner, [Sym('&')] + rest);
      PeekHead(s, m);
      LexTail(s, m, Sym('&'), rest);
      e := GetToken(s, Skip(s, m)).pos;
    } else {
      PipeComplete(s, p, ph, rest);
      e := ParsePipe(s, p).pos;
    }
  }

  lemma {:induction false} LineComplete(s: string, p: nat, ph: Phrase, rest: seq<Tok>)
    requires p <= |s| && NoNul(s) && IsLine(ph) && Lex(s, p) == Yield(ph) + rest && Follows(rest, ")")
    ensures var r := ParseLine(s, p); r.Parse? && r.cmd == Tree(ph) && Lex(s, r.pos) == rest
    decreases ph, 3
  {
    hide GetToken, Peek, Lex, Skip, ParsePipe, IsBacks, ItemsToks, Wrap;
    if ph.Listed? {
      var back := [Sym(';')] + (Yield(ph.right) + rest);
      assert Lex(s, p) == Yield(ph.left) + back;
      var e := BacksComplete(s, p, ph.left, back);
      PeekHead(s, e);
      LexSkip(s, e);
      var b := ParseBacks(s, e, Tree(ph.left));
      PeekHead(s, b.pos);
      LexTail(s, b.pos, Sym(';'), Yield(ph.right) + rest);
      LineComplete(s, GetToken(s, Skip(s, b.pos)).pos, ph.right, rest);
    } else {
      var e := BacksComplete(s, p, ph, rest);
      PeekHead(s, e);
      LexSkip(s, e);
      var b := ParseBacks(s, e, Tree(ph));
      PeekHead(s, b.pos);
      LexSkip(s, b.pos);
    }
  }

  // ---------- The theorem ----------

  /** A line is accepted with the command c exactly when its tokens are the yield of a phrase that stands for c. */
  lemma AcceptedExactly(s: string, c: Cmd)
    requires NoNul(s)
    ensures ParseCmd(s) == Parse(c, |s|) <==> exists ph :: IsLine(ph) && Yield(ph) == Lex(s, 0) && Tree(ph) == c
  {
    hide ParseLine, Lex, Skip, Yield, Tree, IsLine;
    if ParseCmd(s) == Parse(c, |s|) {
      var ph := LineSound(s, 0);
      LexEnd(s, ParseLine(s, 0).pos);
      assert Yield(ph) + [] == Yield(ph);
    }
    if ph :| IsLine(ph) && Yield(ph) == Lex(s, 0) && Tree(ph) == c {
      assert Yield(ph) + [] == Yield(ph);
      LineComplete(s, 0, ph, []);
      LexEnd(s, ParseLine(s, 0).pos);
    }
  }

  /** And it is refused exactly when its tokens are the yield of no phrase. */
  lemma RefusedExactly(s: string)
    requires NoNul(s)
    ensures ParseCmd(s) == Panic <==> forall ph :: IsLine(ph) ==> Yield(ph) != Lex(s, 0)
  {
    hide ParseCmd, Lex, Yield, Tree, IsLine;
    var r := ParseCmd(s);
    if r.Parse? {
      AcceptedExactly(s, r.cmd);
    } else {
      forall ph | IsLine(ph) ensures Yield(ph) != Lex(s, 0) {
        AcceptedExactly(s, Tree(ph));
      }
    }
  }
}
