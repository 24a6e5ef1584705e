/**
 How tightly the operators of user/sh.c bind: every command, written with parentheses only where it
 needs them, parses to itself.  A pipe joins single programs and blocks and groups to the right, an
 ampersand takes a whole pipe, and a semicolon takes what stands before it and the rest of the line.
*/
module ShellPrecedence {
  import opened ShellParser

  // ---------- text with as few parentheses as possible ----------

  // The level of the grammar at which a command can stand: parseexec, parsepipe, the loop over
  // ampersands, parseline.
  function Level(c: Tree): nat {
    match c
    case Run(_) => 0
    case Into(_, _, _) => 0
    case Both(_, _) => 1
    case Bg(_) => 2
    case Then(_, _) => 3
  }

  function Body(c: Tree): string
    decreases c, 0
  {
    match c
    case Run(args) => Words(args)
    case Into(d, f, k) => Show(d, 0) + (Sign(k) + f)
    case Both(l, r) => Show(l, 0) + ("|" + Show(r, 1))
    case Bg(d) => Show(d, 2) + "&"
    case Then(l, r) => Show(l, 2) + (";" + Show(r, 3))
  }

  // c at a place for commands of the given level.
  function Show(c: Tree, level: nat): string
    decreases c, 1
  {
    if Level(c) <= level then Body(c) else "(" + Body(c) + ")"
  }

  // ---------- what stands after a command ----------

  function Stops(level: nat): string {
    if level == 0 then "|)&;" else if level <= 2 then ")&;" else ")"
  }

  predicate StopAt(t: string, e: nat, level: nat) { e == |t| || (e < |t| && t[e] in Stops(level)) }

  lemma StopSymbol(t: string, e: nat, level: nat)
    requires StopAt(t, e, level)
    ensures e <= |t| && Skip(t, e) == e && (e < |t| ==> Symbol(t[e]) && !White(t[e])) && Bare(t, e)
    ensures !PeekAt(t, e, "<>") && (level > 0 ==> !PeekAt(t, e, "|"))
    ensures level == 3 ==> !PeekAt(t, e, "&") && !PeekAt(t, e, ";")
    ensures StopAt(t, e, 0) && (level > 0 ==> StopAt(t, e, 1) && StopAt(t, e, 2)) && (level == 3 ==> Stop(t, e))
    ensures e < |t| ==> PeekAt(t, e, "|)&;")
  {
  }

  // No text starts with a space.
  lemma {:induction false} FirstChar(c: Tree, level: nat)
    requires Good(c)
    ensures Show(c, level) != "" ==> !White(Show(c, level)[0])
    decreases c
  {
    if Level(c) <= level {
      match c
      case Run(args) => if args != [] { assert Words(args)[0] == args[0][0]; }
      case Into(d, _, _) => FirstChar(d, 0);
      case Both(l, _) => FirstChar(l, 0);
      case Bg(d) => FirstChar(d, 2);
      case Then(l, _) => FirstChar(l, 2);
    }
  }

  lemma ShowStart(t: string, s: nat, c: Tree, level: nat)
    requires Good(c) && Occurs(t, s, Show(c, level))
    requires var e := s + |Show(c, level)|; e == |t| || (e < |t| && !White(t[e]))
    ensures s <= |t| && (s == |t| || !White(t[s])) && Skip(t, s) == s
  {
    FirstChar(c, level);
    var x := Show(c, level);
    if x != "" {
      assert t[s] == t[s..s + |x|][0];
    }
    hide Show;
  }

  // ---------- redirections ----------

  datatype Want = Want(file: string, kind: Kind)

  // What is left of a command without its redirections, and these, the innermost first.
  function Base(c: Tree): Tree { if c.Into? then Base(c.tree) else c }

  function Wants(c: Tree): seq<Want> { if c.Into? then Wants(c.tree) + [Want(c.file, c.kind)] else [] }

  function WantText(ws: seq<Want>): string {
    if ws == [] then "" else Sign(ws[0].kind) + ws[0].file + WantText(ws[1..])
  }

  function Head(b: Tree): string { if b.Run? then Words(b.args) else "(" + Body(b) + ")" }

  function IntoAll(c: Tree, ws: seq<Want>): Tree
    decreases |ws|
  {
    if ws == [] then c else Into(IntoAll(c, ws[..|ws| - 1]), ws[|ws| - 1].file, ws[|ws| - 1].kind)
  }

  lemma {:induction false} WantMore(ws: seq<Want>, w: Want)
    ensures WantText(ws + [w]) == WantText(ws) + (Sign(w.kind) + w.file)
  {
    if ws != [] {
      assert (ws + [w])[1..] == ws[1..] + [w];
      WantMore(ws[1..], w);
    }
  }

  lemma {:induction false} Flatten(c: Tree)
    requires Good(c)
    ensures Show(c, 0) == Head(Base(c)) + WantText(Wants(c)) && IntoAll(Base(c), Wants(c)) == c
    ensures Good(Base(c)) && !Base(c).Into? && (Base(c) == c || Base(c) < c)
    ensures forall i :: 0 <= i < |Wants(c)| ==> GoodWord(Wants(c)[i].file)
    decreases c
  {
    if c.Into? {
      FlattenInto(c.tree, c.file, c.kind);
      Flatten(c.tree);
    }
  }

  lemma {:induction false} FlattenInto(d: Tree, f: string, k: Kind)
    requires Good(Into(d, f, k))
    ensures var c := Into(d, f, k);
      && Good(d) && GoodWord(f) && Base(c) == Base(d) && Wants(c) == Wants(d) + [Want(f, k)]
      && Show(c, 0) == Show(d, 0) + (Sign(k) + f)
      && WantText(Wants(c)) == WantText(Wants(d)) + (Sign(k) + f)
      && IntoAll(Base(c), Wants(c)) == Into(IntoAll(Base(d), Wants(d)), f, k)
  {
    WantMore(Wants(d), Want(f, k));
    assert (Wants(d) + [Want(f, k)])[..|Wants(d)|] == Wants(d);
    hide Show, WantText, Sign;
    assert Show(Into(d, f, k), 0) == Show(d, 0) + (Sign(k) + f) by { ShowInto(d, f, k); }
  }

  lemma ShowInto(d: Tree, f: string, k: Kind)
    ensures Show(Into(d, f, k), 0) == Show(d, 0) + (Sign(k) + f)
  {
  }

  ghost predicate TargetsRead(t: string, rs: seq<Target>, ws: seq<Want>) {
    |rs| == |ws| && forall i :: 0 <= i < |rs| ==> TargetRead(t, rs[i], ws[i])
  }

  ghost predicate TargetRead(t: string, r: Target, w: Want) { Slice(t, r.file) == w.file && KindOf(r.mode) == w.kind }

  lemma {:induction false} WrapReads(t: string, c: Cmd, rs: seq<Target>, ws: seq<Want>)
    requires TargetsRead(t, rs, ws)
    ensures Denote(t, Wrap(c, rs)) == IntoAll(Denote(t, c), ws)
    decreases |rs|
  {
    if rs != [] {
      WrapReads(t, c, rs[..|rs| - 1], ws[..|ws| - 1]);
      assert TargetRead(t, rs[|rs| - 1], ws[|ws| - 1]);
      hide Slice, KindOf;
    }
  }

  // One redirection, whatever follows its file name.
  lemma NextTarget(t: string, s: nat, w: Want, rs: seq<Target>) returns (r: Target)
    requires Line(t) && Occurs(t, s, Sign(w.kind) + w.file) && GoodWord(w.file)
    requires var e := s + |Sign(w.kind)| + |w.file|; e == |t| || (e < |t| && Symbol(t[e]) && !White(t[e]))
    ensures s <= |t| && s + |Sign(w.kind)| + |w.file| <= |t| && TargetRead(t, r, w)
    ensures Redirs(t, s, rs) == Redirs(t, s + |Sign(w.kind)| + |w.file|, rs + [r])
  {
    hide *;
    var q, e := s + |Sign(w.kind)|, s + |Sign(w.kind)| + |w.file|;
    OccursSplit(t, s, Sign(w.kind), w.file);
    TokenIs(t, q, w.file);
    InLine(t, q, w.file);
    SignIs(t, s, w.kind);
    r := TargetOf(TokenAt(t, s).tok, Tok(q, e));
    SignMode(w.kind, Tok(q, e));
    NotSpace(t, e);
    RedirNext(t, s, q, TokenAt(t, s).tok, Tok(q, e), e, rs);
    FoldRead(t, r, w);
  }

  lemma FoldRead(t: string, r: Target, w: Want)
    requires Slice(t, r.file) == w.file && KindOf(r.mode) == w.kind
    ensures TargetRead(t, r, w)
  {
  }

  lemma SignMode(k: Kind, g: Tok)
    ensures var tok := if k.In? then '<' else if k.Out? then '>' else '+';
      TargetOf(tok, g).file == g && KindOf(TargetOf(tok, g).mode) == k
  {
  }

  lemma NotSpace(t: string, e: nat)
    requires e == |t| || (e < |t| && !White(t[e]))
    ensures Skip(t, e) == e
  {
  }

  lemma RedirNext(t: string, p: nat, q: nat, tok: char, k: Tok, e: nat, rs: seq<Target>)
    requires Line(t) && p <= |t| && q <= |t| && e <= |t| && PeekAt(t, p, "<>") && Skip(t, p) == p
    requires TokenAt(t, p).next == q && TokenAt(t, p).tok == tok && TokenAt(t, q) == Token('a', k, e)
    ensures Redirs(t, p, rs) == Redirs(t, e, rs + [TargetOf(tok, k)])
  {
    hide PeekAt, Skip, TokenAt;
  }

  // A list of redirections.
  lemma {:induction false} RedirsOf(t: string, s: nat, ws: seq<Want>, rs: seq<Target>) returns (more: seq<Target>)
    requires Line(t) && Occurs(t, s, WantText(ws)) && StopAt(t, s + |WantText(ws)|, 0)
    requires forall i :: 0 <= i < |ws| ==> GoodWord(ws[i].file)
    ensures s <= |t| && TargetsRead(t, more, ws) && Redirs(t, s, rs) == Got(rs + more, s + |WantText(ws)|)
    decreases |ws|
  {
    hide *;
    WantParts(ws);
    if ws == [] {
      StopSymbol(t, s, 0);
      NoRedirs(t, s, rs);
      assert rs + [] == rs;
      return [];
    }
    var w, x := ws[0], Sign(ws[0].kind) + ws[0].file;
    OccursSplit(t, s, x, WantText(ws[1..]));
    WantStart(t, s + |x|, ws[1..]);
    var r := NextTarget(t, s, w, rs);
    more := RedirsOf(t, s + |x|, ws[1..], rs + [r]);
    assert rs + [r] + more == rs + ([r] + more);
    ReadFirst(t, r, more, ws);
    more := [r] + more;
  }

  lemma WantParts(ws: seq<Want>)
    ensures ws == [] ==> WantText(ws) == "" && forall t :: TargetsRead(t, [], ws)
    ensures ws != [] ==> WantText(ws) == Sign(ws[0].kind) + ws[0].file + WantText(ws[1..])
  {
  }

  lemma ReadFirst(t: string, r: Target, rs: seq<Target>, ws: seq<Want>)
    requires ws != [] && TargetRead(t, r, ws[0]) && TargetsRead(t, rs, ws[1..])
    ensures TargetsRead(t, [r] + rs, ws)
  {
    hide TargetRead;
    forall i | 0 <= i < |ws| ensures TargetRead(t, ([r] + rs)[i], ws[i]) {
      assert i > 0 ==> ws[i] == ws[1..][i - 1];
    }
  }

  lemma NoRedirs(t: string, s: nat, rs: seq<Target>)
    requires Line(t) && s <= |t| && Skip(t, s) == s && !PeekAt(t, s, "<>")
    ensures Redirs(t, s, rs) == Got(rs, s)
  {
    hide Skip, PeekAt, TokenAt;
  }

  // After a word come redirections or what stops a command: a symbol in both cases.
  lemma WantStart(t: string, s: nat, ws: seq<Want>)
    requires Occurs(t, s, WantText(ws)) && StopAt(t, s + |WantText(ws)|, 0)
    ensures s == |t| || (s < |t| && Symbol(t[s]) && !White(t[s]))
  {
    if ws != [] {
      assert WantText(ws)[0] == Sign(ws[0].kind)[0];
      assert t[s] == t[s..s + |WantText(ws)|][0];
    }
  }

  // ---------- a program with its arguments and redirections ----------

  lemma ArgsStop(t: string, e: nat, args: seq<Tok>, rs: seq<Target>)
    requires Line(t) && StopAt(t, e, 0)
    ensures e <= |t| && Args(t, e, args, rs) == Ok(Wrap(Exec(args), rs), e)
  {
    StopSymbol(t, e, 0);
    hide Wrap, Skip;
  }

  lemma ArgsNext(t: string, s: nat, args: seq<Tok>, k: Tok, next: nat, rs: seq<Target>, s': nat)
    requires Line(t) && s < |t| && Plain(t[s]) && |args| + 1 < MAXARGS && next <= |t| && s' <= |t|
    requires TokenAt(t, s) == Token('a', k, next) && Redirs(t, next, []) == Got(rs, s')
    ensures Args(t, s, args, []) == Args(t, s', args + [k], rs)
  {
    assert Skip(t, s) == s && !PeekAt(t, s, "|)&;");
    hide Skip, TokenAt, Redirs, PeekAt;
  }

  // A space between two words.
  lemma BeforeWord(t: string, e: nat, words: seq<string>)
    requires Line(t) && words != [] && GoodWord(words[0]) && e < |t| && t[e] == ' ' && Occurs(t, e + 1, Words(words))
    ensures Skip(t, e) == e + 1 <= |t| && Redirs(t, e + 1, []) == Got([], e + 1) && White(t[e])
  {
    NextWord(t, e + 1, words);
    SkipOne(t, e);
    BareRedirs(t, e + 1);
    hide Redirs, Skip, Words;
  }

  lemma {:induction false} ArgsReads(t: string, s: nat, words: seq<string>, args: seq<Tok>, ws: seq<Want>)
    returns (argv: seq<Tok>, rs: seq<Target>)
    requires Line(t) && words != [] && Occurs(t, s, Words(words) + WantText(ws))
    requires StopAt(t, s + |Words(words)| + |WantText(ws)|, 0) && |args| + |words| < MAXARGS
    requires forall i :: 0 <= i < |words| ==> GoodWord(words[i])
    requires forall i :: 0 <= i < |ws| ==> GoodWord(ws[i].file)
    ensures s <= |t| && TargetsRead(t, rs, ws) && Slices(t, argv) == Slices(t, args) + words
    ensures Args(t, s, args, []) == Ok(Wrap(Exec(argv), rs), s + |Words(words)| + |WantText(ws)|)
    decreases |words|
  {
    hide *;
    var w, e := words[0], s + |words[0]|;
    FirstWord(words, WantText(ws));
    SlicesMore(t, args, Tok(s, e));
    if |words| == 1 {
      OccursSplit(t, s, w, WantText(ws));
      WantStart(t, e, ws);
      NotSpace(t, e);
      TokenIs(t, s, w);
      InLine(t, s, w);
      rs := RedirsOf(t, e, ws, []);
      assert [] + rs == rs;
      argv := args + [Tok(s, e)];
      ArgsNext(t, s, args, Tok(s, e), e, rs, e + |WantText(ws)|);
      ArgsStop(t, e + |WantText(ws)|, argv, rs);
      assert words == [w];
    } else {
      var rest := words[1..];
      OccursSplit(t, s, w, " " + (Words(rest) + WantText(ws)));
      SpaceSplit(t, e, Words(rest) + WantText(ws));
      OccursSplit(t, e + 1, Words(rest), WantText(ws));
      BeforeWord(t, e, rest);
      TokenIs(t, s, w);
      InLine(t, s, w);
      ArgsNext(t, s, args, Tok(s, e), e + 1, [], e + 1);
      argv, rs := ArgsReads(t, e + 1, rest, args + [Tok(s, e)], ws);
      assert Slices(t, args) + [w] + rest == Slices(t, args) + words;
    }
  }

  lemma FirstWord(words: seq<string>, x: string)
    requires words != []
    ensures |words| == 1 ==> Words(words) == words[0]
    ensures |words| > 1 ==> Words(words) + x == words[0] + (" " + (Words(words[1..]) + x))
    ensures |words| > 1 ==> |Words(words)| == |words[0]| + 1 + |Words(words[1..])|
  {
  }

  lemma SpaceSplit(t: string, e: nat, x: string)
    requires Occurs(t, e, " " + x)
    ensures e < |t| && t[e] == ' ' && Occurs(t, e + 1, x)
  {
    OccursSplit(t, e, " ", x);
    assert t[e] == t[e..e + 1][0];
  }

  // ---------- commands at a level ----------

  // parsepipe and the loop over ampersands.
  function BackAt(t: string, s: nat): Parsed
    requires s <= |t| && Line(t)
  {
    match PipeAt(t, s) {
      case Panic(e) => Panic(e)
      case Ok(c, s') => Backs(t, s', c)
    }
  }

  // The parser of a level, started at s, comes to e with c; the loop over ampersands may go on.
  ghost predicate ReadsAt(t: string, s: nat, c: Tree, level: nat, e: nat)
    requires Line(t)
  {
    && s <= |t| && e <= |t|
    && if level == 0 then Reads(t, ExecAt(t, s), e, c)
       else if level == 1 then Reads(t, PipeAt(t, s), e, c)
       else if level == 2 then exists d :: Denote(t, d) == c && BackAt(t, s) == Backs(t, e, d)
       else Reads(t, LineAt(t, s), e, c)
  }

  lemma BacksNone(t: string, e: nat, c: Cmd)
    requires Line(t) && e <= |t| && Skip(t, e) == e && !PeekAt(t, e, "&")
    ensures Backs(t, e, c) == Ok(c, e)
  {
    hide Skip, PeekAt, TokenAt;
  }

  lemma LineFromBack(t: string, s: nat, c: Cmd, e: nat)
    requires Line(t) && s <= |t| && BackAt(t, s) == Ok(c, e) && e <= |t| && Skip(t, e) == e && !PeekAt(t, e, ";")
    ensures LineAt(t, s) == Ok(c, e)
  {
    hide PipeAt, Backs, Skip, PeekAt, TokenAt;
  }

  lemma BackFromPipe(t: string, s: nat, c: Cmd, e: nat)
    requires Line(t) && s <= |t| && PipeAt(t, s) == Ok(c, e)
    ensures e <= |t| && BackAt(t, s) == Backs(t, e, c)
  {
    hide Backs;
  }

  // A command of one level is one of the next, if that is where it stops.
  lemma LiftOne(t: string, s: nat, c: Tree, level: nat, e: nat)
    requires Line(t) && level < 3 && ReadsAt(t, s, c, level, e) && StopAt(t, e, level + 1)
    ensures ReadsAt(t, s, c, level + 1, e)
  {
    StopSymbol(t, e, level + 1);
    hide ExecAt, PipeAt, Backs, BackAt, LineAt, Skip, PeekAt, StopAt, Denote;
    if level == 0 {
      PipeNone(t, s, ExecAt(t, s).cmd, e);
    } else if level == 1 {
      BackFromPipe(t, s, PipeAt(t, s).cmd, e);
    } else {
      var d :| Denote(t, d) == c && BackAt(t, s) == Backs(t, e, d);
      BacksNone(t, e, d);
      LineFromBack(t, s, d, e);
    }
  }

  lemma StopLower(t: string, e: nat, level: nat, lower: nat)
    requires StopAt(t, e, level) && lower <= level <= 3
    ensures StopAt(t, e, lower)
  {
  }

  lemma Lift(t: string, s: nat, c: Tree, from: nat, level: nat, e: nat)
    requires Line(t) && from <= level <= 3 && ReadsAt(t, s, c, from, e) && StopAt(t, e, level)
    ensures ReadsAt(t, s, c, level, e)
    decreases level - from
  {
    hide ReadsAt, StopAt;
    if from < level {
      StopLower(t, e, level, from + 1);
      LiftOne(t, s, c, from, e);
      Lift(t, s, c, from + 1, level, e);
    }
  }

  // ---------- parseexec ----------

  // The end of parseexec: what the tokens and the redirections read stand for.
  lemma ExecDone(t: string, s: nat, cmd: Cmd, rs: seq<Target>, e: nat, b: Tree, ws: seq<Want>)
    requires Line(t) && s <= |t| && e <= |t| && ExecAt(t, s) == Ok(Wrap(cmd, rs), e)
    requires TargetsRead(t, rs, ws) && Denote(t, cmd) == b
    ensures ReadsAt(t, s, IntoAll(b, ws), 0, e)
  {
    WrapReads(t, cmd, rs, ws);
    hide ExecAt, Wrap, IntoAll, Denote, TargetsRead;
  }

  lemma ExecRedirs(t: string, s: nat, rs: seq<Target>, s': nat)
    requires Line(t) && s <= |t| && s' <= |t| && !PeekAt(t, s, "(") && Skip(t, s) == s
    requires Redirs(t, s, []) == Got(rs, s')
    ensures ExecAt(t, s) == Args(t, s', [], rs)
  {
    hide Skip, PeekAt, Redirs, Args, BlockAt;
  }

  lemma NoParen(t: string, s: nat, ws: seq<Want>)
    requires Occurs(t, s, WantText(ws)) && StopAt(t, s + |WantText(ws)|, 0)
    ensures s <= |t| && Skip(t, s) == s && !PeekAt(t, s, "(")
  {
    if ws != [] {
      assert WantText(ws)[0] == Sign(ws[0].kind)[0];
      assert t[s] == t[s..s + |WantText(ws)|][0];
    }
  }

  lemma DenoteRun(t: string, argv: seq<Tok>, args: seq<string>)
    requires Slices(t, argv) == Slices(t, []) + args
    ensures Denote(t, Exec(argv)) == Run(args)
  {
    assert Slices(t, []) + args == args;
  }

  lemma WordsBare(t: string, s: nat, words: seq<string>, x: string)
    requires words != [] && GoodWord(words[0]) && Occurs(t, s, Words(words) + x)
    ensures s < |t| && Bare(t, s) && Skip(t, s) == s && !PeekAt(t, s, "(")
  {
    OccursSplit(t, s, Words(words), x);
    NextWord(t, s, words);
    hide Words;
  }

  lemma ExecRun(t: string, s: nat, args: seq<string>, ws: seq<Want>)
    requires Line(t) && Good(Run(args)) && Occurs(t, s, Words(args) + WantText(ws))
    requires StopAt(t, s + |Words(args)| + |WantText(ws)|, 0)
    requires forall i :: 0 <= i < |ws| ==> GoodWord(ws[i].file)
    ensures ReadsAt(t, s, IntoAll(Run(args), ws), 0, s + |Words(args)| + |WantText(ws)|)
  {
    hide *;
    var e := s + |Words(args)| + |WantText(ws)|;
    GoodRun(args);
    StopSymbol(t, e, 0);
    var argv, rs := [], [];
    if args == [] {
      EmptyWords();
      assert Words(args) + WantText(ws) == WantText(ws);
      NoParen(t, s, ws);
      rs := RedirsOf(t, s, ws, []);
      assert [] + rs == rs;
      ExecRedirs(t, s, rs, e);
      ArgsStop(t, e, [], rs);
      assert Slices(t, []) + [] == Slices(t, []);
    } else {
      WordsBare(t, s, args, WantText(ws));
      BareRedirs(t, s);
      ExecRedirs(t, s, [], s);
      argv, rs := ArgsReads(t, s, args, [], ws);
    }
    DenoteRun(t, argv, args);
    ExecDone(t, s, Exec(argv), rs, e, Run(args), ws);
  }

  // "(" a line ")" redirections.
  lemma ExecParens(t: string, s: nat, b: Tree, ws: seq<Want>)
    requires Line(t) && Good(b) && Occurs(t, s, "(" + Body(b) + ")" + WantText(ws))
    requires StopAt(t, s + 2 + |Body(b)| + |WantText(ws)|, 0)
    requires forall i :: 0 <= i < |ws| ==> GoodWord(ws[i].file)
    requires ReadsAt(t, s + 1, b, 3, s + 1 + |Body(b)|)
    ensures ReadsAt(t, s, IntoAll(b, ws), 0, s + 2 + |Body(b)| + |WantText(ws)|)
  {
    hide *;
    var n, e := |Body(b)|, s + 2 + |Body(b)| + |WantText(ws)|;
    OccursSplit(t, s, "(" + Body(b) + ")", WantText(ws));
    ParenParts(t, s, Body(b));
    Inner(t, s + 1, b);
    Marks();
    WantStart(t, s + 2 + n, ws);
    NotSpace(t, s + 2 + n);
    SymbolIs(t, s, '(');
    SymbolIs(t, s + 1 + n, ')');
    ReadsLine(t, s + 1, b, s + 1 + n);
    var cmd := LineAt(t, s + 1).cmd;
    var rs := RedirsOf(t, s + 2 + n, ws, []);
    assert [] + rs == rs;
    ExecBlock(t, s);
    BlockIs(t, s, cmd, s + 1 + n, rs, e);
    ExecDone(t, s, cmd, rs, e, b, ws);
  }

  lemma Inner(t: string, s: nat, b: Tree)
    requires Good(b) && Occurs(t, s, Body(b)) && s + |Body(b)| < |t| && t[s + |Body(b)|] == ')'
    ensures s < |t| && !White(t[s])
  {
    assert Show(b, 3) == Body(b);
    ShowStart(t, s, b, 3);
  }

  lemma ReadsLine(t: string, s: nat, c: Tree, e: nat)
    requires Line(t) && ReadsAt(t, s, c, 3, e)
    ensures s <= |t| && e <= |t| && Reads(t, LineAt(t, s), e, c) && LineAt(t, s).Ok?
    ensures LineAt(t, s) == Ok(LineAt(t, s).cmd, e) && Denote(t, LineAt(t, s).cmd) == c
  {
    hide LineAt, Denote;
  }

  lemma BlockIs(t: string, s: nat, c: Cmd, p: nat, rs: seq<Target>, e: nat)
    requires Line(t) && s < |t| && p < |t| && e <= |t| && Skip(t, s) == s && Skip(t, p) == p
    requires PeekAt(t, s, "(") && TokenAt(t, s).next == s + 1 && LineAt(t, s + 1) == Ok(c, p)
    requires PeekAt(t, p, ")") && TokenAt(t, p).next == p + 1 && Redirs(t, p + 1, []) == Got(rs, e)
    ensures BlockAt(t, s) == Ok(Wrap(c, rs), e)
  {
    hide Skip, PeekAt, TokenAt, LineAt, Redirs, Wrap;
  }

  // ---------- the operators ----------

  // x, then one symbol, then y.
  lemma Around(t: string, s: nat, x: string, sym: char, y: string)
    requires Occurs(t, s, x + ([sym] + y))
    ensures Occurs(t, s, x) && s + |x| < |t| && t[s + |x|] == sym && Occurs(t, s + |x| + 1, y)
  {
    OccursSplit(t, s, x, [sym] + y);
    OccursSplit(t, s + |x|, [sym], y);
    assert t[s + |x|] == t[s + |x|..s + |x| + 1][0];
  }

  lemma PipeReads(t: string, s: nat, l: Tree, p: nat, r: Tree, e: nat)
    requires Line(t) && ReadsAt(t, s, l, 0, p) && p < |t| && t[p] == '|'
    requires p + 1 == |t| || !White(t[p + 1])
    requires ReadsAt(t, p + 1, r, 1, e)
    ensures ReadsAt(t, s, Both(l, r), 1, e)
  {
    SymbolIs(t, p, '|');
    hide ExecAt, PipeAt, Skip, PeekAt, TokenAt, LineAt, BackAt;
    PipeStep(t, s, ExecAt(t, s).cmd, p, PipeAt(t, p + 1).cmd, e);
  }

  lemma BackReads(t: string, s: nat, d: Tree, p: nat)
    requires Line(t) && ReadsAt(t, s, d, 2, p) && p < |t| && t[p] == '&'
    requires p + 1 == |t| || !White(t[p + 1])
    ensures ReadsAt(t, s, Bg(d), 2, p + 1)
  {
    SymbolIs(t, p, '&');
    hide ExecAt, PipeAt, Skip, PeekAt, TokenAt, LineAt, BackAt;
    var c :| Denote(t, c) == d && BackAt(t, s) == Backs(t, p, c);
    assert Backs(t, p, c) == Backs(t, p + 1, Back(c));
    assert Denote(t, Back(c)) == Bg(d);
  }

  lemma ThenReads(t: string, s: nat, l: Tree, p: nat, r: Tree, e: nat)
    requires Line(t) && ReadsAt(t, s, l, 2, p) && p < |t| && t[p] == ';'
    requires p + 1 == |t| || !White(t[p + 1])
    requires ReadsAt(t, p + 1, r, 3, e)
    ensures ReadsAt(t, s, Then(l, r), 3, e)
  {
    SymbolIs(t, p, ';');
    hide ExecAt, PipeAt, Skip, PeekAt, TokenAt, LineAt, BackAt, Backs;
    var c :| Denote(t, c) == l && BackAt(t, s) == Backs(t, p, c);
    BacksNone(t, p, c);
    ThenStep(t, s, c, p, LineAt(t, p + 1).cmd, e);
    assert Denote(t, List(c, LineAt(t, p + 1).cmd)) == Then(l, r);
  }

  lemma ThenStep(t: string, s: nat, c: Cmd, p: nat, d: Cmd, e: nat)
    requires Line(t) && s <= |t| && p < |t| && BackAt(t, s) == Ok(c, p) && Skip(t, p) == p && PeekAt(t, p, ";")
    requires TokenAt(t, p).next == p + 1 && LineAt(t, p + 1) == Ok(d, e)
    ensures LineAt(t, s) == Ok(List(c, d), e)
  {
    hide PipeAt, Backs, Skip, PeekAt, TokenAt;
  }

  // ---------- every command ----------

  lemma BodyText(c: Tree)
    ensures match c
      case Run(args) => Body(c) == Words(args)
      case Into(d, f, k) => Body(c) == Show(c, 0)
      case Both(l, r) => Body(c) == Show(l, 0) + (['|'] + Show(r, 1))
      case Bg(d) => Body(c) == Show(d, 2) + (['&'] + "")
      case Then(l, r) => Body(c) == Show(l, 2) + ([';'] + Show(r, 3))
  {
    assert "&" == ['&'] + "";
    if c.Both? { assert "|" + Show(c.right, 1) == ['|'] + Show(c.right, 1); }
    if c.Then? { assert ";" + Show(c.right, 3) == [';'] + Show(c.right, 3); }
  }

  lemma GoodParts(c: Tree)
    requires Good(c)
    ensures c.Both? || c.Then? ==> Good(c.left) && Good(c.right)
    ensures c.Bg? || c.Into? ==> Good(c.tree)
  {
  }

  lemma SymStop(t: string, p: nat, sym: char, level: nat)
    requires p < |t| && t[p] == sym
    ensures sym == '|' && level == 0 ==> StopAt(t, p, level)
    ensures (sym == '&' || sym == ';') && level <= 2 ==> StopAt(t, p, level)
    ensures sym == ')' ==> StopAt(t, p, level)
  {
  }

  // Where the parts of a command with an operator stand.
  lemma JoinedAt(t: string, s: nat, l: Tree, level: nat, sym: char, r: Tree, last: nat)
    requires Line(t) && Good(r) && Occurs(t, s, Show(l, level) + ([sym] + Show(r, last))) && level <= 2
    requires (sym == '|' && level == 0) || sym == ';'
    requires StopAt(t, s + |Show(l, level)| + 1 + |Show(r, last)|, last)
    ensures var p := s + |Show(l, level)|;
      && Occurs(t, s, Show(l, level)) && p < |t| && t[p] == sym && StopAt(t, p, level)
      && Occurs(t, p + 1, Show(r, last)) && (p + 1 == |t| || !White(t[p + 1]))
  {
    hide *;
    var p := s + |Show(l, level)|;
    Around(t, s, Show(l, level), sym, Show(r, last));
    SymStop(t, p, sym, level);
    StopSymbol(t, p + 1 + |Show(r, last)|, last);
    ShowStart(t, p + 1, r, last);
  }

  lemma BgAt(t: string, s: nat, d: Tree)
    requires Line(t) && Occurs(t, s, Show(d, 2) + (['&'] + "")) && StopAt(t, s + |Show(d, 2)| + 1, 2)
    ensures var p := s + |Show(d, 2)|;
      Occurs(t, s, Show(d, 2)) && p < |t| && t[p] == '&' && StopAt(t, p, 2) && (p + 1 == |t| || !White(t[p + 1]))
  {
    hide *;
    var p := s + |Show(d, 2)|;
    Around(t, s, Show(d, 2), '&', "");
    SymStop(t, p, '&', 2);
    StopSymbol(t, p + 1, 2);
  }

  // The block under some redirections.
  lemma BlockAtBase(t: string, s: nat, b: Tree, ws: seq<Want>)
    requires Occurs(t, s, Head(b) + WantText(ws)) && !b.Run?
    ensures Occurs(t, s + 1, Show(b, 3)) && StopAt(t, s + 1 + |Show(b, 3)|, 3) && Show(b, 3) == Body(b)
    ensures Head(b) == "(" + Body(b) + ")" && |Head(b)| == |Body(b)| + 2
  {
    hide *;
    HeadText(b);
    ShowBody(b);
    OccursSplit(t, s, "(" + Body(b) + ")", WantText(ws));
    ParenParts(t, s, Body(b));
    SymStop(t, s + 1 + |Body(b)|, ')', 3);
  }

  /** The text of a command, up to a character that stops a command of its level. */
  lemma {:induction false} BodyReads(t: string, s: nat, c: Tree)
    requires Line(t) && Good(c) && Occurs(t, s, Body(c)) && StopAt(t, s + |Body(c)|, Level(c))
    ensures ReadsAt(t, s, c, Level(c), s + |Body(c)|)
    decreases c, 0
  {
    hide *;
    Levels(c);
    BodyText(c);
    GoodParts(c);
    var e := s + |Body(c)|;
    match c {
      case Run(args) =>
        Plainly(c);
        ExecRun(t, s, args, []);
      case Into(_, _, _) =>
        Flatten(c);
        IntoSmaller(c);
        if Base(c).Run? {
          HeadText(Base(c));
          ExecRun(t, s, Base(c).args, Wants(c));
        } else {
          BlockAtBase(t, s, Base(c), Wants(c));
          ShowReads(t, s + 1, Base(c), 3);
          ExecParens(t, s, Base(c), Wants(c));
        }
      case Both(l, r) =>
        JoinedAt(t, s, l, 0, '|', r, 1);
        ShowReads(t, s, l, 0);
        ShowReads(t, s + |Show(l, 0)| + 1, r, 1);
        PipeReads(t, s, l, s + |Show(l, 0)|, r, e);
      case Bg(d) =>
        BgAt(t, s, d);
        ShowReads(t, s, d, 2);
        BackReads(t, s, d, s + |Show(d, 2)|);
      case Then(l, r) =>
        JoinedAt(t, s, l, 2, ';', r, 3);
        ShowReads(t, s, l, 2);
        ShowReads(t, s + |Show(l, 2)| + 1, r, 3);
        ThenReads(t, s, l, s + |Show(l, 2)|, r, e);
    }
  }

  /** The same at a place for a level, where a command of a higher one has parentheses. */
  lemma {:induction false} ShowReads(t: string, s: nat, c: Tree, level: nat)
    requires Line(t) && Good(c) && level <= 3 && Occurs(t, s, Show(c, level)) && StopAt(t, s + |Show(c, level)|, level)
    ensures ReadsAt(t, s, c, level, s + |Show(c, level)|)
    decreases c, 1
  {
    hide *;
    var e := s + |Show(c, level)|;
    Levels(c);
    if Level(c) <= level {
      ShowPlain(c, level);
      StopLower(t, e, level, Level(c));
      BodyReads(t, s, c);
      Lift(t, s, c, Level(c), level, e);
    } else {
      ShowParens(c, level);
      ParenParts(t, s, Body(c));
      SymStop(t, s + 1 + |Body(c)|, ')', Level(c));
      SymStop(t, s + 1 + |Body(c)|, ')', 3);
      BodyReads(t, s + 1, c);
      Lift(t, s + 1, c, Level(c), 3, s + 1 + |Body(c)|);
      NoWants("(" + Body(c) + ")", c);
      StopLower(t, e, level, 0);
      ExecParens(t, s, c, []);
      Lift(t, s, c, 0, level, e);
    }
  }

  lemma Levels(c: Tree)
    ensures Level(c) <= 3
    ensures match c
      case Run(_) => Level(c) == 0
      case Into(_, _, _) => Level(c) == 0
      case Both(_, _) => Level(c) == 1
      case Bg(_) => Level(c) == 2
      case Then(_, _) => Level(c) == 3
  {
  }

  lemma Plainly(c: Tree)
    requires c.Run?
    ensures Words(c.args) + WantText([]) == Words(c.args) && WantText([]) == "" && IntoAll(c, []) == c
  {
  }

  lemma {:induction false} IntoSmaller(c: Tree)
    requires c.Into?
    ensures Base(c) < c
    decreases c
  {
    if c.tree.Into? { IntoSmaller(c.tree); }
  }

  lemma HeadText(b: Tree)
    ensures b.Run? ==> Head(b) == Words(b.args)
    ensures !b.Run? ==> Head(b) == "(" + Body(b) + ")" && |Head(b)| == |Body(b)| + 2
  {
  }

  lemma ShowBody(c: Tree)
    ensures Show(c, 3) == Body(c)
  {
  }

  lemma ShowPlain(c: Tree, level: nat)
    requires Level(c) <= level
    ensures Show(c, level) == Body(c)
  {
  }

  lemma ShowParens(c: Tree, level: nat)
    requires Level(c) > level
    ensures Show(c, level) == "(" + Body(c) + ")" && |Show(c, level)| == |Body(c)| + 2
  {
  }

  lemma NoWants(x: string, c: Tree)
    ensures x + WantText([]) == x && WantText([]) == "" && IntoAll(c, []) == c
  {
  }

  lemma {:induction false} BodyLine(c: Tree, level: nat)
    requires Good(c)
    ensures Line(Body(c)) && Line(Show(c, level))
    decreases c
  {
    match c
    case Run(args) => WordsLine(args);
    case Into(d, _, _) => BodyLine(d, 0);
    case Both(l, r) =>
      BodyLine(l, 0);
      BodyLine(r, 1);
    case Bg(d) => BodyLine(d, 2);
    case Then(l, r) =>
      BodyLine(l, 2);
      BodyLine(r, 3);
  }

  /** Round trip without needless parentheses: every command whose words are non-empty, without white
      space and symbols, and at most nine to a program, parses to itself.  So | binds tighter than &,
      & tighter than ;, redirections belong to the program or block before them, and | and ; group
      to the right. */
  lemma LeastParens(c: Tree)
    requires Good(c)
    ensures Line(Body(c))
    ensures var r := CmdOf(Body(c)); r.Ok? && Denote(Body(c), r.cmd) == c && CmdFits(Body(c), r.cmd)
  {
    hide *;
    var t := Body(c);
    BodyLine(c, 3);
    ShowBody(c);
    WholeLine(t);
    ShowReads(t, 0, c, 3);
    ReadsLine(t, 0, c, |t|);
    CmdOfLine(t, LineAt(t, 0).cmd);
    ShellParser.RedirsOf(t);
  }

  lemma WholeLine(t: string)
    ensures Occurs(t, 0, t) && StopAt(t, |t|, 3)
  {
    assert t[0..0 + |t|] == t;
  }

  lemma CmdOfLine(t: string, c: Cmd)
    requires Line(t) && LineAt(t, 0) == Ok(c, |t|)
    ensures CmdOf(t) == Ok(c, |t|)
  {
    assert Skip(t, |t|) == |t|;
    hide LineAt;
  }
}
