/**
 The command parser of user/sh.c: its tokens, its recursive descent, and the NULs that
 nulterminate writes into the line.
*/
module ShellParser {

  const MAXARGS := 10

  predicate White(c: char) { c == ' ' || c == '\t' || c == '\r' || c == '\n' || c == '\U{000B}' }

  predicate Symbol(c: char) { c in "<|>&;()" }

  // By their codes: strchr in the strings whitespace and symbols.
  lemma CharCodes(c: char)
    ensures White(c) <==> c as int in {9, 10, 11, 13, 32}
    ensures Symbol(c) <==> c as int in {38, 40, 41, 59, 60, 62, 124}
  {
  }

  // A character of a word.
  predicate Plain(c: char) { !White(c) && !Symbol(c) && c != '\0' }

  // The part of the line from q up to e.
  datatype Tok = Tok(q: nat, e: nat)

  datatype Cmd =
    | Exec(argv: seq<Tok>)
    | Redir(cmd: Cmd, file: Tok, mode: nat, fd: nat)
    | Pipe(left: Cmd, right: Cmd)
    | List(left: Cmd, right: Cmd)
    | Back(cmd: Cmd)

  datatype Error = MissingFile | Syntax | MissingParen | NotBlock | TooManyArgs | Leftovers

  datatype Parsed = Ok(cmd: Cmd, s: nat) | Panic(error: Error)

  // ---------- tokens ----------

  function Skip(t: string, s: nat): (r: nat)
    requires s <= |t|
    ensures s <= r <= |t| && (r < |t| ==> !White(t[r]))
    ensures s == |t| || !White(t[s]) ==> r == s
    decreases |t| - s
  {
    if s < |t| && White(t[s]) then Skip(t, s + 1) else s
  }

  function WordEnd(t: string, s: nat): (r: nat)
    requires s <= |t|
    ensures s <= r <= |t| && (r < |t| ==> White(t[r]) || Symbol(t[r]))
    ensures forall k :: s <= k < r ==> !White(t[k]) && !Symbol(t[k])
    decreases |t| - s
  {
    if s < |t| && !White(t[s]) && !Symbol(t[s]) then WordEnd(t, s + 1) else s
  }

  // What gettoken returns, the token's ends, and where it leaves the cursor.
  datatype Token = Token(tok: char, at: Tok, next: nat)

  // A line, which C ends with a NUL, has none inside.
  predicate Line(t: string) { '\0' !in t }

  function TokenAt(t: string, s: nat): (r: Token)
    requires s <= |t| && Line(t)
    ensures s <= r.next <= |t| && (r.tok != '\0' ==> s < r.next) && (r.next < |t| ==> !White(t[r.next]))
    ensures r.tok == 'a' ==> IsWord(t, r.at)
  {
    var q := Skip(t, s);
    if q == |t| then Token('\0', Tok(q, q), q)
    else if t[q] == '>' then
      var e := if q + 1 < |t| && t[q + 1] == '>' then q + 2 else q + 1;
      Token(if e == q + 2 then '+' else '>', Tok(q, e), Skip(t, e))
    else if Symbol(t[q]) then Token(t[q], Tok(q, q + 1), Skip(t, q + 1))
    else Token('a', Tok(q, WordEnd(t, q)), Skip(t, WordEnd(t, q)))
  }

  // A maximal run of plain characters.
  predicate IsWord(t: string, k: Tok) {
    && k.q < k.e <= |t| && (forall i :: k.q <= i < k.e ==> Plain(t[i]))
    && (k.e < |t| ==> White(t[k.e]) || Symbol(t[k.e]))
  }

  predicate PeekAt(t: string, s: nat, toks: string)
    requires s <= |t|
  {
    Skip(t, s) < |t| && t[Skip(t, s)] in toks
  }

  // ---------- the grammar, as functions of the line and the cursor ----------

  const O_RDONLY := 0x000
  const O_WRONLY := 0x001
  const O_CREATE := 0x200
  const O_TRUNC := 0x400

  datatype Target = Target(file: Tok, mode: nat, fd: nat)

  datatype Targets = Got(rs: seq<Target>, s: nat) | Bad(error: Error)

  function TargetOf(tok: char, file: Tok): Target {
    if tok == '<' then Target(file, O_RDONLY, 0)
    else if tok == '>' then Target(file, O_WRONLY + O_CREATE + O_TRUNC, 1)
    else Target(file, O_WRONLY + O_CREATE, 1)
  }

  // The redirections from s on, after those in rs.
  function Redirs(t: string, s: nat, rs: seq<Target>): (r: Targets)
    requires s <= |t| && Line(t)
    ensures r.Got? ==> s <= r.s <= |t|
    decreases |t| - s
  {
    if PeekAt(t, s, "<>") then
      var op := TokenAt(t, Skip(t, s));
      var f := TokenAt(t, op.next);
      if f.tok != 'a' then Bad(MissingFile) else Redirs(t, f.next, rs + [TargetOf(op.tok, f.at)])
    else Got(rs, Skip(t, s))
  }

  // The first redirection is the innermost.
  function Wrap(c: Cmd, rs: seq<Target>): Cmd
    decreases |rs|
  {
    if rs == [] then c else Redir(Wrap(c, rs[..|rs| - 1]), rs[|rs| - 1].file, rs[|rs| - 1].mode, rs[|rs| - 1].fd)
  }

  function Args(t: string, s: nat, args: seq<Tok>, rs: seq<Target>): (r: Parsed)
    requires s <= |t| && Line(t)
    ensures r.Ok? ==> s <= r.s <= |t|
    decreases |t| - s
  {
    if PeekAt(t, s, "|)&;") then Ok(Wrap(Exec(args), rs), Skip(t, s))
    else
      var g := TokenAt(t, Skip(t, s));
      if g.tok == '\0' then Ok(Wrap(Exec(args), rs), g.next)
      else if g.tok != 'a' then Panic(Syntax)
      else if |args| + 1 >= MAXARGS then Panic(TooManyArgs)
      else match Redirs(t, g.next, rs) {
        case Bad(e) => Panic(e)
        case Got(rs', s') => Args(t, s', args + [g.at], rs')
      }
  }

  function ExecAt(t: string, s: nat): (r: Parsed)
    requires s <= |t| && Line(t)
    ensures r.Ok? ==> s <= r.s <= |t|
    decreases |t| - s, 1
  {
    if PeekAt(t, s, "(") then BlockAt(t, Skip(t, s))
    else match Redirs(t, Skip(t, s), []) {
      case Bad(e) => Panic(e)
      case Got(rs, s') => Args(t, s', [], rs)
    }
  }

  function BlockAt(t: string, s: nat): (r: Parsed)
    requires s <= |t| && Line(t)
    ensures r.Ok? ==> s <= r.s <= |t|
    decreases |t| - s, 0
  {
    if !PeekAt(t, s, "(") then Panic(NotBlock)
    else match LineAt(t, TokenAt(t, Skip(t, s)).next) {
      case Panic(e) => Panic(e)
      case Ok(c, s') =>
        if !PeekAt(t, s', ")") then Panic(MissingParen)
        else match Redirs(t, TokenAt(t, Skip(t, s')).next, []) {
          case Bad(e) => Panic(e)
          case Got(rs, s'') => Ok(Wrap(c, rs), s'')
        }
    }
  }

  function PipeAt(t: string, s: nat): (r: Parsed)
    requires s <= |t| && Line(t)
    ensures r.Ok? ==> s <= r.s <= |t|
    decreases |t| - s, 2
  {
    match ExecAt(t, s) {
      case Panic(e) => Panic(e)
      case Ok(c, s') =>
        if !PeekAt(t, s', "|") then Ok(c, Skip(t, s'))
        else match PipeAt(t, TokenAt(t, Skip(t, s')).next) {
          case Panic(e) => Panic(e)
          case Ok(d, s'') => Ok(Pipe(c, d), s'')
        }
    }
  }

  // The loop over "&".
  function Backs(t: string, s: nat, c: Cmd): (r: Parsed)
    requires s <= |t| && Line(t)
    ensures r.Ok? && s <= r.s <= |t|
    decreases |t| - s
  {
    if PeekAt(t, s, "&") then Backs(t, TokenAt(t, Skip(t, s)).next, Back(c)) else Ok(c, Skip(t, s))
  }

  function LineAt(t: string, s: nat): (r: Parsed)
    requires s <= |t| && Line(t)
    ensures r.Ok? ==> s <= r.s <= |t|
    decreases |t| - s, 3
  {
    match PipeAt(t, s) {
      case Panic(e) => Panic(e)
      case Ok(c0, s0) =>
        var Ok(c, s') := Backs(t, s0, c0);
        if !PeekAt(t, s', ";") then Ok(c, Skip(t, s'))
        else match LineAt(t, TokenAt(t, Skip(t, s')).next) {
          case Panic(e) => Panic(e)
          case Ok(d, s'') => Ok(List(c, d), s'')
        }
    }
  }

  function CmdOf(t: string): (r: Parsed)
    requires Line(t)
  {
    match LineAt(t, 0) {
      case Panic(e) => Panic(e)
      case Ok(c, s) => if Skip(t, s) != |t| then Panic(Leftovers) else Ok(c, Skip(t, s))
    }
  }

  // ---------- commands as trees, and their fully parenthesised text ----------

  datatype Kind = In | Out | App  // <, > and >>

  datatype Tree =
    | Run(args: seq<string>)
    | Into(tree: Tree, file: string, kind: Kind)
    | Both(left: Tree, right: Tree)  // |
    | Then(left: Tree, right: Tree)  // ;
    | Bg(tree: Tree)                 // &

  predicate GoodWord(w: string) { w != [] && forall i :: 0 <= i < |w| ==> Plain(w[i]) }

  predicate Good(c: Tree) {
    match c
    case Run(args) => |args| < 10 && forall i :: 0 <= i < |args| ==> GoodWord(args[i])
    case Into(d, f, _) => Good(d) && GoodWord(f)
    case Both(l, r) => Good(l) && Good(r)
    case Then(l, r) => Good(l) && Good(r)
    case Bg(d) => Good(d)
  }

  function Sign(k: Kind): string { match k case In => "<" case Out => ">" case App => ">>" }

  function Words(args: seq<string>): string {
    if args == [] then "" else if |args| == 1 then args[0] else args[0] + " " + Words(args[1..])
  }

  function Parens(c: Tree): string
    decreases c, 1
  {
    "(" + Text(c) + ")"
  }

  function Text(c: Tree): string
    decreases c, 0
  {
    match c
    case Run(args) => Words(args)
    case Into(d, f, k) => Parens(d) + (Sign(k) + f)
    case Both(l, r) => Parens(l) + ("|" + Parens(r))
    case Then(l, r) => Parens(l) + (";" + Parens(r))
    case Bg(d) => Parens(d) + "&"
  }

  // ---------- the tree that a parsed command stands for ----------

  function Slice(t: string, k: Tok): string { if k.q <= k.e <= |t| then t[k.q..k.e] else "" }

  function KindOf(mode: nat): Kind {
    if mode == O_RDONLY then In else if mode == O_WRONLY + O_CREATE + O_TRUNC then Out else App
  }

  function Slices(t: string, argv: seq<Tok>): seq<string> {
    if argv == [] then [] else [Slice(t, argv[0])] + Slices(t, argv[1..])
  }

  function Denote(t: string, c: Cmd): Tree {
    match c
    case Exec(argv) => Run(Slices(t, argv))
    case Redir(d, f, mode, _) => Into(Denote(t, d), Slice(t, f), KindOf(mode))
    case Pipe(l, r) => Both(Denote(t, l), Denote(t, r))
    case List(l, r) => Then(Denote(t, l), Denote(t, r))
    case Back(d) => Bg(Denote(t, d))
  }

  // ---------- round trip ----------

  predicate Occurs(t: string, s: nat, x: string) { s + |x| <= |t| && t[s..s + |x|] == x }

  lemma OccursSplit(t: string, s: nat, x: string, y: string)
    requires Occurs(t, s, x + y)
    ensures Occurs(t, s, x) && Occurs(t, s + |x|, y)
  {
    assert t[s..s + |x|] == (x + y)[..|x|];
    assert t[s + |x|..s + |x| + |y|] == (x + y)[|x|..];
  }

  // Where a command ends: at the end of the line or at a closing parenthesis.
  predicate Stop(t: string, e: nat) { e == |t| || (e < |t| && t[e] == ')') }

  lemma {:induction false} WordEndIs(t: string, s: nat, e: nat)
    requires s <= e <= |t| && (forall k :: s <= k < e ==> Plain(t[k])) && (e == |t| || White(t[e]) || Symbol(t[e]))
    ensures WordEnd(t, s) == e
    decreases e - s
  {
    if s < e { WordEndIs(t, s + 1, e); }
  }

  // A word followed by something else is one token.
  lemma TokenIs(t: string, s: nat, w: string)
    requires Line(t) && Occurs(t, s, w) && GoodWord(w)
    requires s + |w| == |t| || White(t[s + |w|]) || Symbol(t[s + |w|])
    ensures TokenAt(t, s) == Token('a', Tok(s, s + |w|), Skip(t, s + |w|)) && Slice(t, Tok(s, s + |w|)) == w
    ensures Plain(t[s]) && Skip(t, s) == s
  {
    assert forall k :: s <= k < s + |w| ==> t[k] == t[s..s + |w|][k - s];
    WordEndIs(t, s, s + |w|);
  }

  lemma {:induction false} SlicesMore(t: string, argv: seq<Tok>, k: Tok)
    ensures Slices(t, argv + [k]) == Slices(t, argv) + [Slice(t, k)]
  {
    if argv == [] {
      assert argv + [k] == [k];
    } else {
      assert (argv + [k])[1..] == argv[1..] + [k] && (argv + [k])[0] == argv[0];
      SlicesMore(t, argv[1..], k);
    }
  }

  // Neither space nor redirection stands at p.
  predicate Bare(t: string, p: nat) { p == |t| || (p < |t| && !White(t[p]) && t[p] !in "<>") }

  lemma BareRedirs(t: string, p: nat)
    requires Line(t) && Bare(t, p)
    ensures p <= |t| && Skip(t, p) == p && Redirs(t, p, []) == Got([], p)
  {
    assert Skip(t, p) == p && !PeekAt(t, p, "<>");
    hide Skip, PeekAt, TokenAt;
  }

  lemma ArgsEnd(t: string, s: nat, args: seq<Tok>)
    requires Line(t) && s <= |t| && Stop(t, s)
    ensures Args(t, s, args, []) == Ok(Exec(args), s)
  {
    assert Skip(t, s) == s;
  }

  lemma ArgsStep(t: string, s: nat, args: seq<Tok>, k: Tok, next: nat)
    requires Line(t) && s < |t| && Plain(t[s]) && |args| + 1 < MAXARGS && next <= |t|
    requires TokenAt(t, s) == Token('a', k, next) && Bare(t, next)
    ensures Args(t, s, args, []) == Args(t, next, args + [k], [])
  {
    assert Skip(t, s) == s && !PeekAt(t, s, "|)&;");
    BareRedirs(t, next);
    hide Skip, TokenAt, Redirs, PeekAt;
  }

  // Between two words stands one space.
  lemma AfterWord(t: string, s: nat, words: seq<string>)
    requires words != [] && Occurs(t, s, Words(words)) && Stop(t, s + |Words(words)|)
    requires forall i :: 0 <= i < |words| ==> GoodWord(words[i])
    ensures Occurs(t, s, words[0])
    ensures var e := s + |words[0]|; var e' := if |words| > 1 then e + 1 else e;
      && (e == |t| || White(t[e]) || Symbol(t[e])) && e' <= |t| && Skip(t, e) == e'
      && Occurs(t, e', Words(words[1..]))
      && e' + |Words(words[1..])| == s + |Words(words)| && Bare(t, e')
  {
    var w, e := words[0], s + |words[0]|;
    if |words| > 1 {
      assert Words(words) == w + (" " + Words(words[1..]));
      SpaceThen(t, s, w, Words(words[1..]));
      hide Occurs, Words, Stop, Skip;
      NextWord(t, e + 1, words[1..]);
      SkipOne(t, e);
    } else {
      assert Words(words[1..]) == "" && Words(words) == w;
    }
  }

  lemma SpaceThen(t: string, s: nat, w: string, rest: string)
    requires Occurs(t, s, w + (" " + rest))
    ensures Occurs(t, s, w) && s + |w| < |t| && t[s + |w|] == ' ' && Occurs(t, s + |w| + 1, rest)
    ensures |w + (" " + rest)| == |w| + 1 + |rest|
  {
    OccursSplit(t, s, w, " " + rest);
    OccursSplit(t, s + |w|, " ", rest);
    assert t[s + |w|] == t[s + |w|..s + |w| + 1][0];
  }

  lemma SkipOne(t: string, e: nat)
    requires e + 1 < |t| && t[e] == ' ' && Plain(t[e + 1])
    ensures Skip(t, e) == e + 1
  {
  }

  /** The argument loop reads back a list of words. */
  lemma {:induction false} ArgsOf(t: string, s: nat, words: seq<string>, args: seq<Tok>)
    requires Line(t) && Occurs(t, s, Words(words)) && Stop(t, s + |Words(words)|)
    requires |args| + |words| < MAXARGS && forall i :: 0 <= i < |words| ==> GoodWord(words[i])
    ensures var r := Args(t, s, args, []);
      r.Ok? && r.cmd.Exec? && r.s == s + |Words(words)| && Slices(t, r.cmd.argv) == Slices(t, args) + words
    decreases |words|
  {
    hide Args, Slices, TokenAt, Occurs, Plain, Stop, Skip, White, Symbol;
    if words == [] {
      EmptyWords();
      OccursIn(t, s, Words(words));
      ArgsEnd(t, s, args);
      assert Slices(t, args) + words == Slices(t, args);
    } else {
      var w, e := words[0], s + |words[0]|;
      var e' := if |words| > 1 then e + 1 else e;
      AfterWord(t, s, words);
      TokenIs(t, s, w);
      InLine(t, s, w);
      ArgsStep(t, s, args, Tok(s, e), e');
      SlicesMore(t, args, Tok(s, e));
      ArgsOf(t, e', words[1..], args + [Tok(s, e)]);
      assert Slices(t, args) + [w] + words[1..] == Slices(t, args) + words;
    }
  }

  lemma OccursIn(t: string, s: nat, x: string)
    requires Occurs(t, s, x)
    ensures s + |x| <= |t|
  {
  }

  lemma EmptyWords()
    ensures Words([]) == ""
  {
  }

  lemma InLine(t: string, s: nat, w: string)
    requires Occurs(t, s, w) && GoodWord(w)
    ensures s < |t| && s + |w| <= |t|
  {
  }

  // The text of some words starts with a plain character.
  lemma NextWord(t: string, s: nat, words: seq<string>)
    requires words != [] && GoodWord(words[0]) && Occurs(t, s, Words(words))
    ensures s < |t| && Plain(t[s])
  {
    assert Words(words)[0] == words[0][0];
    assert t[s] == t[s..s + |Words(words)|][0];
  }

  ghost predicate Reads(t: string, r: Parsed, e: nat, c: Tree) { r.Ok? && r.s == e && Denote(t, r.cmd) == c }

  lemma BareStop(t: string, e: nat)
    requires Stop(t, e)
    ensures Bare(t, e) && e <= |t|
  {
  }

  // A one-character token and what follows it.
  lemma SymbolIs(t: string, p: nat, c: char)
    requires Line(t) && p < |t| && t[p] == c && c in "(|&;)" && (p + 1 == |t| || !White(t[p + 1]))
    ensures Skip(t, p) == p && TokenAt(t, p) == Token(c, Tok(p, p + 1), p + 1)
    ensures forall toks: string :: PeekAt(t, p, toks) <==> c in toks
  {
  }

  // The text of a command does not start with a space.
  lemma TextStart(t: string, s: nat, c: Tree)
    requires Good(c) && Occurs(t, s, Text(c)) && Stop(t, s + |Text(c)|)
    ensures s <= |t| && (s == |t| || !White(t[s]))
  {
    if c.Run? {
      if c.args != [] {
        NextWord(t, s, c.args);
      }
    } else {
      assert Text(c)[0] == '(';
      assert t[s] == t[s..s + |Text(c)|][0];
    }
  }

  // A command in parentheses.
  lemma ParenBlock(t: string, s: nat, c: Tree) returns (cmd: Cmd)
    requires Line(t) && Good(c) && Occurs(t, s, Parens(c)) && Reads(t, LineAt(t, s + 1), s + 1 + |Text(c)|, c)
    requires var p := s + |Parens(c)|; p == |t| || !White(t[p])
    ensures Denote(t, cmd) == c && s < |t| && t[s] == '(' && Skip(t, s) == s && s + |Parens(c)| <= |t|
    ensures var r := Redirs(t, s + |Parens(c)|, []);
      BlockAt(t, s) == if r.Bad? then Panic(r.error) else Ok(Wrap(cmd, r.rs), r.s)
    ensures PeekAt(t, s, "(")
  {
    hide *;
    ParensAre(c);
    ParenParts(t, s, Text(c));
    var e := s + 1 + |Text(c)|;
    SymbolIs(t, e, ')');
    TextStart(t, s + 1, c);
    SymbolIs(t, s, '(');
    ReadsIs(t, LineAt(t, s + 1), e, c);
    cmd := LineAt(t, s + 1).cmd;
    BlockStep(t, s, cmd, e);
  }

  lemma ParensAre(c: Tree)
    ensures Parens(c) == "(" + Text(c) + ")" && |Parens(c)| == |Text(c)| + 2
  {
    hide Text;
  }

  lemma ReadsIs(t: string, r: Parsed, e: nat, c: Tree)
    requires Reads(t, r, e, c)
    ensures r == Ok(r.cmd, e) && Denote(t, r.cmd) == c
  {
    hide Denote;
  }

  lemma BlockStep(t: string, s: nat, cmd: Cmd, e: nat)
    requires Line(t) && s < |t| && e < |t| && PeekAt(t, s, "(") && Skip(t, s) == s && TokenAt(t, s).next == s + 1
    requires LineAt(t, s + 1) == Ok(cmd, e) && PeekAt(t, e, ")") && Skip(t, e) == e && TokenAt(t, e).next == e + 1
    ensures var r := Redirs(t, e + 1, []);
      BlockAt(t, s) == if r.Bad? then Panic(r.error) else Ok(Wrap(cmd, r.rs), r.s)
  {
    hide Skip, TokenAt, PeekAt, Redirs, LineAt, Wrap;
  }

  lemma ParenParts(t: string, s: nat, x: string)
    requires Occurs(t, s, "(" + x + ")")
    ensures s + 1 + |x| < |t| && t[s] == '(' && Occurs(t, s + 1, x) && t[s + 1 + |x|] == ')'
  {
    assert "(" + x + ")" == "(" + (x + ")");
    OccursSplit(t, s, "(", x + ")");
    OccursSplit(t, s + 1, x, ")");
    assert t[s] == t[s..s + 1][0];
    assert t[s + 1 + |x|] == t[s + 1 + |x|..s + 1 + |x| + 1][0];
  }

  lemma ParenExec(t: string, s: nat, c: Tree) returns (cmd: Cmd)
    requires Line(t) && Good(c) && Occurs(t, s, Parens(c)) && Reads(t, LineAt(t, s + 1), s + 1 + |Text(c)|, c)
    requires Bare(t, s + |Parens(c)|)
    ensures s <= |t| && ExecAt(t, s) == Ok(cmd, s + |Parens(c)|) && Denote(t, cmd) == c
  {
    hide *;
    BareIn(t, s + |Parens(c)|);
    cmd := ParenBlock(t, s, c);
    BareRedirs(t, s + |Parens(c)|);
    ExecBlock(t, s);
    NoTargets(cmd);
  }

  lemma BareIn(t: string, p: nat)
    requires Bare(t, p)
    ensures p == |t| || (p < |t| && !White(t[p]))
  {
  }

  lemma NoTargets(c: Cmd)
    ensures Wrap(c, []) == c
  {
  }

  lemma ExecBlock(t: string, s: nat)
    requires Line(t) && s <= |t| && PeekAt(t, s, "(") && Skip(t, s) == s
    ensures ExecAt(t, s) == BlockAt(t, s)
  {
    hide BlockAt, PeekAt, Skip, Redirs, Args;
  }

  // What the levels above parseexec do when nothing follows.
  lemma LiftPipe(t: string, s: nat, c: Cmd, e: nat)
    requires Line(t) && s <= |t| && Stop(t, e) && PipeAt(t, s) == Ok(c, e)
    ensures LineAt(t, s) == Ok(c, e)
  {
    assert Skip(t, e) == e && !PeekAt(t, e, "&") && !PeekAt(t, e, ";");
    hide PipeAt, Skip, PeekAt, TokenAt;
  }

  lemma LiftExec(t: string, s: nat, c: Cmd, e: nat)
    requires Line(t) && s <= |t| && Stop(t, e) && ExecAt(t, s) == Ok(c, e)
    ensures PipeAt(t, s) == Ok(c, e) && LineAt(t, s) == Ok(c, e)
  {
    assert Skip(t, e) == e && !PeekAt(t, e, "|");
    hide ExecAt, Skip, PeekAt, TokenAt, LineAt;
    LiftPipe(t, s, c, e);
  }

  // A program and its arguments.
  lemma RunOf(t: string, s: nat, args: seq<string>)
    requires Line(t) && Good(Run(args)) && Occurs(t, s, Words(args)) && Stop(t, s + |Words(args)|)
    ensures Reads(t, LineAt(t, s), s + |Words(args)|, Run(args))
  {
    hide *;
    RunText(args);
    GoodRun(args);
    OccursIn(t, s, Words(args));
    WordsStart(t, s, args);
    BareRedirs(t, s);
    ArgsOf(t, s, args, []);
    ExecArgs(t, s);
    LiftExec(t, s, Args(t, s, [], []).cmd, s + |Words(args)|);
    ReadsRun(t, Args(t, s, [], []), s + |Words(args)|, args);
  }

  lemma GoodRun(args: seq<string>)
    ensures Good(Run(args)) ==> |args| < MAXARGS && forall i :: 0 <= i < |args| ==> GoodWord(args[i])
  {
  }

  lemma ExecArgs(t: string, s: nat)
    requires Line(t) && s <= |t| && !PeekAt(t, s, "(") && Skip(t, s) == s && Redirs(t, s, []) == Got([], s)
    ensures ExecAt(t, s) == Args(t, s, [], [])
  {
    hide Skip, PeekAt, Redirs, Args, BlockAt;
  }

  lemma ReadsRun(t: string, r: Parsed, e: nat, args: seq<string>)
    requires r.Ok? && r.cmd.Exec? && r.s == e && Slices(t, r.cmd.argv) == Slices(t, []) + args
    ensures Reads(t, r, e, Run(args))
  {
    assert Slices(t, []) + args == args;
  }

  lemma WordsStart(t: string, s: nat, args: seq<string>)
    requires Good(Run(args)) && Occurs(t, s, Words(args)) && Stop(t, s + |Words(args)|)
    ensures Bare(t, s) && !PeekAt(t, s, "(")
  {
    if args != [] { NextWord(t, s, args); }
  }

  // ---------- one lemma for each kind of command ----------

  lemma PipeStep(t: string, s: nat, c: Cmd, p: nat, d: Cmd, e: nat)
    requires Line(t) && s <= |t| && ExecAt(t, s) == Ok(c, p) && p < |t| && Skip(t, p) == p && PeekAt(t, p, "|")
    requires TokenAt(t, p).next == p + 1 && PipeAt(t, p + 1) == Ok(d, e)
    ensures PipeAt(t, s) == Ok(Pipe(c, d), e)
  {
    hide ExecAt, PeekAt, Skip, TokenAt;
  }

  lemma ListStep(t: string, s: nat, c: Cmd, p: nat, d: Cmd, e: nat)
    requires Line(t) && s <= |t| && ExecAt(t, s) == Ok(c, p) && p < |t| && Skip(t, p) == p
    requires PeekAt(t, p, ";") && !PeekAt(t, p, "|") && !PeekAt(t, p, "&")
    requires TokenAt(t, p).next == p + 1 && LineAt(t, p + 1) == Ok(d, e)
    ensures LineAt(t, s) == Ok(List(c, d), e)
  {
    hide ExecAt, PeekAt, Skip, TokenAt;
    assert PipeAt(t, s) == Ok(c, p) by { hide LineAt; }
    assert Backs(t, p, c) == Ok(c, p);
    hide PipeAt, Backs;
  }

  lemma BackStep(t: string, s: nat, c: Cmd, p: nat)
    requires Line(t) && s <= |t| && ExecAt(t, s) == Ok(c, p) && p < |t| && Skip(t, p) == p
    requires PeekAt(t, p, "&") && !PeekAt(t, p, "|") && TokenAt(t, p).next == p + 1 && Stop(t, p + 1)
    ensures LineAt(t, s) == Ok(Back(c), p + 1)
  {
    hide *;
    NothingAt(t, p + 1);
    PipeNone(t, s, c, p);
    BackOne(t, p, c);
    LineNone(t, s, c, p, Back(c), p + 1);
  }

  lemma NothingAt(t: string, e: nat)
    requires Stop(t, e)
    ensures e <= |t| && Skip(t, e) == e && !PeekAt(t, e, "&") && !PeekAt(t, e, ";") && !PeekAt(t, e, "|")
  {
  }

  lemma PipeNone(t: string, s: nat, c: Cmd, p: nat)
    requires Line(t) && s <= |t| && p <= |t| && ExecAt(t, s) == Ok(c, p) && Skip(t, p) == p && !PeekAt(t, p, "|")
    ensures PipeAt(t, s) == Ok(c, p)
  {
    hide ExecAt, PeekAt, Skip, TokenAt, LineAt;
  }

  lemma BackOne(t: string, p: nat, c: Cmd)
    requires Line(t) && p < |t| && Skip(t, p) == p && PeekAt(t, p, "&") && TokenAt(t, p).next == p + 1
    requires Skip(t, p + 1) == p + 1 && !PeekAt(t, p + 1, "&")
    ensures Backs(t, p, c) == Ok(Back(c), p + 1)
  {
    hide PeekAt, Skip, TokenAt;
    assert Backs(t, p + 1, Back(c)) == Ok(Back(c), p + 1);
  }

  lemma LineNone(t: string, s: nat, c: Cmd, p: nat, d: Cmd, e: nat)
    requires Line(t) && s <= |t| && p <= |t| && e <= |t| && PipeAt(t, s) == Ok(c, p) && Backs(t, p, c) == Ok(d, e)
    requires Skip(t, e) == e && !PeekAt(t, e, ";")
    ensures LineAt(t, s) == Ok(d, e)
  {
    hide PipeAt, Backs, PeekAt, Skip, TokenAt;
  }

  // c in parentheses, then one symbol, then x.
  lemma Joined(t: string, s: nat, c: Tree, sym: char, x: string)
    requires Occurs(t, s, Parens(c) + ([sym] + x)) && Symbol(sym) && sym !in "<>"
    ensures var p := s + |Parens(c)|;
      Occurs(t, s, Parens(c)) && p < |t| && t[p] == sym && Bare(t, p) && Occurs(t, p + 1, x)
  {
    OccursSplit(t, s, Parens(c), [sym] + x);
    OccursSplit(t, s + |Parens(c)|, [sym], x);
    assert t[s + |Parens(c)|] == t[s + |Parens(c)|..s + |Parens(c)| + 1][0];
  }

  lemma BothOf(t: string, s: nat, l: Tree, r: Tree)
    requires Line(t) && Good(l) && Good(r) && Occurs(t, s, Parens(l) + (['|'] + Parens(r)))
    requires var p := s + |Parens(l)|; var e := p + 1 + |Parens(r)|; s <= p < |t| && e <= |t| && Stop(t, e)
    requires Reads(t, LineAt(t, s + 1), s + 1 + |Text(l)|, l)
    requires var p := s + |Parens(l)|; p + 2 <= |t| && Reads(t, LineAt(t, p + 2), p + 2 + |Text(r)|, r)
    ensures Reads(t, LineAt(t, s), s + |Parens(l)| + 1 + |Parens(r)|, Both(l, r))
  {
    hide *;
    var p := s + |Parens(l)|;
    var e := p + 1 + |Parens(r)|;
    Marks();
    Joined(t, s, l, '|', Parens(r));
    BareStop(t, e);
    var c := ParenExec(t, s, l);
    var d := ParenExec(t, p + 1, r);
    OpenParen(t, p + 1, r);
    SymbolIs(t, p, '|');
    LiftExec(t, p + 1, d, e);
    PipeStep(t, s, c, p, d, e);
    LiftPipe(t, s, Pipe(c, d), e);
    ReadsBoth(t, c, d, e, l, r);
  }

  lemma ReadsBoth(t: string, c: Cmd, d: Cmd, e: nat, l: Tree, r: Tree)
    requires Denote(t, c) == l && Denote(t, d) == r
    ensures Reads(t, Ok(Pipe(c, d), e), e, Both(l, r))
  {
  }

  lemma OpenParen(t: string, s: nat, c: Tree)
    requires Occurs(t, s, Parens(c))
    ensures s < |t| && t[s] == '('
  {
    assert Parens(c)[0] == '(';
    assert t[s] == t[s..s + |Parens(c)|][0];
  }

  lemma ThenOf(t: string, s: nat, l: Tree, r: Tree)
    requires Line(t) && Good(l) && Good(r) && Occurs(t, s, Parens(l) + ([';'] + Parens(r)))
    requires var p := s + |Parens(l)|; var e := p + 1 + |Parens(r)|; s <= p < |t| && e <= |t| && Stop(t, e)
    requires Reads(t, LineAt(t, s + 1), s + 1 + |Text(l)|, l)
    requires var p := s + |Parens(l)|; p + 2 <= |t| && Reads(t, LineAt(t, p + 2), p + 2 + |Text(r)|, r)
    ensures Reads(t, LineAt(t, s), s + |Parens(l)| + 1 + |Parens(r)|, Then(l, r))
  {
    hide *;
    var p := s + |Parens(l)|;
    var e := p + 1 + |Parens(r)|;
    Marks();
    Joined(t, s, l, ';', Parens(r));
    BareStop(t, e);
    var c := ParenExec(t, s, l);
    var d := ParenExec(t, p + 1, r);
    OpenParen(t, p + 1, r);
    SymbolIs(t, p, ';');
    LiftExec(t, p + 1, d, e);
    ListStep(t, s, c, p, d, e);
    ReadsThen(t, c, d, e, l, r);
  }

  lemma Marks()
    ensures Symbol('|') && Symbol(';') && Symbol('&') && !White('(')
  {
  }

  lemma ReadsThen(t: string, c: Cmd, d: Cmd, e: nat, l: Tree, r: Tree)
    requires Denote(t, c) == l && Denote(t, d) == r
    ensures Reads(t, Ok(List(c, d), e), e, Then(l, r))
  {
  }

  lemma BgOf(t: string, s: nat, l: Tree)
    requires Line(t) && Good(l) && Occurs(t, s, Parens(l) + (['&'] + ""))
    requires var p := s + |Parens(l)|; s <= p < |t| && Stop(t, p + 1)
    requires Reads(t, LineAt(t, s + 1), s + 1 + |Text(l)|, l)
    ensures Reads(t, LineAt(t, s), s + |Parens(l)| + 1, Bg(l))
  {
    hide *;
    var p := s + |Parens(l)|;
    Marks();
    Joined(t, s, l, '&', "");
    BareStop(t, p + 1);
    BareIn(t, p + 1);
    var c := ParenExec(t, s, l);
    SymbolIs(t, p, '&');
    BackStep(t, s, c, p);
    ReadsBg(t, c, p + 1, l);
  }

  lemma ReadsBg(t: string, c: Cmd, e: nat, l: Tree)
    requires Denote(t, c) == l
    ensures Reads(t, Ok(Back(c), e), e, Bg(l))
  {
  }

  // One redirection and its file name, and nothing after them.
  lemma OneTarget(t: string, p: nat, k: Kind, f: string)
    requires Line(t) && Occurs(t, p, Sign(k) + f) && GoodWord(f) && Stop(t, p + |Sign(k)| + |f|)
    ensures p < |t| && !White(t[p])
    ensures var e := p + |Sign(k)| + |f|; var g := Tok(p + |Sign(k)|, e);
      && Redirs(t, p, []) == Got([TargetOf(if k.In? then '<' else if k.Out? then '>' else '+', g)], e)
      && Slice(t, g) == f
  {
    hide *;
    var q, e := p + |Sign(k)|, p + |Sign(k)| + |f|;
    OccursSplit(t, p, Sign(k), f);
    StopAfter(t, e);
    TokenIs(t, q, f);
    InLine(t, q, f);
    SignIs(t, p, k);
    RedirOne(t, p, q, TokenAt(t, p).tok, Tok(q, e), e);
  }

  lemma StopAfter(t: string, e: nat)
    requires Stop(t, e)
    ensures e <= |t| && (e == |t| || White(t[e]) || Symbol(t[e])) && Skip(t, e) == e && !PeekAt(t, e, "<>")
  {
  }

  lemma RedirOne(t: string, p: nat, q: nat, tok: char, k: Tok, e: nat)
    requires Line(t) && p <= |t| && q <= |t| && e <= |t| && PeekAt(t, p, "<>") && Skip(t, p) == p
    requires TokenAt(t, p).next == q && TokenAt(t, p).tok == tok && TokenAt(t, q) == Token('a', k, e)
    requires Skip(t, e) == e && !PeekAt(t, e, "<>")
    ensures Redirs(t, p, []) == Got([TargetOf(tok, k)], e)
  {
    hide PeekAt, Skip, TokenAt;
    assert [] + [TargetOf(tok, k)] == [TargetOf(tok, k)];
    assert Redirs(t, e, [TargetOf(tok, k)]) == Got([TargetOf(tok, k)], e);
  }

  lemma SignIs(t: string, p: nat, k: Kind)
    requires Line(t) && Occurs(t, p, Sign(k)) && p + |Sign(k)| < |t| && Plain(t[p + |Sign(k)|])
    ensures p < |t| && !White(t[p]) && Skip(t, p) == p && PeekAt(t, p, "<>") && TokenAt(t, p).next == p + |Sign(k)|
    ensures TokenAt(t, p).tok == if k.In? then '<' else if k.Out? then '>' else '+'
  {
    assert t[p] == t[p..p + |Sign(k)|][0];
    if k.App? { assert t[p + 1] == t[p..p + 2][1]; }
  }

  lemma IntoOf(t: string, s: nat, d: Tree, k: Kind, f: string)
    requires Line(t) && Good(d) && GoodWord(f) && Occurs(t, s, Parens(d) + (Sign(k) + f))
    requires Stop(t, s + |Parens(d)| + |Sign(k)| + |f|)
    requires s + 1 <= |t| && Reads(t, LineAt(t, s + 1), s + 1 + |Text(d)|, d)
    ensures Reads(t, LineAt(t, s), s + |Parens(d)| + |Sign(k)| + |f|, Into(d, f, k))
  {
    hide LineAt, PipeAt, ExecAt, BlockAt, Skip, PeekAt, TokenAt, Parens, Text, Good, Line, Redirs, Sign;
    var p := s + |Parens(d)|;
    var e := p + |Sign(k)| + |f|;
    OccursSplit(t, s, Parens(d), Sign(k) + f);
    OneTarget(t, p, k, f);
    var c := ParenBlock(t, s, d);
    var g := TargetOf(if k.In? then '<' else if k.Out? then '>' else '+', Tok(p + |Sign(k)|, e));
    ExecBlock(t, s);
    assert Wrap(c, [g]) == Redir(c, g.file, g.mode, g.fd);
    LiftExec(t, s, Redir(c, g.file, g.mode, g.fd), e);
  }

  /** The line parser reads the text of a command, wherever it stands in a line and up to where it
      stops, as that command. */
  lemma {:induction false} LineOf(t: string, s: nat, c: Tree)
    requires Line(t) && Good(c) && Occurs(t, s, Text(c)) && Stop(t, s + |Text(c)|)
    ensures s <= |t| && Reads(t, LineAt(t, s), s + |Text(c)|, c)
    decreases c
  {
    hide *;
    OccursIn(t, s, Text(c));
    match c
    case Run(args) =>
      RunText(args);
      RunOf(t, s, args);
    case Into(d, f, k) =>
      IntoParts(t, s, d, f, k);
      LineOf(t, s + 1, d);
      IntoOf(t, s, d, k, f);
    case Both(l, r) =>
      BothParts(t, s, l, r);
      LineOf(t, s + 1, l);
      LineOf(t, s + |Parens(l)| + 2, r);
      BothOf(t, s, l, r);
    case Then(l, r) =>
      ThenParts(t, s, l, r);
      LineOf(t, s + 1, l);
      LineOf(t, s + |Parens(l)| + 2, r);
      ThenOf(t, s, l, r);
    case Bg(d) =>
      BgParts(t, s, d);
      LineOf(t, s + 1, d);
      BgOf(t, s, d);
  }

  lemma RunText(args: seq<string>)
    ensures Text(Run(args)) == Words(args)
  {
  }

  lemma IntoParts(t: string, s: nat, d: Tree, f: string, k: Kind)
    requires Occurs(t, s, Text(Into(d, f, k))) && Good(Into(d, f, k))
    ensures Good(d) && GoodWord(f) && Occurs(t, s, Parens(d) + (Sign(k) + f))
    ensures |Text(Into(d, f, k))| == |Parens(d)| + |Sign(k)| + |f|
    ensures s + 1 <= |t| && Occurs(t, s + 1, Text(d)) && Stop(t, s + 1 + |Text(d)|)
  {
    Inside(t, s, d, Sign(k) + f);
  }

  lemma Sides(t: string, s: nat, l: Tree, r: Tree, sym: char)
    requires Occurs(t, s, Parens(l) + ([sym] + Parens(r))) && Symbol(sym) && sym !in "<>"
    ensures var p := s + |Parens(l)|;
      && s <= p < |t| && p + 1 + |Parens(r)| <= |t| && p + 2 <= |t|
      && Occurs(t, s + 1, Text(l)) && Stop(t, s + 1 + |Text(l)|)
      && Occurs(t, p + 2, Text(r)) && Stop(t, p + 2 + |Text(r)|)
  {
    hide *;
    Inside(t, s, l, [sym] + Parens(r));
    Joined(t, s, l, sym, Parens(r));
    AtEnd(t, s + |Parens(l)| + 1, r);
    OccursIn(t, s + |Parens(l)| + 1, Parens(r));
  }

  lemma BothParts(t: string, s: nat, l: Tree, r: Tree)
    requires Occurs(t, s, Text(Both(l, r))) && Good(Both(l, r))
    ensures Good(l) && Good(r) && Occurs(t, s, Parens(l) + (['|'] + Parens(r)))
    ensures |Text(Both(l, r))| == |Parens(l)| + 1 + |Parens(r)|
    ensures var p := s + |Parens(l)|;
      && s <= p < |t| && p + 1 + |Parens(r)| <= |t| && p + 2 <= |t|
      && Occurs(t, s + 1, Text(l)) && Stop(t, s + 1 + |Text(l)|)
      && Occurs(t, p + 2, Text(r)) && Stop(t, p + 2 + |Text(r)|)
  {
    assert "|" + Parens(r) == ['|'] + Parens(r);
    Sides(t, s, l, r, '|');
  }

  lemma ThenParts(t: string, s: nat, l: Tree, r: Tree)
    requires Occurs(t, s, Text(Then(l, r))) && Good(Then(l, r))
    ensures Good(l) && Good(r) && Occurs(t, s, Parens(l) + ([';'] + Parens(r)))
    ensures |Text(Then(l, r))| == |Parens(l)| + 1 + |Parens(r)|
    ensures var p := s + |Parens(l)|;
      && s <= p < |t| && p + 1 + |Parens(r)| <= |t| && p + 2 <= |t|
      && Occurs(t, s + 1, Text(l)) && Stop(t, s + 1 + |Text(l)|)
      && Occurs(t, p + 2, Text(r)) && Stop(t, p + 2 + |Text(r)|)
  {
    assert ";" + Parens(r) == [';'] + Parens(r);
    Sides(t, s, l, r, ';');
  }

  lemma BgParts(t: string, s: nat, d: Tree)
    requires Occurs(t, s, Text(Bg(d))) && Good(Bg(d))
    ensures Good(d) && Occurs(t, s, Parens(d) + (['&'] + ""))
    ensures |Text(Bg(d))| == |Parens(d)| + 1
    ensures s <= s + |Parens(d)| < |t| && Occurs(t, s + 1, Text(d)) && Stop(t, s + 1 + |Text(d)|)
  {
    assert "&" == ['&'] + "";
    Inside(t, s, d, ['&'] + "");
    Joined(t, s, d, '&', "");
  }

  // Inside the first parentheses stands the text of c, up to the closing one.
  lemma Inside(t: string, s: nat, c: Tree, x: string)
    requires Occurs(t, s, Parens(c) + x)
    ensures s + 1 <= |t| && Occurs(t, s + 1, Text(c)) && Stop(t, s + 1 + |Text(c)|) && |Parens(c)| == |Text(c)| + 2
  {
    OccursSplit(t, s, Parens(c), x);
    ParenParts(t, s, Text(c));
  }

  lemma AtEnd(t: string, s: nat, c: Tree)
    requires Occurs(t, s, Parens(c))
    ensures s + 1 <= |t| && Occurs(t, s + 1, Text(c)) && Stop(t, s + 1 + |Text(c)|) && |Parens(c)| == |Text(c)| + 2
  {
    ParenParts(t, s, Text(c));
  }

  /** Round trip: the fully parenthesised text of every command whose words are non-empty, without
      white space and symbols, and at most nine to a program, parses to that command. */
  lemma RoundTrip(c: Tree)
    requires Good(c)
    ensures Line(Text(c))
    ensures var r := CmdOf(Text(c)); r.Ok? && Denote(Text(c), r.cmd) == c && CmdFits(Text(c), r.cmd)
  {
    hide *;
    var t := Text(c);
    TextLine(c);
    WholeText(t);
    LineOf(t, 0, c);
    ReadsAll(t, c);
    RedirsOf(t);
  }

  lemma WholeText(t: string)
    ensures Occurs(t, 0, t) && Stop(t, |t|)
  {
    assert t[0..0 + |t|] == t;
  }

  lemma ReadsAll(t: string, c: Tree)
    requires Line(t) && Reads(t, LineAt(t, 0), |t|, c)
    ensures CmdOf(t).Ok? && Denote(t, CmdOf(t).cmd) == c
  {
    hide LineAt, Denote;
    assert Skip(t, |t|) == |t|;
  }

  lemma {:induction false} TextLine(c: Tree)
    requires Good(c)
    ensures Line(Text(c))
    decreases c
  {
    match c
    case Run(args) => WordsLine(args);
    case Into(d, f, k) => TextLine(d);
    case Both(l, r) =>
      TextLine(l);
      TextLine(r);
    case Then(l, r) =>
      TextLine(l);
      TextLine(r);
    case Bg(d) => TextLine(d);
  }

  lemma {:induction false} WordsLine(args: seq<string>)
    requires forall i :: 0 <= i < |args| ==> GoodWord(args[i])
    ensures Line(Words(args))
  {
    if |args| > 1 { WordsLine(args[1..]); }
  }

  // ---------- every token of a command is a word of the line ----------

  function Tokens(c: Cmd): set<Tok> {
    match c
    case Exec(argv) => set k | k in argv
    case Redir(d, f, _, _) => Tokens(d) + {f}
    case Pipe(l, r) => Tokens(l) + Tokens(r)
    case List(l, r) => Tokens(l) + Tokens(r)
    case Back(d) => Tokens(d)
  }

  // A sign of n characters stands at q, and only white space between it and the word f.
  predicate SignBefore(t: string, q: nat, n: nat, f: Tok) {
    q + n <= f.q <= |t| && forall i :: q + n <= i < f.q ==> White(t[i])
  }

  // No > ends before s.
  predicate Clean(t: string, s: nat) { s <= |t| && (s > 0 ==> t[s - 1] != '>') }

  lemma CleanSkip(t: string, s: nat)
    requires Clean(t, s)
    ensures Clean(t, Skip(t, s))
  {
    SkipPasses(t, s);
  }

  // Behind any other token.
  lemma CleanNext(t: string, s: nat)
    requires s <= |t| && Line(t) && Skip(t, s) < |t| && TokenAt(t, Skip(t, s)).tok !in {'>', '+', '\0'}
    ensures Clean(t, TokenAt(t, Skip(t, s)).next)
  {
    var q := Skip(t, s);
    assert Skip(t, q) == q;
    assert t[q] != '>';
    if Symbol(t[q]) {
      CleanSkip(t, q + 1);
    } else {
      WordClean(t, q);
      CleanSkip(t, WordEnd(t, q));
    }
  }

  lemma WordClean(t: string, q: nat)
    requires q < |t| && !White(t[q]) && !Symbol(t[q])
    ensures Clean(t, WordEnd(t, q))
  {
    var e := WordEnd(t, q);
    assert e > q && !Symbol(t[e - 1]);
  }

  // How a file is opened, and as which descriptor, goes by the sign before its name: < is for reading
  // as 0, > for writing as 1, made and emptied, and >> for writing as 1, made but not emptied.
  ghost predicate SignFits(t: string, f: Tok, mode: nat, fd: nat) {
    || (mode == 0x000 && fd == 0 && exists q: nat :: SignBefore(t, q, 1, f) && t[q] == '<')
    || (mode == 0x601 && fd == 1 && exists q: nat :: SignBefore(t, q, 1, f) && t[q] == '>' && Clean(t, q))
    || (mode == 0x201 && fd == 1 && exists q: nat :: SignBefore(t, q, 2, f) && t[q] == '>' && t[q + 1] == '>')
  }

  ghost predicate CmdFits(t: string, c: Cmd) {
    match c
    case Exec(argv) => |argv| < 10
    case Redir(d, f, mode, fd) => CmdFits(t, d) && SignFits(t, f, mode, fd)
    case Pipe(l, r) => CmdFits(t, l) && CmdFits(t, r)
    case List(l, r) => CmdFits(t, l) && CmdFits(t, r)
    case Back(d) => CmdFits(t, d)
  }

  ghost predicate AllWords(t: string, c: Cmd) {
    CmdFits(t, c) && forall k :: k in Tokens(c) ==> IsWord(t, k)
  }

  ghost predicate TargetFits(t: string, r: Target) { IsWord(t, r.file) && SignFits(t, r.file, r.mode, r.fd) }

  ghost predicate WordTargets(t: string, rs: seq<Target>) { forall i :: 0 <= i < |rs| ==> TargetFits(t, rs[i]) }

  lemma {:induction false} SkipPasses(t: string, s: nat)
    requires s <= |t|
    ensures forall i :: s <= i < Skip(t, s) ==> White(t[i])
    decreases |t| - s
  {
    if s < |t| && White(t[s]) { SkipPasses(t, s + 1); }
  }

  // A redirection that was read is the one its sign asks for.
  lemma NextFits(t: string, s: nat)
    requires Clean(t, s) && Line(t) && PeekAt(t, s, "<>")
    ensures var op := TokenAt(t, Skip(t, s)); var f := TokenAt(t, op.next);
      f.tok == 'a' ==> TargetFits(t, TargetOf(op.tok, f.at))
  {
    var n := SignAt(t, s);
    CleanSkip(t, s);
    var q := Skip(t, s);
    var op := TokenAt(t, q);
    var f := TokenAt(t, op.next);
    if f.tok == 'a' {
      WordAt(t, op.next);
      SkipPasses(t, q + n);
      hide Skip, TokenAt, IsWord, White, Symbol, Clean, PeekAt, Line;
      assert SignBefore(t, q, n, f.at);
    }
  }

  // The sign at the cursor, of n characters.
  lemma SignAt(t: string, s: nat) returns (n: nat)
    requires s <= |t| && Line(t) && PeekAt(t, s, "<>")
    ensures var q := Skip(t, s); var op := TokenAt(t, q);
      && q + n <= |t| && op.next == Skip(t, q + n)
      && ((n == 1 && op.tok == '<' && t[q] == '<') || (n == 1 && op.tok == '>' && t[q] == '>')
          || (n == 2 && op.tok == '+' && t[q] == '>' && t[q + 1] == '>'))
  {
    hide WordEnd, IsWord;
    var q := Skip(t, s);
    n := if TokenAt(t, q).tok == '+' then 2 else 1;
    assert Skip(t, q) == q;
  }

  lemma WordAt(t: string, s: nat)
    requires s <= |t| && Line(t) && (s < |t| ==> !White(t[s])) && TokenAt(t, s).tok == 'a'
    ensures TokenAt(t, s).at.q == s && IsWord(t, TokenAt(t, s).at)
  {
    hide WordEnd, IsWord;
    assert Skip(t, s) == s;
  }

  lemma {:induction false} RedirsWords(t: string, s: nat, rs: seq<Target>)
    requires Clean(t, s) && Line(t) && WordTargets(t, rs)
    ensures var r := Redirs(t, s, rs); r.Got? ==> WordTargets(t, r.rs)
    decreases |t| - s
  {
    hide Skip, PeekAt, IsWord, Line, TokenAt, TargetOf, TargetFits;
    if PeekAt(t, s, "<>") {
      NextFits(t, s);
      OpenedAt(t, s, "<>");
      var op := TokenAt(t, Skip(t, s));
      var f := TokenAt(t, op.next);
      if f.tok == 'a' {
        WordBehind(t, op.next);
        RedirsWords(t, f.next, rs + [TargetOf(op.tok, f.at)]);
      }
    }
  }

  lemma {:induction false} WrapWords(t: string, c: Cmd, rs: seq<Target>)
    requires AllWords(t, c) && WordTargets(t, rs)
    ensures AllWords(t, Wrap(c, rs))
    decreases |rs|
  {
    if rs != [] { WrapWords(t, c, rs[..|rs| - 1]); }
  }

  lemma {:induction false} ArgsWords(t: string, s: nat, args: seq<Tok>, rs: seq<Target>)
    requires s <= |t| && Line(t) && (forall k :: k in args ==> IsWord(t, k)) && WordTargets(t, rs) && |args| < 10
    ensures var r := Args(t, s, args, rs); r.Ok? ==> AllWords(t, r.cmd)
    decreases |t| - s
  {
    hide Skip, PeekAt, IsWord, TokenAt, Redirs, Wrap, Line, WordTargets, Clean;
    assert AllWords(t, Exec(args));
    WrapWords(t, Exec(args), rs);
    if !PeekAt(t, s, "|)&;") {
      var g := TokenAt(t, Skip(t, s));
      if g.tok == 'a' {
        WordBehind(t, Skip(t, s));
        RedirsWords(t, g.next, rs);
        var r := Redirs(t, g.next, rs);
        if r.Got? && |args| + 1 < 10 { ArgsWords(t, r.s, args + [g.at], r.rs); }
      }
    }
  }

  lemma {:induction false} ExecWords(t: string, s: nat)
    requires Clean(t, s) && Line(t)
    ensures ExecAt(t, s).Ok? ==> AllWords(t, ExecAt(t, s).cmd)
    decreases |t| - s, 1
  {
    hide Skip, PeekAt, IsWord, TokenAt, Redirs, Wrap, Args, BlockAt, AllWords, Line;
    CleanSkip(t, s);
    if PeekAt(t, s, "(") {
      BlockWords(t, Skip(t, s));
    } else {
      RedirsWords(t, Skip(t, s), []);
      var r := Redirs(t, Skip(t, s), []);
      if r.Got? { ArgsWords(t, r.s, [], r.rs); }
    }
  }

  lemma {:induction false} BlockWords(t: string, s: nat)
    requires Clean(t, s) && Line(t)
    ensures BlockAt(t, s).Ok? ==> AllWords(t, BlockAt(t, s).cmd)
    decreases |t| - s, 0
  {
    hide Skip, IsWord, TokenAt, Redirs, Wrap, LineAt, AllWords, Line;
    if PeekAt(t, s, "(") {
      SignBehind(t, s, '(');
      var s1 := TokenAt(t, Skip(t, s)).next;
      LineWords(t, s1);
      var r := LineAt(t, s1);
      if r.Ok? && PeekAt(t, r.s, ")") {
        SignBehind(t, r.s, ')');
        RedirsWords(t, TokenAt(t, Skip(t, r.s)).next, []);
        var rr := Redirs(t, TokenAt(t, Skip(t, r.s)).next, []);
        if rr.Got? { WrapWords(t, r.cmd, rr.rs); }
      }
    }
  }

  // A token that was seen is consumed.
  lemma Opened(t: string, s: nat)
    requires Line(t) && s <= |t| && Skip(t, s) < |t|
    ensures s < TokenAt(t, Skip(t, s)).next <= |t|
  {
  }

  lemma OpenedAt(t: string, s: nat, toks: string)
    requires s <= |t| && Line(t) && PeekAt(t, s, toks)
    ensures s < TokenAt(t, Skip(t, s)).next <= |t|
  {
    Opened(t, s);
  }

  // Another sign than > or a word was consumed.
  lemma SignBehind(t: string, s: nat, c: char)
    requires s <= |t| && Line(t) && PeekAt(t, s, [c]) && c in "|;()"
    ensures s < TokenAt(t, Skip(t, s)).next && Clean(t, TokenAt(t, Skip(t, s)).next)
  {
    Opened(t, s);
    CleanNext(t, s);
  }

  lemma WordBehind(t: string, s: nat)
    requires Line(t) && s <= |t| && (s < |t| ==> !White(t[s])) && TokenAt(t, s).tok == 'a'
    ensures Clean(t, TokenAt(t, s).next)
  {
    assert Skip(t, s) == s;
    CleanNext(t, s);
  }

  lemma {:induction false} PipeWords(t: string, s: nat)
    requires Clean(t, s) && Line(t)
    ensures PipeAt(t, s).Ok? ==> AllWords(t, PipeAt(t, s).cmd)
    decreases |t| - s, 2
  {
    hide Skip, IsWord, TokenAt, ExecAt, Line;
    ExecWords(t, s);
    var r := ExecAt(t, s);
    if r.Ok? && PeekAt(t, r.s, "|") {
      SignBehind(t, r.s, '|');
      PipeWords(t, TokenAt(t, Skip(t, r.s)).next);
    }
  }

  lemma {:induction false} BacksWords(t: string, s: nat, c: Cmd)
    requires s <= |t| && Line(t) && AllWords(t, c)
    ensures AllWords(t, Backs(t, s, c).cmd)
    decreases |t| - s
  {
    hide Skip, IsWord, TokenAt, Line;
    if PeekAt(t, s, "&") {
      Opened(t, s);
      BacksWords(t, TokenAt(t, Skip(t, s)).next, Back(c));
    }
  }

  /** Whatever the line, each argument and file name of a parsed command is a word of it, and each
      redirection does what the sign before its file name says. */
  lemma {:induction false} LineWords(t: string, s: nat)
    requires Clean(t, s) && Line(t)
    ensures LineAt(t, s).Ok? ==> AllWords(t, LineAt(t, s).cmd)
    decreases |t| - s, 3
  {
    hide Skip, IsWord, TokenAt, PipeAt, Backs, Line;
    PipeWords(t, s);
    var r := PipeAt(t, s);
    if r.Ok? {
      BacksWords(t, r.s, r.cmd);
      var b := Backs(t, r.s, r.cmd);
      if PeekAt(t, b.s, ";") {
        SignBehind(t, b.s, ';');
        LineWords(t, TokenAt(t, Skip(t, b.s)).next);
      }
    }
  }

  lemma RedirsOf(t: string)
    requires Line(t)
    ensures CmdOf(t).Ok? ==> CmdFits(t, CmdOf(t).cmd)
  {
    LineWords(t, 0);
    hide LineAt, CmdFits;
  }

  // ---------- nulterminate ----------

  function Ends(c: Cmd): set<nat> { set k | k in Tokens(c) :: k.e }

  // The line as C holds it, and the line with a NUL at each of the places in ends.
  function Terminated(b: string, ends: set<nat>): string {
    seq(|b|, i requires 0 <= i < |b| => if i in ends then '\0' else b[i])
  }

  // The string that starts at q.
  function CString(b: string, q: nat): string
    decreases |b| - q
  {
    if q >= |b| || b[q] == '\0' then "" else [b[q]] + CString(b, q + 1)
  }

  lemma {:induction false} CStringIs(b: string, q: nat, e: nat)
    requires q <= e < |b| && b[e] == '\0' && forall i :: q <= i < e ==> b[i] != '\0'
    ensures CString(b, q) == b[q..e]
    decreases e - q
  {
    if q < e {
      CStringIs(b, q + 1, e);
      assert b[q..e] == [b[q]] + b[q + 1..e];
    }
  }

  // No word ends inside another.
  lemma NotInside(t: string, k: Tok, o: Tok, i: nat)
    requires IsWord(t, k) && IsWord(t, o) && k.q <= i < k.e
    ensures o.e != i && t[i] != '\0'
  {
    assert Plain(t[i]);
  }

  /** After nulterminate every argument and file name reads back as exactly its token: no end of
      another token falls inside it. */
  lemma ReadsBack(t: string, c: Cmd, k: Tok)
    requires Line(t) && AllWords(t, c) && k in Tokens(c)
    ensures CString(Terminated(t + "\0", Ends(c)), k.q) == Slice(t, k)
  {
    assert IsWord(t, k);
    var b := Terminated(t + "\0", Ends(c));
    assert b[k.e] == '\0';
    forall i | k.q <= i < k.e ensures b[i] == t[i] != '\0' {
      forall o | o in Tokens(c) ensures o.e != i { NotInside(t, k, o, i); }
    }
    CStringIs(b, k.q, k.e);
    assert b[k.q..k.e] == t[k.q..k.e];
  }

  // ---------- the parser, moving a cursor over the line ----------

  datatype Outcome = Done(cmd: Cmd) | Fail(error: Error)

  ghost predicate Matches(o: Outcome, s: nat, r: Parsed) {
    match r
    case Ok(c, s') => o == Done(c) && s == s'
    case Panic(e) => o == Fail(e)
  }

  class Parser {
    const buf: array<char>
    var s: nat
    ghost const t: string

    constructor (t: string)
      requires Line(t)
      ensures Intact() && s == 0 && this.t == t && fresh(buf)
    {
      buf := new char[|t| + 1](i requires 0 <= i <= |t| => if i < |t| then t[i] else '\0');
      s, this.t := 0, t;
    }

    // The cursor is in the line, and the line has not been written to.
    ghost predicate Intact()
      reads this, buf
    {
      Line(t) && s <= |t| && buf[..] == t + "\0"
    }

    method SkipWhite()
      requires Intact()
      modifies `s
      ensures Intact() && s == Skip(t, old(s))
    {
      while s < buf.Length - 1 && White(buf[s])
        invariant Intact() && Skip(t, s) == Skip(t, old(s))
        decreases buf.Length - s
      {
        assert buf[s] == buf[..][s] == t[s];
        s := s + 1;
      }
      assert s < |t| ==> buf[s] == buf[..][s] == t[s];
    }

    /** peek */
    method Peek(toks: string) returns (b: bool)
      requires Intact() && Line(toks)
      modifies `s
      ensures Intact() && s == Skip(t, old(s)) && b == PeekAt(t, old(s), toks)
    {
      SkipWhite();
      assert buf[s] == buf[..][s];
      b := buf[s] != '\0' && buf[s] in toks;
    }

    /** gettoken */
    method Gettoken() returns (tok: char, k: Tok)
      requires Intact()
      modifies `s
      ensures Intact() && Token(tok, k, s) == TokenAt(t, old(s))
    {
      SkipWhite();
      var q := s;
      assert buf[s] == buf[..][s];
      tok := buf[s];
      if buf[s] == '\0' {
      } else if buf[s] == '>' {
        s := s + 1;
        assert buf[s] == buf[..][s];
        if buf[s] == '>' {
          tok := '+';
          s := s + 1;
        }
      } else if Symbol(buf[s]) {
        s := s + 1;
      } else {
        tok := 'a';
        SkipWord();
      }
      k := Tok(q, s);
      SkipWhite();
    }

    method SkipWord()
      requires Intact()
      modifies `s
      ensures Intact() && s == WordEnd(t, old(s))
    {
      while s < buf.Length - 1 && !White(buf[s]) && !Symbol(buf[s])
        invariant Intact() && WordEnd(t, s) == WordEnd(t, old(s))
        decreases buf.Length - s
      {
        assert buf[s] == buf[..][s] == t[s];
        s := s + 1;
      }
      assert s < |t| ==> buf[s] == buf[..][s] == t[s];
    }

    /** parseredirs, the redirections collected in order */
    method Parseredirs(rs0: seq<Target>) returns (ok: bool, rs: seq<Target>, error: Error)
      requires Intact()
      modifies `s
      ensures Intact()
      ensures Redirs(t, old(s), rs0) == if ok then Got(rs, s) else Bad(error)
    {
      RedirsFrom(t, s, rs0);
      hide Skip, TokenAt, Line;
      rs, error := rs0, MissingFile;
      var more := Peek("<>");
      while more
        invariant Intact() && Redirs(t, s, rs) == Redirs(t, old(s), rs0)
        invariant more == PeekAt(t, s, "<>") && Skip(t, s) == s
        decreases |t| - s
      {
        Opened(t, s);
        var tok, _ := Gettoken();
        var tok', k := Gettoken();
        if tok' != 'a' {
          return false, rs, MissingFile;
        }
        rs := rs + [TargetOf(tok, k)];
        RedirsFrom(t, s, rs);
        more := Peek("<>");
      }
      ok := true;
    }

    /** parseline: every call ends, on every line. */
    method Parseline() returns (o: Outcome)
      requires Intact()
      modifies `s
      ensures Intact() && Matches(o, s, LineAt(t, old(s)))
      decreases buf.Length - s, 3
    {
      hide Skip, TokenAt, PipeAt, Line;
      o := Parsepipe();
      if o.Fail? {
        return;
      }
      o := Backgrounds(o.cmd);
      var list := Peek(";");
      if list {
        Opened(t, s);
        var _, _ := Gettoken();
        var rest := Parseline();
        o := if rest.Fail? then rest else Done(List(o.cmd, rest.cmd));
      }
    }

    // The loop over "&" in parseline.
    method Backgrounds(cmd: Cmd) returns (o: Outcome)
      requires Intact()
      modifies `s
      ensures Intact() && o.Done? && Backs(t, old(s), cmd) == Ok(o.cmd, s) && Skip(t, s) == s
    {
      BacksFrom(t, s, cmd);
      hide Skip, TokenAt, Line;
      o := Done(cmd);
      var more := Peek("&");
      while more
        invariant Intact() && o.Done? && Backs(t, s, o.cmd) == Backs(t, old(s), cmd)
        invariant more == PeekAt(t, s, "&") && Skip(t, s) == s
        decreases |t| - s
      {
        Opened(t, s);
        var _, _ := Gettoken();
        o := Done(Back(o.cmd));
        BacksFrom(t, s, o.cmd);
        more := Peek("&");
      }
    }

    /** parsepipe */
    method Parsepipe() returns (o: Outcome)
      requires Intact()
      modifies `s
      ensures Intact() && Matches(o, s, PipeAt(t, old(s)))
      decreases buf.Length - s, 2
    {
      hide Skip, TokenAt, ExecAt, Line;
      o := Parseexec();
      if o.Fail? {
        return;
      }
      var pipe := Peek("|");
      if pipe {
        Opened(t, s);
        var _, _ := Gettoken();
        var rest := Parsepipe();
        o := if rest.Fail? then rest else Done(Pipe(o.cmd, rest.cmd));
      }
    }

    /** parseblock */
    method Parseblock() returns (o: Outcome)
      requires Intact()
      modifies `s
      ensures Intact() && Matches(o, s, BlockAt(t, old(s)))
      decreases buf.Length - s, 0
    {
      hide Skip, TokenAt, LineAt, Redirs, Line, Wrap;
      var open := Peek("(");
      if !open {
        return Fail(NotBlock);
      }
      Opened(t, s);
      var _, _ := Gettoken();
      o := Parseline();
      if o.Fail? {
        return;
      }
      var close := Peek(")");
      if !close {
        return Fail(MissingParen);
      }
      var _, _ := Gettoken();
      var ok, rs, error := Parseredirs([]);
      o := if ok then Done(Wrap(o.cmd, rs)) else Fail(error);
    }

    /** parseexec: the arguments fill the argv of one EXEC node, and the redirections met on the way
        are wrapped around it. */
    method Parseexec() returns (o: Outcome)
      requires Intact()
      modifies `s
      ensures Intact() && Matches(o, s, ExecAt(t, old(s)))
      decreases buf.Length - s, 1
    {
      hide Skip, TokenAt, BlockAt, Redirs, Args, Line, Wrap;
      var open := Peek("(");
      if open {
        o := Parseblock();
        return;
      }
      var ok, rs, error := Parseredirs([]);
      if !ok {
        return Fail(error);
      }
      o := Arguments(rs);
    }

    // The loop over the arguments in parseexec.
    method Arguments(rs0: seq<Target>) returns (o: Outcome)
      requires Intact()
      modifies `s
      ensures Intact() && Matches(o, s, Args(t, old(s), [], rs0))
    {
      var argv: seq<Tok>, rs := [], rs0;
      ArgsFrom(t, s, argv, rs);
      hide Skip, TokenAt, Redirs, Line, Wrap;
      var stop := Peek("|)&;");
      while !stop
        invariant Intact() && Args(t, s, argv, rs) == Args(t, old(s), [], rs0)
        invariant stop == PeekAt(t, s, "|)&;") && Skip(t, s) == s
        decreases |t| - s
      {
        TokenAtRange(t, s);
        var tok, k := Gettoken();
        if tok == '\0' {
          break;
        }
        if tok != 'a' {
          return Fail(Syntax);
        }
        if |argv| + 1 >= MAXARGS {
          return Fail(TooManyArgs);
        }
        var ok, error;
        ghost var rs1 := rs;
        ok, rs, error := Parseredirs(rs);
        if !ok {
          return Fail(error);
        }
        argv := argv + [k];
        ArgsFrom(t, s, argv, rs);
        stop := Peek("|)&;");
      }
      o := Done(Wrap(Exec(argv), rs));
    }

    /** nulterminate: a NUL goes to the end of every token, and the line is otherwise unchanged. */
    method Nulterminate(c: Cmd)
      requires forall k :: k in Tokens(c) ==> k.e < buf.Length
      modifies buf
      ensures buf[..] == Terminated(old(buf[..]), Ends(c))
      decreases c
    {
      match c
      case Exec(argv) =>
        var i := 0;
        while i < |argv|
          invariant 0 <= i <= |argv| && buf[..] == Terminated(old(buf[..]), set k | k in argv[..i] :: k.e)
        {
          buf[argv[i].e] := '\0';
          i := i + 1;
        }
      case Redir(d, f, _, _) =>
        Nulterminate(d);
        buf[f.e] := '\0';
      case Pipe(l, r) =>
        Nulterminate(l);
        Nulterminate(r);
      case List(l, r) =>
        Nulterminate(l);
        Nulterminate(r);
      case Back(d) => Nulterminate(d);
    }

    /** parsecmd: the command, if the whole line is one; its arguments and file names then read back
        from the line as exactly their tokens. */
    method Parsecmd() returns (o: Outcome)
      requires Intact() && s == 0
      modifies this, buf
      ensures Matches(o, s, CmdOf(t))
      ensures o.Done? ==> buf[..] == Terminated(t + "\0", Ends(o.cmd))
      ensures o.Done? ==> forall k :: k in Tokens(o.cmd) ==> CString(buf[..], k.q) == Slice(t, k)
      ensures o.Done? ==> CmdFits(t, o.cmd)
    {
      LineWords(t, 0);
      hide Skip, LineAt, Line, Ends, Terminated, CString;
      o := Parseline();
      if o.Fail? {
        return;
      }
      var _ := Peek("");
      if s != buf.Length - 1 {
        return Fail(Leftovers);
      }
      assert forall k :: k in Tokens(o.cmd) ==> IsWord(t, k);
      Nulterminate(o.cmd);
      forall k | k in Tokens(o.cmd) ensures CString(buf[..], k.q) == Slice(t, k) {
        ReadsBack(t, o.cmd, k);
      }
    }
  }

  // peek has only moved over white space.
  lemma RedirsFrom(t: string, s: nat, rs: seq<Target>)
    requires s <= |t| && Line(t)
    ensures Redirs(t, Skip(t, s), rs) == Redirs(t, s, rs) && PeekAt(t, Skip(t, s), "<>") == PeekAt(t, s, "<>")
    ensures Skip(t, Skip(t, s)) == Skip(t, s)
  {
  }

  lemma BacksFrom(t: string, s: nat, c: Cmd)
    requires s <= |t| && Line(t)
    ensures Backs(t, Skip(t, s), c) == Backs(t, s, c) && PeekAt(t, Skip(t, s), "&") == PeekAt(t, s, "&")
    ensures Skip(t, Skip(t, s)) == Skip(t, s)
  {
  }

  lemma ArgsFrom(t: string, s: nat, args: seq<Tok>, rs: seq<Target>)
    requires s <= |t| && Line(t)
    ensures Args(t, Skip(t, s), args, rs) == Args(t, s, args, rs)
    ensures PeekAt(t, Skip(t, s), "|)&;") == PeekAt(t, s, "|)&;") && Skip(t, Skip(t, s)) == Skip(t, s)
  {
  }

  lemma TokenAtRange(t: string, s: nat)
    requires s <= |t| && Line(t)
    ensures TokenAt(t, s).tok != '\0' ==> s < TokenAt(t, s).next <= |t|
  {
  }
}
