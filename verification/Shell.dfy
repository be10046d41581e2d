/** The command parser of user/sh.c: scanner, recursive-descent parser and nulterminate. */
module Shell {

  const MAXARGS: nat := 10

  // ----- Characters and tokens -----

  predicate White(c: char) { c == ' ' || c == '\t' || c == '\r' || c == '\n' || c == '\U{0B}' }

  predicate Symbol(c: char) { c == '<' || c == '|' || c == '>' || c == '&' || c == ';' || c == '(' || c == ')' }

  predicate Ordinary(c: char) { c != '\0' && !White(c) && !Symbol(c) }

  /** A C string: no NUL before its end. */
  ghost predicate CString(s: string) { forall i :: 0 <= i < |s| ==> s[i] != '\0' }

  datatype Token = Sym(c: char) | Append | Word(text: string)

  /** The code gettoken returns. */
  function Code(t: Token): char {
    match t
    case Sym(c) => c
    case Append => '+'
    case Word(_) => 'a'
  }

  /** The character that peek sees. */
  function First(t: Token): char {
    match t
    case Sym(c) => c
    case Append => '>'
    case Word(text) => if text == [] then '\0' else text[0]
  }

  function Skip(s: string, i: nat): (j: nat)
    requires i <= |s|
    ensures i <= j <= |s| && (j < |s| ==> !White(s[j]))
    ensures forall k :: i <= k < j ==> White(s[k])
    decreases |s| - i
  {
    if i < |s| && White(s[i]) then Skip(s, i + 1) else i
  }

  function WordEnd(s: string, i: nat): (j: nat)
    requires i <= |s|
    ensures i <= j <= |s| && (j < |s| ==> !Ordinary(s[j]))
    ensures forall k :: i <= k < j ==> Ordinary(s[k])
    decreases |s| - i
  {
    if i < |s| && Ordinary(s[i]) then WordEnd(s, i + 1) else i
  }

  /** The token that starts at i, and where it ends. */
  function TokenAt(s: string, i: nat): (r: (Token, nat))
    requires i < |s| && !White(s[i])
    ensures i < r.1 <= |s|
  {
    if s[i] == '>' && i + 1 < |s| && s[i + 1] == '>' then (Append, i + 2)
    else if Ordinary(s[i]) then (Word(s[i..WordEnd(s, i)]), WordEnd(s, i))
    else (Sym(s[i]), i + 1)
  }

  function Tokens(s: string, i: nat): (r: seq<Token>)
    requires i <= |s|
    decreases |s| - i
  {
    var j := Skip(s, i);
    if j == |s| then [] else [TokenAt(s, j).0] + Tokens(s, TokenAt(s, j).1)
  }

  // ----- Trees -----

  datatype Mode = ReadOnly | Truncate | AppendTo

  datatype Redirect = Redirect(file: string, mode: Mode)

  datatype Tree =
    | Exec(args: seq<string>)
    | Redir(sub: Tree, r: Redirect)
    | Pipe(left: Tree, right: Tree)
    | List(left: Tree, right: Tree)
    | Back(sub: Tree)

  datatype Fault = MissingFile | MissingParen | Syntax | TooManyArgs | Leftovers

  datatype Result<T> = Ok(value: T, rest: seq<Token>) | Panic(why: Fault)

  function Wrap(t: Tree, rs: seq<Redirect>): Tree
    decreases |rs|
  {
    if rs == [] then t else Redir(Wrap(t, rs[..|rs| - 1]), rs[|rs| - 1])
  }

  // ----- The grammar as a function on tokens -----

  predicate Sees(toks: seq<Token>, set0: string) { toks != [] && First(toks[0]) in set0 }

  function ModeOf(t: Token): Mode {
    if t == Sym('<') then ReadOnly else if t == Sym('>') then Truncate else AppendTo
  }

  function RedirsOf(rs: seq<Redirect>, toks: seq<Token>): (r: Result<seq<Redirect>>)
    ensures r.Ok? ==> |r.rest| <= |toks| && !Sees(r.rest, "<>")
    decreases |toks|
  {
    if !Sees(toks, "<>") then Ok(rs, toks)
    else if |toks| < 2 || !toks[1].Word? then Panic(MissingFile)
    else RedirsOf(rs + [Redirect(toks[1].text, ModeOf(toks[0]))], toks[2..])
  }

  /** The words and redirections of a simple command. */
  function WordsOf(args: seq<string>, rs: seq<Redirect>, toks: seq<Token>): (r: Result<Tree>)
    ensures r.Ok? ==> |r.rest| <= |toks|
    decreases |toks|
  {
    if toks == [] || Sees(toks, "|)&;") then Ok(Wrap(Exec(args), rs), toks)
    else if !toks[0].Word? then Panic(Syntax)
    else if |args| + 1 >= MAXARGS then Panic(TooManyArgs)
    else
      match RedirsOf(rs, toks[1..])
      case Panic(w) => Panic(w)
      case Ok(rs', rest) => WordsOf(args + [toks[0].text], rs', rest)
  }

  function ExecOf(toks: seq<Token>): (r: Result<Tree>)
    ensures r.Ok? ==> |r.rest| <= |toks|
    decreases |toks|, 0
  {
    if Sees(toks, "(") then
      match LineOf(toks[1..])
      case Panic(w) => Panic(w)
      case Ok(t, rest) =>
        if !Sees(rest, ")") then Panic(MissingParen)
        else
          match RedirsOf([], rest[1..])
          case Panic(w) => Panic(w)
          case Ok(rs, rest') => Ok(Wrap(t, rs), rest')
    else
      match RedirsOf([], toks)
      case Panic(w) => Panic(w)
      case Ok(rs, rest) => WordsOf([], rs, rest)
  }

  function PipeOf(toks: seq<Token>): (r: Result<Tree>)
    ensures r.Ok? ==> |r.rest| <= |toks|
    decreases |toks|, 1
  {
    match ExecOf(toks)
    case Panic(w) => Panic(w)
    case Ok(left, rest) =>
      if !Sees(rest, "|") then Ok(left, rest)
      else
        match PipeOf(rest[1..])
        case Panic(w) => Panic(w)
        case Ok(right, rest') => Ok(Pipe(left, right), rest')
  }

  function BacksOf(t: Tree, toks: seq<Token>): (r: (Tree, seq<Token>))
    ensures |r.1| <= |toks| && !Sees(r.1, "&")
    decreases |toks|
  {
    if Sees(toks, "&") then BacksOf(Back(t), toks[1..]) else (t, toks)
  }

  function LineOf(toks: seq<Token>): (r: Result<Tree>)
    ensures r.Ok? ==> |r.rest| <= |toks|
    decreases |toks|, 2
  {
    match PipeOf(toks)
    case Panic(w) => Panic(w)
    case Ok(t, rest) =>
      var (left, rest') := BacksOf(t, rest);
      if !Sees(rest', ";") then Ok(left, rest')
      else
        match LineOf(rest'[1..])
        case Panic(w) => Panic(w)
        case Ok(right, rest'') => Ok(List(left, right), rest'')
  }

  function CmdOf(toks: seq<Token>): (r: Result<Tree>) {
    match LineOf(toks)
    case Panic(w) => Panic(w)
    case Ok(t, rest) => if rest == [] then Ok(t, []) else Panic(Leftovers)
  }

  // ----- Printing -----

  predicate IsWord(w: string) { w != [] && forall i :: 0 <= i < |w| ==> Ordinary(w[i]) }

  /** The trees the grammar can produce. */
  predicate WellFormed(t: Tree) {
    match t
    case Exec(args) => |args| < MAXARGS && forall i :: 0 <= i < |args| ==> IsWord(args[i])
    case Redir(sub, r) => WellFormed(sub) && IsWord(r.file)
    case Pipe(l, r) => WellFormed(l) && WellFormed(r)
    case List(l, r) => WellFormed(l) && WellFormed(r)
    case Back(sub) => WellFormed(sub)
  }

  function Arrow(m: Mode): Token {
    match m
    case ReadOnly => Sym('<')
    case Truncate => Sym('>')
    case AppendTo => Append
  }

  function Words(args: seq<string>): seq<Token> {
    if args == [] then [] else [Word(args[0])] + Words(args[1..])
  }

  function PrintExec(t: Tree): seq<Token>
    decreases t, 0
  {
    match t
    case Exec(args) => Words(args)
    case Redir(sub, r) => PrintExec(sub) + [Arrow(r.mode), Word(r.file)]
    case Pipe(l, r) => [Sym('(')] + (PrintExec(l) + [Sym('|')] + PrintPipe(r)) + [Sym(')')]
    case List(l, r) => [Sym('(')] + (PrintBack(l) + [Sym(';')] + PrintLine(r)) + [Sym(')')]
    case Back(sub) => [Sym('(')] + (PrintBack(sub) + [Sym('&')]) + [Sym(')')]
  }

  function PrintPipe(t: Tree): seq<Token>
    decreases t, 1
  {
    if t.Pipe? then PrintExec(t.left) + [Sym('|')] + PrintPipe(t.right) else PrintExec(t)
  }

  function PrintBack(t: Tree): seq<Token>
    decreases t, 2
  {
    if t.Back? then PrintBack(t.sub) + [Sym('&')] else PrintPipe(t)
  }

  function PrintLine(t: Tree): seq<Token>
    decreases t, 3
  {
    if t.List? then PrintBack(t.left) + [Sym(';')] + PrintLine(t.right) else PrintBack(t)
  }

  function Text(t: Token): string {
    match t
    case Sym(c) => [c]
    case Append => ">>"
    case Word(text) => text
  }

  /** Tokens written out, with the gaps before, between and after them. */
  function Spread(toks: seq<Token>, gaps: seq<string>): string
    requires |gaps| == |toks| + 1
  {
    if toks == [] then gaps[0] else gaps[0] + Text(toks[0]) + Spread(toks[1..], gaps[1..])
  }

  predicate Blank(gap: string) { forall i :: 0 <= i < |gap| ==> gap[i] in " \t\r\n\U{0B}" }

  /** Two tokens that can stand side by side. */
  predicate Apart(t: Token, u: Token) { !(t.Word? && u.Word?) && !(t == Sym('>') && First(u) == '>') }

  /** Gaps are made of white space, and are not empty where two tokens would run together. */
  predicate Proper(toks: seq<Token>, gaps: seq<string>) {
    && |gaps| == |toks| + 1 && (forall i :: 0 <= i < |gaps| ==> Blank(gaps[i]))
    && forall i, j :: 0 <= i < |toks| - 1 && j == i + 1 && gaps[j] == [] ==> Apart(toks[i], toks[j])
  }

  // ----- Printing and parsing back, on tokens -----

  function Arrows(rs: seq<Redirect>): seq<Token> {
    if rs == [] then [] else [Arrow(rs[0].mode), Word(rs[0].file)] + Arrows(rs[1..])
  }

  predicate AreWords(ws: seq<string>) { forall i :: 0 <= i < |ws| ==> IsWord(ws[i]) }

  predicate AreFiles(rs: seq<Redirect>) { forall i :: 0 <= i < |rs| ==> IsWord(rs[i].file) }

  lemma RedirsStep(done: seq<Redirect>, toks: seq<Token>, r: Redirect)
    requires |toks| >= 2 && toks[0] == Arrow(r.mode) && toks[1] == Word(r.file)
    ensures RedirsOf(done, toks) == RedirsOf(done + [r], toks[2..])
  {
  }

  lemma RedirsEnd(done: seq<Redirect>, toks: seq<Token>)
    requires !Sees(toks, "<>")
    ensures RedirsOf(done, toks) == Ok(done, toks)
  {
  }

  lemma {:induction false} RedirsBack(done: seq<Redirect>, rs: seq<Redirect>, rest: seq<Token>)
    requires !Sees(rest, "<>")
    ensures RedirsOf(done, Arrows(rs) + rest) == Ok(done + rs, rest)
    decreases |rs|
  {
    hide RedirsOf, Sees, Arrow;
    if rs == [] {
      assert Arrows(rs) + rest == rest && done + rs == done;
      RedirsEnd(done, rest);
    } else {
      var toks := Arrows(rs) + rest;
      assert toks[2..] == Arrows(rs[1..]) + rest && toks[0] == Arrow(rs[0].mode) && toks[1] == Word(rs[0].file);
      RedirsStep(done, toks, rs[0]);
      RedirsBack(done + [rs[0]], rs[1..], rest);
      assert done + [rs[0]] + rs[1..] == done + rs;
    }
  }

  /** What may follow a simple command or a block. */
  predicate Stops(toks: seq<Token>) { toks == [] || (First(toks[0]) in "|)&;" && toks[0].Sym?) }

  lemma WordsStep(done: seq<string>, rs: seq<Redirect>, toks: seq<Token>, rs': seq<Redirect>, rest: seq<Token>)
    requires toks != [] && toks[0].Word? && IsWord(toks[0].text) && |done| + 1 < MAXARGS
    requires RedirsOf(rs, toks[1..]) == Ok(rs', rest)
    ensures WordsOf(done, rs, toks) == WordsOf(done + [toks[0].text], rs', rest)
  {
    hide RedirsOf;
    assert Ordinary(toks[0].text[0]);
  }

  lemma NoRedirs(rs: seq<Redirect>, toks: seq<Token>)
    requires toks != [] && toks[0].Word? && IsWord(toks[0].text)
    ensures RedirsOf(rs, toks) == Ok(rs, toks)
  {
  }

  lemma WordsHead(args: seq<string>, tail: seq<Token>)
    requires args != []
    ensures var toks := Words(args) + tail;
      && toks != [] && toks[0] == Word(args[0]) && toks[1..] == Words(args[1..]) + tail
      && (|args| == 1 ==> toks[1..] == tail) && (|args| > 1 ==> |toks| > 1 && toks[1] == Word(args[1]))
  {
    assert (Words(args) + tail)[1..] == Words(args[1..]) + tail;
  }

  lemma {:induction false} WordsBack(done: seq<string>, args: seq<string>, rs: seq<Redirect>, rest: seq<Token>)
    requires args != [] && AreWords(args) && |done| + |args| < MAXARGS && Stops(rest)
    ensures WordsOf(done, [], Words(args) + (Arrows(rs) + rest)) == Ok(Wrap(Exec(done + args), rs), rest)
    decreases |args|
  {
    hide RedirsOf, WordsOf, IsWord, Words, Arrows;
    var toks := Words(args) + (Arrows(rs) + rest);
    WordsHead(args, Arrows(rs) + rest);
    assert (done + [args[0]]) + args[1..] == done + args;
    if |args| == 1 {
      assert args == [args[0]];
      RedirsBack([], rs, rest);
      assert [] + rs == rs;
      WordsStep(done, [], toks, rs, rest);
      WordsStop(done + args, rs, rest);
    } else {
      assert toks[1..][0] == Word(args[1]) && IsWord(args[1]);
      NoRedirs([], toks[1..]);
      WordsStep(done, [], toks, [], toks[1..]);
      WordsBack(done + [args[0]], args[1..], rs, rest);
    }
  }

  lemma WordsStop(args: seq<string>, rs: seq<Redirect>, rest: seq<Token>)
    requires Stops(rest)
    ensures WordsOf(args, rs, rest) == Ok(Wrap(Exec(args), rs), rest)
  {
  }

  /** A tree is redirections around something that is not one. */
  function Inner(t: Tree): Tree { if t.Redir? then Inner(t.sub) else t }

  function Outer(t: Tree): seq<Redirect> { if t.Redir? then Outer(t.sub) + [t.r] else [] }

  lemma {:induction false} ArrowsConcat(a: seq<Redirect>, b: seq<Redirect>)
    ensures Arrows(a + b) == Arrows(a) + Arrows(b)
  {
    if a == [] {
      assert a + b == b;
    } else {
      ArrowsConcat(a[1..], b);
      assert (a + b)[1..] == a[1..] + b;
    }
  }

  lemma {:induction false} Peel(t: Tree)
    requires WellFormed(t)
    ensures t == Wrap(Inner(t), Outer(t)) && WellFormed(Inner(t)) && !Inner(t).Redir?
    ensures PrintExec(t) == PrintExec(Inner(t)) + Arrows(Outer(t))
    ensures t.Redir? ==> Inner(t) < t
    decreases t
  {
    if t.Redir? {
      Peel(t.sub);
      ArrowsConcat(Outer(t.sub), [t.r]);
      assert Outer(t)[..|Outer(t)| - 1] == Outer(t.sub);
      assert Arrows([t.r]) == [Arrow(t.r.mode), Word(t.r.file)];
    }
  }

  predicate Compound(t: Tree) { t.Pipe? || t.List? || t.Back? }

  lemma {:induction false} SimpleBack(args: seq<string>, rs: seq<Redirect>, rest: seq<Token>)
    requires AreWords(args) && |args| < MAXARGS && Stops(rest)
    ensures ExecOf(Words(args) + (Arrows(rs) + rest)) == Ok(Wrap(Exec(args), rs), rest)
  {
    var toks := Words(args) + (Arrows(rs) + rest);
    if args == [] {
      assert toks == Arrows(rs) + rest;
      RedirsBack([], rs, rest);
      assert [] + rs == rs;
      assert rs != [] ==> toks[0] == Arrow(rs[0].mode);
    } else {
      assert toks[0] == Word(args[0]) && IsWord(args[0]) && Ordinary(args[0][0]);
      WordsBack([], args, rs, rest);
      assert [] + args == args;
    }
  }

  lemma Parens(t: Tree)
    requires Compound(t)
    ensures PrintExec(t) == [Sym('(')] + PrintLine(t) + [Sym(')')]
  {
    match t
    case Pipe(l, r) => assert PrintLine(t) == PrintPipe(t) == PrintExec(l) + [Sym('|')] + PrintPipe(r);
    case List(l, r) =>
    case Back(sub) => assert PrintLine(t) == PrintBack(t);
  }

  /** A block: parentheses around a line, then redirections. */
  lemma BlockOf(t: Tree, line: seq<Token>, rs: seq<Redirect>, rest: seq<Token>)
    requires Stops(rest)
    requires LineOf(line + ([Sym(')')] + (Arrows(rs) + rest))) == Ok(t, [Sym(')')] + (Arrows(rs) + rest))
    ensures ExecOf([Sym('(')] + line + [Sym(')')] + Arrows(rs) + rest) == Ok(Wrap(t, rs), rest)
  {
    hide LineOf, RedirsOf;
    var tail := [Sym(')')] + (Arrows(rs) + rest);
    var toks := [Sym('(')] + line + [Sym(')')] + Arrows(rs) + rest;
    assert toks == [Sym('(')] + (line + tail);
    assert toks[0] == Sym('(') && toks[1..] == line + tail;
    assert tail[1..] == Arrows(rs) + rest;
    RedirsBack([], rs, rest);
    assert [] + rs == rs;
  }

  lemma {:induction false} ExecBack(t: Tree, rest: seq<Token>)
    requires WellFormed(t) && Stops(rest)
    ensures ExecOf(PrintExec(t) + rest) == Ok(t, rest)
    decreases t, 1
  {
    hide ExecOf, LineOf, PrintLine;
    Peel(t);
    var base, rs := Inner(t), Outer(t);
    if base.Exec? {
      assert PrintExec(t) + rest == Words(base.args) + (Arrows(rs) + rest);
      SimpleBack(base.args, rs, rest);
    } else {
      Parens(base);
      LineCompound(base, [Sym(')')] + (Arrows(rs) + rest));
      BlockOf(base, PrintLine(base), rs, rest);
    }
  }

  lemma PipeStep(l: Tree, r: Tree, toks: seq<Token>, right: seq<Token>, rest: seq<Token>)
    requires ExecOf(toks) == Ok(l, [Sym('|')] + right) && PipeOf(right) == Ok(r, rest)
    ensures PipeOf(toks) == Ok(Pipe(l, r), rest)
  {
    hide ExecOf;
    assert ([Sym('|')] + right)[1..] == right;
  }

  lemma PipeStop(t: Tree, toks: seq<Token>, rest: seq<Token>)
    requires ExecOf(toks) == Ok(t, rest) && !Sees(rest, "|")
    ensures PipeOf(toks) == Ok(t, rest)
  {
    hide ExecOf;
  }

  lemma {:induction false} PipeBack(t: Tree, rest: seq<Token>)
    requires WellFormed(t) && Stops(rest) && !Sees(rest, "|")
    ensures PipeOf(PrintPipe(t) + rest) == Ok(t, rest)
    decreases t, 2
  {
    hide ExecOf, PipeOf, PrintExec;
    if t.Pipe? {
      var right := PrintPipe(t.right) + rest;
      ExecBack(t.left, [Sym('|')] + right);
      PipeBack(t.right, rest);
      PipeStep(t.left, t.right, PrintExec(t.left) + ([Sym('|')] + right), right, rest);
      assert PrintPipe(t) + rest == PrintExec(t.left) + ([Sym('|')] + right);
    } else {
      ExecBack(t, rest);
      PipeStop(t, PrintExec(t) + rest, rest);
    }
  }

  lemma {:induction false} BackBack(t: Tree, rest: seq<Token>)
    requires WellFormed(t) && Stops(rest) && !Sees(rest, "|")
    ensures var r := PipeOf(PrintBack(t) + rest); r.Ok? && BacksOf(r.value, r.rest) == BacksOf(t, rest)
    decreases t, 3
  {
    hide PipeOf, PrintPipe;
    if t.Back? {
      var more := [Sym('&')] + rest;
      BackBack(t.sub, more);
      assert PrintBack(t) + rest == PrintBack(t.sub) + more;
      assert more[1..] == rest;
    } else {
      PipeBack(t, rest);
    }
  }

  predicate EndsLine(toks: seq<Token>) { toks == [] || toks[0] == Sym(')') }

  lemma LineFromPipe(t: Tree, toks: seq<Token>, rest: seq<Token>)
    requires PipeOf(toks) == Ok(t, rest) && EndsLine(rest)
    ensures LineOf(toks) == Ok(t, rest)
  {
    hide PipeOf;
  }

  lemma {:induction false} LineCompound(t: Tree, rest: seq<Token>)
    requires WellFormed(t) && Compound(t) && EndsLine(rest)
    ensures LineOf(PrintLine(t) + rest) == Ok(t, rest)
    decreases t, 0
  {
    hide LineOf, PipeOf, ExecOf, BacksOf, PrintExec;
    match t
    case List(l, r) =>
      var more := [Sym(';')] + (PrintLine(r) + rest);
      BackBack(l, more);
      LineBack(r, rest);
      ListOf(l, r, PrintBack(l) + more, PrintLine(r) + rest, rest);
      assert PrintLine(t) + rest == PrintBack(l) + more;
    case Back(sub) =>
      var more := [Sym('&')] + rest;
      BackBack(sub, more);
      BackOf(sub, PrintBack(sub) + more, rest);
      assert PrintLine(t) + rest == PrintBack(sub) + more by {
        assert PrintLine(t) == PrintBack(t);
      }
    case Pipe(l, r) =>
      var more := [Sym('|')] + (PrintPipe(r) + rest);
      ExecBack(l, more);
      PipeBack(r, rest);
      PipedOf(l, r, PrintExec(l) + more, PrintPipe(r) + rest, rest);
      assert PrintLine(t) + rest == PrintExec(l) + more by {
        assert PrintLine(t) == PrintPipe(t);
      }
  }

  lemma ListOf(l: Tree, r: Tree, toks: seq<Token>, right: seq<Token>, rest: seq<Token>)
    requires PipeOf(toks).Ok? && BacksOf(PipeOf(toks).value, PipeOf(toks).rest) == BacksOf(l, [Sym(';')] + right)
    requires LineOf(right) == Ok(r, rest)
    ensures LineOf(toks) == Ok(List(l, r), rest)
  {
    hide PipeOf;
    assert ([Sym(';')] + right)[1..] == right;
    assert BacksOf(l, [Sym(';')] + right) == (l, [Sym(';')] + right);
  }

  lemma BackOf(sub: Tree, toks: seq<Token>, rest: seq<Token>)
    requires EndsLine(rest)
    requires PipeOf(toks).Ok? && BacksOf(PipeOf(toks).value, PipeOf(toks).rest) == BacksOf(sub, [Sym('&')] + rest)
    ensures LineOf(toks) == Ok(Back(sub), rest)
  {
    hide PipeOf;
    assert ([Sym('&')] + rest)[1..] == rest;
    assert BacksOf(sub, [Sym('&')] + rest) == BacksOf(Back(sub), rest) == (Back(sub), rest);
  }

  lemma PipedOf(l: Tree, r: Tree, toks: seq<Token>, right: seq<Token>, rest: seq<Token>)
    requires ExecOf(toks) == Ok(l, [Sym('|')] + right) && PipeOf(right) == Ok(r, rest) && EndsLine(rest)
    ensures LineOf(toks) == Ok(Pipe(l, r), rest)
  {
    hide ExecOf, PipeOf, LineOf;
    PipeStep(l, r, toks, right, rest);
    LineFromPipe(Pipe(l, r), toks, rest);
  }

  lemma {:induction false} LineBack(t: Tree, rest: seq<Token>)
    requires WellFormed(t) && EndsLine(rest)
    ensures LineOf(PrintLine(t) + rest) == Ok(t, rest)
    decreases t, 4
  {
    hide ExecOf, PipeOf, LineOf, PrintExec;
    if Compound(t) {
      LineCompound(t, rest);
    } else {
      ExecBack(t, rest);
      PipeStop(t, PrintExec(t) + rest, rest);
      LineFromPipe(t, PrintExec(t) + rest, rest);
      assert PrintLine(t) == PrintBack(t) && PrintBack(t) == PrintPipe(t);
    }
  }

  // ----- Printing and scanning back -----

  predicate IsToken(t: Token) {
    match t
    case Sym(c) => Symbol(c)
    case Append => true
    case Word(text) => IsWord(text)
  }

  predicate AreTokens(toks: seq<Token>) { forall i :: 0 <= i < |toks| ==> IsToken(toks[i]) }

  lemma BlankIsWhite(gap: string)
    ensures Blank(gap) <==> forall i :: 0 <= i < |gap| ==> White(gap[i])
  {
    assert forall c :: c in " \t\r\n\U{0B}" <==> White(c);
  }

  lemma TokenFound(s: string, i: nat, t: Token)
    requires IsToken(t) && i + |Text(t)| <= |s| && s[i..i + |Text(t)|] == Text(t)
    requires t.Word? && i + |Text(t)| < |s| ==> !Ordinary(s[i + |Text(t)|])
    requires t == Sym('>') && i + 1 < |s| ==> s[i + 1] != '>'
    ensures i < |s| && !White(s[i]) && TokenAt(s, i) == (t, i + |Text(t)|)
  {
    var n := |Text(t)|;
    assert forall k :: 0 <= k < n ==> s[i + k] == Text(t)[k];
    if t.Word? {
      assert s[i] == t.text[0];
      forall k | i <= k < i + n ensures Ordinary(s[k]) {
        assert s[k] == t.text[k - i];
      }
      assert WordEnd(s, i) == i + n;
    } else {
      assert s[i] == Text(t)[0];
    }
  }

  /** What the text after a token begins with. */
  lemma SpreadStarts(toks: seq<Token>, gaps: seq<string>)
    requires |gaps| == |toks| + 1 && Blank(gaps[0]) && (toks != [] ==> IsToken(toks[0]))
    ensures var s := Spread(toks, gaps);
      s != [] ==> White(s[0]) || (gaps[0] == [] && toks != [] && s[0] == First(toks[0]) == Text(toks[0])[0])
  {
    BlankIsWhite(gaps[0]);
  }

  lemma SkipGap(s: string, i: nat, j: nat)
    requires i <= j <= |s| && (forall k :: i <= k < j ==> White(s[k])) && (j < |s| ==> !White(s[j]))
    ensures Skip(s, i) == j
  {
  }

  lemma SpreadParts(pre: string, toks: seq<Token>, gaps: seq<string>)
    requires toks != [] && |gaps| == |toks| + 1
    ensures var s := pre + Spread(toks, gaps); var b := |pre| + |gaps[0]|; var n := |Text(toks[0])|;
      && s == pre + gaps[0] + Text(toks[0]) + Spread(toks[1..], gaps[1..]) && b + n <= |s|
      && s[|pre|..b] == gaps[0] && s[b..b + n] == Text(toks[0]) && s[b + n..] == Spread(toks[1..], gaps[1..])
  {
    var g, x, rest := gaps[0], Text(toks[0]), Spread(toks[1..], gaps[1..]);
    assert pre + (g + x + rest) == pre + g + x + rest;
  }

  lemma ProperTail(toks: seq<Token>, gaps: seq<string>)
    requires toks != [] && AreTokens(toks) && Proper(toks, gaps)
    ensures AreTokens(toks[1..]) && Proper(toks[1..], gaps[1..]) && Blank(gaps[0]) && Blank(gaps[1..][0])
    ensures IsToken(toks[0]) && (|toks| > 1 && gaps[1..][0] == [] ==> Apart(toks[0], toks[1..][0]))
  {
    hide IsToken, Blank, Apart;
  }

  lemma TokensAfter(s: string, i: nat, j: nat, t: Token)
    requires i <= j < |s| && (forall k :: i <= k < j ==> White(s[k])) && !White(s[j]) && TokenAt(s, j).0 == t
    ensures Tokens(s, i) == [t] + Tokens(s, TokenAt(s, j).1)
  {
    SkipGap(s, i, j);
  }

  /** Whatever white space separates them, the tokens are read back. */
  lemma {:induction false} SpreadBack(pre: string, toks: seq<Token>, gaps: seq<string>)
    requires AreTokens(toks) && Proper(toks, gaps)
    ensures Tokens(pre + Spread(toks, gaps), |pre|) == toks
    decreases |toks|
  {
    hide IsToken, Blank, Apart, White, Ordinary, AreTokens, Spread, Tokens, TokenAt, Text, Proper;
    ProperLength(toks, gaps);
    var s, a := pre + Spread(toks, gaps), |pre|;
    if toks == [] {
      OnlyGap(pre, gaps);
    } else {
      var t, tail, rest := toks[0], toks[1..], gaps[1..];
      var b := a + |gaps[0]|;
      ProperTail(toks, gaps);
      SpreadParts(pre, toks, gaps);
      BlankIsWhite(gaps[0]);
      assert forall k :: a <= k < b ==> s[k] == s[a..b][k - a];
      SpreadNext(s, b, t, tail, rest);
      TokenFound(s, b, t);
      TokensAfter(s, a, b, t);
      SpreadBack(pre + gaps[0] + Text(t), tail, rest);
      assert [t] + tail == toks;
    }
  }

  lemma OnlyGap(pre: string, gaps: seq<string>)
    requires Proper([], gaps)
    ensures Tokens(pre + Spread([], gaps), |pre|) == []
  {
    var s := pre + gaps[0];
    BlankIsWhite(gaps[0]);
    assert forall k :: |pre| <= k < |s| ==> s[k] == gaps[0][k - |pre|];
    SkipGap(s, |pre|, |s|);
  }

  lemma SpreadNext(s: string, b: nat, t: Token, tail: seq<Token>, rest: seq<string>)
    requires IsToken(t) && AreTokens(tail) && |rest| == |tail| + 1 && Blank(rest[0])
    requires tail != [] && rest[0] == [] ==> Apart(t, tail[0])
    requires b + |Text(t)| <= |s| && s[b + |Text(t)|..] == Spread(tail, rest)
    ensures t.Word? && b + |Text(t)| < |s| ==> !Ordinary(s[b + |Text(t)|])
    ensures t == Sym('>') && b + 1 < |s| ==> s[b + 1] != '>'
  {
    SpreadStarts(tail, rest);
  }

  lemma {:induction false} WordsAreTokens(args: seq<string>)
    requires AreWords(args)
    ensures forall i :: 0 <= i < |Words(args)| ==> IsToken(Words(args)[i])
  {
    if args != [] {
      WordsAreTokens(args[1..]);
    }
  }

  lemma {:induction false} PrintIsTokens(t: Tree)
    requires WellFormed(t)
    ensures forall i :: 0 <= i < |PrintExec(t)| ==> IsToken(PrintExec(t)[i])
    ensures forall i :: 0 <= i < |PrintPipe(t)| ==> IsToken(PrintPipe(t)[i])
    ensures forall i :: 0 <= i < |PrintBack(t)| ==> IsToken(PrintBack(t)[i])
    ensures forall i :: 0 <= i < |PrintLine(t)| ==> IsToken(PrintLine(t)[i])
    decreases t
  {
    match t
    case Exec(args) => WordsAreTokens(args);
    case Redir(sub, r) => PrintIsTokens(sub);
    case Pipe(l, r) => PrintIsTokens(l); PrintIsTokens(r);
    case List(l, r) => PrintIsTokens(l); PrintIsTokens(r);
    case Back(sub) => PrintIsTokens(sub);
  }

  /** Parsing the printed form of a tree gives the tree back, with any white space in it. */
  lemma RoundTrip(t: Tree, gaps: seq<string>)
    requires WellFormed(t) && Proper(PrintLine(t), gaps)
    ensures CmdOf(Tokens(Spread(PrintLine(t), gaps), 0)) == Ok(t, [])
  {
    hide LineOf, PrintLine, Tokens;
    var toks := PrintLine(t);
    PrintIsTokens(t);
    SpreadBack([], toks, gaps);
    assert [] + Spread(toks, gaps) == Spread(toks, gaps);
    LineBack(t, []);
    assert toks + [] == toks;
  }

  // ----- The parser produces no other trees -----

  lemma {:induction false} ScanIsTokens(s: string, i: nat)
    requires CString(s) && i <= |s|
    ensures AreTokens(Tokens(s, i))
    decreases |s| - i
  {
    var j := Skip(s, i);
    if j < |s| {
      ScanIsTokens(s, TokenAt(s, j).1);
    }
  }

  lemma {:induction false} WrapWellFormed(t: Tree, rs: seq<Redirect>)
    requires WellFormed(t) && AreFiles(rs)
    ensures WellFormed(Wrap(t, rs))
    decreases |rs|
  {
    if rs != [] {
      WrapWellFormed(t, rs[..|rs| - 1]);
    }
  }

  lemma {:induction false} RedirsWellFormed(rs: seq<Redirect>, toks: seq<Token>)
    requires AreFiles(rs) && AreTokens(toks)
    ensures var r := RedirsOf(rs, toks); r.Ok? ==> AreFiles(r.value) && AreTokens(r.rest)
    decreases |toks|
  {
    if Sees(toks, "<>") && |toks| >= 2 && toks[1].Word? {
      assert IsToken(toks[1]);
      RedirsWellFormed(rs + [Redirect(toks[1].text, ModeOf(toks[0]))], toks[2..]);
    }
  }

  lemma {:induction false} WordsWellFormed(args: seq<string>, rs: seq<Redirect>, toks: seq<Token>)
    requires AreWords(args) && |args| < MAXARGS && AreFiles(rs) && AreTokens(toks)
    ensures var r := WordsOf(args, rs, toks); r.Ok? ==> WellFormed(r.value) && AreTokens(r.rest)
    decreases |toks|
  {
    WrapWellFormed(Exec(args), rs);
    if !(toks == [] || Sees(toks, "|)&;")) && toks[0].Word? && |args| + 1 < MAXARGS {
      assert IsToken(toks[0]);
      RedirsWellFormed(rs, toks[1..]);
      var r := RedirsOf(rs, toks[1..]);
      if r.Ok? {
        WordsWellFormed(args + [toks[0].text], r.value, r.rest);
      }
    }
  }

  lemma {:induction false} ExecWellFormed(toks: seq<Token>)
    requires AreTokens(toks)
    ensures var r := ExecOf(toks); r.Ok? ==> WellFormed(r.value) && AreTokens(r.rest)
    decreases |toks|, 0
  {
    if Sees(toks, "(") {
      LineWellFormed(toks[1..]);
      var r := LineOf(toks[1..]);
      if r.Ok? && Sees(r.rest, ")") {
        RedirsWellFormed([], r.rest[1..]);
        var q := RedirsOf([], r.rest[1..]);
        if q.Ok? { WrapWellFormed(r.value, q.value); }
      }
    } else {
      RedirsWellFormed([], toks);
      var r := RedirsOf([], toks);
      if r.Ok? { WordsWellFormed([], r.value, r.rest); }
    }
  }

  lemma {:induction false} PipeWellFormed(toks: seq<Token>)
    requires AreTokens(toks)
    ensures var r := PipeOf(toks); r.Ok? ==> WellFormed(r.value) && AreTokens(r.rest)
    decreases |toks|, 1
  {
    ExecWellFormed(toks);
    var r := ExecOf(toks);
    if r.Ok? && Sees(r.rest, "|") {
      PipeWellFormed(r.rest[1..]);
    }
  }

  lemma {:induction false} BacksWellFormed(t: Tree, toks: seq<Token>)
    requires WellFormed(t) && AreTokens(toks)
    ensures WellFormed(BacksOf(t, toks).0) && AreTokens(BacksOf(t, toks).1)
    decreases |toks|
  {
    if Sees(toks, "&") {
      BacksWellFormed(Back(t), toks[1..]);
    }
  }

  lemma {:induction false} LineWellFormed(toks: seq<Token>)
    requires AreTokens(toks)
    ensures var r := LineOf(toks); r.Ok? ==> WellFormed(r.value) && AreTokens(r.rest)
    decreases |toks|, 2
  {
    PipeWellFormed(toks);
    var r := PipeOf(toks);
    if r.Ok? {
      BacksWellFormed(r.value, r.rest);
      var (left, rest) := BacksOf(r.value, r.rest);
      if Sees(rest, ";") {
        LineWellFormed(rest[1..]);
      }
    }
  }

  /** The trees that some input produces are exactly the well-formed ones. */
  lemma ProducesExactly(t: Tree)
    ensures WellFormed(t) <==> exists s :: CString(s) && CmdOf(Tokens(s, 0)) == Ok(t, [])
  {
    hide LineOf, Tokens, PrintLine;
    if WellFormed(t) {
      var toks := PrintLine(t);
      PrintIsTokens(t);
      OneBlankEach(toks);
      RoundTrip(t, OneBlank(|toks| + 1));
    }
    if exists s :: CString(s) && CmdOf(Tokens(s, 0)) == Ok(t, []) {
      var s :| CString(s) && CmdOf(Tokens(s, 0)) == Ok(t, []);
      ScanIsTokens(s, 0);
      LineWellFormed(Tokens(s, 0));
    }
  }

  function OneBlank(n: nat): seq<string> { seq(n, _ => " ") }

  lemma {:induction false} OneBlankEach(toks: seq<Token>)
    requires AreTokens(toks)
    ensures Proper(toks, OneBlank(|toks| + 1)) && CString(Spread(toks, OneBlank(|toks| + 1)))
    decreases |toks|
  {
    if toks != [] {
      assert IsToken(toks[0]);
      OneBlankEach(toks[1..]);
      assert OneBlank(|toks| + 1)[1..] == OneBlank(|toks|);
    }
  }

  /** Every input is its tokens with white space between them: scanning loses nothing else. */
  lemma {:induction false} ScanSpread(s: string, i: nat) returns (gaps: seq<string>)
    requires CString(s) && i <= |s|
    ensures Proper(Tokens(s, i), gaps) && Spread(Tokens(s, i), gaps) == s[i..]
    decreases |s| - i
  {
    hide Blank, White, Apart, TokenAt, Text, Spread, Proper;
    var j := Skip(s, i);
    BlankIsWhite(s[i..j]);
    if j == |s| {
      gaps := [s[i..j]];
      LastGap(s[i..j]);
      assert s[i..j] == s[i..];
    } else {
      var (t, e) := TokenAt(s, j);
      var rest := ScanSpread(s, e);
      gaps := [s[i..j]] + rest;
      TokenText(s, j);
      assert s[i..] == s[i..j] + s[j..e] + s[e..];
      ProperLength(Tokens(s, e), rest);
      if Tokens(s, e) != [] && rest[0] == [] {
        TokenNext(s, j, rest);
      }
      SpreadMore(t, Tokens(s, e), s[i..j], rest);
    }
  }

  lemma ProperLength(toks: seq<Token>, gaps: seq<string>)
    requires Proper(toks, gaps)
    ensures |gaps| == |toks| + 1
  {
  }

  lemma LastGap(gap: string)
    requires Blank(gap)
    ensures Proper([], [gap]) && Spread([], [gap]) == gap
  {
  }

  lemma SpreadMore(t: Token, toks: seq<Token>, gap: string, gaps: seq<string>)
    requires Proper(toks, gaps) && Blank(gap) && (toks != [] && gaps[0] == [] ==> Apart(t, toks[0]))
    ensures Proper([t] + toks, [gap] + gaps) && Spread([t] + toks, [gap] + gaps) == gap + Text(t) + Spread(toks, gaps)
  {
    hide Blank, Apart, Text;
    var ts, gs := [t] + toks, [gap] + gaps;
    assert ts[1..] == toks && gs[1..] == gaps;
    assert forall k :: 0 < k < |ts| ==> ts[k] == toks[k - 1];
    assert forall k :: 0 < k < |gs| ==> gs[k] == gaps[k - 1];
  }

  /** The token after an empty gap. */
  lemma TokenNext(s: string, j: nat, rest: seq<string>)
    requires CString(s) && j < |s| && !White(s[j])
    requires var e := TokenAt(s, j).1;
      Proper(Tokens(s, e), rest) && Tokens(s, e) != [] && rest[0] == [] && Spread(Tokens(s, e), rest) == s[e..]
    ensures Apart(TokenAt(s, j).0, Tokens(s, TokenAt(s, j).1)[0])
  {
    hide Apart, Blank, White, Proper;
    var e := TokenAt(s, j).1;
    var k := Skip(s, e);
    if k > e {
      ProperLength(Tokens(s, e), rest);
      FirstChar(s, e, rest);
    }
    SideBySide(s, j);
  }

  lemma FirstChar(s: string, e: nat, rest: seq<string>)
    requires CString(s) && e < |s| && Tokens(s, e) != [] && |rest| == |Tokens(s, e)| + 1 && rest[0] == []
    requires Spread(Tokens(s, e), rest) == s[e..]
    ensures !White(s[e])
  {
    var t := Tokens(s, e)[0];
    var k := Skip(s, e);
    TokenText(s, k);
    assert s[e] == s[e..][0] == Text(t)[0];
    assert Text(t)[0] == s[k..TokenAt(s, k).1][0] == s[k];
  }

  lemma TokenText(s: string, j: nat)
    requires CString(s) && j < |s| && !White(s[j])
    ensures s[j..TokenAt(s, j).1] == Text(TokenAt(s, j).0)
  {
  }

  /** Two tokens without a gap. */
  lemma SideBySide(s: string, j: nat)
    requires CString(s) && j < |s| && !White(s[j])
    requires var e := TokenAt(s, j).1; e < |s| && Skip(s, e) == e
    ensures var (t, e) := TokenAt(s, j); Apart(t, TokenAt(s, e).0)
  {
  }

  /** The scanner reads these tokens exactly from their spellings with proper white space. */
  lemma ScansExactly(s: string, toks: seq<Token>)
    requires CString(s) && AreTokens(toks)
    ensures Tokens(s, 0) == toks <==> exists gaps :: Proper(toks, gaps) && s == Spread(toks, gaps)
  {
    hide Tokens, Blank, Apart;
    if Tokens(s, 0) == toks {
      var gaps := ScanSpread(s, 0);
      assert s[0..] == s;
    }
    if gaps :| Proper(toks, gaps) && s == Spread(toks, gaps) {
      SpreadBack([], toks, gaps);
      assert [] + s == s;
    }
  }

  // ----- The code: commands hold spans of the input -----

  datatype Span = Span(q: nat, eq: nat)

  /** The mode also determines fd: 0 for reading, 1 otherwise. */
  datatype Redirection = Redirection(file: Span, mode: Mode)

  datatype Cmd =
    | ExecCmd(argv: seq<Span>)
    | RedirCmd(cmd: Cmd, r: Redirection)
    | PipeCmd(left: Cmd, right: Cmd)
    | ListCmd(left: Cmd, right: Cmd)
    | BackCmd(cmd: Cmd)

  datatype Parsed<T> = Parsed(value: T, at: nat) | Failed(why: Fault)

  /** A whole word of the input. */
  ghost predicate IsSpan(s: string, p: Span) {
    && p.q < p.eq <= |s| && (forall k :: p.q <= k < p.eq ==> Ordinary(s[k]))
    && (p.eq < |s| ==> !Ordinary(s[p.eq]))
  }

  ghost function Spelled(s: string, p: Span): string {
    if p.q <= p.eq <= |s| then s[p.q..p.eq] else []
  }

  ghost function ShownArgs(s: string, a: seq<Span>): (r: seq<string>)
    ensures |r| == |a| && forall i :: 0 <= i < |a| ==> r[i] == Spelled(s, a[i])
  {
    seq(|a|, i requires 0 <= i < |a| => Spelled(s, a[i]))
  }

  ghost function ShownRs(s: string, rs: seq<Redirection>): (r: seq<Redirect>)
    ensures |r| == |rs| && forall i :: 0 <= i < |rs| ==> r[i] == Redirect(Spelled(s, rs[i].file), rs[i].mode)
  {
    seq(|rs|, i requires 0 <= i < |rs| => Redirect(Spelled(s, rs[i].file), rs[i].mode))
  }

  /** The tree a command stands for. */
  ghost function Shown(s: string, c: Cmd): Tree {
    match c
    case ExecCmd(argv) => Exec(ShownArgs(s, argv))
    case RedirCmd(sub, r) => Redir(Shown(s, sub), Redirect(Spelled(s, r.file), r.mode))
    case PipeCmd(l, r) => Pipe(Shown(s, l), Shown(s, r))
    case ListCmd(l, r) => List(Shown(s, l), Shown(s, r))
    case BackCmd(sub) => Back(Shown(s, sub))
  }

  ghost predicate SpansOk(s: string, c: Cmd) {
    match c
    case ExecCmd(argv) => forall i :: 0 <= i < |argv| ==> IsSpan(s, argv[i])
    case RedirCmd(sub, r) => SpansOk(s, sub) && IsSpan(s, r.file)
    case PipeCmd(l, r) => SpansOk(s, l) && SpansOk(s, r)
    case ListCmd(l, r) => SpansOk(s, l) && SpansOk(s, r)
    case BackCmd(sub) => SpansOk(s, sub)
  }

  ghost predicate FilesOk(s: string, rs: seq<Redirection>) { forall i :: 0 <= i < |rs| ==> IsSpan(s, rs[i].file) }

  function WrapCmd(c: Cmd, rs: seq<Redirection>): Cmd
    decreases |rs|
  {
    if rs == [] then c else RedirCmd(WrapCmd(c, rs[..|rs| - 1]), rs[|rs| - 1])
  }

  lemma {:induction false} WrapShown(s: string, c: Cmd, rs: seq<Redirection>)
    requires SpansOk(s, c) && FilesOk(s, rs)
    ensures Shown(s, WrapCmd(c, rs)) == Wrap(Shown(s, c), ShownRs(s, rs)) && SpansOk(s, WrapCmd(c, rs))
    decreases |rs|
  {
    if rs != [] {
      var n := |rs| - 1;
      WrapShown(s, c, rs[..n]);
      assert ShownRs(s, rs)[..n] == ShownRs(s, rs[..n]);
    }
  }

  lemma TokensOfSkipped(s: string, i: nat, j: nat)
    requires i <= j <= |s| && forall k :: i <= k < j ==> White(s[k])
    ensures Tokens(s, i) == Tokens(s, j)
    decreases j - i
  {
  }

  method SkipBlanks(s: string, ps: nat) returns (at: nat)
    requires ps <= |s|
    ensures ps <= at <= |s| && Tokens(s, at) == Tokens(s, ps) && (at < |s| ==> !White(s[at]))
  {
    at := ps;
    while at < |s| && White(s[at])
      invariant ps <= at <= |s| && forall k :: ps <= k < at ==> White(s[k])
    {
      at := at + 1;
    }
    TokensOfSkipped(s, ps, at);
  }

  lemma TokensHead(s: string, i: nat)
    requires i <= |s| && (i < |s| ==> !White(s[i]))
    ensures i == |s| ==> Tokens(s, i) == []
    ensures i < |s| ==> Tokens(s, i) == [TokenAt(s, i).0] + Tokens(s, TokenAt(s, i).1)
  {
  }

  /** Skips blanks, returns the code and the span of the next token, and skips blanks again. */
  method GetToken(s: string, ps: nat) returns (code: char, p: Span, at: nat)
    requires CString(s) && ps <= |s|
    ensures ps <= at <= |s|
    ensures Tokens(s, ps) == [] ==> code == '\0' && at == |s|
    ensures var toks := Tokens(s, ps);
      toks != [] ==> ps < at && code == Code(toks[0]) && IsToken(toks[0]) && Tokens(s, at) == toks[1..]
    ensures code == 'a' ==> IsSpan(s, p) && Tokens(s, ps) != [] && Tokens(s, ps)[0] == Word(Spelled(s, p))
  {
    hide Tokens;
    var b := SkipBlanks(s, ps);
    TokensHead(s, b);
    var e := b;
    if b == |s| {
      code := '\0';
    } else if s[b] == '>' {
      e := b + 1;
      code := '>';
      if e < |s| && s[e] == '>' {
        code := '+';
        e := e + 1;
      }
    } else if Symbol(s[b]) {
      code := s[b];
      e := b + 1;
    } else {
      code := 'a';
      while e < |s| && !White(s[e]) && !Symbol(s[e])
        invariant b <= e <= |s| && forall k :: b <= k < e ==> Ordinary(s[k])
      {
        e := e + 1;
      }
      assert Ordinary(s[b]) && WordEnd(s, b) == e;
    }
    p := Span(b, e);
    assert b < |s| ==> TokenAt(s, b).1 == e;
    at := SkipBlanks(s, e);
  }

  method Peek(s: string, ps: nat, set0: string) returns (hit: bool, at: nat)
    requires CString(s) && ps <= |s| && '\0' !in set0
    ensures ps <= at <= |s| && Tokens(s, at) == Tokens(s, ps) && (hit <==> Sees(Tokens(s, ps), set0))
    ensures at < |s| ==> !White(s[at])
  {
    hide Tokens;
    at := SkipBlanks(s, ps);
    TokensHead(s, at);
    hit := at < |s| && s[at] in set0;
  }

  // ----- parseredirs -----

  ghost predicate RedirsAgree(s: string, r: Parsed<seq<Redirection>>, spec: Result<seq<Redirect>>) {
    match spec
    case Panic(w) => r == Failed(w)
    case Ok(v, rest) =>
      r.Parsed? && r.at <= |s| && ShownRs(s, r.value) == v && FilesOk(s, r.value) && Tokens(s, r.at) == rest
  }

  method ParseRedirs(s: string, ps: nat, rs0: seq<Redirection>) returns (r: Parsed<seq<Redirection>>)
    requires CString(s) && ps <= |s| && FilesOk(s, rs0)
    ensures RedirsAgree(s, r, RedirsOf(ShownRs(s, rs0), Tokens(s, ps)))
  {
    hide Tokens, IsSpan, Spelled;
    var rs, at: nat := rs0, ps;
    var hit;
    hit, at := Peek(s, at, "<>");
    while hit
      invariant at <= |s| && FilesOk(s, rs) && (hit <==> Sees(Tokens(s, at), "<>"))
      invariant RedirsOf(ShownRs(s, rs), Tokens(s, at)) == RedirsOf(ShownRs(s, rs0), Tokens(s, ps))
      decreases |Tokens(s, at)|
    {
      ghost var toks := Tokens(s, at);
      var tok, _, at1 := GetToken(s, at);
      var code, p, at2 := GetToken(s, at1);
      if code != 'a' {
        return Failed(MissingFile);
      }
      var mode := if tok == '<' then ReadOnly else if tok == '>' then Truncate else AppendTo;
      assert mode == ModeOf(toks[0]);
      assert ShownRs(s, rs + [Redirection(p, mode)]) == ShownRs(s, rs) + [Redirect(toks[1].text, mode)];
      assert toks[1..][1..] == toks[2..];
      rs := rs + [Redirection(p, mode)];
      hit, at := Peek(s, at2, "<>");
    }
    r := Parsed(rs, at);
  }

  // ----- parseexec, parseblock, parsepipe, parseline -----

  ghost predicate Agree(s: string, r: Parsed<Cmd>, spec: Result<Tree>) {
    match spec
    case Panic(w) => r == Failed(w)
    case Ok(t, rest) =>
      r.Parsed? && r.at <= |s| && Shown(s, r.value) == t && SpansOk(s, r.value) && Tokens(s, r.at) == rest
  }

  /** The loop over the words of a simple command.  The source fills argv of a command that redirections
      already point to; here they are put around it at the end. */
  method ParseWords(s: string, ps: nat, rs0: seq<Redirection>) returns (r: Parsed<Cmd>)
    requires CString(s) && ps <= |s| && FilesOk(s, rs0)
    ensures Agree(s, r, WordsOf([], ShownRs(s, rs0), Tokens(s, ps)))
  {
    hide Tokens, IsSpan, Spelled, RedirsOf;
    var rs, args: seq<Span>, at: nat := rs0, [], ps;
    assert ShownArgs(s, args) == [];
    var hit;
    hit, at := Peek(s, at, "|)&;");
    while !hit
      invariant at <= |s| && FilesOk(s, rs) && SpansOk(s, ExecCmd(args)) && (hit <==> Sees(Tokens(s, at), "|)&;"))
      invariant WordsOf(ShownArgs(s, args), ShownRs(s, rs), Tokens(s, at)) == WordsOf([], ShownRs(s, rs0), Tokens(s, ps))
      decreases |Tokens(s, at)|
    {
      ghost var toks := Tokens(s, at);
      var tok, p, at1 := GetToken(s, at);
      if tok == '\0' {
        break;
      }
      if tok != 'a' {
        return Failed(Syntax);
      }
      if |args| + 1 >= MAXARGS {
        return Failed(TooManyArgs);
      }
      var q := ParseRedirs(s, at1, rs);
      if q.Failed? {
        return Failed(q.why);
      }
      assert ShownArgs(s, args + [p]) == ShownArgs(s, args) + [toks[0].text];
      args := args + [p];
      rs := q.value;
      hit, at := Peek(s, q.at, "|)&;");
    }
    WrapShown(s, ExecCmd(args), rs);
    r := Parsed(WrapCmd(ExecCmd(args), rs), at);
  }

  method ParseBlock(s: string, ps: nat) returns (r: Parsed<Cmd>)
    requires CString(s) && ps <= |s| && Sees(Tokens(s, ps), "(")
    ensures Agree(s, r, ExecOf(Tokens(s, ps)))
    decreases |Tokens(s, ps)|, 0
  {
    hide Tokens, RedirsOf, LineOf, Shown, SpansOk;
    var _, _, at := GetToken(s, ps);
    r := ParseLine(s, at);
    if r.Parsed? {
      var hit;
      hit, at := Peek(s, r.at, ")");
      if !hit {
        return Failed(MissingParen);
      }
      var _, _, at1 := GetToken(s, at);
      var q := ParseRedirs(s, at1, []);
      assert ShownRs(s, []) == [];
      if q.Failed? {
        return Failed(q.why);
      }
      WrapShown(s, r.value, q.value);
      r := Parsed(WrapCmd(r.value, q.value), q.at);
    }
  }

  method ParseExec(s: string, ps: nat) returns (r: Parsed<Cmd>)
    requires CString(s) && ps <= |s|
    ensures Agree(s, r, ExecOf(Tokens(s, ps)))
    decreases |Tokens(s, ps)|, 1
  {
    hide Tokens, RedirsOf, LineOf, WordsOf, Shown, SpansOk;
    var hit, at := Peek(s, ps, "(");
    if hit {
      r := ParseBlock(s, at);
      return;
    }
    var q := ParseRedirs(s, at, []);
    assert ShownRs(s, []) == [];
    if q.Failed? {
      return Failed(q.why);
    }
    r := ParseWords(s, q.at, q.value);
  }

  method ParsePipe(s: string, ps: nat) returns (r: Parsed<Cmd>)
    requires CString(s) && ps <= |s|
    ensures Agree(s, r, PipeOf(Tokens(s, ps)))
    decreases |Tokens(s, ps)|, 2
  {
    hide Tokens, ExecOf;
    r := ParseExec(s, ps);
    if r.Failed? { return; }
    var hit, at := Peek(s, r.at, "|");
    if hit {
      var _, _, at1 := GetToken(s, at);
      var right := ParsePipe(s, at1);
      if right.Failed? { return right; }
      r := Parsed(PipeCmd(r.value, right.value), right.at);
    }
  }

  method ParseLine(s: string, ps: nat) returns (r: Parsed<Cmd>)
    requires CString(s) && ps <= |s|
    ensures Agree(s, r, LineOf(Tokens(s, ps)))
    decreases |Tokens(s, ps)|, 3
  {
    hide Tokens, PipeOf;
    r := ParsePipe(s, ps);
    if r.Failed? { return; }
    var cmd, at: nat := r.value, r.at;
    ghost var toks := Tokens(s, at);
    var hit;
    hit, at := Peek(s, at, "&");
    while hit
      invariant at <= |s| && SpansOk(s, cmd) && |Tokens(s, at)| <= |toks| && (hit <==> Sees(Tokens(s, at), "&"))
      invariant BacksOf(Shown(s, cmd), Tokens(s, at)) == BacksOf(Shown(s, r.value), toks)
      decreases |Tokens(s, at)|
    {
      var _, _, at1 := GetToken(s, at);
      cmd := BackCmd(cmd);
      hit, at := Peek(s, at1, "&");
    }
    hit, at := Peek(s, at, ";");
    if hit {
      var _, _, at1 := GetToken(s, at);
      var right := ParseLine(s, at1);
      if right.Failed? { return right; }
      r := Parsed(ListCmd(cmd, right.value), right.at);
    } else {
      r := Parsed(cmd, at);
    }
  }

  // ----- nulterminate -----

  /** Some string of the command ends at i. */
  ghost predicate Ends(c: Cmd, i: nat) {
    match c
    case ExecCmd(argv) => exists k :: 0 <= k < |argv| && argv[k].eq == i
    case RedirCmd(sub, r) => Ends(sub, i) || r.file.eq == i
    case PipeCmd(l, r) => Ends(l, i) || Ends(r, i)
    case ListCmd(l, r) => Ends(l, i) || Ends(r, i)
    case BackCmd(sub) => Ends(sub, i)
  }

  method NulTerminate(buf: array<char>, c: Cmd, ghost s: string)
    requires SpansOk(s, c) && |s| < buf.Length
    modifies buf
    ensures forall i :: 0 <= i < buf.Length ==> buf[i] == if Ends(c, i) then '\0' else old(buf[i])
    decreases c
  {
    match c {
      case ExecCmd(argv) =>
        var k := 0;
        while k < |argv|
          invariant 0 <= k <= |argv|
          invariant forall i :: 0 <= i < buf.Length ==>
            buf[i] == if exists m :: 0 <= m < k && argv[m].eq == i then '\0' else old(buf[i])
        {
          buf[argv[k].eq] := '\0';
          k := k + 1;
        }
      case RedirCmd(sub, r) =>
        NulTerminate(buf, sub, s);
        buf[r.file.eq] := '\0';
      case PipeCmd(l, r) =>
        NulTerminate(buf, l, s);
        NulTerminate(buf, r, s);
      case ListCmd(l, r) =>
        NulTerminate(buf, l, s);
        NulTerminate(buf, r, s);
      case BackCmd(sub) =>
        NulTerminate(buf, sub, s);
    }
  }

  /** The C string that starts at q. */
  ghost function StringAt(b: seq<char>, q: nat): string
    decreases |b| - q
  {
    if q < |b| && b[q] != '\0' then [b[q]] + StringAt(b, q + 1) else []
  }

  lemma {:induction false} StringIs(b: seq<char>, q: nat, e: nat)
    requires q <= e < |b| && b[e] == '\0' && forall k :: q <= k < e ==> b[k] != '\0'
    ensures StringAt(b, q) == b[q..e]
    decreases e - q
  {
    if q < e {
      StringIs(b, q + 1, e);
      assert b[q..e] == [b[q]] + b[q + 1..e];
    }
  }

  /** Every argument and file name of the command is a C string equal to its word of the input. */
  ghost predicate Terminated(b: seq<char>, s: string, c: Cmd) {
    match c
    case ExecCmd(argv) => forall i :: 0 <= i < |argv| ==> StringAt(b, argv[i].q) == Spelled(s, argv[i])
    case RedirCmd(sub, r) => Terminated(b, s, sub) && StringAt(b, r.file.q) == Spelled(s, r.file)
    case PipeCmd(l, r) => Terminated(b, s, l) && Terminated(b, s, r)
    case ListCmd(l, r) => Terminated(b, s, l) && Terminated(b, s, r)
    case BackCmd(sub) => Terminated(b, s, sub)
  }

  /** No string of a command ends inside a word. */
  lemma {:induction false} EndsBetweenWords(s: string, c: Cmd, i: nat)
    requires SpansOk(s, c) && Ends(c, i)
    ensures i <= |s| && (i < |s| ==> !Ordinary(s[i]))
    decreases c
  {
    match c
    case ExecCmd(argv) =>
      var k :| 0 <= k < |argv| && argv[k].eq == i;
      assert IsSpan(s, argv[k]);
    case RedirCmd(sub, r) => if Ends(sub, i) { EndsBetweenWords(s, sub, i); }
    case PipeCmd(l, r) => if Ends(l, i) { EndsBetweenWords(s, l, i); } else { EndsBetweenWords(s, r, i); }
    case ListCmd(l, r) => if Ends(l, i) { EndsBetweenWords(s, l, i); } else { EndsBetweenWords(s, r, i); }
    case BackCmd(sub) => EndsBetweenWords(s, sub, i);
  }

  /** The input with NULs at the ends of the words of c. */
  ghost predicate Cut(b: seq<char>, s: string, c: Cmd) {
    |s| < |b| && forall i :: 0 <= i <= |s| ==> b[i] == if Ends(c, i) || i == |s| then '\0' else s[i]
  }

  lemma SpanTerminated(b: seq<char>, s: string, c: Cmd, p: Span)
    requires Cut(b, s, c) && SpansOk(s, c) && IsSpan(s, p) && (Ends(c, p.eq) || p.eq == |s|)
    ensures StringAt(b, p.q) == Spelled(s, p)
  {
    forall k | p.q <= k < p.eq ensures b[k] == s[k] {
      assert Ordinary(s[k]);
      if Ends(c, k) {
        EndsBetweenWords(s, c, k);
      }
    }
    StringIs(b, p.q, p.eq);
    assert b[p.q..p.eq] == s[p.q..p.eq];
  }

  lemma {:induction false} AllTerminated(b: seq<char>, s: string, whole: Cmd, c: Cmd)
    requires Cut(b, s, whole) && SpansOk(s, whole) && SpansOk(s, c) && forall i :: Ends(c, i) ==> Ends(whole, i)
    ensures Terminated(b, s, c)
    decreases c
  {
    match c
    case ExecCmd(argv) =>
      forall i | 0 <= i < |argv| ensures StringAt(b, argv[i].q) == Spelled(s, argv[i]) {
        assert Ends(c, argv[i].eq) && IsSpan(s, argv[i]);
        SpanTerminated(b, s, whole, argv[i]);
      }
    case RedirCmd(sub, r) =>
      assert forall i :: Ends(sub, i) ==> Ends(c, i);
      AllTerminated(b, s, whole, sub);
      assert Ends(c, r.file.eq);
      SpanTerminated(b, s, whole, r.file);
    case PipeCmd(l, r) =>
      assert forall i :: Ends(l, i) || Ends(r, i) ==> Ends(c, i);
      AllTerminated(b, s, whole, l);
      AllTerminated(b, s, whole, r);
    case ListCmd(l, r) =>
      assert forall i :: Ends(l, i) || Ends(r, i) ==> Ends(c, i);
      AllTerminated(b, s, whole, l);
      AllTerminated(b, s, whole, r);
    case BackCmd(sub) =>
      assert forall i :: Ends(sub, i) ==> Ends(c, i);
      AllTerminated(b, s, whole, sub);
  }

  method Strlen(buf: array<char>) returns (n: nat)
    requires exists i :: 0 <= i < buf.Length && buf[i] == '\0'
    ensures n < buf.Length && buf[n] == '\0' && buf[..n] == StringAt(buf[..], 0) && CString(buf[..n])
  {
    n := 0;
    while buf[n] != '\0'
      invariant n < buf.Length && forall k :: 0 <= k < n ==> buf[k] != '\0'
      invariant exists i :: n <= i < buf.Length && buf[i] == '\0'
      decreases buf.Length - n
    {
      n := n + 1;
    }
    StringIs(buf[..], 0, n);
    assert buf[..][0..n] == buf[..n];
  }

  /** The whole of parsecmd: the parser accepts what the grammar accepts, and leaves each word of the
      command a C string of its own in the input buffer. */
  method ParseCmd(buf: array<char>) returns (r: Parsed<Cmd>)
    requires exists i :: 0 <= i < buf.Length && buf[i] == '\0'
    modifies buf
    ensures var s := StringAt(old(buf[..]), 0);
      match CmdOf(Tokens(s, 0))
      case Panic(w) => r == Failed(w) && buf[..] == old(buf[..])
      case Ok(t, _) => r.Parsed? && Shown(s, r.value) == t && SpansOk(s, r.value) && Terminated(buf[..], s, r.value)
  {
    hide Tokens, LineOf, Shown, SpansOk, Terminated, Ends;
    var n := Strlen(buf);
    var s := buf[..n];
    r := ParseLine(s, 0);
    if r.Failed? { return; }
    var _, at := Peek(s, r.at, "");
    TokensHead(s, at);
    if at != n {
      return Failed(Leftovers);
    }
    NulTerminate(buf, r.value, s);
    CutAfter(old(buf[..]), buf[..], s, r.value);
    AllTerminated(buf[..], s, r.value, r.value);
  }

  lemma CutAfter(a: seq<char>, b: seq<char>, s: string, c: Cmd)
    requires |a| == |b| && |s| < |a| && a[..|s|] == s && a[|s|] == '\0' && SpansOk(s, c)
    requires forall i :: 0 <= i < |b| ==> b[i] == if Ends(c, i) then '\0' else a[i]
    ensures Cut(b, s, c)
  {
  }
}
