/** The shell's parser (user/sh.c): tokens, recursive descent, and nulterminate.

    The functions say what each parsing procedure returns and where it leaves the cursor; the
    class Parser below has the procedures themselves, with their loops and their cursor.  A C
    string's terminating 0 is the end of the sequence. */
module Shell {
  const MAXARGS: int := 10

  predicate IsSpace(c: char) { c == ' ' || c == '\t' || c == '\r' || c == '\n' || c == '\U{000B}' }

  predicate IsSymbol(c: char) { c == '<' || c == '|' || c == '>' || c == '&' || c == ';' || c == '(' || c == ')' }

  predicate IsBreak(c: char) { IsSpace(c) || IsSymbol(c) }

  datatype Mode = Read | Create | Append

  /** A word is the span from q up to eq of the input. */
  datatype Span = Span(q: int, eq: int)
  datatype Redirection = Redirection(file: Span, mode: Mode)

  datatype Cmd =
    | Exec(argv: seq<Span>)
    | Redir(cmd: Cmd, file: Span, mode: Mode)
    | Pipe(left: Cmd, right: Cmd)
    | List(left: Cmd, right: Cmd)
    | Back(cmd: Cmd)

  /** Err is a panic. */
  datatype Result = Ok(cmd: Cmd, pos: int) | Err
  datatype RedirResult = Some(rs: seq<Redirection>, pos: int) | Missing

  // ---------------------------------------------------------------- tokens

  function Skip(s: string, i: int): (j: int)
    requires 0 <= i <= |s|
    ensures i <= j <= |s| && (j < |s| ==> !IsSpace(s[j]))
    decreases |s| - i
  {
    if i < |s| && IsSpace(s[i]) then Skip(s, i + 1) else i
  }

  function WordEnd(s: string, i: int): (j: int)
    requires 0 <= i <= |s|
    ensures i <= j <= |s| && (j < |s| ==> IsBreak(s[j])) && forall k :: i <= k < j ==> !IsBreak(s[k])
    decreases |s| - i
  {
    if i < |s| && !IsBreak(s[i]) then WordEnd(s, i + 1) else i
  }

  /** gettoken: kind 'a' for a word, '+' for ">>", a NUL at the end, else the symbol. */
  datatype Tok = Tok(kind: char, q: int, eq: int, pos: int)

  const END: char := '\0'

  function Token(s: string, i: int): (t: Tok)
    requires 0 <= i <= |s|
    ensures i <= t.q <= t.eq <= t.pos <= |s| && (t.kind != END ==> i < t.pos)
    ensures t.kind == 'a' ==> t.q < t.eq && WordAt(s, Span(t.q, t.eq))
  {
    var q := Skip(s, i);
    if q == |s| || s[q] == END then Tok(END, q, q, q)
    else if s[q] == '>' && q + 1 < |s| && s[q + 1] == '>' then Tok('+', q, q + 2, Skip(s, q + 2))
    else if IsSymbol(s[q]) then Tok(s[q], q, q + 1, Skip(s, q + 1))
    else var e := WordEnd(s, q); Tok('a', q, e, Skip(s, e))
  }

  /** A span of the input that is a word and ends where a word ends. */
  predicate WordAt(s: string, w: Span) {
    && 0 <= w.q < w.eq <= |s| && (w.eq < |s| ==> IsBreak(s[w.eq]))
    && forall k :: w.q <= k < w.eq ==> !IsBreak(s[k])
  }

  /** peek, at a cursor already moved past spaces. */
  predicate Sees(s: string, j: int, toks: set<char>)
    requires 0 <= j <= |s|
  {
    j < |s| && s[j] in toks
  }

  // ---------------------------------------------------------------- the grammar

  predicate SpansOk(s: string, c: Cmd) {
    match c
    case Exec(argv) => |argv| < MAXARGS && forall k :: 0 <= k < |argv| ==> WordAt(s, argv[k])
    case Redir(d, f, _) => SpansOk(s, d) && WordAt(s, f)
    case Pipe(l, r) => SpansOk(s, l) && SpansOk(s, r)
    case List(l, r) => SpansOk(s, l) && SpansOk(s, r)
    case Back(d) => SpansOk(s, d)
  }

  /** Later redirections go outside earlier ones. */
  function Wrap(c: Cmd, rs: seq<Redirection>): (r: Cmd)
    decreases |rs|
  {
    if rs == [] then c else Redir(Wrap(c, rs[..|rs| - 1]), rs[|rs| - 1].file, rs[|rs| - 1].mode)
  }

  predicate RedirsOk(s: string, rs: seq<Redirection>) { forall k :: 0 <= k < |rs| ==> WordAt(s, rs[k].file) }

  lemma {:induction false} WrapOk(s: string, c: Cmd, rs: seq<Redirection>)
    requires SpansOk(s, c) && RedirsOk(s, rs)
    ensures SpansOk(s, Wrap(c, rs))
    decreases |rs|
  {
    if rs != [] { WrapOk(s, c, rs[..|rs| - 1]); }
  }

  function ModeOf(kind: char): (m: Mode) { if kind == '<' then Read else if kind == '>' then Create else Append }

  function Redirs(s: string, i: int): (r: RedirResult)
    requires 0 <= i <= |s|
    ensures r.Some? ==> i <= r.pos <= |s| && RedirsOk(s, r.rs)
    decreases |s| - i
  {
    var j := Skip(s, i);
    if Sees(s, j, {'<', '>'}) then
      var t := Token(s, j);
      var f := Token(s, t.pos);
      if f.kind != 'a' then Missing
      else match Redirs(s, f.pos)
           case Missing => Missing
           case Some(rs, k) => Some([Redirection(Span(f.q, f.eq), ModeOf(t.kind))] + rs, k)
    else Some([], j)
  }

  function Args(s: string, i: int, argv: seq<Span>, rs: seq<Redirection>): (r: Result)
    requires 0 <= i <= |s| && SpansOk(s, Exec(argv)) && RedirsOk(s, rs)
    ensures r.Ok? ==> i <= r.pos <= |s| && SpansOk(s, r.cmd)
    decreases |s| - i
  {
    var j := Skip(s, i);
    if Sees(s, j, {'|', ')', '&', ';'}) then WrapOk(s, Exec(argv), rs); Ok(Wrap(Exec(argv), rs), j)
    else
      var t := Token(s, j);
      if t.kind == END then WrapOk(s, Exec(argv), rs); Ok(Wrap(Exec(argv), rs), t.pos)
      else if t.kind != 'a' then Err
      else if |argv| + 1 >= MAXARGS then Err
      else match Redirs(s, t.pos)
           case Missing => Err
           case Some(more, k) => Args(s, k, argv + [Span(t.q, t.eq)], rs + more)
  }

  function ParseExec(s: string, i: int): (r: Result)
    requires 0 <= i <= |s|
    ensures r.Ok? ==> i <= r.pos <= |s| && SpansOk(s, r.cmd)
    decreases |s| - i, 1
  {
    var j := Skip(s, i);
    if Sees(s, j, {'('}) then ParseBlock(s, j)
    else match Redirs(s, j)
         case Missing => Err
         case Some(rs, k) => Args(s, k, [], rs)
  }

  function ParseBlock(s: string, i: int): (r: Result)
    requires 0 <= i <= |s|
    ensures r.Ok? ==> i <= r.pos <= |s| && SpansOk(s, r.cmd)
    decreases |s| - i, 0
  {
    var j := Skip(s, i);
    if !Sees(s, j, {'('}) then Err
    else match ParseLine(s, Token(s, j).pos)
         case Err => Err
         case Ok(c, k) =>
           var m := Skip(s, k);
           if !Sees(s, m, {')'}) then Err
           else match Redirs(s, Token(s, m).pos)
                case Missing => Err
                case Some(rs, e) => WrapOk(s, c, rs); Ok(Wrap(c, rs), e)
  }

  function ParsePipe(s: string, i: int): (r: Result)
    requires 0 <= i <= |s|
    ensures r.Ok? ==> i <= r.pos <= |s| && SpansOk(s, r.cmd)
    decreases |s| - i, 2
  {
    match ParseExec(s, i)
    case Err => Err
    case Ok(c, k) =>
      var j := Skip(s, k);
      if Sees(s, j, {'|'}) then
        match ParsePipe(s, Token(s, j).pos)
        case Err => Err
        case Ok(d, e) => Ok(Pipe(c, d), e)
      else Ok(c, j)
  }

  function Backs(s: string, i: int, c: Cmd): (r: Result)
    requires 0 <= i <= |s| && SpansOk(s, c)
    ensures r.Ok? && i <= r.pos <= |s| && SpansOk(s, r.cmd)
    decreases |s| - i
  {
    var j := Skip(s, i);
    if Sees(s, j, {'&'}) then Backs(s, Token(s, j).pos, Back(c)) else Ok(c, j)
  }

  function ParseLine(s: string, i: int): (r: Result)
    requires 0 <= i <= |s|
    ensures r.Ok? ==> i <= r.pos <= |s| && SpansOk(s, r.cmd)
    decreases |s| - i, 3
  {
    match ParsePipe(s, i)
    case Err => Err
    case Ok(c, k) =>
      var b := Backs(s, k, c);
      var j := Skip(s, b.pos);
      if Sees(s, j, {';'}) then
        match ParseLine(s, Token(s, j).pos)
        case Err => Err
        case Ok(d, e) => Ok(List(b.cmd, d), e)
      else Ok(b.cmd, j)
  }

  function ParseCmd(s: string): (r: Result)
    ensures r.Ok? ==> SpansOk(s, r.cmd)
  {
    match ParseLine(s, 0)
    case Err => Err
    case Ok(c, k) => if Skip(s, k) != |s| then Err else Ok(c, |s|)
  }

  // ---------------------------------------------------------------- commands as the user means them

  datatype Tree =
    | Words(argv: seq<string>)
    | To(cmd: Tree, file: string, mode: Mode)
    | Piped(left: Tree, right: Tree)
    | Both(left: Tree, right: Tree)
    | Behind(cmd: Tree)

  predicate Legal(w: string) { w != "" && forall k :: 0 <= k < |w| ==> !IsBreak(w[k]) && w[k] != END }

  predicate LegalTree(t: Tree) {
    match t
    case Words(argv) => |argv| < MAXARGS && forall k :: 0 <= k < |argv| ==> Legal(argv[k])
    case To(c, f, _) => LegalTree(c) && Legal(f)
    case Piped(l, r) => LegalTree(l) && LegalTree(r)
    case Both(l, r) => LegalTree(l) && LegalTree(r)
    case Behind(c) => LegalTree(c)
  }

  /** The words of a parsed command. */
  function Text(s: string, w: Span): (t: string)
    requires WordAt(s, w)
  {
    s[w.q..w.eq]
  }

  function Texts(s: string, ws: seq<Span>): (t: seq<string>)
    requires forall k :: 0 <= k < |ws| ==> WordAt(s, ws[k])
    ensures |t| == |ws| && forall k :: 0 <= k < |ws| ==> t[k] == Text(s, ws[k])
  {
    seq(|ws|, k requires 0 <= k < |ws| => Text(s, ws[k]))
  }

  function Meaning(s: string, c: Cmd): (t: Tree)
    requires SpansOk(s, c)
  {
    match c
    case Exec(argv) => Words(Texts(s, argv))
    case Redir(d, f, m) => To(Meaning(s, d), Text(s, f), m)
    case Pipe(l, r) => Piped(Meaning(s, l), Meaning(s, r))
    case List(l, r) => Both(Meaning(s, l), Meaning(s, r))
    case Back(d) => Behind(Meaning(s, d))
  }

  function ShowWords(ws: seq<string>): (w: string)
  {
    if ws == [] then "" else if |ws| == 1 then ws[0] else ws[0] + " " + ShowWords(ws[1..])
  }

  function Arrow(m: Mode): (w: string) { match m case Read => "<" case Create => ">" case Append => ">>" }

  /** The canonical printing: every part of a command in parentheses. */
  function Show(t: Tree): (w: string)
    decreases t, 0
  {
    match t
    case Words(argv) => ShowWords(argv)
    case To(c, f, m) => Parens(c) + Arrow(m) + f
    case Piped(l, r) => Parens(l) + "|" + Parens(r)
    case Both(l, r) => Parens(l) + ";" + Parens(r)
    case Behind(c) => Parens(c) + "&"
  }

  function Parens(t: Tree): (w: string)
    decreases t, 1
  {
    "(" + Show(t) + ")"
  }

  // ---------------------------------------------------------------- the round trip

  /** w stands at position i. */
  predicate At(s: string, i: int, w: string) { 0 <= i && i + |w| <= |s| && s[i..i + |w|] == w }

  /** Position j ends a command: the input's end or a closing parenthesis. */
  predicate Stops(s: string, j: int) { 0 <= j <= |s| && (j < |s| ==> s[j] == ')') }

  predicate Parsed(s: string, r: Result, t: Tree, j: int) {
    r.Ok? && SpansOk(s, r.cmd) && Meaning(s, r.cmd) == t && r.pos == j
  }

  lemma AtCat(s: string, i: int, v: string, w: string)
    requires At(s, i, v + w)
    ensures At(s, i, v) && At(s, i + |v|, w)
  {
    var x := s[i..i + |v + w|];
    assert x[..|v|] == v && x[|v|..] == w;
    assert s[i..i + |v|] == x[..|v|] && s[i + |v|..i + |v + w|] == x[|v|..];
  }

  lemma AtChar(s: string, i: int, w: string, k: int)
    requires At(s, i, w) && 0 <= k < |w|
    ensures s[i + k] == w[k]
  {
    assert s[i..i + |w|][k] == w[k];
  }

  lemma {:induction false} EndOfWord(s: string, i: int, e: int)
    requires 0 <= i <= e <= |s| && (forall k :: i <= k < e ==> !IsBreak(s[k])) && (e < |s| ==> IsBreak(s[e]))
    ensures WordEnd(s, i) == e
    decreases e - i
  {
    if i < e { EndOfWord(s, i + 1, e); }
  }

  /** A legal word at the cursor is the next token. */
  lemma WordToken(s: string, i: int, w: string)
    requires At(s, i, w) && Legal(w) && (i + |w| < |s| ==> IsBreak(s[i + |w|]))
    ensures Token(s, i) == Tok('a', i, i + |w|, Skip(s, i + |w|)) && WordAt(s, Span(i, i + |w|))
    ensures Text(s, Span(i, i + |w|)) == w
  {
    forall k | i <= k < i + |w| ensures !IsBreak(s[k]) && s[k] != END { AtChar(s, i, w, k - i); }
    assert s[i] != END && !IsBreak(s[i]);
    EndOfWord(s, i, i + |w|);
  }

  /** What a legal command begins with: a word or a parenthesis; what follows it when empty. */
  lemma NoRedirs(s: string, i: int)
    requires 0 <= i <= |s| && (i < |s| ==> !IsSpace(s[i]) && s[i] != '<' && s[i] != '>')
    ensures Skip(s, i) == i && Redirs(s, i) == Some([], i)
  {
  }

  /** One word more, with no redirection behind it. */
  lemma ArgsWord(s: string, i: int, argv: seq<Span>, e: int, k: int)
    requires SpansOk(s, Exec(argv)) && |argv| + 1 < MAXARGS && 0 <= i < |s| && !IsBreak(s[i]) && i <= e <= |s|
    requires Token(s, i) == Tok('a', i, e, k) && Redirs(s, k) == Some([], k)
    ensures WordAt(s, Span(i, e)) && SpansOk(s, Exec(argv + [Span(i, e)]))
    ensures Args(s, i, argv, []) == Args(s, k, argv + [Span(i, e)], [])
  {
    hide Redirs; hide Token;
    assert Skip(s, i) == i;
    var none: seq<Redirection> := [];
    assert none + none == none;
  }

  lemma TextsMore(s: string, argv: seq<Span>, w: Span)
    requires (forall k :: 0 <= k < |argv| ==> WordAt(s, argv[k])) && WordAt(s, w)
    ensures Texts(s, argv + [w]) == Texts(s, argv) + [Text(s, w)]
  {
  }

  lemma {:induction false} ArgsShow(s: string, i: int, argv: seq<Span>, ws: seq<string>)
    requires SpansOk(s, Exec(argv)) && |argv| + |ws| < MAXARGS && (forall k :: 0 <= k < |ws| ==> Legal(ws[k]))
    requires At(s, i, ShowWords(ws)) && Stops(s, i + |ShowWords(ws)|)
    ensures Parsed(s, Args(s, i, argv, []), Words(Texts(s, argv) + ws), i + |ShowWords(ws)|)
    decreases |ws|
  {
    hide Args; hide Texts; hide Redirs; hide Legal; hide Token; hide Parsed; hide ShowWords; hide WordAt; hide Text;
    if ws == [] {
      ArgsEnd(s, i, argv, ws);
    } else {
      var w := ws[0];
      var k := NextWord(s, i, w, ws);
      NoRedirs(s, k);
      WordToken(s, i, w);
      WordStart(s, i, w);
      ArgsWord(s, i, argv, i + |w|, k);
      TextsMore(s, argv, Span(i, i + |w|));
      assert Texts(s, argv) + [w] + ws[1..] == Texts(s, argv) + ws;
      ArgsShow(s, k, argv + [Span(i, i + |w|)], ws[1..]);
    }
  }

  lemma WordStart(s: string, i: int, w: string)
    requires At(s, i, w) && Legal(w)
    ensures i < |s| && !IsBreak(s[i])
  {
    AtChar(s, i, w, 0);
  }

  lemma ArgsEnd(s: string, i: int, argv: seq<Span>, ws: seq<string>)
    requires SpansOk(s, Exec(argv)) && Stops(s, i + |ShowWords(ws)|) && ws == [] && 0 <= i
    ensures Parsed(s, Args(s, i, argv, []), Words(Texts(s, argv) + ws), i + |ShowWords(ws)|)
  {
    assert Skip(s, i) == i;
    assert Texts(s, argv) + ws == Texts(s, argv);
  }

  /** Where the cursor stands behind the first word. */
  lemma NextWord(s: string, i: int, w: string, ws: seq<string>) returns (k: int)
    requires ws != [] && w == ws[0] && (forall j :: 0 <= j < |ws| ==> Legal(ws[j])) && At(s, i, ShowWords(ws))
    requires Stops(s, i + |ShowWords(ws)|)
    ensures i <= i + |w| <= |s| && k == Skip(s, i + |w|) && At(s, k, ShowWords(ws[1..]))
    ensures k + |ShowWords(ws[1..])| == i + |ShowWords(ws)|
    ensures 0 <= k <= |s| && (k < |s| ==> !IsSpace(s[k]) && s[k] != '<' && s[k] != '>')
    ensures At(s, i, w) && (i + |w| < |s| ==> IsBreak(s[i + |w|]))
  {
    hide ShowWords; hide At;
    FirstWord(ws);
    var more := ShowWords(ws[1..]);
    if |ws| == 1 {
      AtBounds(s, i, w);
      AtEmpty(s, i + |w|);
      k := i + |w|;
    } else {
      AtCat(s, i, w, " " + more);
      AtCat(s, i + |w|, " ", more);
      AtBounds(s, i, w);
      AtBounds(s, i + |w|, " ");
      AtChar(s, i + |w|, " ", 0);
      k := i + |w| + 1;
      AtBounds(s, k, more);
      AtChar(s, k, more, 0);
    }
  }

  lemma AtBounds(s: string, i: int, w: string)
    requires At(s, i, w)
    ensures 0 <= i && i + |w| <= |s|
  {
  }

  lemma AtEmpty(s: string, i: int)
    requires 0 <= i <= |s|
    ensures At(s, i, "")
  {
  }

  lemma FirstWord(ws: seq<string>)
    requires ws != [] && forall j :: 0 <= j < |ws| ==> Legal(ws[j])
    ensures var more := ShowWords(ws[1..]);
      if |ws| == 1 then ShowWords(ws) == ws[0] && more == ""
      else ShowWords(ws) == ws[0] + (" " + more) && more != "" && !IsBreak(more[0])
  {
    if |ws| > 1 {
      assert ws[0] + (" " + ShowWords(ws[1..])) == ws[0] + " " + ShowWords(ws[1..]);
      FirstChar(ws[1..]);
    } else {
      assert ws[1..] == [];
    }
  }

  lemma FirstChar(ws: seq<string>)
    requires ws != [] && Legal(ws[0])
    ensures ShowWords(ws) != "" && !IsBreak(ShowWords(ws)[0])
  {
    var w := ws[0];
    assert ShowWords(ws)[0] == w[0];
  }

  /** The symbol at the cursor, with nothing blank behind it. */
  lemma SymbolToken(s: string, j: int)
    requires 0 <= j < |s| && IsSymbol(s[j]) && s[j] != '>' && (j + 1 < |s| ==> !IsSpace(s[j + 1]))
    ensures Skip(s, j) == j && Token(s, j) == Tok(s[j], j, j + 1, j + 1)
  {
  }

  /** What may begin a printed command, or follow it. */
  predicate Starts(s: string, i: int) { 0 <= i <= |s| && (i < |s| ==> !IsSpace(s[i]) && s[i] != '<' && s[i] != '>') }

  lemma ShowStarts(s: string, i: int, t: Tree)
    requires LegalTree(t) && At(s, i, Show(t)) && Stops(s, i + |Show(t)|)
    ensures Starts(s, i) && (Show(t) != "" ==> s[i] == Show(t)[0])
  {
    if Show(t) != "" {
      AtChar(s, i, Show(t), 0);
      match t
      case Words(argv) => assert Legal(argv[0]) && Show(t)[0] == argv[0][0];
      case To(c, f, m) => assert Show(t)[0] == Parens(c)[0];
      case Piped(l, r) => assert Show(t)[0] == Parens(l)[0];
      case Both(l, r) => assert Show(t)[0] == Parens(l)[0];
      case Behind(c) => assert Show(t)[0] == Parens(c)[0];
    }
  }

  /** A command in parentheses is read as a block, up to the closing one. */
  lemma BlockShow(s: string, i: int, t: Tree, e: int)
    requires LegalTree(t) && At(s, i, Parens(t)) && e == i + |Parens(t)| && (e < |s| ==> !IsSpace(s[e]))
    requires At(s, i + 1, Show(t)) && Stops(s, e - 1) && Parsed(s, ParseLine(s, i + 1), t, e - 1)
    requires Redirs(s, e).Some?
    ensures Skip(s, i) == i && Sees(s, i, {'('}) && ParseExec(s, i) == ParseBlock(s, i)
    ensures RedirsOk(s, Redirs(s, e).rs) && ParseLine(s, i + 1).Ok?
    ensures ParseBlock(s, i) == Ok(Wrap(ParseLine(s, i + 1).cmd, Redirs(s, e).rs), Redirs(s, e).pos)
  {
    hide Parsed; hide Redirs; hide ParseLine; hide Wrap; hide SpansOk; hide Show; hide LegalTree;
    AtChar(s, i, Parens(t), 0);
    AtChar(s, i, Parens(t), |Parens(t)| - 1);
    ShowStarts(s, i + 1, t);
    SymbolToken(s, i);
    SymbolToken(s, e - 1);
    Landed(s, ParseLine(s, i + 1), t, e - 1);
  }

  lemma Landed(s: string, r: Result, t: Tree, j: int)
    requires Parsed(s, r, t, j)
    ensures r.Ok? && r.pos == j && SpansOk(s, r.cmd) && Meaning(s, r.cmd) == t
  {
  }

  /** Around parentheses: the pieces of a printed command. */
  lemma AtParens(s: string, i: int, t: Tree)
    requires At(s, i, Parens(t))
    ensures At(s, i + 1, Show(t)) && s[i] == '(' && s[i + |Parens(t)| - 1] == ')' && Stops(s, i + |Parens(t)| - 1)
  {
    AtCat(s, i, "(", Show(t) + ")");
    assert "(" + (Show(t) + ")") == Parens(t);
    AtCat(s, i + 1, Show(t), ")");
    AtChar(s, i, Parens(t), 0);
    AtChar(s, i, Parens(t), |Parens(t)| - 1);
  }

  /** Reading back what was printed gives the same command. */
  lemma {:induction false} ParseShow(s: string, i: int, t: Tree)
    requires LegalTree(t) && At(s, i, Show(t)) && Stops(s, i + |Show(t)|)
    ensures Parsed(s, ParseLine(s, i), t, i + |Show(t)|)
    decreases t
  {
    hide Parsed; hide ParseLine; hide Inside; hide Legal; hide At; hide Stops; hide Parens;
    match t
    case Words(argv) => LineWords(s, i, argv);
    case To(c, f, m) =>
      ToParts(s, i, c, f, m);
      ParseShow(s, i + 1, c);
      Enclosed(s, i, c);
      LineTo(s, i, c, f, m);
    case Piped(l, r) =>
      TwoParts(s, i, l, "|", r);
      ParseShow(s, i + 1, l);
      ParseShow(s, i + |Parens(l)| + 1 + 1, r);
      Enclosed(s, i, l);
      Enclosed(s, i + |Parens(l)| + 1, r);
      LinePiped(s, i, l, r);
    case Both(l, r) =>
      TwoParts(s, i, l, ";", r);
      ParseShow(s, i + 1, l);
      ParseShow(s, i + |Parens(l)| + 1 + 1, r);
      Enclosed(s, i, l);
      Enclosed(s, i + |Parens(l)| + 1, r);
      LineBoth(s, i, l, r);
    case Behind(c) =>
      BehindParts(s, i, c);
      ParseShow(s, i + 1, c);
      Enclosed(s, i, c);
      LineBehind(s, i, c);
  }

  lemma Enclosed(s: string, i: int, t: Tree)
    requires LegalTree(t) && At(s, i, Parens(t)) && Parsed(s, ParseLine(s, i + 1), t, i + 1 + |Show(t)|)
    ensures Inside(s, i, t, i + |Parens(t)|)
  {
    hide ParseLine; hide LegalTree; hide Show; hide Parsed;
    AtParens(s, i, t);
  }

  lemma ToParts(s: string, i: int, c: Tree, f: string, m: Mode)
    requires At(s, i, Parens(c) + Arrow(m) + f)
    ensures At(s, i, Parens(c)) && At(s, i + |Parens(c)|, Arrow(m) + f) && At(s, i + 1, Show(c))
    ensures Stops(s, i + 1 + |Show(c)|)
    ensures i + |Parens(c) + Arrow(m) + f| == i + |Parens(c)| + |Arrow(m) + f|
  {
    hide Show;
    assert Parens(c) + (Arrow(m) + f) == Parens(c) + Arrow(m) + f;
    AtCat(s, i, Parens(c), Arrow(m) + f);
    AtParens(s, i, c);
  }

  lemma TwoParts(s: string, i: int, l: Tree, op: string, r: Tree)
    requires At(s, i, Parens(l) + op + Parens(r)) && |op| == 1
    ensures At(s, i, Parens(l)) && At(s, i + |Parens(l)|, op) && At(s, i + |Parens(l)| + 1, Parens(r))
    ensures At(s, i + 1, Show(l)) && Stops(s, i + 1 + |Show(l)|)
    ensures At(s, i + |Parens(l)| + 1 + 1, Show(r)) && Stops(s, i + |Parens(l)| + 1 + 1 + |Show(r)|)
    ensures i + |Parens(l) + op + Parens(r)| == i + |Parens(l)| + 1 + |Parens(r)|
  {
    hide Show; hide At; hide Parens; hide Stops;
    ParensSize(l);
    ParensSize(r);
    assert Parens(l) + (op + Parens(r)) == Parens(l) + op + Parens(r);
    AtCat(s, i, Parens(l), op + Parens(r));
    AtCat(s, i + |Parens(l)|, op, Parens(r));
    AtParens(s, i, l);
    AtParens(s, i + |Parens(l)| + 1, r);
  }

  lemma ParensSize(t: Tree)
    ensures |Parens(t)| == |Show(t)| + 2
  {
    hide Show;
  }

  lemma BehindParts(s: string, i: int, c: Tree)
    requires At(s, i, Parens(c) + "&")
    ensures At(s, i, Parens(c)) && At(s, i + |Parens(c)|, "&") && At(s, i + 1, Show(c)) && Stops(s, i + 1 + |Show(c)|)
    ensures i + |Parens(c) + "&"| == i + |Parens(c)| + 1
  {
    hide Show;
    AtCat(s, i, Parens(c), "&");
    AtParens(s, i, c);
  }

  lemma LineWords(s: string, i: int, argv: seq<string>)
    requires LegalTree(Words(argv)) && At(s, i, ShowWords(argv)) && Stops(s, i + |ShowWords(argv)|)
    ensures Parsed(s, ParseLine(s, i), Words(argv), i + |ShowWords(argv)|)
  {
    hide Args; hide Redirs; hide Texts; hide Meaning;
    var j := i + |ShowWords(argv)|;
    ShowStarts(s, i, Words(argv));
    WordsStart(s, i, argv);
    NoRedirs(s, i);
    ArgsShow(s, i, [], argv);
    NoTexts(s, argv);
    assert ParseExec(s, i) == Args(s, i, [], []);
    PipeStops(s, i, ParseExec(s, i), j);
    LineStops(s, i, ParsePipe(s, i), j);
  }

  lemma NoTexts(s: string, argv: seq<string>)
    ensures Texts(s, []) + argv == argv
  {
  }

  lemma WordsStart(s: string, i: int, argv: seq<string>)
    requires LegalTree(Words(argv)) && At(s, i, ShowWords(argv)) && Stops(s, i + |ShowWords(argv)|)
    ensures i < |s| ==> s[i] != '('
  {
    if argv != [] {
      AtChar(s, i, ShowWords(argv), 0);
      assert Legal(argv[0]) && ShowWords(argv)[0] == argv[0][0];
    }
  }

  /** Nothing follows: pipe gives what exec gave. */
  lemma PipeStops(s: string, i: int, r: Result, j: int)
    requires 0 <= i <= |s| && r == ParseExec(s, i) && r.Ok? && r.pos == j && j <= |s|
    requires j < |s| ==> s[j] != '|' && !IsSpace(s[j])
    ensures ParsePipe(s, i) == r
  {
    hide ParseExec;
    assert Skip(s, j) == j;
  }

  lemma PipeGoes(s: string, i: int, e: int, r: Result)
    requires 0 <= i <= |s| && ParseExec(s, i).Ok? && ParseExec(s, i).pos == e && e < |s| && s[e] == '|'
    requires e + 1 < |s| ==> !IsSpace(s[e + 1])
    requires r == ParsePipe(s, e + 1) && r.Ok?
    ensures ParsePipe(s, i) == Ok(Pipe(ParseExec(s, i).cmd, r.cmd), r.pos)
  {
    hide ParseExec;
    SymbolToken(s, e);
  }

  /** So does line. */
  lemma LineStops(s: string, i: int, r: Result, j: int)
    requires 0 <= i <= |s| && r == ParsePipe(s, i) && r.Ok? && r.pos == j && Stops(s, j)
    ensures ParseLine(s, i) == r
  {
    hide ParsePipe;
    assert Skip(s, j) == j;
  }

  lemma LineGoes(s: string, i: int, e: int, r: Result)
    requires 0 <= i <= |s| && ParsePipe(s, i).Ok? && ParsePipe(s, i).pos == e && e < |s| && s[e] == ';'
    requires e + 1 < |s| ==> !IsSpace(s[e + 1])
    requires r == ParseLine(s, e + 1) && r.Ok?
    ensures ParseLine(s, i) == Ok(List(ParsePipe(s, i).cmd, r.cmd), r.pos)
  {
    hide ParsePipe;
    SymbolToken(s, e);
    assert Backs(s, e, ParsePipe(s, i).cmd) == Ok(ParsePipe(s, i).cmd, e);
  }

  lemma LineBacks(s: string, i: int, e: int)
    requires 0 <= i <= |s| && ParsePipe(s, i).Ok? && ParsePipe(s, i).pos == e && e < |s| && s[e] == '&'
    requires Stops(s, e + 1)
    ensures ParseLine(s, i) == Ok(Back(ParsePipe(s, i).cmd), e + 1)
  {
    hide ParsePipe;
    SymbolToken(s, e);
    var c := ParsePipe(s, i).cmd;
    assert Skip(s, e + 1) == e + 1;
    assert Backs(s, e + 1, Back(c)) == Ok(Back(c), e + 1);
    assert Backs(s, e, c) == Ok(Back(c), e + 1);
  }

  /** A command in parentheses, read back. */
  ghost predicate Inside(s: string, i: int, t: Tree, e: int) {
    && LegalTree(t) && At(s, i, Parens(t)) && e == i + |Parens(t)|
    && At(s, i + 1, Show(t)) && Stops(s, e - 1) && Parsed(s, ParseLine(s, i + 1), t, e - 1)
  }

  lemma InsideStart(s: string, i: int, t: Tree, e: int)
    requires Inside(s, i, t, e)
    ensures 0 <= i < e <= |s| && s[i] == '('
  {
    hide LegalTree; hide Show; hide ParseLine; hide Parsed;
    AtChar(s, i, Parens(t), 0);
  }

  /** A block that no redirection follows. */
  lemma ExecBlock(s: string, i: int, t: Tree, e: int)
    requires Inside(s, i, t, e) && Starts(s, e)
    ensures Parsed(s, ParseExec(s, i), t, e)
  {
    hide ParseLine; hide ParseExec; hide ParseBlock; hide Redirs; hide LegalTree; hide Show;
    NoRedirs(s, e);
    BlockShow(s, i, t, e);
    assert Wrap(ParseLine(s, i + 1).cmd, []) == ParseLine(s, i + 1).cmd;
  }

  /** The arrow of a redirection, with a word behind it. */
  lemma ArrowToken(s: string, e: int, m: Mode)
    requires At(s, e, Arrow(m)) && var q := e + |Arrow(m)|; q < |s| && !IsBreak(s[q])
    ensures Skip(s, e) == e && Token(s, e).pos == e + |Arrow(m)| && ModeOf(Token(s, e).kind) == m
    ensures Sees(s, e, {'<', '>'})
  {
    AtChar(s, e, Arrow(m), 0);
    if m == Append { AtChar(s, e, Arrow(m), 1); }
  }

  /** A redirection of one word. */
  lemma OneRedir(s: string, e: int, f: string, m: Mode)
    requires At(s, e, Arrow(m) + f) && Legal(f) && Stops(s, e + |Arrow(m) + f|)
    ensures var q, j := e + |Arrow(m)|, e + |Arrow(m) + f|;
      && WordAt(s, Span(q, j)) && Text(s, Span(q, j)) == f && (e < |s| ==> !IsSpace(s[e]))
      && Redirs(s, e) == Some([Redirection(Span(q, j), m)], j)
  {
    hide At; hide Arrow; hide Token; hide Legal; hide Text; hide WordAt;
    var q, j := e + |Arrow(m)|, e + |Arrow(m) + f|;
    AtCat(s, e, Arrow(m), f);
    WordToken(s, q, f);
    WordStart(s, q, f);
    ArrowToken(s, e, m);
    NoRedirs(s, j);
  }

  lemma LineTo(s: string, i: int, c: Tree, f: string, m: Mode)
    requires Inside(s, i, c, i + |Parens(c)|) && Legal(f) && At(s, i + |Parens(c)|, Arrow(m) + f)
    requires Stops(s, i + |Parens(c)| + |Arrow(m) + f|)
    ensures Parsed(s, ParseLine(s, i), To(c, f, m), i + |Parens(c)| + |Arrow(m) + f|)
  {
    hide ParseLine; hide ParseExec; hide ParseBlock; hide ParsePipe; hide Redirs; hide LegalTree; hide Show; hide Legal;
    var e, j := i + |Parens(c)|, i + |Parens(c)| + |Arrow(m) + f|;
    OneRedir(s, e, f, m);
    BlockShow(s, i, c, e);
    var d, rs := ParseLine(s, i + 1).cmd, Redirs(s, e).rs;
    assert rs[..|rs| - 1] == [];
    assert Wrap(d, rs) == Redir(d, rs[0].file, m);
    PipeStops(s, i, ParseExec(s, i), j);
    LineStops(s, i, ParsePipe(s, i), j);
  }

  lemma LinePiped(s: string, i: int, l: Tree, r: Tree)
    requires var e := i + |Parens(l)|;
      Inside(s, i, l, e) && At(s, e, "|") && Inside(s, e + 1, r, e + 1 + |Parens(r)|) && Stops(s, e + 1 + |Parens(r)|)
    ensures Parsed(s, ParseLine(s, i), Piped(l, r), i + |Parens(l)| + 1 + |Parens(r)|)
  {
    hide ParseLine; hide ParsePipe; hide ParseExec; hide ParseBlock; hide Inside; hide Parens;
    var e := i + |Parens(l)|;
    var j := e + 1 + |Parens(r)|;
    InsideStart(s, i, l, e);
    AtChar(s, e, "|", 0);
    InsideStart(s, e + 1, r, j);
    ExecBlock(s, i, l, e);
    ExecBlock(s, e + 1, r, j);
    PipeStops(s, e + 1, ParseExec(s, e + 1), j);
    PipeGoes(s, i, e, ParsePipe(s, e + 1));
    LineStops(s, i, ParsePipe(s, i), j);
  }

  lemma LineBoth(s: string, i: int, l: Tree, r: Tree)
    requires var e := i + |Parens(l)|;
      Inside(s, i, l, e) && At(s, e, ";") && Inside(s, e + 1, r, e + 1 + |Parens(r)|) && Stops(s, e + 1 + |Parens(r)|)
    ensures Parsed(s, ParseLine(s, i), Both(l, r), i + |Parens(l)| + 1 + |Parens(r)|)
  {
    hide ParseLine; hide ParsePipe; hide ParseExec; hide ParseBlock; hide Inside; hide Parens;
    var e := i + |Parens(l)|;
    var j := e + 1 + |Parens(r)|;
    InsideStart(s, i, l, e);
    AtChar(s, e, ";", 0);
    InsideStart(s, e + 1, r, j);
    ExecBlock(s, i, l, e);
    PipeStops(s, i, ParseExec(s, i), e);
    ExecBlock(s, e + 1, r, j);
    PipeStops(s, e + 1, ParseExec(s, e + 1), j);
    LineStops(s, e + 1, ParsePipe(s, e + 1), j);
    LineGoes(s, i, e, ParseLine(s, e + 1));
  }

  lemma LineBehind(s: string, i: int, c: Tree)
    requires Inside(s, i, c, i + |Parens(c)|) && At(s, i + |Parens(c)|, "&") && Stops(s, i + |Parens(c)| + 1)
    ensures Parsed(s, ParseLine(s, i), Behind(c), i + |Parens(c)| + 1)
  {
    hide ParseLine; hide ParsePipe; hide ParseExec; hide ParseBlock; hide Inside; hide Parens;
    var e := i + |Parens(c)|;
    InsideStart(s, i, c, e);
    AtChar(s, e, "&", 0);
    ExecBlock(s, i, c, e);
    PipeStops(s, i, ParseExec(s, i), e);
    LineBacks(s, i, e);
  }

  /** parsecmd of the printing of a command is the command. */
  lemma RoundTrip(t: Tree)
    requires LegalTree(t)
    ensures Parsed(Show(t), ParseCmd(Show(t)), t, |Show(t)|)
  {
    hide ParseLine; hide LegalTree; hide Show;
    var s := Show(t);
    assert s[0..|s|] == s;
    ParseShow(s, 0, t);
  }

  // ---------------------------------------------------------------- nulterminate

  /** The words of a command, and where nulterminate puts its zeros. */
  function Spans(c: Cmd): (r: set<Span>)
  {
    match c
    case Exec(argv) => set k | k in argv
    case Redir(d, f, _) => Spans(d) + {f}
    case Pipe(l, r) => Spans(l) + Spans(r)
    case List(l, r) => Spans(l) + Spans(r)
    case Back(d) => Spans(d)
  }

  function Ends(c: Cmd): (r: set<int>) { set w | w in Spans(c) :: w.eq }

  lemma {:induction false} SpansAreWords(s: string, c: Cmd, w: Span)
    requires SpansOk(s, c) && w in Spans(c)
    ensures WordAt(s, w)
  {
    match c
    case Exec(argv) =>
    case Redir(d, f, m) => if w != f { SpansAreWords(s, d, w); }
    case Pipe(l, r) => if w in Spans(l) { SpansAreWords(s, l, w); } else { SpansAreWords(s, r, w); }
    case List(l, r) => if w in Spans(l) { SpansAreWords(s, l, w); } else { SpansAreWords(s, r, w); }
    case Back(d) => SpansAreWords(s, d, w);
  }

  /** A zero never falls inside a word: ends are breaks or the end of the input. */
  lemma EndsSpareWords(s: string, c: Cmd, w: Span, k: int)
    requires SpansOk(s, c) && w in Spans(c) && w.q <= k < w.eq
    ensures k !in Ends(c) && w.eq in Ends(c)
  {
    SpansAreWords(s, c, w);
    if k in Ends(c) {
      var v :| v in Spans(c) && v.eq == k;
      SpansAreWords(s, c, v);
    }
  }

  /** buf is old with zeros at the given places. */
  ghost predicate Zeroed(old0: seq<char>, ends: set<int>, buf: seq<char>) {
    |buf| == |old0| && forall k :: 0 <= k < |buf| ==> buf[k] == if k in ends then END else old0[k]
  }

  lemma ZeroedTwice(b0: seq<char>, e1: set<int>, b1: seq<char>, e2: set<int>, b2: seq<char>)
    requires Zeroed(b0, e1, b1) && Zeroed(b1, e2, b2)
    ensures Zeroed(b0, e1 + e2, b2)
  {
  }

  predicate InRange(c: Cmd, n: int) { forall w :: w in Spans(c) ==> 0 <= w.q < w.eq < n }

  method {:induction false} Nulterminate(buf: array<char>, c: Cmd)
    requires InRange(c, buf.Length)
    modifies buf
    ensures Zeroed(old(buf[..]), Ends(c), buf[..])
    decreases c
  {
    match c
    case Exec(argv) =>
      var i := 0;
      while i < |argv|
        invariant 0 <= i <= |argv|
        invariant Zeroed(old(buf[..]), (set w | w in argv[..i] :: w.eq), buf[..])
      {
        assert argv[i] in Spans(c);
        assert (set w | w in argv[..i + 1] :: w.eq) == (set w | w in argv[..i] :: w.eq) + {argv[i].eq};
        buf[argv[i].eq] := END;
        i := i + 1;
      }
      assert argv[..i] == argv;
    case Redir(d, f, m) =>
      SubRange(c, d, buf.Length);
      Nulterminate(buf, d);
      ghost var b1 := buf[..];
      assert f in Spans(c);
      assert Ends(c) == Ends(d) + {f.eq};
      buf[f.eq] := END;
    case Pipe(l, r) =>
      SubRange(c, l, buf.Length);
      SubRange(c, r, buf.Length);
      Nulterminate(buf, l);
      ghost var b1 := buf[..];
      Nulterminate(buf, r);
      ZeroedTwice(old(buf[..]), Ends(l), b1, Ends(r), buf[..]);
      assert Ends(c) == Ends(l) + Ends(r);
    case List(l, r) =>
      SubRange(c, l, buf.Length);
      SubRange(c, r, buf.Length);
      Nulterminate(buf, l);
      ghost var b1 := buf[..];
      Nulterminate(buf, r);
      ZeroedTwice(old(buf[..]), Ends(l), b1, Ends(r), buf[..]);
      assert Ends(c) == Ends(l) + Ends(r);
    case Back(d) =>
      SubRange(c, d, buf.Length);
      Nulterminate(buf, d);
  }

  lemma SubRange(c: Cmd, d: Cmd, n: int)
    requires InRange(c, n) && Spans(d) <= Spans(c)
    ensures InRange(d, n)
  {
  }

  // ---------------------------------------------------------------- the parser

  class Parser {
    const s: string
    var pos: int

    ghost predicate Valid()
      reads this
    {
      0 <= pos <= |s|
    }

    constructor (text: string)
      ensures Valid() && s == text && pos == 0
    {
      s, pos := text, 0;
    }

    method SkipSpaces()
      requires Valid()
      modifies this
      ensures Valid() && pos == Skip(s, old(pos))
    {
      while pos < |s| && IsSpace(s[pos])
        invariant Valid() && Skip(s, pos) == Skip(s, old(pos))
        decreases |s| - pos
      {
        pos := pos + 1;
      }
    }

    method Gettoken() returns (ret: char, q: int, eq: int)
      requires Valid()
      modifies this
      ensures Valid() && Token(s, old(pos)) == Tok(ret, q, eq, pos)
    {
      SkipSpaces();
      q := pos;
      ret := if pos < |s| then s[pos] else END;
      if ret == END {
      } else if ret == '|' || ret == '(' || ret == ')' || ret == ';' || ret == '&' || ret == '<' {
        pos := pos + 1;
      } else if ret == '>' {
        pos := pos + 1;
        if pos < |s| && s[pos] == '>' {
          ret := '+';
          pos := pos + 1;
        }
      } else {
        ret := 'a';
        while pos < |s| && !IsSpace(s[pos]) && !IsSymbol(s[pos])
          invariant q <= pos <= |s| && WordEnd(s, pos) == WordEnd(s, q)
          decreases |s| - pos
        {
          pos := pos + 1;
        }
      }
      eq := pos;
      if ret != END { SkipSpaces(); }
    }

    method Peek(toks: set<char>) returns (b: bool)
      requires Valid()
      modifies this
      ensures Valid() && pos == Skip(s, old(pos)) && b == Sees(s, pos, toks)
    {
      SkipSpaces();
      b := pos < |s| && s[pos] in toks;
    }

    method Parseredirs() returns (ok: bool, rs: seq<Redirection>)
      requires Valid()
      modifies this
      ensures Valid() && pos >= old(pos)
      ensures ok == Redirs(s, old(pos)).Some? && (ok ==> Redirs(s, old(pos)) == Some(rs, pos))
    {
      hide Redirs; hide Token; hide Sofar;
      rs := [];
      ghost var i0 := pos;
      SofarStart(s, pos);
      var more := Peek({'<', '>'});
      SofarSkip(s, i0, rs, i0);
      while more
        invariant Valid() && i0 <= pos && more == Sees(s, pos, {'<', '>'}) && Skip(s, pos) == pos
        invariant Sofar(s, i0, rs, pos)
        decreases |s| - pos
      {
        ghost var i := pos;
        var tok, _, _ := Gettoken();
        var f, q, eq := Gettoken();
        SofarStep(s, i0, rs, i);
        if f != 'a' { return false, rs; }
        rs := rs + [Redirection(Span(q, eq), ModeOf(tok))];
        ghost var j := pos;
        more := Peek({'<', '>'});
        SofarSkip(s, i0, rs, j);
      }
      SofarEnd(s, i0, rs, pos);
      return true, rs;
    }

    method Parseexec() returns (r: Result)
      requires Valid()
      modifies this
      ensures Valid() && r == ParseExec(s, old(pos)) && (r.Ok? ==> pos == r.pos)
      decreases |s| - pos, 1
    {
      hide ParseBlock; hide Redirs; hide Args; hide Token;
      var block := Peek({'('});
      if block {
        r := Parseblock();
        return;
      }
      var argv: seq<Span>, ok, rs := [], false, [];
      ok, rs := Parseredirs();
      if !ok { return Err; }
      ghost var i, r0 := pos, rs;
      var stop := Peek({'|', ')', '&', ';'});
      ArgsSkip(s, i, argv, rs);
      while !stop
        invariant Valid() && stop == Sees(s, pos, {'|', ')', '&', ';'}) && Skip(s, pos) == pos && pos >= old(pos)
        invariant SpansOk(s, Exec(argv)) && RedirsOk(s, rs) && Args(s, pos, argv, rs) == ParseExec(s, old(pos))
        decreases |s| - pos
      {
        ghost var at := pos;
        var tok, q, eq := Gettoken();
        ArgsStep(s, at, argv, rs);
        if tok == END { break; }
        if tok != 'a' { return Err; }
        argv := argv + [Span(q, eq)];
        if |argv| >= MAXARGS { return Err; }
        var more;
        ok, more := Parseredirs();
        if !ok { return Err; }
        rs := rs + more;
        ghost var j := pos;
        stop := Peek({'|', ')', '&', ';'});
        ArgsSkip(s, j, argv, rs);
      }
      ArgsDone(s, pos, argv, rs);
      return Ok(Wrap(Exec(argv), rs), pos);
    }

    method Parseblock() returns (r: Result)
      requires Valid()
      modifies this
      ensures Valid() && r == ParseBlock(s, old(pos)) && (r.Ok? ==> pos == r.pos)
      decreases |s| - pos, 0
    {
      hide ParseLine; hide Redirs; hide Token;
      var open := Peek({'('});
      if !open { return Err; }
      TokenMoves(s, pos);
      var _, _, _ := Gettoken();
      r := Parseline();
      if r.Err? { return; }
      var close := Peek({')'});
      if !close { return Err; }
      var _, _, _ := Gettoken();
      var ok, rs := Parseredirs();
      if !ok { return Err; }
      WrapOk(s, r.cmd, rs);
      return Ok(Wrap(r.cmd, rs), pos);
    }

    method Parsepipe() returns (r: Result)
      requires Valid()
      modifies this
      ensures Valid() && r == ParsePipe(s, old(pos)) && (r.Ok? ==> pos == r.pos)
      decreases |s| - pos, 2
    {
      hide ParseExec; hide Token;
      r := Parseexec();
      if r.Err? { return; }
      var bar := Peek({'|'});
      if bar {
        TokenMoves(s, pos);
        var _, _, _ := Gettoken();
        var d := Parsepipe();
        if d.Err? { return d; }
        return Ok(Pipe(r.cmd, d.cmd), pos);
      }
      return Ok(r.cmd, pos);
    }

    method Parseline() returns (r: Result)
      requires Valid()
      modifies this
      ensures Valid() && r == ParseLine(s, old(pos)) && (r.Ok? ==> pos == r.pos)
      decreases |s| - pos, 3
    {
      hide ParsePipe; hide Token; hide Backs;
      r := Parsepipe();
      if r.Err? { return; }
      var cmd := r.cmd;
      ghost var k := pos;
      var amp := Peek({'&'});
      BacksSkip(s, k, cmd);
      while amp
        invariant Valid() && amp == Sees(s, pos, {'&'}) && Skip(s, pos) == pos && pos >= k
        invariant SpansOk(s, cmd) && Backs(s, pos, cmd) == Backs(s, k, r.cmd)
        decreases |s| - pos
      {
        ghost var at := pos;
        var _, _, _ := Gettoken();
        BacksStep(s, at, cmd);
        cmd := Back(cmd);
        ghost var j := pos;
        amp := Peek({'&'});
        BacksSkip(s, j, cmd);
      }
      BacksEnd(s, pos, cmd);
      var semi := Peek({';'});
      if semi {
        TokenMoves(s, pos);
        var _, _, _ := Gettoken();
        var d := Parseline();
        if d.Err? { return d; }
        return Ok(List(cmd, d.cmd), pos);
      }
      return Ok(cmd, pos);
    }
  }

  /** parsecmd on a C string: the command, and each of its words ended in place by a zero, no
      byte of any of them changed. */
  method Parsecmd(s: string, buf: array<char>) returns (r: Result)
    requires buf.Length == |s| + 1 && buf[..] == s + [END]
    modifies buf
    ensures r == ParseCmd(s)
    ensures r.Ok? ==> forall w :: w in Spans(r.cmd) ==> Ended(s, buf[..], w)
    ensures r.Err? ==> buf[..] == old(buf[..])
  {
    var p := new Parser(s);
    r := p.Parseline();
    if r.Err? { return; }
    var b := p.Peek({});
    if p.pos != |s| { return Err; }
    r := Ok(r.cmd, |s|);
    forall w | w in Spans(r.cmd) ensures 0 <= w.q < w.eq < buf.Length { SpansAreWords(s, r.cmd, w); }
    Nulterminate(buf, r.cmd);
    forall w | w in Spans(r.cmd) ensures Ended(s, buf[..], w) { ZeroedEnds(s, r.cmd, w, buf[..]); }
  }

  /** Word w stands in buf as in s and is ended by a zero. */
  ghost predicate Ended(s: string, buf: seq<char>, w: Span) {
    0 <= w.q < w.eq < |buf| && w.eq <= |s| && buf[w.q..w.eq] == s[w.q..w.eq] && buf[w.eq] == END
  }

  lemma ZeroedEnds(s: string, c: Cmd, w: Span, buf: seq<char>)
    requires SpansOk(s, c) && w in Spans(c) && Zeroed(s + [END], Ends(c), buf)
    ensures Ended(s, buf, w)
  {
    SpansAreWords(s, c, w);
    forall k | w.q <= k < w.eq ensures buf[k] == s[k] { EndsSpareWords(s, c, w, k); }
    EndsSpareWords(s, c, w, w.q);
  }

  // ---------------------------------------------------------------- loops and their functions

  /** Having read rs from i0 up to i, parseredirs ends as from i. */
  ghost predicate Sofar(s: string, i0: int, rs: seq<Redirection>, i: int) {
    && 0 <= i0 <= |s| && 0 <= i <= |s|
    && Redirs(s, i0) == if Redirs(s, i).Missing? then Missing else Some(rs + Redirs(s, i).rs, Redirs(s, i).pos)
  }

  lemma SofarStart(s: string, i: int)
    requires 0 <= i <= |s|
    ensures Sofar(s, i, [], i)
  {
    hide Redirs;
    var r := Redirs(s, i);
    if r.Some? { assert [] + r.rs == r.rs; }
  }

  lemma SofarSkip(s: string, i0: int, rs: seq<Redirection>, i: int)
    requires Sofar(s, i0, rs, i)
    ensures Sofar(s, i0, rs, Skip(s, i)) && Skip(s, Skip(s, i)) == Skip(s, i)
  {
  }

  lemma SofarStep(s: string, i0: int, rs: seq<Redirection>, i: int)
    requires Sofar(s, i0, rs, i) && Skip(s, i) == i && Sees(s, i, {'<', '>'})
    ensures var t := Token(s, i);
      var f := Token(s, t.pos);
      && i < t.pos && (f.kind != 'a' ==> Redirs(s, i0) == Missing)
      && (f.kind == 'a' ==> i < f.pos && Sofar(s, i0, rs + [Redirection(Span(f.q, f.eq), ModeOf(t.kind))], f.pos))
  {
    hide Token;
    TokenMoves(s, i);
    var t := Token(s, i);
    var f := Token(s, t.pos);
    if f.kind == 'a' {
      var r := Redirs(s, f.pos);
      if r.Some? {
        var x := [Redirection(Span(f.q, f.eq), ModeOf(t.kind))];
        assert rs + (x + r.rs) == rs + x + r.rs;
      }
    }
  }

  lemma TokenMoves(s: string, i: int)
    requires 0 <= i < |s| && IsSymbol(s[i])
    ensures Token(s, i).pos > i && Token(s, i).kind != END
  {
  }

  lemma SofarEnd(s: string, i0: int, rs: seq<Redirection>, i: int)
    requires Sofar(s, i0, rs, i) && Skip(s, i) == i && !Sees(s, i, {'<', '>'})
    ensures Redirs(s, i0) == Some(rs, i)
  {
    assert rs + [] == rs;
  }

  lemma ArgsSkip(s: string, i: int, argv: seq<Span>, rs: seq<Redirection>)
    requires 0 <= i <= |s| && SpansOk(s, Exec(argv)) && RedirsOk(s, rs)
    ensures Args(s, Skip(s, i), argv, rs) == Args(s, i, argv, rs) && Skip(s, Skip(s, i)) == Skip(s, i)
  {
  }

  lemma ArgsStep(s: string, i: int, argv: seq<Span>, rs: seq<Redirection>)
    requires 0 <= i <= |s| && SpansOk(s, Exec(argv)) && RedirsOk(s, rs) && Skip(s, i) == i
    requires !Sees(s, i, {'|', ')', '&', ';'})
    ensures var t := Token(s, i);
      && (t.kind != END && t.kind != 'a' ==> Args(s, i, argv, rs) == Err)
      && (t.kind == END ==> t.pos == i)
      && (t.kind == 'a' ==>
            && i < t.pos && (|argv| + 1 >= MAXARGS ==> Args(s, i, argv, rs) == Err)
            && (|argv| + 1 < MAXARGS ==>
                  && SpansOk(s, Exec(argv + [Span(t.q, t.eq)]))
                  && (Redirs(s, t.pos).Missing? ==> Args(s, i, argv, rs) == Err)
                  && (Redirs(s, t.pos).Some? ==>
                        && RedirsOk(s, rs + Redirs(s, t.pos).rs)
                        && Args(s, i, argv, rs) == Args(s, Redirs(s, t.pos).pos, argv + [Span(t.q, t.eq)],
                                                        rs + Redirs(s, t.pos).rs))))
  {
    hide Redirs;
  }

  lemma ArgsDone(s: string, i: int, argv: seq<Span>, rs: seq<Redirection>)
    requires 0 <= i <= |s| && SpansOk(s, Exec(argv)) && RedirsOk(s, rs) && Skip(s, i) == i
    requires Sees(s, i, {'|', ')', '&', ';'}) || Token(s, i).kind == END
    ensures Args(s, i, argv, rs) == Ok(Wrap(Exec(argv), rs), i)
  {
  }

  lemma BacksSkip(s: string, i: int, c: Cmd)
    requires 0 <= i <= |s| && SpansOk(s, c)
    ensures Backs(s, Skip(s, i), c) == Backs(s, i, c) && Skip(s, Skip(s, i)) == Skip(s, i)
  {
  }

  lemma BacksStep(s: string, i: int, c: Cmd)
    requires 0 <= i <= |s| && SpansOk(s, c) && Skip(s, i) == i && Sees(s, i, {'&'})
    ensures i < Token(s, i).pos && Backs(s, i, c) == Backs(s, Token(s, i).pos, Back(c))
  {
    TokenMoves(s, i);
  }

  lemma BacksEnd(s: string, i: int, c: Cmd)
    requires 0 <= i <= |s| && SpansOk(s, c) && Skip(s, i) == i && !Sees(s, i, {'&'})
    ensures Backs(s, i, c) == Ok(c, i)
  {
  }
}
