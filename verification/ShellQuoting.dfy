/**
  Shell quoting against a shell lexer.  The lexer follows the quoting rules of the POSIX Shell
  Command Language (IEEE Std 1003.1, XCU): backslash (section 2.2.1), single quotes (section
  2.2.2) and splitting into words and operators (section 2.3).  It gives up on a NUL, on
  an open quote and on every unquoted character that would start something else - a double
  quote, an expansion, a pattern, a comment - so a successful lexing also says that the shell
  substitutes nothing.  Operators are reported one character at a time.
*/
module ShellQuoting {

  import opened Wrappers

  datatype Token = Word(text: string) | Operator(c: char)
  datatype Mode = Plain | Single

  predicate IsBlank(c: char) {
    c == ' ' || c == '\t'
  }

  predicate IsOperator(c: char) {
    c == '|' || c == '&' || c == ';' || c == '<' || c == '>' || c == '(' || c == ')' || c == '\n'
  }

  predicate IsSpecial(c: char) {
    c == '\0' || c == '$' || c == '`' || c == '"' || c == '*' || c == '?' || c == '[' || c == '#' || c == '~'
  }

  /** Stands for itself in a word, unquoted. */
  predicate IsOrdinary(c: char) {
    !IsBlank(c) && !IsOperator(c) && !IsSpecial(c) && c != '\\' && c != '\''
  }

  function Text(cur: Option<string>): string {
    if cur.Some? then cur.value else ""
  }

  /** The word in progress, if there is one, in front of the tokens that follow. */
  function Emit(cur: Option<string>, rest: Option<seq<Token>>): Option<seq<Token>> {
    if rest.None? || cur.None? then rest else Some([Word(cur.value)] + rest.value)
  }

  function Prefix(t: Token, rest: Option<seq<Token>>): Option<seq<Token>> {
    if rest.None? then rest else Some([t] + rest.value)
  }

  function Lex(s: string, cur: Option<string>, mode: Mode): Option<seq<Token>>
    decreases |s|
  {
    if s == [] then
      if mode == Single then None else Emit(cur, Some([]))
    else if mode == Single then
      if s[0] == '\0' then None
      else if s[0] == '\'' then Lex(s[1..], Some(Text(cur)), Plain)
      else Lex(s[1..], Some(Text(cur) + [s[0]]), Single)
    else if IsBlank(s[0]) then Emit(cur, Lex(s[1..], None, Plain))
    else if IsOperator(s[0]) then Emit(cur, Prefix(Operator(s[0]), Lex(s[1..], None, Plain)))
    else if IsSpecial(s[0]) then None
    else if s[0] == '\'' then Lex(s[1..], Some(Text(cur)), Single)
    else if s[0] == '\\' then
      if |s| == 1 || s[1] == '\0' then None
      else if s[1] == '\n' then Lex(s[2..], cur, Plain)
      else Lex(s[2..], Some(Text(cur) + [s[1]]), Plain)
    else Lex(s[1..], Some(Text(cur) + [s[0]]), Plain)
  }

  function Tokens(s: string): Option<seq<Token>> {
    Lex(s, None, Plain)
  }

  /** Nothing that starts with an expansion, a pattern, a comment, a double quote or a NUL is read. */
  lemma SpecialRefused(c: char, rest: string)
    requires c in "\0$`\"*?[#~"
    ensures Tokens([c] + rest) == None
  {
    assert ([c] + rest)[0] == c;
  }

  // ---------------------------------------------------------------- quoting one word

  /** strings.ReplaceAll(s, "'", "'\\''"). */
  function Escape(s: string): string {
    if s == [] then [] else (if s[0] == '\'' then "'\\''" else [s[0]]) + Escape(s[1..])
  }

  function ShellQuote(s: string): string {
    "'" + Escape(s) + "'"
  }

  predicate NulFree(s: string) {
    '\0' !in s
  }

  /** Inside single quotes the escaped text reads as the text itself. */
  lemma {:induction false} EscapeLexes(s: string, cur: string, rest: string)
    requires NulFree(s)
    ensures Lex(Escape(s) + "'" + rest, Some(cur), Single) == Lex(rest, Some(cur + s), Plain)
    decreases |s|
  {
    if s == [] {
      assert (Escape(s) + "'" + rest)[1..] == rest;
      assert cur + s == cur;
    } else {
      var tail := Escape(s[1..]) + "'" + rest;
      EscapeLexes(s[1..], cur + [s[0]], rest);
      assert cur + [s[0]] + s[1..] == cur + s;
      if s[0] == '\'' {
        QuoteDance(tail, cur);
        assert Escape(s) + "'" + rest == "'\\''" + tail;
      } else {
        assert Escape(s) + "'" + rest == [s[0]] + tail;
        assert ([s[0]] + tail)[1..] == tail;
      }
    }
  }

  /** Close the quote, a quoted quote, open again. */
  lemma QuoteDance(tail: string, cur: string)
    ensures Lex("'\\''" + tail, Some(cur), Single) == Lex(tail, Some(cur + "'"), Single)
  {
    var s0 := "'\\''" + tail;
    var s1 := "\\''" + tail;
    var s3 := "'" + tail;
    assert s0[0] == '\'' && s0[1..] == s1;
    assert Lex(s0, Some(cur), Single) == Lex(s1, Some(cur), Plain);
    assert s1[0] == '\\' && s1[1] == '\'' && s1[2..] == s3;
    assert Lex(s1, Some(cur), Plain) == Lex(s3, Some(cur + ['\'']), Plain);
    assert s3[0] == '\'' && s3[1..] == tail;
    assert Lex(s3, Some(cur + ['\'']), Plain) == Lex(tail, Some(cur + ['\'']), Single);
    assert cur + ['\''] == cur + "'";
  }

  lemma QuoteLexes(s: string, cur: Option<string>, rest: string)
    requires NulFree(s)
    ensures Lex(ShellQuote(s) + rest, cur, Plain) == Lex(rest, Some(Text(cur) + s), Plain)
  {
    var q := ShellQuote(s) + rest;
    var inner := Escape(s) + "'" + rest;
    assert q == "'" + inner;
    assert q[0] == '\'' && q[1..] == inner;
    assert Lex(q, cur, Plain) == Lex(inner, Some(Text(cur)), Single);
    EscapeLexes(s, Text(cur), rest);
    assert Lex(inner, Some(Text(cur)), Single) == Lex(rest, Some(Text(cur) + s), Plain);
  }

  /** The shell reads the quoted form of any NUL-free string as exactly one word: that string. */
  lemma QuoteRoundTrip(s: string)
    requires NulFree(s)
    ensures Tokens(ShellQuote(s)) == Some([Word(s)])
  {
    QuoteLexes(s, None, "");
    assert ShellQuote(s) + "" == ShellQuote(s);
    assert Text(None) + s == s;
    assert [Word(s)] + [] == [Word(s)];
  }

  lemma QuoteIsInjective(a: string, b: string)
    requires NulFree(a) && NulFree(b) && ShellQuote(a) == ShellQuote(b)
    ensures a == b
  {
    QuoteRoundTrip(a);
    QuoteRoundTrip(b);
  }

  // ---------------------------------------------------------------- whole command lines

  datatype Piece = Bare(w: string) | Quoted(s: string) | Op(c: char)

  predicate ValidPiece(p: Piece) {
    match p
    case Bare(w) => w != [] && forall c | c in w :: IsOrdinary(c)
    case Quoted(s) => NulFree(s)
    case Op(c) => IsOperator(c)
  }

  function PieceText(p: Piece): string {
    match p
    case Bare(w) => w
    case Quoted(s) => ShellQuote(s)
    case Op(c) => [c]
  }

  function PieceToken(p: Piece): Token {
    match p
    case Bare(w) => Word(w)
    case Quoted(s) => Word(s)
    case Op(c) => Operator(c)
  }

  /** The pieces, each followed by one blank, then `end`. */
  function Line(pieces: seq<Piece>, end: string): string {
    if pieces == [] then end else PieceText(pieces[0]) + " " + Line(pieces[1..], end)
  }

  function PieceTokens(pieces: seq<Piece>): seq<Token> {
    if pieces == [] then [] else [PieceToken(pieces[0])] + PieceTokens(pieces[1..])
  }

  lemma {:induction false} BareLexes(w: string, cur: Option<string>, rest: string)
    requires w != [] && forall c | c in w :: IsOrdinary(c)
    ensures Lex(w + rest, cur, Plain) == Lex(rest, Some(Text(cur) + w), Plain)
    decreases |w|
  {
    assert (w + rest)[0] == w[0] && w[0] in w;
    assert (w + rest)[1..] == w[1..] + rest;
    if |w| == 1 {
      assert w[1..] + rest == rest && [w[0]] == w;
    } else {
      BareLexes(w[1..], Some(Text(cur) + [w[0]]), rest);
      assert Text(cur) + [w[0]] + w[1..] == Text(cur) + w;
    }
  }

  /** A blank ends the word in progress. */
  lemma BlankEnds(cur: Option<string>, rest: string)
    ensures Lex(" " + rest, cur, Plain) == Emit(cur, Tokens(rest))
  {
    var s := " " + rest;
    assert s[0] == ' ' && s[1..] == rest;
  }

  lemma OperatorLexes(c: char, rest: string)
    requires IsOperator(c)
    ensures Tokens([c] + rest) == Prefix(Operator(c), Tokens(rest))
  {
    var s := [c] + rest;
    assert s[0] == c && s[1..] == rest;
    assert !IsBlank(c);
  }

  lemma PieceLexes(p: Piece, rest: string)
    requires ValidPiece(p)
    ensures Tokens(PieceText(p) + " " + rest) == Prefix(PieceToken(p), Tokens(rest))
  {
    var blank := " " + rest;
    assert PieceText(p) + " " + rest == PieceText(p) + blank;
    match p
    case Bare(w) =>
      BareLexes(w, None, blank);
      assert "" + w == w;
      BlankEnds(Some(w), rest);
    case Quoted(s) =>
      QuoteLexes(s, None, blank);
      assert "" + s == s;
      BlankEnds(Some(s), rest);
    case Op(c) =>
      OperatorLexes(c, blank);
      BlankEnds(None, rest);
  }

  /** A line of bare words, quoted strings and operators lexes to exactly these tokens. */
  lemma {:induction false} LineLexes(pieces: seq<Piece>, end: string)
    requires forall p | p in pieces :: ValidPiece(p)
    ensures Tokens(end).Some? ==> Tokens(Line(pieces, end)) == Some(PieceTokens(pieces) + Tokens(end).value)
  {
    if pieces == [] {
      if Tokens(end).Some? { assert PieceTokens(pieces) + Tokens(end).value == Tokens(end).value; }
    } else {
      LineLexes(pieces[1..], end);
      PieceLexes(pieces[0], Line(pieces[1..], end));
      if Tokens(end).Some? {
        assert [PieceToken(pieces[0])] + (PieceTokens(pieces[1..]) + Tokens(end).value)
            == PieceTokens(pieces) + Tokens(end).value;
      }
    }
  }

  /** Any argument list, quoted word by word and joined by blanks, is read back unchanged. */
  lemma ArgumentListRoundTrip(args: seq<string>)
    requires forall a | a in args :: NulFree(a)
    ensures var pieces := seq(|args|, i requires 0 <= i < |args| => Quoted(args[i]));
      var tokens := Tokens(Line(pieces, ""));
      tokens.Some? && |tokens.value| == |args| && forall i | 0 <= i < |args| :: tokens.value[i] == Word(args[i])
  {
    var pieces := seq(|args|, i requires 0 <= i < |args| => Quoted(args[i]));
    LineLexes(pieces, "");
    PieceTokensAt(pieces);
    assert PieceTokens(pieces) + [] == PieceTokens(pieces);
  }

  lemma {:induction false} PieceTokensAt(pieces: seq<Piece>)
    ensures |PieceTokens(pieces)| == |pieces|
    ensures forall i | 0 <= i < |pieces| :: PieceTokens(pieces)[i] == PieceToken(pieces[i])
  {
    if pieces != [] { PieceTokensAt(pieces[1..]); }
  }

  // ---------------------------------------------------------------- the reclaim commands

  /** The command text of the truncate action. */
  function TruncateCommand(target: string): string {
    "truncate -s 0 " + ShellQuote(target)
  }

  /** The command text of the reload_service action. */
  function ReloadCommand(targetUnit: string): string {
    "systemctl reload " + ShellQuote(targetUnit)
  }

  /** The wrapper used when a sudo password was given. */
  function SudoLine(password: string, command: string): string {
    "printf '%s\\n' " + ShellQuote(password) + " | sudo -S -k -p '' sh -c " + ShellQuote(command) + " 2>&1"
  }

  /** One invocation of the shell. */
  function PlainLine(command: string): string {
    "sh -c " + ShellQuote(command) + " 2>&1"
  }

  /** The wrapper used without a password, from its `then` on: first as root through sudo, else directly. */
  function WrapperBody(command: string): string {
    "    sudo -n sh -c " + ShellQuote(command) + " 2>&1\nelse\n    sh -c " + ShellQuote(command) + " 2>&1\nfi"
  }

  /** One more piece in front of a line whose tokens are known. */
  lemma Front(p: Piece, rest: string, tokens: seq<Token>)
    requires ValidPiece(p) && Tokens(rest) == Some(tokens)
    ensures Tokens(PieceText(p) + " " + rest) == Some([PieceToken(p)] + tokens)
  {
    PieceLexes(p, rest);
  }

  /** Letters, digits and '-' need no quoting. */
  predicate IsWordChar(c: char) {
    'a' <= c <= 'z' || 'A' <= c <= 'Z' || '0' <= c <= '9' || c == '-'
  }

  predicate IsBareWord(w: string) {
    w != [] && forall i | 0 <= i < |w| :: IsWordChar(w[i])
  }

  lemma FrontWord(w: string, rest: string, tokens: seq<Token>)
    requires IsBareWord(w) && Tokens(rest) == Some(tokens)
    ensures Tokens(w + " " + rest) == Some([Word(w)] + tokens)
  {
    Front(Bare(w), rest, tokens);
  }

  lemma TruncateLexes(target: string)
    requires NulFree(target)
    ensures Tokens(TruncateCommand(target)) == Some([Word("truncate"), Word("-s"), Word("0"), Word(target)])
  {
    QuoteRoundTrip(target);
    var r0 := ShellQuote(target);
    var t0 := [Word(target)];
    var t1 := [Word("0"), Word(target)];
    var t2 := [Word("-s"), Word("0"), Word(target)];
    FrontWord("0", r0, t0);
    var r1 := "0" + " " + r0;
    assert [Word("0")] + t0 == t1;
    FrontWord("-s", r1, t1);
    var r2 := "-s" + " " + r1;
    assert [Word("-s")] + t1 == t2;
    FrontWord("truncate", r2, t2);
    assert [Word("truncate")] + t2 == [Word("truncate"), Word("-s"), Word("0"), Word(target)];
    assert TruncateCommand(target) == "truncate" + " " + r2;
  }

  lemma ReloadLexes(targetUnit: string)
    requires NulFree(targetUnit)
    ensures Tokens(ReloadCommand(targetUnit)) == Some([Word("systemctl"), Word("reload"), Word(targetUnit)])
  {
    QuoteRoundTrip(targetUnit);
    var r0 := ShellQuote(targetUnit);
    FrontWord("reload", r0, [Word(targetUnit)]);
    var t1 := [Word("reload"), Word(targetUnit)];
    assert [Word("reload")] + [Word(targetUnit)] == t1;
    FrontWord("systemctl", "reload" + " " + r0, t1);
    assert [Word("systemctl")] + t1 == [Word("systemctl"), Word("reload"), Word(targetUnit)];
    assert ReloadCommand(targetUnit) == "systemctl" + " " + ("reload" + " " + r0);
  }

  /** The trailing redirection of standard error. */
  function Redirected(tail: seq<Token>): seq<Token> {
    [Word("2")] + ([Operator('>')] + ([Operator('&')] + ([Word("1")] + tail)))
  }

  /** An operator ends the word in progress. */
  lemma OperatorEnds(c: char, w: string, rest: string)
    requires IsOperator(c)
    ensures Lex([c] + rest, Some(w), Plain) == Emit(Some(w), Tokens([c] + rest))
  {
    var s := [c] + rest;
    assert s[0] == c && !IsBlank(c);
  }

  lemma OneLexes()
    ensures Tokens("1") == Some([Word("1")] + [])
  {
    BareLexes("1", None, "");
    assert "1" + "" == "1" && "" + "1" == "1";
  }

  /** A bare word right before an operator. */
  lemma WordThenOperator(w: string, c: char, rest: string)
    requires IsBareWord(w) && IsOperator(c)
    ensures Tokens(w + ([c] + rest)) == Emit(Some(w), Tokens([c] + rest))
  {
    BareLexes(w, None, [c] + rest);
    assert "" + w == w;
    OperatorEnds(c, w, rest);
  }

  lemma RedirectLexes()
    ensures Tokens("2>&1") == Some(Redirected([]))
  {
    OneLexes();
    OperatorLexes('&', "1");
    OperatorLexes('>', ['&'] + "1");
    WordThenOperator("2", '>', ['&'] + "1");
    assert "2" + (['>'] + (['&'] + "1")) == "2>&1";
  }

  /** The tokens of `sh -c command 2>&1`. */
  function ShTokens(command: string): seq<Token> {
    [Word("sh")] + ([Word("-c")] + ([Word(command)] + Redirected([])))
  }

  lemma PlainLineLexes(command: string)
    requires NulFree(command)
    ensures Tokens(PlainLine(command)) == Some(ShTokens(command))
  {
    RedirectLexes();
    var t0 := [Word(command)] + Redirected([]);
    Front(Quoted(command), "2>&1", Redirected([]));
    var r0 := ShellQuote(command) + " " + "2>&1";
    FrontWord("-c", r0, t0);
    var r1 := "-c" + " " + r0;
    FrontWord("sh", r1, [Word("-c")] + t0);
    assert PlainLine(command) == "sh" + " " + r1;
  }

  lemma Move(a: string, b: string, c: string)
    ensures a + b + c == a + (b + c)
  {
  }

  // ---------------------------------------------------------------- the wrapper without a password

  function NewLine(tail: seq<Token>): seq<Token> {
    [Operator('\n')] + tail
  }

  lemma RedirectThen(rest: string, tokens: seq<Token>)
    requires Tokens(rest) == Some(tokens)
    ensures Tokens("2" + (">" + ("&" + ("1" + ("\n" + rest))))) == Some(Redirected(NewLine(tokens)))
  {
    assert [' '] == " " && ['\n'] == "\n" && ['&'] == "&" && ['>'] == ">";
    OperatorLexes('\n', rest);
    WordThenOperator("1", '\n', rest);
    OperatorLexes('&', "1" + ("\n" + rest));
    OperatorLexes('>', "&" + ("1" + ("\n" + rest)));
    WordThenOperator("2", '>', "&" + ("1" + ("\n" + rest)));
  }

  /** `sh -c command 2>&1`, a newline, and more. */
  function ShThen(command: string, rest: string): string {
    "sh" + " " + ("-c" + " " + (ShellQuote(command) + " " + ("2" + (">" + ("&" + ("1" + ("\n" + rest)))))))
  }

  function ShThenTokens(command: string, tail: seq<Token>): seq<Token> {
    [Word("sh")] + ([Word("-c")] + ([Word(command)] + Redirected(NewLine(tail))))
  }

  lemma ShThenLexes(command: string, rest: string, tokens: seq<Token>)
    requires NulFree(command) && Tokens(rest) == Some(tokens)
    ensures Tokens(ShThen(command, rest)) == Some(ShThenTokens(command, tokens))
  {
    RedirectThen(rest, tokens);
    var r0 := "2" + (">" + ("&" + ("1" + ("\n" + rest))));
    Front(Quoted(command), r0, Redirected(NewLine(tokens)));
    var r1 := ShellQuote(command) + " " + r0;
    var t1 := [Word(command)] + Redirected(NewLine(tokens));
    FrontWord("-c", r1, t1);
    FrontWord("sh", "-c" + " " + r1, [Word("-c")] + t1);
  }

  lemma ShThenText(command: string, rest: string)
    ensures ShThen(command, rest) == "sh -c " + ShellQuote(command) + " 2>&1\n" + rest
  {
    var q := ShellQuote(command);
    assert " 2>&1\n" + rest == " " + ("2" + (">" + ("&" + ("1" + ("\n" + rest)))));
    var r := "2" + (">" + ("&" + ("1" + ("\n" + rest))));
    Move("sh -c " + q, " 2>&1\n", rest);
    Move("sh -c ", q, " " + r);
    Move(q, " ", r);
    assert "sh -c " == "sh" + " " + "-c" + " ";
    Move("sh" + " " + "-c", " ", q + " " + r);
    Move("sh" + " ", "-c", " " + (q + " " + r));
    Move("-c", " ", q + " " + r);
  }

  lemma Indented(rest: string)
    ensures Tokens("    " + rest) == Tokens(rest)
  {
    BlankEnds(None, rest);
    BlankEnds(None, " " + rest);
    BlankEnds(None, " " + (" " + rest));
    BlankEnds(None, " " + (" " + (" " + rest)));
    assert "    " + rest == " " + (" " + (" " + (" " + rest)));
  }

  /** The tokens of the two branches. */
  function WrapperTokens(command: string): seq<Token> {
    [Word("sudo")] + ([Word("-n")]
    + ShThenTokens(command, [Word("else")] + NewLine(ShThenTokens(command, [Word("fi")]))))
  }

  /** Whichever branch is taken, the command reaches sh -c as one argument. */
  lemma WrapperBodyLexes(command: string)
    requires NulFree(command)
    ensures Tokens(WrapperBody(command)) == Some(WrapperTokens(command))
  {
    WordAlone("fi");
    ShThenLexes(command, "fi", [Word("fi")]);
    var b0 := ShThen(command, "fi");
    var t0 := ShThenTokens(command, [Word("fi")]);
    ElseLexes(b0, t0);
    var b1 := "else" + ("\n" + ("    " + b0));
    var t1 := [Word("else")] + NewLine(t0);
    ShThenLexes(command, b1, t1);
    var b2 := ShThen(command, b1);
    FrontWord("-n", b2, ShThenTokens(command, t1));
    FrontWord("sudo", "-n" + " " + b2, [Word("-n")] + ShThenTokens(command, t1));
    Indented("sudo" + " " + ("-n" + " " + b2));
    WrapperText(command);
  }

  lemma WordAlone(w: string)
    requires IsBareWord(w)
    ensures Tokens(w) == Some([Word(w)])
  {
    BareLexes(w, None, "");
    assert w + "" == w && "" + w == w;
    assert [Word(w)] + [] == [Word(w)];
  }

  lemma ElseLexes(rest: string, tokens: seq<Token>)
    requires Tokens(rest) == Some(tokens)
    ensures Tokens("else" + ("\n" + ("    " + rest))) == Some([Word("else")] + NewLine(tokens))
  {
    Indented(rest);
    assert ['\n'] == "\n";
    OperatorLexes('\n', "    " + rest);
    WordThenOperator("else", '\n', "    " + rest);
  }

  lemma WrapperLiterals()
    ensures "    sudo -n sh -c " == "    sudo -n " + "sh -c "
    ensures " 2>&1\nelse\n    sh -c " == " 2>&1\n" + "else\n    " + "sh -c "
    ensures " 2>&1\nfi" == " 2>&1\n" + "fi"
  {
  }

  lemma WrapperFront(rest: string)
    ensures "    sudo -n " + rest == "    " + ("sudo" + " " + ("-n" + " " + rest))
  {
    assert "    sudo -n " == "    " + ("sudo" + " " + ("-n" + " "));
    Move("    ", "sudo" + " " + ("-n" + " "), rest);
    Move("sudo" + " ", "-n" + " ", rest);
  }

  lemma WrapperText(command: string)
    ensures WrapperBody(command)
         == "    " + ("sudo" + " " + ("-n" + " " + ShThen(command, "else" + ("\n" + ("    " + ShThen(command, "fi"))))))
  {
    WrapperLiterals();
    ShThenText(command, "fi");
    ElseText(ShThen(command, "fi"));
    var rest := "else" + ("\n" + ("    " + ShThen(command, "fi")));
    ShThenText(command, rest);
    WrapperFront(ShThen(command, rest));
    WrapperCut("    sudo -n ", "sh -c ", ShellQuote(command), " 2>&1\n", "else\n    ", "fi");
  }

  lemma ElseText(rest: string)
    ensures "else\n    " + rest == "else" + ("\n" + ("    " + rest))
  {
    assert "else\n    " == "else" + ("\n" + "    ");
  }

  lemma WrapperCut(a: string, sh: string, q: string, r: string, e: string, f: string)
    ensures (a + sh) + q + (r + e + sh) + q + (r + f) == a + (sh + q + r + (e + (sh + q + r + f)))
  {
    var last := sh + q + r + f;
    Move(sh + q, r, f);
    Move(r + e, sh, q);
    Move((a + sh) + q, r + e + sh, q);
    Move((a + sh) + q, r + e + sh + q, r + f);
    Move(r + e, sh + q, r + f);
    assert r + e + sh + q + (r + f) == r + e + last;
    Move(r, e, last);
    Move(a + sh, q, r + (e + last));
    Move(a, sh, q + (r + (e + last)));
    Move(sh, q, r + (e + last));
    Move(sh + q, r, e + last);
  }

  /** The tokens of `sudo -S -k -p ''` in front of others. */
  function SudoArgs(tokens: seq<Token>): seq<Token> {
    [Word("sudo")] + ([Word("-S")] + ([Word("-k")] + ([Word("-p")] + ([Word("")] + tokens))))
  }

  /** The password reaches printf and the command reaches sh, each as one untouched argument. */
  function SudoTokens(password: string, command: string): seq<Token> {
    [Word("printf")] + ([Word("%s\\n")] + ([Word(password)] + ([Operator('|')] + SudoArgs(ShTokens(command)))))
  }

  lemma SudoPart(rest: string, tokens: seq<Token>)
    requires Tokens(rest) == Some(tokens)
    ensures Tokens("sudo" + " " + ("-S" + " " + ("-k" + " " + ("-p" + " " + ("''" + " " + rest)))))
         == Some(SudoArgs(tokens))
  {
    Front(Quoted(""), rest, tokens);
    assert ShellQuote("") == "''";
    var t0 := [Word("")] + tokens;
    FrontWord("-p", "''" + " " + rest, t0);
    FrontWord("-k", "-p" + " " + ("''" + " " + rest), [Word("-p")] + t0);
    FrontWord("-S", "-k" + " " + ("-p" + " " + ("''" + " " + rest)), [Word("-k")] + ([Word("-p")] + t0));
    FrontWord("sudo", "-S" + " " + ("-k" + " " + ("-p" + " " + ("''" + " " + rest))),
      [Word("-S")] + ([Word("-k")] + ([Word("-p")] + t0)));
  }

  lemma SudoPartText(rest: string)
    ensures "sudo -S -k -p '' " + rest
         == "sudo" + " " + ("-S" + " " + ("-k" + " " + ("-p" + " " + ("''" + " " + rest))))
  {
    var r0 := "''" + " " + rest;
    assert "'' " + rest == r0;
    assert "-p '' " + rest == "-p" + " " + r0;
    var r1 := "-p" + " " + r0;
    assert "-k -p '' " + rest == "-k" + " " + r1 by { assert "-k -p '' " == "-k " + "-p '' "; }
    var r2 := "-k" + " " + r1;
    assert "-S -k -p '' " + rest == "-S" + " " + r2 by { assert "-S -k -p '' " == "-S " + "-k -p '' "; }
    assert "sudo -S -k -p '' " == "sudo " + "-S -k -p '' ";
  }

  /** The format string of the source, cut where the pieces end. */
  lemma SudoLineText(password: string, command: string)
    ensures SudoLine(password, command)
         == "printf" + " " + ("'%s\\n'" + " " + (ShellQuote(password) + " "
            + ("|" + " " + ("sudo -S -k -p '' " + PlainLine(command)))))
  {
    assert "printf '%s\\n' " == "printf" + " " + "'%s\\n'" + " ";
    assert " | sudo -S -k -p '' sh -c " == " " + "|" + " " + "sudo -S -k -p '' " + "sh -c ";
    Cut("printf", "'%s\\n'", ShellQuote(password), "|", "sudo -S -k -p '' ", "sh -c ", ShellQuote(command), " 2>&1");
  }

  lemma Cut(a1: string, a2: string, p: string, b1: string, b2: string, b3: string, c: string, e: string)
    ensures (a1 + " " + a2 + " ") + p + (" " + b1 + " " + b2 + b3) + c + e
         == a1 + " " + (a2 + " " + (p + " " + (b1 + " " + (b2 + (b3 + c + e)))))
  {
    var a, b := a1 + " " + a2 + " ", " " + b1 + " " + b2 + b3;
    var tail := b3 + c + e;
    Move(a + p + b, c, e);
    Move(a + p, b, c + e);
    Move(a, p, b + (c + e));
    Move(b3, c, e);
    Move(" " + b1 + " " + b2, b3, c + e);
    Move(" " + b1 + " ", b2, tail);
    Move(" " + b1, " ", b2 + tail);
    Move(" ", b1, " " + (b2 + tail));
    Move(b1, " ", b2 + tail);
    var rest := b1 + " " + (b2 + tail);
    Move(p, " ", rest);
    Move(a1 + " " + a2, " ", p + " " + rest);
    Move(a1 + " ", a2, " " + (p + " " + rest));
    Move(a2, " ", p + " " + rest);
  }

  lemma SudoLineLexes(password: string, command: string)
    requires NulFree(password) && NulFree(command)
    ensures Tokens(SudoLine(password, command)) == Some(SudoTokens(password, command))
  {
    PlainLineLexes(command);
    SudoPart(PlainLine(command), ShTokens(command));
    SudoPartText(PlainLine(command));
    SudoLineText(password, command);
    var r1 := "sudo -S -k -p '' " + PlainLine(command);
    PrintfLexes("%s\\n", password, r1, SudoArgs(ShTokens(command)));
    EscapePlain("%s\\n");
    assert ShellQuote("%s\\n") == "'%s\\n'";
  }

  lemma PrintfLexes(format: string, password: string, rest: string, tokens: seq<Token>)
    requires NulFree(format) && NulFree(password) && Tokens(rest) == Some(tokens)
    ensures Tokens("printf" + " " + (ShellQuote(format) + " " + (ShellQuote(password) + " " + ("|" + " " + rest))))
         == Some([Word("printf")] + ([Word(format)] + ([Word(password)] + ([Operator('|')] + tokens))))
  {
    PipeLexes(rest, tokens);
    var r2 := "|" + " " + rest;
    Front(Quoted(password), r2, [Operator('|')] + tokens);
    var r3 := ShellQuote(password) + " " + r2;
    var t3 := [Word(password)] + ([Operator('|')] + tokens);
    Front(Quoted(format), r3, t3);
    FrontWord("printf", ShellQuote(format) + " " + r3, [Word(format)] + t3);
  }

  lemma PipeLexes(rest: string, tokens: seq<Token>)
    requires Tokens(rest) == Some(tokens)
    ensures Tokens("|" + " " + rest) == Some([Operator('|')] + tokens)
  {
    Front(Op('|'), rest, tokens);
    assert ['|'] == "|";
  }

  lemma {:induction false} EscapePlain(s: string)
    requires '\'' !in s
    ensures Escape(s) == s
  {
    if s != [] { EscapePlain(s[1..]); }
  }

  // ---------------------------------------------------------------- both layers

  /**
    The outer shell hands `sh -c` the truncate command as its one argument, and the shell started
    by it reads that argument as truncate with the target as its last word - whatever the target
    and the password contain.
  */
  lemma BothLayers(password: string, target: string)
    requires NulFree(password) && NulFree(target)
    ensures NulFree(TruncateCommand(target))
    ensures Tokens(SudoLine(password, TruncateCommand(target))) == Some(SudoTokens(password, TruncateCommand(target)))
    ensures Tokens(WrapperBody(TruncateCommand(target))) == Some(WrapperTokens(TruncateCommand(target)))
    ensures Tokens(TruncateCommand(target)) == Some([Word("truncate"), Word("-s"), Word("0"), Word(target)])
  {
    EscapeNulFree(target);
    assert NulFree("truncate -s 0 ");
    SudoLineLexes(password, TruncateCommand(target));
    WrapperBodyLexes(TruncateCommand(target));
    TruncateLexes(target);
  }

  lemma {:induction false} EscapeNulFree(s: string)
    requires NulFree(s)
    ensures NulFree(Escape(s))
  {
    if s != [] { EscapeNulFree(s[1..]); }
  }
}
