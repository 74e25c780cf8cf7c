/** What the scanner does, as functions on the source text and a position.  The end of the
    text reads as a NUL character, which does not occur inside it. */
module Lexing {

  datatype Kind =
    | NumberLit | StringLit | BacktickLit | InterpolatedLit | Identifier | True | False | Nil
    | Let | Fn | If | Else | While | For | Return | Break | Continue | Struct | Interface | Switch | Case | Default
    | As | Avatar | Await | Defer | Export
    | Plus | Minus | Multiply | Divide | Modulo | Assign | PlusAssign | MinusAssign | Increment | Decrement
    | Equal | NotEqual | Less | LessEqual | Greater | GreaterEqual | And | Or | Not
    | LeftParen | RightParen | LeftBrace | RightBrace | LeftBracket | RightBracket
    | Semicolon | Comma | Dot | DotDot | Colon | Arrow | In | At | Newline | Eof | Error

  /** A source text: NUL ends it, so none occurs in it. */
  predicate IsSource(s: string) { '\0' !in s }

  function CharAt(s: string, p: nat): char {
    if p < |s| then s[p] else '\0'
  }

  predicate IsAlpha(c: char) { 'a' <= c <= 'z' || 'A' <= c <= 'Z' || c == '_' }
  predicate IsDigit(c: char) { '0' <= c <= '9' }
  predicate IsWord(c: char) { IsAlpha(c) || IsDigit(c) }
  predicate IsBlank(c: char) { c == ' ' || c == '\r' || c == '\t' }

  // ----- blanks and comments -----

  /** The first `c` from `p` on, or the end of the text. */
  function PlainStop(s: string, p: nat, c: char): (r: nat)
    requires p <= |s|
    ensures p <= r <= |s| && (r < |s| ==> s[r] == c)
    ensures forall i :: p <= i < r ==> s[i] != c
    decreases |s| - p
  {
    if p == |s| || s[p] == c then p else PlainStop(s, p + 1, c)
  }

  /** Just past the first `*` `/` from `p` on, or the end of the text. */
  function BlockStop(s: string, p: nat): (r: nat)
    requires p <= |s|
    ensures p <= r <= |s|
    decreases |s| - p
  {
    if p == |s| then p
    else if s[p] == '*' && CharAt(s, p + 1) == '/' then p + 2
    else BlockStop(s, p + 1)
  }

  /** Where the next token starts. */
  function SkipBlanks(s: string, p: nat): (r: nat)
    requires p <= |s|
    ensures p <= r <= |s|
    decreases |s| - p
  {
    var c := CharAt(s, p);
    if p < |s| && IsBlank(c) then SkipBlanks(s, p + 1)
    else if c == '/' && CharAt(s, p + 1) == '/' then SkipBlanks(s, PlainStop(s, p, '\n'))
    else if c == '/' && CharAt(s, p + 1) == '*' then SkipBlanks(s, BlockStop(s, p + 2))
    else p
  }

  // ----- tokens of more than one character -----

  function WordStop(s: string, p: nat): (r: nat)
    requires p <= |s|
    ensures p <= r <= |s| && (r < |s| ==> !IsWord(s[r]))
    ensures forall i :: p <= i < r ==> IsWord(s[i])
    decreases |s| - p
  {
    if p == |s| || !IsWord(s[p]) then p else WordStop(s, p + 1)
  }

  function DigitStop(s: string, p: nat): (r: nat)
    requires p <= |s|
    ensures p <= r <= |s| && (r < |s| ==> !IsDigit(s[r]))
    ensures forall i :: p <= i < r ==> IsDigit(s[i])
    decreases |s| - p
  {
    if p == |s| || !IsDigit(s[p]) then p else DigitStop(s, p + 1)
  }

  function NumberStop(s: string, p: nat): (r: nat)
    requires p <= |s|
    ensures p <= r <= |s|
  {
    var q := DigitStop(s, p);
    if CharAt(s, q) == '.' && IsDigit(CharAt(s, q + 1)) then DigitStop(s, q + 1) else q
  }

  /** The closing quote, skipping escaped characters, or the end of the text. */
  function QuoteStop(s: string, p: nat, quote: char): (r: nat)
    requires p <= |s|
    ensures p <= r <= |s| && (r < |s| ==> s[r] == quote)
    decreases |s| - p
  {
    if p == |s| || s[p] == quote then p
    else if s[p] == '\\' then QuoteStop(s, if p + 1 < |s| then p + 2 else p + 1, quote)
    else QuoteStop(s, p + 1, quote)
  }

  /** Whether `${` occurs before the next backtick. */
  predicate Interpolates(s: string, p: nat)
    requires p <= |s|
    decreases |s| - p
  {
    if p == |s| || s[p] == '`' then false
    else (s[p] == '$' && CharAt(s, p + 1) == '{') || Interpolates(s, p + 1)
  }

  // ----- keywords -----

  /** What is left of `text` after `start` characters is `rest`. */
  function CheckKeyword(text: string, start: nat, rest: string, kind: Kind): Kind {
    if |text| == start + |rest| && text[start..] == rest then kind else Identifier
  }

  /** The decision tree over the first characters. */
  function IdentifierKind(text: string): Kind
    requires text != ""
  {
    match text[0]
    case 'a' =>
      if |text| > 1 then
        match text[1]
        case 'n' => CheckKeyword(text, 1, "nd", And)
        case 's' => CheckKeyword(text, 1, "s", As)
        case 'v' => CheckKeyword(text, 1, "vatar", Avatar)
        case 'w' => CheckKeyword(text, 1, "wait", Await)
        case _ => Identifier
      else Identifier
    case 'b' => CheckKeyword(text, 1, "reak", Break)
    case 'c' =>
      if |text| > 1 then
        match text[1]
        case 'a' => CheckKeyword(text, 2, "se", Case)
        case 'o' => CheckKeyword(text, 1, "ontinue", Continue)
        case _ => Identifier
      else Identifier
    case 'd' =>
      if |text| > 1 && text[1] == 'e' then
        if |text| == 5 then CheckKeyword(text, 1, "efer", Defer) else CheckKeyword(text, 1, "efault", Default)
      else Identifier
    case 'e' =>
      if |text| > 1 then
        match text[1]
        case 'l' => CheckKeyword(text, 1, "lse", Else)
        case 'x' => CheckKeyword(text, 1, "xport", Export)
        case _ => Identifier
      else Identifier
    case 'f' =>
      if |text| > 1 then
        match text[1]
        case 'a' => CheckKeyword(text, 2, "lse", False)
        case 'n' => CheckKeyword(text, 0, "fn", Fn)
        case 'o' => CheckKeyword(text, 2, "r", For)
        case 'u' => if |text| > 4 then CheckKeyword(text, 0, "function", Fn) else CheckKeyword(text, 0, "func", Fn)
        case _ => Identifier
      else Identifier
    case 'i' =>
      if |text| > 1 && text[1] == 'f' then CheckKeyword(text, 0, "if", If)
      else if |text| > 1 && text[1] == 'n' then
        if |text| == 2 then CheckKeyword(text, 0, "in", In) else CheckKeyword(text, 1, "nterface", Interface)
      else CheckKeyword(text, 1, "f", If)
    case 'l' => CheckKeyword(text, 1, "et", Let)
    case 'n' => CheckKeyword(text, 1, "il", Nil)
    case 'o' => CheckKeyword(text, 1, "r", Or)
    case 'r' => CheckKeyword(text, 1, "eturn", Return)
    case 's' =>
      if |text| > 1 then
        match text[1]
        case 't' => CheckKeyword(text, 1, "truct", Struct)
        case 'w' => CheckKeyword(text, 1, "witch", Switch)
        case _ => Identifier
      else Identifier
    case 't' => CheckKeyword(text, 1, "rue", True)
    case 'w' => CheckKeyword(text, 1, "hile", While)
    case _ => Identifier
  }

  /** The table of reserved words. */
  function Keyword(text: string): Kind {
    var early, middle := KeywordAE(text), KeywordFI(text);
    if early != Identifier then early else if middle != Identifier then middle else KeywordLW(text)
  }

  function KeywordAE(text: string): Kind {
    if text == "and" then And
    else if text == "as" then As
    else if text == "avatar" then Avatar
    else if text == "await" then Await
    else if text == "break" then Break
    else if text == "case" then Case
    else if text == "continue" then Continue
    else if text == "default" then Default
    else if text == "defer" then Defer
    else if text == "else" then Else
    else if text == "export" then Export
    else Identifier
  }

  function KeywordFI(text: string): Kind {
    if text == "false" then False
    else if text == "fn" then Fn
    else if text == "for" then For
    else if text == "func" then Fn
    else if text == "function" then Fn
    else if text == "if" then If
    else if text == "in" then In
    else if text == "interface" then Interface
    else Identifier
  }

  function KeywordLW(text: string): Kind {
    if text == "let" then Let
    else if text == "nil" then Nil
    else if text == "or" then Or
    else if text == "return" then Return
    else if text == "struct" then Struct
    else if text == "switch" then Switch
    else if text == "true" then True
    else if text == "while" then While
    else Identifier
  }

  // ----- one token -----

  /** `end` is where scanning goes on. */
  datatype Lexeme = Lexeme(kind: Kind, end: nat)

  function Either(s: string, p: nat, c: char, two: Kind, one: Kind): Lexeme {
    if CharAt(s, p) == c then Lexeme(two, p + 1) else Lexeme(one, p)
  }

  function Quoted(s: string, p: nat, stop: nat, kind: Kind): Lexeme {
    if stop == |s| then Lexeme(Error, stop) else Lexeme(kind, stop + 1)
  }

  /** The token that starts at `p`. */
  function Scan(s: string, p: nat): (r: Lexeme)
    requires IsSource(s) && p < |s|
    ensures p < r.end <= |s|
  {
    var c, q := s[p], p + 1;
    if IsAlpha(c) then Lexeme(IdentifierKind(s[p..WordStop(s, q)]), WordStop(s, q))
    else if IsDigit(c) then Lexeme(NumberLit, NumberStop(s, q))
    else if c == '"' || c == '\'' then Quoted(s, q, QuoteStop(s, q, c), StringLit)
    else if c == '`' then
      if Interpolates(s, q) then Quoted(s, q, PlainStop(s, q, '`'), InterpolatedLit)
      else Quoted(s, q, QuoteStop(s, q, '`'), BacktickLit)
    else Punctuation(s, p)
  }

  function Punctuation(s: string, p: nat): (r: Lexeme)
    requires IsSource(s) && p < |s|
    ensures p < r.end <= |s| && r.end <= p + 2
  {
    var q := p + 1;
    match s[p]
    case '(' => Lexeme(LeftParen, q)
    case ')' => Lexeme(RightParen, q)
    case '{' => Lexeme(LeftBrace, q)
    case '}' => Lexeme(RightBrace, q)
    case '[' => Lexeme(LeftBracket, q)
    case ']' => Lexeme(RightBracket, q)
    case ';' => Lexeme(Semicolon, q)
    case ',' => Lexeme(Comma, q)
    case '.' => Either(s, q, '.', DotDot, Dot)
    case ':' => Lexeme(Colon, q)
    case '@' => Lexeme(At, q)
    case '\n' => Lexeme(Newline, q)
    case '+' => if CharAt(s, q) == '+' then Lexeme(Increment, q + 1) else Either(s, q, '=', PlusAssign, Plus)
    case '-' =>
      if CharAt(s, q) == '-' then Lexeme(Decrement, q + 1)
      else if CharAt(s, q) == '=' then Lexeme(MinusAssign, q + 1)
      else Either(s, q, '>', Arrow, Minus)
    case '*' => Lexeme(Multiply, q)
    case '/' => Lexeme(Divide, q)
    case '%' => Lexeme(Modulo, q)
    case '!' => Either(s, q, '=', NotEqual, Not)
    case '=' => if CharAt(s, q) == '=' then Lexeme(Equal, q + 1) else Either(s, q, '>', Arrow, Assign)
    case '<' => Either(s, q, '=', LessEqual, Less)
    case '>' => Either(s, q, '=', GreaterEqual, Greater)
    case '&' => Either(s, q, '&', And, Error)
    case '|' => Either(s, q, '|', Or, Error)
    case _ => Lexeme(Error, q)
  }

  // ----- the whole text -----

  datatype Token = Token(kind: Kind, start: nat, end: nat)

  /** Repeated scanning from `p` up to and including the end-of-file token. */
  function Tokens(s: string, p: nat): (ts: seq<Token>)
    requires IsSource(s) && p <= |s|
    ensures ts != []
    decreases |s| - p
  {
    var q := SkipBlanks(s, p);
    if q == |s| then [Token(Eof, q, q)]
    else
      var x := Scan(s, q);
      [Token(x.kind, q, x.end)] + Tokens(s, x.end)
  }

  predicate NoErrors(ts: seq<Token>) { forall t :: t in ts ==> !t.kind.Error? }

  lemma ScanNotEof(s: string, p: nat)
    requires IsSource(s) && p < |s|
    ensures !Scan(s, p).kind.Eof?
  {
    hide WordStop, NumberStop, QuoteStop, PlainStop, Interpolates;
  }

  // ----- keywords: the tree is the table -----

  /** A tail check is a comparison with the whole word, once the characters before it agree. */
  lemma CheckIs(text: string, start: nat, rest: string, kind: Kind, word: string)
    requires start <= |text| && text[..start] + rest == word
    ensures CheckKeyword(text, start, rest, kind) == if text == word then kind else Identifier
  {
    assert |text| == start + |rest| ==> (text == text[..start] + text[start..]);
    assert text == word ==> text[start..] == word[start..] == rest;
  }

  lemma OnlyAE(text: string)
    requires text != "" && text[0] !in "abcde"
    ensures KeywordAE(text) == Identifier
  {
  }

  lemma OnlyFI(text: string)
    requires text != "" && text[0] !in "fi"
    ensures KeywordFI(text) == Identifier
  {
  }

  lemma OnlyLW(text: string)
    requires text != "" && text[0] !in "lnorstw"
    ensures KeywordLW(text) == Identifier
  {
  }

  lemma KeywordB(text: string)
    requires text != "" && text[0] == 'b'
    ensures IdentifierKind(text) == Keyword(text)
  {
    hide CheckKeyword, KeywordFI, KeywordLW;
    OnlyFI(text);
    OnlyLW(text);
    assert text[..1] == "b";
    CheckIs(text, 1, "reak", Break, "break");
  }

  lemma KeywordLN(text: string)
    requires text != "" && text[0] in "ln"
    ensures IdentifierKind(text) == Keyword(text)
  {
    hide CheckKeyword, KeywordAE, KeywordFI;
    OnlyAE(text);
    OnlyFI(text);
    assert text[..1] == [text[0]];
    if text[0] == 'l' { CheckIs(text, 1, "et", Let, "let"); } else { CheckIs(text, 1, "il", Nil, "nil"); }
  }

  lemma KeywordOR(text: string)
    requires text != "" && text[0] in "or"
    ensures IdentifierKind(text) == Keyword(text)
  {
    hide CheckKeyword, KeywordAE, KeywordFI;
    OnlyAE(text);
    OnlyFI(text);
    assert text[..1] == [text[0]];
    if text[0] == 'o' { CheckIs(text, 1, "r", Or, "or"); } else { CheckIs(text, 1, "eturn", Return, "return"); }
  }

  lemma KeywordTW(text: string)
    requires text != "" && text[0] in "tw"
    ensures IdentifierKind(text) == Keyword(text)
  {
    hide CheckKeyword, KeywordAE, KeywordFI;
    OnlyAE(text);
    OnlyFI(text);
    assert text[..1] == [text[0]];
    if text[0] == 't' { CheckIs(text, 1, "rue", True, "true"); } else { CheckIs(text, 1, "hile", While, "while"); }
  }

  lemma KeywordA(text: string)
    requires text != "" && text[0] == 'a'
    ensures IdentifierKind(text) == Keyword(text)
  {
    hide CheckKeyword, KeywordFI, KeywordLW;
    OnlyFI(text);
    OnlyLW(text);
    assert text[..1] == "a";
    if |text| > 1 {
      assert text[..2] == [text[0], text[1]];
      match text[1] {
        case 'n' => CheckIs(text, 1, "nd", And, "and");
        case 's' => CheckIs(text, 1, "s", As, "as");
        case 'v' => CheckIs(text, 1, "vatar", Avatar, "avatar");
        case 'w' => CheckIs(text, 1, "wait", Await, "await");
        case _ =>
      }
    }
  }

  lemma KeywordC(text: string)
    requires text != "" && text[0] == 'c'
    ensures IdentifierKind(text) == Keyword(text)
  {
    hide CheckKeyword, KeywordFI, KeywordLW;
    OnlyFI(text);
    OnlyLW(text);
    assert text[..1] == "c";
    if |text| > 1 {
      assert text[..2] == [text[0], text[1]];
      match text[1] {
        case 'a' => CheckIs(text, 2, "se", Case, "case");
        case 'o' => CheckIs(text, 1, "ontinue", Continue, "continue");
        case _ =>
      }
    }
  }

  lemma KeywordE(text: string)
    requires text != "" && text[0] == 'e'
    ensures IdentifierKind(text) == Keyword(text)
  {
    hide CheckKeyword, KeywordFI, KeywordLW;
    OnlyFI(text);
    OnlyLW(text);
    assert text[..1] == "e";
    if |text| > 1 {
      assert text[..2] == [text[0], text[1]];
      match text[1] {
        case 'l' => CheckIs(text, 1, "lse", Else, "else");
        case 'x' => CheckIs(text, 1, "xport", Export, "export");
        case _ =>
      }
    }
  }

  lemma KeywordS(text: string)
    requires text != "" && text[0] == 's'
    ensures IdentifierKind(text) == Keyword(text)
  {
    hide CheckKeyword, KeywordAE, KeywordFI;
    OnlyAE(text);
    OnlyFI(text);
    assert text[..1] == "s";
    if |text| > 1 {
      assert text[..2] == [text[0], text[1]];
      match text[1] {
        case 't' => CheckIs(text, 1, "truct", Struct, "struct");
        case 'w' => CheckIs(text, 1, "witch", Switch, "switch");
        case _ =>
      }
    }
  }

  lemma KeywordD(text: string)
    requires text != "" && text[0] == 'd'
    ensures IdentifierKind(text) == Keyword(text)
  {
    hide CheckKeyword, KeywordFI, KeywordLW;
    OnlyFI(text);
    OnlyLW(text);
    assert text[..1] == "d";
    CheckIs(text, 1, "efer", Defer, "defer");
    CheckIs(text, 1, "efault", Default, "default");
  }

  lemma KeywordF(text: string)
    requires text != "" && text[0] == 'f'
    ensures IdentifierKind(text) == Keyword(text)
  {
    hide CheckKeyword, KeywordAE, KeywordLW;
    OnlyAE(text);
    OnlyLW(text);
    if |text| > 1 {
      assert text[..0] == "" && text[..2] == [text[0], text[1]];
      match text[1] {
        case 'a' => CheckIs(text, 2, "lse", False, "false");
        case 'n' => CheckIs(text, 0, "fn", Fn, "fn");
        case 'o' => CheckIs(text, 2, "r", For, "for");
        case 'u' =>
          CheckIs(text, 0, "function", Fn, "function");
          CheckIs(text, 0, "func", Fn, "func");
        case _ =>
      }
    }
  }

  lemma KeywordIn(text: string)
    requires |text| > 1 && text[..2] == "in"
    ensures IdentifierKind(text) == Keyword(text)
  {
    hide CheckKeyword, KeywordAE, KeywordLW;
    OnlyAE(text);
    OnlyLW(text);
    assert text[0] == 'i' && text[1] == 'n' && text[..0] == "" && text[..1] == "i";
    CheckIs(text, 0, "in", In, "in");
    CheckIs(text, 1, "nterface", Interface, "interface");
  }

  lemma KeywordI(text: string)
    requires text != "" && text[0] == 'i' && (|text| > 1 ==> text[1] != 'n')
    ensures IdentifierKind(text) == Keyword(text)
  {
    hide CheckKeyword, KeywordAE, KeywordLW;
    OnlyAE(text);
    OnlyLW(text);
    assert text[..0] == "" && text[..1] == "i";
    CheckIs(text, 0, "if", If, "if");
    CheckIs(text, 1, "f", If, "if");
  }

  /** The decision tree recognizes exactly the reserved words; `import` is not among them. */
  lemma KeywordsExact(text: string)
    requires text != ""
    ensures IdentifierKind(text) == Keyword(text)
  {
    hide CheckKeyword, KeywordAE, KeywordFI, KeywordLW;
    if text[0] !in "abcde" { OnlyAE(text); }
    if text[0] !in "fi" { OnlyFI(text); }
    if text[0] !in "lnorstw" { OnlyLW(text); }
    match text[0]
    case 'a' => KeywordA(text);
    case 'c' => KeywordC(text);
    case 'd' => KeywordD(text);
    case 'e' => KeywordE(text);
    case 'f' => KeywordF(text);
    case 'i' => if |text| > 1 && text[1] == 'n' { KeywordIn(text); } else { KeywordI(text); }
    case 's' => KeywordS(text);
    case _ =>
      if text[0] == 'b' { KeywordB(text); }
      if text[0] in "ln" { KeywordLN(text); }
      if text[0] in "or" { KeywordOR(text); }
      if text[0] in "tw" { KeywordTW(text); }
  }
}
