/** The scanner itself: a position and a line counter moved in place by loops over the text. */
module Lexers {
  import opened Lexing
  import opened LexTheorems
  import opened Wrappers

  class Lexer {
    const source: string
    var start: nat
    var current: nat
    var line: nat

    predicate Valid()
      reads this
    {
      IsSource(source) && start <= current <= |source|
    }

    constructor (source: string)
      requires IsSource(source)
      ensures Valid() && this.source == source && current == 0 && line == 1
    {
      this.source := source;
      start, current, line := 0, 0, 1;
    }

    function Peek(): char
      reads this
    {
      CharAt(source, current)
    }

    function PeekNext(): char
      reads this
    {
      CharAt(source, current + 1)
    }

    method Advance() returns (c: char)
      requires Valid() && current < |source|
      modifies this`current
      ensures Valid() && current == old(current) + 1 && c == source[old(current)]
    {
      c := source[current];
      current := current + 1;
    }

    method Match(expected: char) returns (matched: bool)
      requires Valid() && expected != '\0'
      modifies this`current
      ensures Valid() && matched == (CharAt(source, old(current)) == expected)
      ensures current == if matched then old(current) + 1 else old(current)
    {
      if current == |source| { return false; }
      if source[current] != expected { return false; }
      current := current + 1;
      return true;
    }

    /** Steps over one character; a newline moves the line counter. */
    method AdvanceCounting()
      requires Valid() && current < |source|
      modifies this`current, this`line
      ensures Valid() && current == old(current) + 1
      ensures line == old(line) + if source[old(current)] == '\n' then 1 else 0
    {
      if Peek() == '\n' { line := line + 1; }
      var _ := Advance();
    }

    method SkipBlockComment()
      requires Valid()
      modifies this`current, this`line
      ensures Valid() && current == BlockStop(source, old(current))
      ensures line == old(line) + Newlines(source, old(current), current)
    {
      ghost var stop := BlockStop(source, current);
      while current < |source|
        invariant Valid() && current <= stop == BlockStop(source, current)
        invariant line + Newlines(source, current, stop) == old(line) + Newlines(source, old(current), stop)
      {
        if Peek() == '*' && PeekNext() == '/' {
          assert Newlines(source, current + 1, stop) == 0;
          var _ := Advance();
          var _ := Advance();
          break;
        }
        AdvanceCounting();
      }
    }

    /** Every `//` stops at a newline that is left for the next token. */
    method SkipLineComment()
      requires Valid()
      modifies this`current
      ensures Valid() && current == PlainStop(source, old(current), '\n')
    {
      while current < |source| && Peek() != '\n'
        invariant Valid() && PlainStop(source, current, '\n') == PlainStop(source, old(current), '\n')
      {
        var _ := Advance();
      }
    }

    method SkipWhitespace()
      requires Valid()
      modifies this`current, this`line
      ensures Valid() && current == SkipBlanks(source, old(current))
      ensures line == old(line) + Newlines(source, old(current), current)
    {
      ghost var stop := SkipBlanks(source, current);
      while true
        invariant Valid() && current <= stop == SkipBlanks(source, current)
        invariant line + Newlines(source, current, stop) == old(line) + Newlines(source, old(current), stop)
        decreases |source| - current
      {
        ghost var here := current;
        match Peek()
        case ' ' | '\r' | '\t' =>
          var _ := Advance();
        case '/' =>
          if PeekNext() == '/' {
            SkipLineComment();
            NoNewline(source, here, current);
            NewlinesSplit(source, here, current, stop);
          } else if PeekNext() == '*' {
            var _ := Advance();
            var _ := Advance();
            SkipBlockComment();
            NewlinesSplit(source, here, current, stop);
          } else {
            return;
          }
        case _ =>
          return;
      }
    }
  
    method Word() returns (kind: Kind)
      requires Valid() && start < current
      modifies this`current
      ensures Valid() && current == WordStop(source, old(current))
      ensures kind == IdentifierKind(source[start..current])
    {
      while IsAlpha(Peek()) || IsDigit(Peek())
        invariant Valid() && start < current && WordStop(source, current) == WordStop(source, old(current))
        decreases |source| - current
      {
        var _ := Advance();
      }
      kind := IdentifierKind(source[start..current]);
    }

    method Digits()
      requires Valid()
      modifies this`current
      ensures Valid() && current == DigitStop(source, old(current))
    {
      while IsDigit(Peek())
        invariant Valid() && DigitStop(source, current) == DigitStop(source, old(current))
        decreases |source| - current
      {
        var _ := Advance();
      }
    }

    method Number()
      requires Valid()
      modifies this`current
      ensures Valid() && current == NumberStop(source, old(current))
    {
      Digits();
      if Peek() == '.' && IsDigit(PeekNext()) {
        var _ := Advance();
        Digits();
      }
    }

    /** The rest of a string literal: an escaped character ends nothing and counts no line. */
    method QuotedString(quote: char, literal: Kind) returns (kind: Kind)
      requires Valid() && quote in "\"'`"
      modifies this`current, this`line
      ensures Valid()
      ensures Lexeme(kind, current) == Quoted(source, old(current), QuoteStop(source, old(current), quote), literal)
      ensures line == old(line) + Unescaped(source, old(current), current)
    {
      hide IsSource, Newlines;
      ghost var stop := QuoteStop(source, current, quote);
      ghost var end := if stop == |source| then stop else stop + 1;
      while current < |source| && Peek() != quote
        invariant Valid() && current <= stop == QuoteStop(source, current, quote)
        invariant line + Unescaped(source, current, end) == old(line) + Unescaped(source, old(current), end)
        decreases |source| - current
      {
        if Peek() == '\\' {
          var _ := Advance();
          if current < |source| { var _ := Advance(); }
        } else {
          AdvanceCounting();
        }
      }
      if current == |source| { return Error; }
      var _ := Advance();
      return literal;
    }

    method FindsInterpolation() returns (found: bool)
      requires Valid()
      ensures found == Interpolates(source, current)
    {
      var scan := current;
      while scan < |source| && source[scan] != '`'
        invariant current <= scan <= |source| && Interpolates(source, scan) == Interpolates(source, current)
      {
        if source[scan] == '$' && CharAt(source, scan + 1) == '{' { return true; }
        scan := scan + 1;
      }
      return false;
    }

    /** The rest of a backtick literal; with an interpolation in it, backslashes mean nothing. */
    method BacktickString() returns (kind: Kind)
      requires Valid() && 0 < current && source[current - 1] == '`'
      modifies this`current, this`line
      ensures Valid() && Lexeme(kind, current) == Scan(source, old(current) - 1)
      ensures line == old(line) + TokenLines(source, old(current) - 1, current)
    {
      var interpolated := FindsInterpolation();
      if !interpolated {
        kind := QuotedString('`', BacktickLit);
      } else {
        ghost var stop := PlainStop(source, current, '`');
        ghost var end := if stop == |source| then stop else stop + 1;
        while current < |source| && Peek() != '`'
          invariant Valid() && old(current) <= current <= stop == PlainStop(source, current, '`')
          invariant line + Newlines(source, current, end) == old(line) + Newlines(source, old(current), end)
          decreases |source| - current
        {
          AdvanceCounting();
        }
        if current == |source| { return Error; }
        var _ := Advance();
        return InterpolatedLit;
      }
    }

    /** An operator or a bracket whose first character has been consumed. */
    method Symbol(c: char) returns (kind: Kind)
      requires Valid() && 0 < current && source[current - 1] == c
      modifies this`current, this`line
      ensures Valid() && Lexeme(kind, current) == Punctuation(source, old(current) - 1)
      ensures line == old(line) + if c == '\n' then 1 else 0
    {
      match c
      case '(' => return LeftParen;
      case ')' => return RightParen;
      case '{' => return LeftBrace;
      case '}' => return RightBrace;
      case '[' => return LeftBracket;
      case ']' => return RightBracket;
      case ';' => return Semicolon;
      case ',' => return Comma;
      case '.' =>
        var twice := Match('.');
        return if twice then DotDot else Dot;
      case ':' => return Colon;
      case '@' => return At;
      case '\n' =>
        line := line + 1;
        return Newline;
      case '+' =>
        var twice := Match('+');
        if twice { return Increment; }
        var assigns := Match('=');
        return if assigns then PlusAssign else Plus;
      case '-' =>
        var twice := Match('-');
        if twice { return Decrement; }
        var assigns := Match('=');
        if assigns { return MinusAssign; }
        var points := Match('>');
        return if points then Arrow else Minus;
      case '*' => return Multiply;
      case '/' => return Divide;
      case '%' => return Modulo;
      case '!' =>
        var equals := Match('=');
        return if equals then NotEqual else Not;
      case '=' =>
        var equals := Match('=');
        if equals { return Equal; }
        var points := Match('>');
        return if points then Arrow else Assign;
      case '<' =>
        var equals := Match('=');
        return if equals then LessEqual else Less;
      case '>' =>
        var equals := Match('=');
        return if equals then GreaterEqual else Greater;
      case '&' =>
        var twice := Match('&');
        return if twice then And else Error;
      case '|' =>
        var twice := Match('|');
        return if twice then Or else Error;
      case _ => return Error;
    }

    /** The next token: gaps are skipped, the token is `Scan`'s, and the counter has moved by
        the newlines of the gap and those counted inside the token. */
    method ScanToken() returns (t: Token)
      requires Valid()
      modifies this`start, this`current, this`line
      ensures Valid()
      ensures var q := SkipBlanks(source, old(current));
              && start == q
              && if q == |source| then
                   t == Token(Eof, q, q) && current == q && line == old(line) + Newlines(source, old(current), q)
                 else
                   && t == Token(Scan(source, q).kind, q, current) && current == Scan(source, q).end
                   && line == old(line) + Newlines(source, old(current), q) + TokenLines(source, q, current)
    {
      hide IdentifierKind, Punctuation, SkipBlanks, WordStop, NumberStop, QuoteStop, PlainStop, Interpolates,
        Newlines, Unescaped;
      SkipWhitespace();
      start := current;
      if current == |source| { return Token(Eof, start, current); }
      var c := Advance();
      var kind: Kind;
      if IsAlpha(c) {
        kind := Word();
      } else if IsDigit(c) {
        Number();
        kind := NumberLit;
      } else if c == '"' || c == '\'' {
        kind := QuotedString(c, StringLit);
      } else if c == '`' {
        kind := BacktickString();
      } else {
        kind := Symbol(c);
      }
      return Token(kind, start, current);
    }
  }

  /** The tokenizing loop of the command line: all tokens up to the end of the file, or nothing
      when one of them is an error. */
  method Tokenize(source: string) returns (tokens: Option<seq<Token>>, lines: nat)
    requires IsSource(source)
    ensures tokens.Some? <==> NoErrors(Tokens(source, 0))
    ensures tokens.Some? ==> tokens.value == Tokens(source, 0) && lines == 1 + LinesFrom(source, 0)
  {
    hide Scan, SkipBlanks, TokenLines, Newlines, IsSource;
    var lexer := new Lexer(source);
    var found: seq<Token> := [];
    while true
      invariant fresh(lexer) && lexer.Valid() && lexer.source == source && NoErrors(found)
      invariant Tokens(source, 0) == found + Tokens(source, lexer.current)
      invariant 1 + LinesFrom(source, 0) == lexer.line + LinesFrom(source, lexer.current)
      decreases |source| - lexer.current
    {
      ghost var rest, q := Tokens(source, lexer.current), SkipBlanks(source, lexer.current);
      var token := lexer.ScanToken();
      found := found + [token];
      assert rest[0] == token && Tokens(source, 0) == found + rest[1..];
      if token.kind.Error? {
        assert token in Tokens(source, 0);
        return None, lexer.line;
      }
      if token.kind.Eof? {
        assert q == |source| by { if q < |source| { ScanNotEof(source, q); } }
        return Some(found), lexer.line;
      }
    }
  }
}
