/** The tokens of the language as a table of spellings and a few shapes, without a position or a
    scanner; and the scanner against it: at every place it takes the longest token there is. */
module Grammar {
  import opened Lexing
  import opened LexTheorems
  import opened Relexing

  // ----- the table -----

  /** Words with a meaning of their own. */
  function WordSpellings(k: Kind): seq<string> {
    match k
    case True => ["true"]
    case False => ["false"]
    case Nil => ["nil"]
    case Let => ["let"]
    case Fn => ["fn", "func", "function"]
    case If => ["if"]
    case Else => ["else"]
    case While => ["while"]
    case For => ["for"]
    case Return => ["return"]
    case Break => ["break"]
    case Continue => ["continue"]
    case Struct => ["struct"]
    case Interface => ["interface"]
    case Switch => ["switch"]
    case Case => ["case"]
    case Default => ["default"]
    case As => ["as"]
    case Avatar => ["avatar"]
    case Await => ["await"]
    case Defer => ["defer"]
    case Export => ["export"]
    case And => ["and"]
    case Or => ["or"]
    case In => ["in"]
    case _ => []
  }

  /** Operators, brackets and other signs. */
  function SignSpellings(k: Kind): seq<string> {
    match k
    case Plus => ["+"]
    case Minus => ["-"]
    case Multiply => ["*"]
    case Divide => ["/"]
    case Modulo => ["%"]
    case Assign => ["="]
    case PlusAssign => ["+="]
    case MinusAssign => ["-="]
    case Increment => ["++"]
    case Decrement => ["--"]
    case Equal => ["=="]
    case NotEqual => ["!="]
    case Less => ["<"]
    case LessEqual => ["<="]
    case Greater => [">"]
    case GreaterEqual => [">="]
    case And => ["&&"]
    case Or => ["||"]
    case Not => ["!"]
    case LeftParen => ["("]
    case RightParen => [")"]
    case LeftBrace => ["{"]
    case RightBrace => ["}"]
    case LeftBracket => ["["]
    case RightBracket => ["]"]
    case Semicolon => [";"]
    case Comma => [","]
    case Dot => ["."]
    case DotDot => [".."]
    case Colon => [":"]
    case Arrow => ["->", "=>"]
    case At => ["@"]
    case Newline => ["\n"]
    case _ => []
  }

  // ----- the shapes -----

  predicate Letter(c: char) { 65 <= c as int <= 90 || 97 <= c as int <= 122 || c == '_' }
  predicate Digit(c: char) { 48 <= c as int <= 57 }

  predicate Digits(x: string) { x != "" && forall i :: 0 <= i < |x| ==> Digit(x[i]) }

  predicate WordShaped(x: string) {
    x != "" && Letter(x[0]) && forall i :: 0 <= i < |x| ==> Letter(x[i]) || Digit(x[i])
  }

  /** Digits, or digits around a point. */
  predicate Numeral(x: string) {
    Digits(x) || exists m :: 0 < m < |x| && x[m] == '.' && Digits(x[..m]) && Digits(x[m + 1..])
  }

  /** Every backslash has a character after it, and no other character is the quote. */
  predicate Sealed(body: string, quote: char) {
    || body == ""
    || (body[0] == '\\' && |body| >= 2 && Sealed(body[2..], quote))
    || (body[0] != '\\' && body[0] != quote && Sealed(body[1..], quote))
  }

  predicate Between(x: string, quote: char) {
    |x| >= 2 && x[0] == quote && x[|x| - 1] == quote
  }

  function Body(x: string): string
    requires |x| >= 2
  {
    x[1..|x| - 1]
  }

  /** `${` at `i` and no backtick before it. */
  predicate Opens(body: string, i: nat) {
    i + 1 < |body| && body[i] == '$' && body[i + 1] == '{' && forall j :: 0 <= j < i ==> body[j] != '`'
  }

  predicate Opening(body: string) { exists i :: 0 <= i < |body| && Opens(body, i) }

  /** `x` is a token of kind `k`. */
  ghost predicate Denotes(k: Kind, x: string) {
    match k
    case NumberLit => Numeral(x)
    case StringLit => (Between(x, '"') && Sealed(Body(x), '"')) || (Between(x, '\'') && Sealed(Body(x), '\''))
    case BacktickLit => Between(x, '`') && Sealed(Body(x), '`') && !Opening(Body(x))
    case InterpolatedLit => Between(x, '`') && '`' !in Body(x) && Opening(Body(x))
    case Identifier => WordShaped(x) && forall w :: x !in WordSpellings(w)
    case _ => x in WordSpellings(k) || x in SignSpellings(k)
  }

  // ----- signs -----

  /** A listed sign is one or two characters that start nothing else. */
  lemma SignShaped(k: Kind, x: string)
    requires x in SignSpellings(k)
    ensures IsSource(x) && 1 <= |x| <= 2 && !k.Error?
    ensures !Letter(x[0]) && !Digit(x[0]) && x[0] != '"' && x[0] != '\'' && x[0] != '`'
  {
  }

  /** A listed sign is what the scanner makes of it alone. */
  lemma SignAlone(k: Kind, x: string)
    requires x in SignSpellings(k)
    ensures IsSource(x) && x != "" && Punctuation(x, 0) == Lexeme(k, |x|)
  {
  }

  /** A sign is read off at most two characters. */
  lemma PairLocal(s: string, p: nat, x: string)
    requires IsSource(s) && p + 1 < |s| && IsSource(x) && |x| == 2 && x[0] == s[p] && x[1] == s[p + 1]
    ensures Punctuation(s, p) == Lexeme(Punctuation(x, 0).kind, p + Punctuation(x, 0).end)
  {
    hide Either;
    EitherMoved(s, p + 1, x, 1);
  }

  lemma EitherMoved(s: string, p: nat, x: string, q: nat)
    requires CharAt(s, p) == CharAt(x, q) && q <= p
    ensures forall c, two, one :: Either(s, p, c, two, one).kind == Either(x, q, c, two, one).kind
    ensures forall c, two, one :: Either(s, p, c, two, one).end == Either(x, q, c, two, one).end + (p - q)
  {
  }

  lemma SingleLocal(s: string, p: nat, x: string)
    requires IsSource(s) && p < |s| && IsSource(x) && |x| == 1 && x[0] == s[p] && Punctuation(s, p).end == p + 1
    ensures Punctuation(s, p).kind == Punctuation(x, 0).kind
  {
    hide Either;
    EitherSingle(s, p + 1, x);
  }

  lemma EitherSingle(s: string, p: nat, x: string)
    requires |x| == 1
    ensures forall c, two, one :: Either(s, p, c, two, one).end == p ==> Either(s, p, c, two, one).kind == one
    ensures forall c, two, one :: c != '\0' ==> Either(x, 1, c, two, one).kind == one
  {
  }

  lemma SignListed(s: string, p: nat)
    requires IsSource(s) && p < |s| && !Punctuation(s, p).kind.Error?
    ensures s[p..Punctuation(s, p).end] in SignSpellings(Punctuation(s, p).kind)
  {
    var e := Punctuation(s, p).end;
    if e == p + 1 {
      assert s[p..e] == [s[p]];
    } else {
      assert s[p..e] == [s[p], s[p + 1]];
    }
  }

  // ----- words -----

  predicate InAE(k: Kind) {
    k in {And, As, Avatar, Await, Break, Case, Continue, Default, Defer, Else, Export}
  }

  predicate InFI(k: Kind) { k in {False, Fn, For, If, In, Interface} }

  lemma WordAE(k: Kind, x: string)
    requires x in WordSpellings(k) && InAE(k)
    ensures KeywordAE(x) == k
  {
    if k in {And, As, Avatar, Await, Break} { EarlyAE(k, x); } else { LateAE(k, x); }
  }

  lemma EarlyAE(k: Kind, x: string)
    requires x in WordSpellings(k) && k in {And, As, Avatar, Await, Break}
    ensures KeywordAE(x) == k
  {
  }

  lemma LateAE(k: Kind, x: string)
    requires x in WordSpellings(k) && k in {Case, Continue, Default, Defer, Else, Export}
    ensures KeywordAE(x) == k
  {
    assert x[0] in "cde";
  }

  lemma WordFI(k: Kind, x: string)
    requires x in WordSpellings(k) && InFI(k)
    ensures x[0] in "fi" && KeywordFI(x) == k
  {
  }

  lemma WordLW(k: Kind, x: string)
    requires x in WordSpellings(k) && !InAE(k) && !InFI(k)
    ensures x[0] in "lnorstw" && KeywordLW(x) == k && k != Identifier
  {
  }

  lemma WordAlone(k: Kind, x: string)
    requires x in WordSpellings(k)
    ensures Keyword(x) == k
  {
    hide WordSpellings, KeywordAE, KeywordFI, KeywordLW;
    WordLetters(k, x);
    if InAE(k) {
      WordAE(k, x);
    } else if InFI(k) {
      WordFI(k, x);
      OnlyAE(x);
    } else {
      WordLW(k, x);
      OnlyAE(x);
      OnlyFI(x);
    }
  }

  lemma ListedAE(x: string)
    ensures KeywordAE(x) != Identifier ==> x in WordSpellings(KeywordAE(x))
  {
    hide WordSpellings;
    TableAE();
  }

  lemma TableAE()
    ensures WordSpellings(And) == ["and"] && WordSpellings(As) == ["as"] && WordSpellings(Avatar) == ["avatar"]
    ensures WordSpellings(Await) == ["await"] && WordSpellings(Break) == ["break"] && WordSpellings(Case) == ["case"]
    ensures WordSpellings(Continue) == ["continue"] && WordSpellings(Default) == ["default"]
    ensures WordSpellings(Defer) == ["defer"] && WordSpellings(Else) == ["else"] && WordSpellings(Export) == ["export"]
  {
  }

  lemma ListedFI(x: string)
    ensures KeywordFI(x) != Identifier ==> x in WordSpellings(KeywordFI(x))
  {
  }

  lemma ListedLW(x: string)
    ensures KeywordLW(x) != Identifier ==> x in WordSpellings(KeywordLW(x))
  {
  }

  lemma WordListed(x: string)
    ensures Keyword(x) != Identifier ==> x in WordSpellings(Keyword(x))
  {
    hide WordSpellings, KeywordAE, KeywordFI, KeywordLW;
    ListedAE(x);
    ListedFI(x);
    ListedLW(x);
  }

  lemma WordLetters(k: Kind, x: string)
    requires x in WordSpellings(k)
    ensures WordShaped(x)
  {
    hide WordSpellings, WordShaped;
    if InAE(k) { LettersAE(k, x); } else if InFI(k) { LettersFI(k, x); } else { LettersLW(k, x); }
  }

  lemma LettersAE(k: Kind, x: string)
    requires x in WordSpellings(k) && InAE(k)
    ensures WordShaped(x)
  {
  }

  lemma LettersFI(k: Kind, x: string)
    requires x in WordSpellings(k) && InFI(k)
    ensures WordShaped(x)
  {
  }

  lemma LettersLW(k: Kind, x: string)
    requires x in WordSpellings(k) && !InAE(k) && !InFI(k)
    ensures WordShaped(x)
  {
  }

  // ----- the first character decides the shape -----

  lemma WordFirst(k: Kind, x: string)
    requires Denotes(k, x) && x != "" && Letter(x[0])
    ensures WordShaped(x) && k == Keyword(x)
  {
    hide WordSpellings, SignSpellings, Keyword, Punctuation;
    if x in WordSpellings(k) {
      WordAlone(k, x);
      WordLetters(k, x);
    } else if x in SignSpellings(k) {
      SignShaped(k, x);
    } else {
      WordListed(x);
    }
  }

  lemma OtherFirst(k: Kind, x: string)
    requires Denotes(k, x) && x != "" && !Letter(x[0])
    ensures Digit(x[0]) ==> k == NumberLit
    ensures x[0] == '"' || x[0] == '\'' ==> k == StringLit
    ensures x[0] == '`' ==> k == BacktickLit || k == InterpolatedLit
    ensures !Digit(x[0]) && x[0] != '"' && x[0] != '\'' && x[0] != '`' ==> x in SignSpellings(k)
  {
    hide WordSpellings, SignSpellings, Keyword, Punctuation, Sealed, Opening;
    if x in WordSpellings(k) {
      WordLetters(k, x);
    } else if x in SignSpellings(k) {
      SignShaped(k, x);
    } else if k == NumberLit {
      NumeralFirst(x);
    }
  }

  lemma NumeralFirst(x: string)
    requires Numeral(x)
    ensures x != "" && Digit(x[0])
  {
    if !Digits(x) {
      var m :| 0 < m < |x| && x[m] == '.' && Digits(x[..m]) && Digits(x[m + 1..]);
      assert x[..m][0] == x[0];
    }
  }

  lemma NotEmpty(k: Kind, x: string)
    requires Denotes(k, x)
    ensures x != ""
  {
    hide WordSpellings, SignSpellings, Keyword, Punctuation, Sealed, Opening;
    if x in WordSpellings(k) {
      WordLetters(k, x);
    } else if x in SignSpellings(k) {
      SignShaped(k, x);
    } else if k == NumberLit {
      NumeralFirst(x);
    }
  }

  // ----- the longest token -----

  /** From `p` on, the longest token is of kind `k` and ends at `e`; or, for an error, there is none. */
  ghost predicate Longest(s: string, p: nat, k: Kind, e: nat)
    requires p < e <= |s|
  {
    && (k != Error ==> Denotes(k, s[p..e]))
    && forall w: Kind, q :: p < q <= |s| && Denotes(w, s[p..q]) ==> k != Error && (q < e || (q == e && w == k))
  }

  lemma LongestSign(s: string, p: nat)
    requires IsSource(s) && p < |s|
    requires !Letter(s[p]) && !Digit(s[p]) && s[p] != '"' && s[p] != '\'' && s[p] != '`'
    ensures Longest(s, p, Punctuation(s, p).kind, Punctuation(s, p).end)
  {
    hide Punctuation, SignSpellings, WordSpellings, Numeral;
    var r := Punctuation(s, p);
    if r.kind != Error {
      SignListed(s, p);
      SignShaped(r.kind, s[p..r.end]);
      SignKind(r.kind, s[p..r.end]);
    }
    forall w: Kind, q | p < q <= |s| && Denotes(w, s[p..q])
      ensures r.kind != Error && (q < r.end || (q == r.end && w == r.kind))
    {
      var x := s[p..q];
      assert x[0] == s[p];
      OtherFirst(w, x);
      SignShaped(w, x);
      SignAlone(w, x);
      if |x| == 2 { assert x[1] == s[p + 1]; PairLocal(s, p, x); }
      if |x| == 1 && r.end == p + 1 { SingleLocal(s, p, x); }
      if |x| == 1 && r.end == p + 2 { PairNoError(s, p); }
    }
  }

  lemma SignKind(k: Kind, x: string)
    requires x in SignSpellings(k)
    ensures Denotes(k, x)
  {
  }

  lemma PairNoError(s: string, p: nat)
    requires IsSource(s) && p < |s| && Punctuation(s, p).end == p + 2
    ensures Punctuation(s, p).kind != Error
  {
  }

  lemma LongestWord(s: string, p: nat)
    requires IsSource(s) && p < |s| && Letter(s[p])
    ensures var e := WordStop(s, p + 1); Longest(s, p, IdentifierKind(s[p..e]), e)
  {
    hide IdentifierKind, Keyword, SignSpellings, WordSpellings;
    var e := WordStop(s, p + 1);
    var x := s[p..e];
    KeywordsExact(x);
    WordKind(x);
    forall w: Kind, q | p < q <= |s| && Denotes(w, s[p..q])
      ensures IdentifierKind(x) != Error && (q < e || (q == e && w == IdentifierKind(x)))
    {
      var y := s[p..q];
      assert y[0] == s[p];
      WordFirst(w, y);
      WordInside(s, p, q);
    }
  }

  lemma WordInside(s: string, p: nat, q: nat)
    requires p < q <= |s| && WordShaped(s[p..q])
    ensures forall i :: p <= i < q ==> IsWord(s[i])
  {
    forall i | p <= i < q
      ensures IsWord(s[i])
    {
      assert s[p..q][i - p] == s[i];
    }
  }

  /** A word is of the kind the table of reserved words says. */
  lemma WordKind(x: string)
    requires WordShaped(x)
    ensures Denotes(Keyword(x), x) && Keyword(x) != Error
  {
    hide WordSpellings, SignSpellings, Keyword;
    WordListed(x);
    if Keyword(x) == Identifier {
      forall w
        ensures x !in WordSpellings(w)
      {
        if x in WordSpellings(w) { WordAlone(w, x); WordSpelled(w, x); }
      }
    } else {
      WordSpelled(Keyword(x), x);
    }
  }

  lemma WordSpelled(k: Kind, x: string)
    requires x in WordSpellings(k)
    ensures k != Identifier && k != Error && Denotes(k, x)
  {
  }

  lemma LongestNumber(s: string, p: nat)
    requires IsSource(s) && p < |s| && Digit(s[p])
    ensures Longest(s, p, NumberLit, NumberStop(s, p + 1))
  {
    hide SignSpellings, WordSpellings;
    var d, e := DigitStop(s, p + 1), NumberStop(s, p + 1);
    var x := s[p..e];
    if d < e {
      var m := d - p;
      assert x[..m] == s[p..d] && x[m + 1..] == s[d + 1..e];
      assert x[m] == '.' && Digits(x[..m]) && Digits(x[m + 1..]);
    }
    assert Numeral(x);
    forall w: Kind, q | p < q <= |s| && Denotes(w, s[p..q])
      ensures q < e || (q == e && w == NumberLit)
    {
      var y := s[p..q];
      assert y[0] == s[p];
      OtherFirst(w, y);
      NumeralEnds(s, p, q);
    }
  }

  lemma DigitsInside(s: string, p: nat, q: nat)
    requires p < q <= |s| && Digits(s[p..q])
    ensures forall i :: p <= i < q ==> IsDigit(s[i])
  {
    forall i | p <= i < q
      ensures IsDigit(s[i])
    {
      assert s[p..q][i - p] == s[i];
    }
  }

  lemma NumeralEnds(s: string, p: nat, q: nat)
    requires IsSource(s) && p < q <= |s| && Digit(s[p]) && Numeral(s[p..q])
    ensures q <= NumberStop(s, p + 1)
  {
    hide Digits;
    var y := s[p..q];
    if Digits(y) {
      DigitsInside(s, p, q);
    } else {
      var m :| 0 < m < |y| && y[m] == '.' && Digits(y[..m]) && Digits(y[m + 1..]);
      FractionEnds(s, p, q, m);
    }
  }

  lemma FractionEnds(s: string, p: nat, q: nat, m: nat)
    requires IsSource(s) && p + m < q <= |s| && Digit(s[p]) && 0 < m && s[p + m] == '.'
    requires Digits(s[p..q][..m]) && Digits(s[p..q][m + 1..])
    ensures q <= NumberStop(s, p + 1)
  {
    hide Digits;
    assert s[p..q][..m] == s[p..p + m] && s[p..q][m + 1..] == s[p + m + 1..q];
    NoDigits(s[p + m + 1..q]);
    DigitsInside(s, p, p + m);
    DigitsInside(s, p + m + 1, q);
    PointAt(s, p, DigitStop(s, p + 1), p + m);
  }

  lemma NoDigits(x: string)
    requires Digits(x)
    ensures x != ""
  {
  }

  /** The digits stop at the point. */
  lemma PointAt(s: string, p: nat, d: nat, t: nat)
    requires p < d <= |s| && p < t < |s| && s[t] == '.' && (d < |s| ==> !IsDigit(s[d]))
    requires (forall i :: p <= i < d ==> IsDigit(s[i])) && forall i :: p <= i < t ==> IsDigit(s[i])
    ensures d == t
  {
  }

  // ----- literals in quotes -----

  lemma {:induction false} QuoteSealed(s: string, p: nat, quote: char)
    requires p <= |s| && QuoteStop(s, p, quote) < |s|
    ensures Sealed(s[p..QuoteStop(s, p, quote)], quote)
    decreases |s| - p
  {
    var stop := QuoteStop(s, p, quote);
    if s[p] != quote {
      var next := if s[p] == '\\' then p + 2 else p + 1;
      QuoteSealed(s, next, quote);
      assert s[p..stop][next - p..] == s[next..stop];
    }
  }

  lemma {:induction false} SealedStops(s: string, p: nat, t: nat, quote: char)
    requires p <= t < |s| && s[t] == quote && quote != '\\' && Sealed(s[p..t], quote)
    ensures QuoteStop(s, p, quote) == t
    decreases t - p
  {
    if p < t {
      var next := if s[p] == '\\' then p + 2 else p + 1;
      assert s[p..t][0] == s[p] && s[p..t][next - p..] == s[next..t];
      SealedStops(s, next, t, quote);
    }
  }

  /** A text between quotes, taken apart. */
  lemma BetweenParts(s: string, p: nat, q: nat, quote: char)
    requires p < q <= |s|
    ensures Between(s[p..q], quote) <==> q >= p + 2 && s[p] == quote && s[q - 1] == quote
    ensures q >= p + 2 ==> Body(s[p..q]) == s[p + 1..q - 1]
  {
    if q >= p + 2 { assert s[p..q] == [s[p]] + s[p + 1..q - 1] + [s[q - 1]]; }
  }

  lemma StringFound(s: string, p: nat)
    requires p < |s| && (s[p] == '"' || s[p] == '\'') && QuoteStop(s, p + 1, s[p]) < |s|
    ensures Denotes(StringLit, s[p..QuoteStop(s, p + 1, s[p]) + 1])
  {
    hide *;
    var quote := s[p];
    var stop := QuoteStop(s, p + 1, quote);
    QuoteSealed(s, p + 1, quote);
    BetweenParts(s, p, stop + 1, quote);
    StringDenoted(s[p..stop + 1], quote);
  }

  lemma StringDenoted(x: string, quote: char)
    requires (quote == '"' || quote == '\'') && Between(x, quote) && Sealed(Body(x), quote)
    ensures Denotes(StringLit, x)
  {
    hide Sealed, Body;
  }

  lemma StringOnly(s: string, p: nat, q: nat)
    requires p < q <= |s| && (s[p] == '"' || s[p] == '\'') && Denotes(StringLit, s[p..q])
    ensures QuoteStop(s, p + 1, s[p]) == q - 1
  {
    hide Sealed, QuoteStop, Between, Body;
    BetweenParts(s, p, q, '"');
    BetweenParts(s, p, q, '\'');
    SealedStops(s, p + 1, q - 1, s[p]);
  }

  lemma LongestString(s: string, p: nat)
    requires IsSource(s) && p < |s| && (s[p] == '"' || s[p] == '\'')
    ensures var r := Quoted(s, p + 1, QuoteStop(s, p + 1, s[p]), StringLit); Longest(s, p, r.kind, r.end)
  {
    hide QuoteStop, Denotes;
    var stop := QuoteStop(s, p + 1, s[p]);
    if stop < |s| { StringFound(s, p); }
    forall w: Kind, q | p < q <= |s| && Denotes(w, s[p..q])
      ensures q == stop + 1 && w == StringLit
    {
      assert s[p..q][0] == s[p];
      OtherFirst(w, s[p..q]);
      StringOnly(s, p, q);
    }
  }

  lemma {:induction false} InterpolatesIs(s: string, p: nat, t: nat)
    requires p <= t < |s| && s[t] == '`'
    ensures Interpolates(s, p) <==> Opening(s[p..t])
    decreases t - p
  {
    var body := s[p..t];
    if p < t && s[p] != '`' {
      InterpolatesIs(s, p + 1, t);
      var rest := s[p + 1..t];
      assert body[1..] == rest && body[0] == s[p];
      if s[p] == '$' && s[p + 1] == '{' {
        assert Opens(body, 0);
      } else {
        OpeningRest(body);
      }
    }
  }

  lemma OpeningRest(body: string)
    requires body != "" && body[0] != '`' && !(|body| > 1 && body[0] == '$' && body[1] == '{')
    ensures Opening(body) <==> Opening(body[1..])
  {
    var rest := body[1..];
    if Opening(body) {
      var i :| 0 <= i < |body| && Opens(body, i);
      assert Opens(rest, i - 1);
    }
    if Opening(rest) {
      var i :| 0 <= i < |rest| && Opens(rest, i);
      assert Opens(body, i + 1);
    }
  }

  lemma BacktickFound(s: string, p: nat)
    requires IsSource(s) && p < |s| && s[p] == '`' && Scan(s, p).kind != Error
    ensures Denotes(Scan(s, p).kind, s[p..Scan(s, p).end])
  {
    hide SignSpellings, WordSpellings, Sealed, Numeral, QuoteStop, Interpolates, PlainStop, Opening, Between, Body;
    var e := Scan(s, p).end;
    BetweenParts(s, p, e, '`');
    InterpolatesIs(s, p + 1, e - 1);
    if !Interpolates(s, p + 1) { QuoteSealed(s, p + 1, '`'); }
  }

  lemma PlainOnly(s: string, p: nat, q: nat)
    requires p < q <= |s| && s[p] == '`' && Denotes(BacktickLit, s[p..q])
    ensures !Interpolates(s, p + 1) && QuoteStop(s, p + 1, '`') == q - 1
  {
    hide Sealed, QuoteStop, Interpolates, Opening, Between, Body;
    BetweenParts(s, p, q, '`');
    InterpolatesIs(s, p + 1, q - 1);
    SealedStops(s, p + 1, q - 1, '`');
  }

  lemma InterpolatedOnly(s: string, p: nat, q: nat)
    requires p < q <= |s| && s[p] == '`' && Denotes(InterpolatedLit, s[p..q])
    ensures Interpolates(s, p + 1) && PlainStop(s, p + 1, '`') == q - 1
  {
    hide Interpolates, Opening, Between, Body, PlainStop;
    BetweenParts(s, p, q, '`');
    InterpolatesIs(s, p + 1, q - 1);
    forall i | p + 1 <= i < q - 1
      ensures s[i] != '`'
    {
      assert s[i] == s[p + 1..q - 1][i - (p + 1)];
    }
  }

  lemma LongestBacktick(s: string, p: nat)
    requires IsSource(s) && p < |s| && s[p] == '`'
    ensures Longest(s, p, Scan(s, p).kind, Scan(s, p).end)
  {
    hide QuoteStop, Interpolates, PlainStop, Denotes, IdentifierKind, Punctuation;
    var r := Scan(s, p);
    if r.kind != Error { BacktickFound(s, p); }
    forall w: Kind, q | p < q <= |s| && Denotes(w, s[p..q])
      ensures r.kind != Error && q == r.end && w == r.kind
    {
      assert s[p..q][0] == s[p];
      OtherFirst(w, s[p..q]);
      if w == BacktickLit { PlainOnly(s, p, q); } else { InterpolatedOnly(s, p, q); }
    }
  }

  /** The scanner takes the longest token there is, whatever its kind, and reports an error exactly
      where there is none. */
  lemma ScanLongest(s: string, p: nat)
    requires IsSource(s) && p < |s|
    ensures Longest(s, p, Scan(s, p).kind, Scan(s, p).end)
  {
    hide Longest, Punctuation, IdentifierKind, QuoteStop, WordStop, NumberStop, PlainStop, Interpolates;
    var c := s[p];
    if Letter(c) {
      LongestWord(s, p);
    } else if Digit(c) {
      LongestNumber(s, p);
    } else if c == '"' || c == '\'' {
      LongestString(s, p);
    } else if c == '`' {
      LongestBacktick(s, p);
    } else {
      LongestSign(s, p);
    }
  }

  /** Every token of a text: it does not begin like a blank or a comment, and it is the longest one
      from where it begins; the last one stands at the end of the text. */
  lemma {:induction false} TokensLongest(s: string, p: nat, t: Token)
    requires IsSource(s) && p <= |s| && t in Tokens(s, p)
    ensures if t.kind == Eof then t.start == t.end == |s|
            else
              && t.start < t.end <= |s| && Longest(s, t.start, t.kind, t.end)
              && s[t.start] !in " \r\t" && !("//" <= s[t.start..]) && !("/*" <= s[t.start..])
    decreases |s| - p
  {
    hide Longest, Scan, SkipBlanks, StartsGap;
    var q := SkipBlanks(s, p);
    if q < |s| {
      var x := Scan(s, q);
      if t in Tokens(s, x.end) {
        TokensLongest(s, x.end, t);
      } else {
        SkipStops(s, p);
        NoGap(s, q);
        ScanLongest(s, q);
        ScanNotEof(s, q);
      }
    }
  }

  lemma NoGap(s: string, q: nat)
    requires q < |s| && !StartsGap(s, q)
    ensures s[q] !in " \r\t" && !("//" <= s[q..]) && !("/*" <= s[q..])
  {
  }
}
