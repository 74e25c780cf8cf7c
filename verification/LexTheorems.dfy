/** What scanning a whole text guarantees: it ends, it covers the text, it counts lines,
    and it can be repeated on its own output. */
module LexTheorems {
  import opened Lexing

  // ----- gaps -----

  predicate StarSlash(s: string, k: nat) {
    k + 1 < |s| && s[k] == '*' && s[k + 1] == '/'
  }

  /** From `//` up to, but not including, the end of the line. */
  predicate IsLineComment(s: string, p: nat, q: nat)
    requires p <= q <= |s|
  {
    && p + 2 <= q && s[p] == '/' && s[p + 1] == '/'
    && (forall i :: p <= i < q ==> s[i] != '\n') && (q < |s| ==> s[q] == '\n')
  }

  /** From slash-star to the first star-slash after it, or to the end of the text. */
  predicate IsBlockComment(s: string, p: nat, q: nat)
    requires p <= q <= |s|
  {
    && p + 2 <= q && s[p] == '/' && s[p + 1] == '*'
    && ((p + 4 <= q && StarSlash(s, q - 2) && forall k :: p + 2 <= k < q - 2 ==> !StarSlash(s, k))
        || (q == |s| && forall k :: p + 2 <= k < q ==> !StarSlash(s, k)))
  }

  /** Only blanks and comments. */
  predicate IsGap(s: string, p: nat, q: nat)
    requires p <= q <= |s|
    decreases q - p
  {
    || p == q
    || (s[p] in " \r\t" && IsGap(s, p + 1, q))
    || exists r :: p < r <= q && (IsLineComment(s, p, r) || IsBlockComment(s, p, r)) && IsGap(s, r, q)
  }

  lemma {:induction false} BlockStopIs(s: string, p: nat)
    requires p <= |s|
    ensures var r := BlockStop(s, p);
            || (p + 2 <= r && StarSlash(s, r - 2) && forall k :: p <= k < r - 2 ==> !StarSlash(s, k))
            || (r == |s| && forall k :: p <= k < r ==> !StarSlash(s, k))
    decreases |s| - p
  {
    if p < |s| && !(s[p] == '*' && CharAt(s, p + 1) == '/') { BlockStopIs(s, p + 1); }
  }

  lemma {:induction false} SkipIsGap(s: string, p: nat)
    requires p <= |s|
    ensures IsGap(s, p, SkipBlanks(s, p))
    decreases |s| - p
  {
    var c, q := CharAt(s, p), SkipBlanks(s, p);
    if p < |s| && IsBlank(c) {
      SkipIsGap(s, p + 1);
    } else if c == '/' && CharAt(s, p + 1) == '/' {
      var r := PlainStop(s, p, '\n');
      assert s[p] != '\n' && s[p + 1] != '\n';
      SkipIsGap(s, r);
      assert IsLineComment(s, p, r);
    } else if c == '/' && CharAt(s, p + 1) == '*' {
      var r := BlockStop(s, p + 2);
      BlockStopIs(s, p + 2);
      SkipIsGap(s, r);
      assert IsBlockComment(s, p, r);
    }
  }

  // ----- tiling and termination -----

  /** Gaps and tokens follow one another without overlap, up to the end of the text. */
  predicate Tiles(s: string, ts: seq<Token>, p: nat)
    requires p <= |s|
    decreases |ts|
  {
    && ts != []
    && var t := ts[0];
    && p <= t.start <= t.end <= |s| && IsGap(s, p, t.start)
    && if t.kind.Eof? then t.start == t.end == |s| && |ts| == 1 else t.start < t.end && Tiles(s, ts[1..], t.end)
  }

  /** The gaps and the token texts, in order. */
  function Pieces(s: string, ts: seq<Token>, p: nat): string
    requires p <= |s|
    decreases |ts|
  {
    if ts == [] || !(p <= ts[0].start <= ts[0].end <= |s|) then ""
    else s[p..ts[0].start] + s[ts[0].start..ts[0].end] + Pieces(s, ts[1..], ts[0].end)
  }

  lemma {:induction false} TokensTile(s: string, p: nat)
    requires IsSource(s) && p <= |s|
    ensures Tiles(s, Tokens(s, p), p)
    decreases |s| - p
  {
    hide IsGap, Scan, SkipBlanks;
    var q := SkipBlanks(s, p);
    SkipIsGap(s, p);
    if q < |s| {
      ScanNotEof(s, q);
      TokensTile(s, Scan(s, q).end);
    }
  }

  /** Nothing is lost: gaps and tokens concatenate to the text. */
  lemma {:induction false} TokensCover(s: string, p: nat)
    requires IsSource(s) && p <= |s|
    ensures Pieces(s, Tokens(s, p), p) == s[p..]
    decreases |s| - p
  {
    hide Scan, SkipBlanks;
    var q := SkipBlanks(s, p);
    if q < |s| {
      var e := Scan(s, q).end;
      TokensCover(s, e);
      assert s[p..q] + s[q..e] + s[e..] == s[p..];
    } else {
      assert s[p..q] + s[q..q] + "" == s[p..];
    }
  }

  /** Scanning reaches the end of the text within one more token than it has characters. */
  lemma {:induction false} TokensBounded(s: string, p: nat)
    requires IsSource(s) && p <= |s|
    ensures |Tokens(s, p)| <= |s| - p + 1
    decreases |s| - p
  {
    hide Scan, SkipBlanks;
    var q := SkipBlanks(s, p);
    if q < |s| { TokensBounded(s, Scan(s, q).end); }
  }

  // ----- lines -----

  function Newlines(s: string, p: nat, q: nat): nat
    requires p <= q <= |s|
    decreases q - p
  {
    if p == q then 0 else (if s[p] == '\n' then 1 else 0) + Newlines(s, p + 1, q)
  }

  /** Newlines that are not escaped: a character after a backslash is not looked at. */
  function Unescaped(s: string, p: nat, q: nat): nat
    requires q <= |s|
    decreases q - p
  {
    if p >= q then 0
    else if s[p] == '\\' then Unescaped(s, p + 2, q)
    else (if s[p] == '\n' then 1 else 0) + Unescaped(s, p + 1, q)
  }

  /** How far the token from `p` to `e` moves the line counter. */
  function TokenLines(s: string, p: nat, e: nat): nat
    requires p < e <= |s|
  {
    var c := s[p];
    if c == '"' || c == '\'' then Unescaped(s, p + 1, e)
    else if c == '`' then if Interpolates(s, p + 1) then Newlines(s, p + 1, e) else Unescaped(s, p + 1, e)
    else if c == '\n' then 1
    else 0
  }

  /** How far the scanner moves the line counter from `p` to the end. */
  function LinesFrom(s: string, p: nat): nat
    requires IsSource(s) && p <= |s|
    decreases |s| - p
  {
    var q := SkipBlanks(s, p);
    if q == |s| then Newlines(s, p, q)
    else Newlines(s, p, q) + TokenLines(s, q, Scan(s, q).end) + LinesFrom(s, Scan(s, q).end)
  }

  lemma {:induction false} NewlinesSplit(s: string, p: nat, m: nat, q: nat)
    requires p <= m <= q <= |s|
    ensures Newlines(s, p, q) == Newlines(s, p, m) + Newlines(s, m, q)
    decreases m - p
  {
    if p < m { NewlinesSplit(s, p + 1, m, q); }
  }

  /** Newlines that directly follow an escaping backslash. */
  function EscapedNewlines(s: string, p: nat, q: nat): nat
    requires q <= |s|
    decreases q - p
  {
    if p >= q then 0
    else if s[p] == '\\' then (if p + 1 < q && s[p + 1] == '\n' then 1 else 0) + EscapedNewlines(s, p + 2, q)
    else EscapedNewlines(s, p + 1, q)
  }

  lemma {:induction false} UnescapedExact(s: string, p: nat, q: nat)
    requires q <= |s|
    ensures p <= q ==> Unescaped(s, p, q) + EscapedNewlines(s, p, q) == Newlines(s, p, q)
    decreases q - p
  {
    if p < q {
      if s[p] == '\\' {
        UnescapedExact(s, p + 2, q);
        if p + 2 <= q { NewlinesSplit(s, p, p + 2, q); }
      } else {
        UnescapedExact(s, p + 1, q);
      }
    }
  }

  lemma {:induction false} NoNewline(s: string, p: nat, q: nat)
    requires p <= q <= |s| && forall i :: p <= i < q ==> s[i] != '\n'
    ensures Newlines(s, p, q) == 0
    decreases q - p
  {
    if p < q { NoNewline(s, p + 1, q); }
  }

  /** A token that is neither quoted nor a newline contains no newline. */
  lemma PlainTokenLines(s: string, p: nat)
    requires IsSource(s) && p < |s| && s[p] != '"' && s[p] != '\'' && s[p] != '`'
    ensures TokenLines(s, p, Scan(s, p).end) == Newlines(s, p, Scan(s, p).end)
  {
    hide QuoteStop, PlainStop, Interpolates, IdentifierKind, Punctuation, Newlines;
    var e := Scan(s, p).end;
    if IsAlpha(s[p]) {
      NoNewline(s, p, e);
    } else if IsDigit(s[p]) {
      var q := DigitStop(s, p + 1);
      assert forall i :: p <= i < e ==> IsDigit(s[i]) || s[i] == '.';
      NoNewline(s, p, e);
    } else {
      PunctuationLines(s, p);
    }
  }

  lemma PunctuationLines(s: string, p: nat)
    requires IsSource(s) && p < |s|
    ensures Newlines(s, p, Punctuation(s, p).end) == if s[p] == '\n' then 1 else 0
  {
    var e := Punctuation(s, p).end;
    NewlinesSplit(s, p, p + 1, e);
    assert Newlines(s, p + 1, p + 1) == 0;
    if e == p + 2 {
      assert s[p + 1] != '\n';
      NoNewline(s, p + 1, e);
    }
  }

  /** Literals in which a backslash escapes the next character: all but interpolated ones. */
  predicate Escapes(s: string, p: nat)
    requires p < |s|
  {
    s[p] == '"' || s[p] == '\'' || (s[p] == '`' && !Interpolates(s, p + 1))
  }

  /** How many newlines of the token from `p` to `e` the counter passes over. */
  function Missed(s: string, p: nat, e: nat): nat
    requires p < e <= |s|
  {
    if Escapes(s, p) then EscapedNewlines(s, p + 1, e) else 0
  }

  /** The counter falls short of a token's newlines by exactly the escaped ones of a literal. */
  lemma TokenLinesExact(s: string, p: nat)
    requires IsSource(s) && p < |s|
    ensures var e := Scan(s, p).end;
            TokenLines(s, p, e) + Missed(s, p, e) == Newlines(s, p, e)
  {
    hide Scan, Interpolates;
    var e := Scan(s, p).end;
    if s[p] == '"' || s[p] == '\'' || s[p] == '`' {
      NewlinesSplit(s, p, p + 1, e);
      assert Newlines(s, p + 1, p + 1) == 0;
      UnescapedExact(s, p + 1, e);
    } else {
      PlainTokenLines(s, p);
    }
  }

  /** How many newlines the counter passes over from `p` to the end. */
  function MissedFrom(s: string, p: nat): nat
    requires IsSource(s) && p <= |s|
    decreases |s| - p
  {
    var q := SkipBlanks(s, p);
    if q == |s| then 0 else Missed(s, q, Scan(s, q).end) + MissedFrom(s, Scan(s, q).end)
  }

  /** At the end of the text the counter has counted every newline but the escaped ones. */
  lemma {:induction false} LinesExact(s: string, p: nat)
    requires IsSource(s) && p <= |s|
    ensures LinesFrom(s, p) + MissedFrom(s, p) == Newlines(s, p, |s|)
    decreases |s| - p
  {
    hide Scan, SkipBlanks, TokenLines, Missed;
    var q := SkipBlanks(s, p);
    if q < |s| {
      var e := Scan(s, q).end;
      TokenLinesExact(s, q);
      LinesExact(s, e);
      NewlinesSplit(s, p, q, |s|);
      NewlinesSplit(s, q, e, |s|);
    }
  }

  /** A literal with a backslash before a newline. */
  predicate Misses(s: string, t: Token) {
    t.start < t.end <= |s| && Escapes(s, t.start) && EscapedNewlines(s, t.start + 1, t.end) > 0
  }

  lemma {:induction false} MissedTokens(s: string, p: nat)
    requires IsSource(s) && p <= |s|
    ensures MissedFrom(s, p) == 0 <==> forall t | t in Tokens(s, p) :: !Misses(s, t)
    decreases |s| - p
  {
    hide Scan, SkipBlanks, Escapes, EscapedNewlines;
    var q := SkipBlanks(s, p);
    if q < |s| {
      var x := Scan(s, q);
      var t := Token(x.kind, q, x.end);
      MissedTokens(s, x.end);
      assert Tokens(s, p) == [t] + Tokens(s, x.end);
      assert Misses(s, t) <==> Missed(s, q, x.end) > 0;
      assert t in Tokens(s, p);
    } else {
      assert Tokens(s, p) == [Token(Eof, q, q)];
    }
  }

  /** The line counter is right at the end of the text if and only if no literal has a newline
      directly after an escaping backslash. */
  lemma LinesRight(s: string, p: nat)
    requires IsSource(s) && p <= |s|
    ensures LinesFrom(s, p) == Newlines(s, p, |s|) <==> forall t | t in Tokens(s, p) :: !Misses(s, t)
  {
    LinesExact(s, p);
    MissedTokens(s, p);
  }

  /** A string literal of a backslash and a newline: one newline, and none is counted. */
  lemma LineMissed()
    ensures var s := "\"\\\n\"";
            IsSource(s) && Newlines(s, 0, |s|) == 1 && LinesFrom(s, 0) == 0
  {
    var s := "\"\\\n\"";
    assert s[0] == '"' && s[1] == '\\' && s[2] == '\n' && s[3] == '"';
    assert QuoteStop(s, 3, '"') == 3 && QuoteStop(s, 1, '"') == 3;
    assert SkipBlanks(s, 0) == 0 && Scan(s, 0).end == 4;
    assert Unescaped(s, 3, 4) == 0 && Unescaped(s, 1, 4) == 0;
    assert SkipBlanks(s, 4) == 4 && LinesFrom(s, 4) == 0;
    assert Newlines(s, 3, 4) == 0 && Newlines(s, 2, 4) == 1 && Newlines(s, 1, 4) == 1;
  }
}
