/** Scanning is stable: the texts of the tokens, joined by single spaces, scan to the same
    tokens again. */
module Relexing {
  import opened Lexing

  function Text(s: string, t: Token): string {
    if t.start <= t.end <= |s| then s[t.start..t.end] else ""
  }

  /** The kind and the text of every token. */
  function Words(s: string, ts: seq<Token>): seq<(Kind, string)> {
    if ts == [] then [] else [(ts[0].kind, Text(s, ts[0]))] + Words(s, ts[1..])
  }

  /** The texts of the tokens before the end of the file. */
  function Texts(s: string, ts: seq<Token>): seq<string> {
    if ts == [] || ts[0].kind.Eof? then [] else [Text(s, ts[0])] + Texts(s, ts[1..])
  }

  function Join(texts: seq<string>): string {
    if texts == [] then ""
    else if |texts| == 1 then texts[0]
    else texts[0] + " " + Join(texts[1..])
  }

  // ----- a token depends on its own text and on the character after it -----

  /** `s[p..e]` occurs in `z` at `w`, and a space or the end of the text follows it there. */
  predicate Copied(s: string, p: nat, e: nat, z: string, w: nat) {
    && p <= e <= |s| && w + (e - p) <= |z|
    && (forall i :: p <= i < e ==> s[i] == z[w + (i - p)])
    && (w + (e - p) < |z| ==> z[w + (e - p)] == ' ')
  }

  /** `Copied` read from the copy's side. */
  lemma CopiedBack(s: string, p: nat, e: nat, z: string, w: nat)
    requires Copied(s, p, e, z, w)
    ensures forall j :: w <= j < w + (e - p) ==> z[j] == s[p + (j - w)]
  {
    forall j | w <= j < w + (e - p) ensures z[j] == s[p + (j - w)] {
      assert s[p + (j - w)] == z[w + (p + (j - w) - p)];
    }
  }

  lemma CopiedTail(s: string, p: nat, e: nat, z: string, w: nat, k: nat)
    requires Copied(s, p, e, z, w) && p + k <= e
    ensures Copied(s, p + k, e, z, w + k)
    ensures p < e ==> w < |z| && s[p] == z[w]
  {
  }

  lemma WordStopIs(s: string, p: nat, e: nat)
    requires p <= e <= |s| && (e < |s| ==> !IsWord(s[e])) && forall i :: p <= i < e ==> IsWord(s[i])
    ensures WordStop(s, p) == e
  {
  }

  lemma DigitStopIs(s: string, p: nat, e: nat)
    requires p <= e <= |s| && (e < |s| ==> !IsDigit(s[e])) && forall i :: p <= i < e ==> IsDigit(s[i])
    ensures DigitStop(s, p) == e
  {
  }

  lemma PlainStopIs(s: string, p: nat, e: nat, c: char)
    requires p <= e < |s| && s[e] == c && forall i :: p <= i < e ==> s[i] != c
    ensures PlainStop(s, p, c) == e
  {
  }

  lemma WordCopied(s: string, p: nat, z: string, w: nat)
    requires p < |s| && Copied(s, p, WordStop(s, p + 1), z, w)
    ensures WordStop(z, w + 1) == w + (WordStop(s, p + 1) - p)
  {
    var e := WordStop(s, p + 1);
    CopiedBack(s, p, e, z, w);
    WordStopIs(z, w + 1, w + (e - p));
  }

  lemma DigitsCopied(s: string, p: nat, z: string, w: nat)
    requires p <= |s| && w + (DigitStop(s, p) - p) <= |z|
    requires var e := DigitStop(s, p);
             && (forall i :: p <= i < e ==> s[i] == z[w + (i - p)])
             && (w + (e - p) < |z| ==> !IsDigit(z[w + (e - p)]))
    ensures DigitStop(z, w) == w + (DigitStop(s, p) - p)
  {
    hide DigitStop;
    var e := DigitStop(s, p);
    forall j | w <= j < w + (e - p) ensures IsDigit(z[j]) {
      assert s[p + (j - w)] == z[w + (p + (j - w) - p)];
    }
    DigitStopIs(z, w, w + (e - p));
  }

  lemma NumberCopied(s: string, p: nat, z: string, w: nat)
    requires p < |s| && Copied(s, p, NumberStop(s, p + 1), z, w)
    ensures NumberStop(z, w + 1) == w + (NumberStop(s, p + 1) - p)
  {
    hide DigitStop;
    var q, e := DigitStop(s, p + 1), NumberStop(s, p + 1);
    var d := w + (q - p);
    if q < e {
      assert s[q] == z[d] && s[q + 1] == z[d + 1];
      DigitsCopied(s, q + 1, z, d + 1);
    }
    DigitsCopied(s, p + 1, z, w + 1);
  }

  lemma {:induction false} QuoteCopied(s: string, p: nat, quote: char, z: string, w: nat)
    requires p <= |s| && QuoteStop(s, p, quote) < |s| && Copied(s, p, QuoteStop(s, p, quote) + 1, z, w)
    ensures QuoteStop(z, w, quote) == w + (QuoteStop(s, p, quote) - p)
    decreases |s| - p
  {
    hide Copied;
    var e := QuoteStop(s, p, quote) + 1;
    CopiedTail(s, p, e, z, w, 1);
    if s[p] == quote {
    } else if s[p] == '\\' {
      CopiedTail(s, p, e, z, w, 2);
      QuoteCopied(s, p + 2, quote, z, w + 2);
    } else {
      QuoteCopied(s, p + 1, quote, z, w + 1);
    }
  }

  lemma PlainCopied(s: string, p: nat, c: char, z: string, w: nat)
    requires p <= |s| && PlainStop(s, p, c) < |s| && Copied(s, p, PlainStop(s, p, c) + 1, z, w)
    ensures PlainStop(z, w, c) == w + (PlainStop(s, p, c) - p)
  {
    var e := PlainStop(s, p, c);
    CopiedBack(s, p, e + 1, z, w);
    PlainStopIs(z, w, w + (e - p), c);
  }

  /** Interpolation is decided before the first backtick. */
  lemma {:induction false} InterpolatesCopied(s: string, p: nat, e: nat, z: string, w: nat)
    requires p < e && Copied(s, p, e, z, w) && s[e - 1] == '`'
    ensures Interpolates(z, w) == Interpolates(s, p)
    decreases e - p
  {
    if s[p] != '`' {
      assert s[p + 1] == z[w + 1];
      InterpolatesCopied(s, p + 1, e, z, w + 1);
    }
  }

  lemma BacktickCopied(s: string, p: nat, z: string, w: nat)
    requires IsSource(s) && IsSource(z) && p < |s| && s[p] == '`' && !Scan(s, p).kind.Error?
    requires Copied(s, p, Scan(s, p).end, z, w)
    ensures w < |z| && Scan(z, w) == Lexeme(Scan(s, p).kind, w + (Scan(s, p).end - p))
  {
    hide Interpolates, QuoteStop, PlainStop;
    InterpolatesCopied(s, p + 1, Scan(s, p).end, z, w + 1);
    if Interpolates(s, p + 1) {
      PlainCopied(s, p + 1, '`', z, w + 1);
    } else {
      QuoteCopied(s, p + 1, '`', z, w + 1);
    }
  }

  lemma PunctuationCopied(s: string, p: nat, z: string, w: nat)
    requires IsSource(s) && IsSource(z) && p < |s|
    requires Copied(s, p, Punctuation(s, p).end, z, w)
    ensures w < |z| && Punctuation(z, w) == Lexeme(Punctuation(s, p).kind, w + (Punctuation(s, p).end - p))
  {
    assert s[p] == z[w];
    assert p + 1 < Punctuation(s, p).end ==> s[p + 1] == z[w + 1];
    assert p + 1 == Punctuation(s, p).end ==> CharAt(z, w + 1) == ' ' || CharAt(z, w + 1) == '\0';
  }

  /** A token that is no error scans the same wherever a copy of its text ends at a space. */
  lemma ScanCopied(s: string, p: nat, z: string, w: nat)
    requires IsSource(s) && IsSource(z) && p < |s| && !Scan(s, p).kind.Error?
    requires Copied(s, p, Scan(s, p).end, z, w)
    ensures w < |z| && Scan(z, w) == Lexeme(Scan(s, p).kind, w + (Scan(s, p).end - p))
  {
    hide IdentifierKind, WordStop, NumberStop, QuoteStop, PlainStop, Interpolates, Punctuation;
    var e := Scan(s, p).end;
    assert s[p] == z[w];
    if IsAlpha(s[p]) {
      WordCopied(s, p, z, w);
      assert s[p..e] == z[w..w + (e - p)];
    } else if IsDigit(s[p]) {
      NumberCopied(s, p, z, w);
    } else if s[p] == '"' || s[p] == '\'' {
      QuoteCopied(s, p + 1, s[p], z, w + 1);
    } else if s[p] == '`' {
      BacktickCopied(s, p, z, w);
    } else {
      PunctuationCopied(s, p, z, w);
    }
  }

  // ----- no gap before a copied token -----

  predicate StartsGap(s: string, p: nat) {
    p < |s| && (IsBlank(s[p]) || (s[p] == '/' && (CharAt(s, p + 1) == '/' || CharAt(s, p + 1) == '*')))
  }

  lemma {:induction false} SkipStops(s: string, p: nat)
    requires p <= |s|
    ensures !StartsGap(s, SkipBlanks(s, p))
    decreases |s| - p
  {
    var c := CharAt(s, p);
    if p < |s| && IsBlank(c) {
      SkipStops(s, p + 1);
    } else if c == '/' && CharAt(s, p + 1) == '/' {
      assert s[p] != '\n';
      SkipStops(s, PlainStop(s, p, '\n'));
    } else if c == '/' && CharAt(s, p + 1) == '*' {
      SkipStops(s, BlockStop(s, p + 2));
    }
  }

  lemma NoGapCopied(s: string, q: nat, z: string, w: nat)
    requires IsSource(s) && q < |s| && !StartsGap(s, q) && w <= |z| && Copied(s, q, Scan(s, q).end, z, w)
    ensures SkipBlanks(z, w) == w
  {
    assert s[q] == z[w];
    if s[q] == '/' { assert Scan(s, q).end == q + 1; }
  }

  // ----- the round trip -----

  lemma JoinStep(text: string, rest: seq<string>)
    ensures Join([]) == ""
    ensures Join([text] + rest) == if rest == [] then text else text + " " + Join(rest)
  {
    assert ([text] + rest)[1..] == rest;
  }

  /** The texts of `Tokens(s, p)` start with the text of the first token. */
  lemma TextsStep(s: string, p: nat)
    requires IsSource(s) && p <= |s| && SkipBlanks(s, p) < |s|
    ensures var q := SkipBlanks(s, p);
            var x := Scan(s, q);
            && Texts(s, Tokens(s, p)) == [s[q..x.end]] + Texts(s, Tokens(s, x.end))
            && Words(s, Tokens(s, p)) == [(x.kind, s[q..x.end])] + Words(s, Tokens(s, x.end))
  {
    hide SkipBlanks, Scan;
    var x := Scan(s, SkipBlanks(s, p));
    ScanNotEof(s, SkipBlanks(s, p));
    assert Tokens(s, p)[1..] == Tokens(s, x.end);
  }

  lemma {:induction false} JoinIsSource(texts: seq<string>)
    requires forall t :: t in texts ==> IsSource(t)
    ensures IsSource(Join(texts))
  {
    if texts != [] { assert texts[0] in texts && IsSource(texts[0]); }
    if |texts| > 1 { JoinIsSource(texts[1..]); }
  }

  lemma {:induction false} TextsAreSource(s: string, ts: seq<Token>)
    requires IsSource(s)
    ensures forall t :: t in Texts(s, ts) ==> IsSource(t)
  {
    if ts != [] && !ts[0].kind.Eof? { TextsAreSource(s, ts[1..]); }
  }

  lemma HeadCopied(s: string, p: nat, e: nat, z: string, w: nat, tail: string)
    requires p <= e <= |s| && w <= |z| && z[w..] == s[p..e] + tail && (tail == "" || tail[0] == ' ')
    ensures Copied(s, p, e, z, w) && z[w + (e - p)..] == tail
    ensures z[w..w + (e - p)] == s[p..e]
  {
    forall i | p <= i < e ensures s[i] == z[w + (i - p)] {
      assert z[w..][i - p] == s[p..e][i - p];
    }
    assert z[w + (e - p)..] == z[w..][e - p..] == tail;
    assert z[w..w + (e - p)] == z[w..][..e - p] == s[p..e];
  }

  lemma SpaceSkipped(z: string, w: nat)
    requires IsSource(z) && w < |z| && z[w] == ' '
    ensures Tokens(z, w) == Tokens(z, w + 1)
  {
    hide Scan;
  }

  lemma EndOnly(s: string)
    ensures Texts(s, [Token(Eof, |s|, |s|)]) == [] && Words(s, [Token(Eof, |s|, |s|)]) == [(Eof, "")]
  {
    var t := Token(Eof, |s|, |s|);
    assert [t][1..] == [] && Text(s, t) == "";
  }

  lemma NothingLeft(s: string, p: nat, z: string, w: nat)
    requires IsSource(s) && IsSource(z) && p <= |s| && w <= |z|
    requires SkipBlanks(s, p) == |s| && z[w..] == Join(Texts(s, Tokens(s, p)))
    ensures Words(z, Tokens(z, w)) == Words(s, Tokens(s, p))
  {
    hide Words, Texts, Scan;
    assert Tokens(s, p) == [Token(Eof, |s|, |s|)];
    EndOnly(s);
    EndOnly(z);
    assert w == |z| && Tokens(z, w) == [Token(Eof, w, w)];
  }

  /** From `w` on, `z` holds the joined texts of the tokens of `s` from `p` on. */
  lemma {:induction false} RelexFrom(s: string, p: nat, z: string, w: nat)
    requires IsSource(s) && IsSource(z) && p <= |s| && w <= |z|
    requires NoErrors(Tokens(s, p)) && z[w..] == Join(Texts(s, Tokens(s, p)))
    ensures Words(z, Tokens(z, w)) == Words(s, Tokens(s, p))
    decreases |s| - p
  {
    hide SkipBlanks, Scan, Join, StartsGap;
    var q := SkipBlanks(s, p);
    if q == |s| {
      NothingLeft(s, p, z, w);
    } else {
      var x := Scan(s, q);
      var text, rest := s[q..x.end], Texts(s, Tokens(s, x.end));
      TextsStep(s, p);
      JoinStep(text, rest);
      assert z[w..] == text + if rest == [] then "" else " " + Join(rest);
      HeadCopied(s, q, x.end, z, w, if rest == [] then "" else " " + Join(rest));
      SkipStops(s, p);
      NoGapCopied(s, q, z, w);
      assert Tokens(s, p)[0] == Token(x.kind, q, x.end) && Tokens(s, p)[1..] == Tokens(s, x.end);
      assert NoErrors(Tokens(s, x.end));
      ScanCopied(s, q, z, w);
      var f := w + |text|;
      TextsStep(z, w);
      if rest == [] {
        RelexFrom(s, x.end, z, f);
      } else {
        assert z[f] == z[f..][0] && z[f + 1..] == z[f..][1..] == Join(rest);
        RelexFrom(s, x.end, z, f + 1);
        SpaceSkipped(z, f);
      }
    }
  }

  /** Joining the texts of an error-free scan with single spaces and scanning again gives the
      same kinds and texts. */
  lemma RelexSame(s: string)
    requires IsSource(s) && NoErrors(Tokens(s, 0))
    ensures var z := Join(Texts(s, Tokens(s, 0)));
            IsSource(z) && Words(z, Tokens(z, 0)) == Words(s, Tokens(s, 0))
  {
    TextsAreSource(s, Tokens(s, 0));
    JoinIsSource(Texts(s, Tokens(s, 0)));
    RelexFrom(s, 0, Join(Texts(s, Tokens(s, 0))), 0);
  }
}
