/** Forms written as sections 4 of RFC 7578 and 5.1.1 of RFC 2046 ask are read back exactly. */
module MultipartRoundTrip {
  import opened Wrappers
  import opened Multipart

  // ----- letters and their cases -----

  const UPPER := "ABCDEFGHIJKLMNOPQRSTUVWXYZ"
  const LOWER := "abcdefghijklmnopqrstuvwxyz"

  /** The two cases of one letter. */
  predicate Cases(c: char, d: char) {
    exists i :: 0 <= i < 26 && c == UPPER[i] && d == LOWER[i]
  }

  /** The same character, up to the case of a letter. */
  predicate SameLetter(c: char, d: char) { c == d || Cases(c, d) || Cases(d, c) }

  /** `piece` stands at `p`, written in any mix of cases. */
  predicate SpeltAt(s: string, p: nat, piece: string) {
    p + |piece| <= |s| && forall i :: 0 <= i < |piece| ==> SameLetter(s[p + i], piece[i])
  }

  predicate Spells(key: string, piece: string) { |key| == |piece| && SpeltAt(key, 0, piece) }

  // ----- writing a form -----

  /** The names of the headers and the keys of the parameters, as somebody writes them. */
  datatype Keys = Keys(disposition: string, name: string, filename: string, contentType: string)

  predicate InAnyCase(k: Keys) {
    && Spells(k.disposition, "Content-Disposition:") && Spells(k.name, "name=\"")
    && Spells(k.filename, "filename=\"") && Spells(k.contentType, "Content-Type:")
  }

  /** A field to be written, with its keys and the number of spaces before its content type. */
  datatype Written = Written(name: string, filename: Option<string>, contentType: Option<string>, data: string,
                             keys: Keys, spaces: nat)

  /** What it is to be read back as. */
  function Meant(f: Written): Field { Field(Some(f.name), f.filename, f.contentType, f.data) }

  function AllMeant(ws: seq<Written>): (fs: seq<Field>)
    ensures |fs| == |ws| && forall i :: 0 <= i < |ws| ==> fs[i] == Meant(ws[i])
  {
    seq(|ws|, i requires 0 <= i < |ws| => Meant(ws[i]))
  }

  const LINE_BREAK := "\r\n"
  const EMPTY_LINE := "\r\n\r\n"
  const FORM_DATA := " form-data; "

  function Blanks(n: nat): (b: string)
    ensures |b| == n && forall i :: 0 <= i < n ==> b[i] == ' '
  {
    seq(n, _ => ' ')
  }

  function Extra(f: Written): string {
    if f.filename.Some? then "; " + (f.keys.filename + (f.filename.value + "\"")) else ""
  }

  function Line(f: Written): string {
    f.keys.disposition + (FORM_DATA + (f.keys.name + (f.name + ("\"" + Extra(f)))))
  }

  function TypeLine(f: Written): string {
    if f.contentType.Some? then LINE_BREAK + (f.keys.contentType + (Blanks(f.spaces) + f.contentType.value)) else ""
  }

  function PartText(f: Written): string {
    Line(f) + (TypeLine(f) + (EMPTY_LINE + (f.data + LINE_BREAK)))
  }

  function Dashed(boundary: string): string { "--" + boundary }

  function Render(fields: seq<Written>, boundary: string): string {
    if fields == [] then Dashed(boundary) + "--"
    else (Dashed(boundary) + LINE_BREAK) + (PartText(fields[0]) + Render(fields[1..], boundary))
  }

  // ----- what may be written -----

  /** Occurs nowhere, in any case. */
  predicate Free(s: string, piece: string) {
    forall i :: 0 <= i <= |s| ==> !SpeltAt(s, i, piece)
  }

  /** What may stand between quotes: no quote, no line break, and not the other header's name. */
  predicate Quotable(s: string) {
    '"' !in s && '\r' !in s && '\n' !in s && Free(s, "Content-Type:")
  }

  /** Both delimiters fit their buffers, and the boundary stays on one line. */
  predicate ValidBoundary(boundary: string) {
    |boundary| <= 251 && '\r' !in boundary && '\n' !in boundary
  }

  /** Headers that can be read back. */
  predicate Writable(f: Written) {
    && InAnyCase(f.keys)
    && Quotable(f.name) && Free(f.name + "\"", "filename=\"")
    && (f.filename.Some? ==> Quotable(f.filename.value))
    && (f.contentType.Some? ==>
          var t := f.contentType.value;
          && '\r' !in t && '\n' !in t && (t != "" ==> t[0] != ' ')
          && (f.filename.None? ==> Free(t, "filename=\"")))
  }

  /** Neither delimiter occurs in the data and its line break. */
  predicate Clean(f: Written, boundary: string) {
    forall i :: 0 <= i <= |f.data| ==>
      !At(f.data + LINE_BREAK, i, Dashed(boundary) + LINE_BREAK)
      && !At(f.data + LINE_BREAK, i, Dashed(boundary) + "--")
  }

  // ----- cases and the parser's search -----

  lemma LetterCodes(i: nat)
    requires i < 26
    ensures UPPER[i] as int == 65 + i && LOWER[i] as int == 97 + i
  {
  }

  lemma CasesAre(c: char, d: char)
    ensures Cases(c, d) <==> 'A' <= c <= 'Z' && d as int == c as int + 32
  {
    if 'A' <= c <= 'Z' && d as int == c as int + 32 {
      var i := c as int - 65;
      LetterCodes(i);
      assert c == UPPER[i] && d == LOWER[i];
    }
    if Cases(c, d) {
      var i :| 0 <= i < 26 && c == UPPER[i] && d == LOWER[i];
      LetterCodes(i);
    }
  }

  /** Two characters are the same letter if and only if they agree in lower case. */
  lemma SameLetterLower(c: char, d: char)
    ensures SameLetter(c, d) <==> Lower(c) == Lower(d)
  {
    CasesAre(c, d);
    CasesAre(d, c);
  }

  /** The search that ignores case finds exactly what is spelt in any mix of cases. */
  lemma SpeltResembles(s: string, p: nat, piece: string)
    ensures SpeltAt(s, p, piece) <==> Resembles(s, p, piece)
  {
    forall i | 0 <= i < |piece| && p + |piece| <= |s|
      ensures SameLetter(s[p + i], piece[i]) <==> Lower(s[p + i]) == Lower(piece[i])
    {
      SameLetterLower(s[p + i], piece[i]);
    }
  }

  /** A sign has no other case. */
  lemma SignsStay(c: char, d: char)
    requires SameLetter(c, d) && (c in "\r\n=:\"- " || d in "\r\n=:\"- ")
    ensures c == d
  {
    CasesAre(c, d);
    CasesAre(d, c);
  }

  lemma SpellsParts(key: string, a: string, b: string)
    requires Spells(key, a + b)
    ensures Spells(key[..|a|], a) && Spells(key[|a|..], b) && key == key[..|a|] + key[|a|..]
  {
    hide SameLetter;
    forall i | 0 <= i < |a| ensures SameLetter(key[..|a|][i], a[i]) { assert (a + b)[i] == a[i]; }
    forall i | 0 <= i < |b| ensures SameLetter(key[|a|..][i], b[i]) { assert (a + b)[|a| + i] == b[i]; }
  }

  lemma SpellsWithout(key: string, piece: string, c: char)
    requires Spells(key, piece) && c !in piece && c in "\r\n=:\"- "
    ensures c !in key
  {
    hide SameLetter;
    forall i | 0 <= i < |key| ensures key[i] != c {
      if key[i] == c { SignsStay(key[0 + i], piece[i]); }
    }
  }

  lemma SpellsSign(key: string, piece: string)
    requires Spells(key, piece) && |piece| == 1 && piece[0] in "\r\n=:\"- "
    ensures key == piece
  {
    hide SameLetter;
    SignsStay(key[0 + 0], piece[0]);
  }

  /** A spelling of the parser's own key is found by its search. */
  lemma SpellsFound(s: string, p: nat, key: string, piece: string)
    requires At(s, p, key) && Spells(key, piece)
    ensures Resembles(s, p, piece)
  {
    hide SameLetter;
    forall i | 0 <= i < |piece| ensures SameLetter(s[p + i], piece[i]) { assert key[0 + i] == s[p + i]; }
    SpeltResembles(s, p, piece);
  }

  // ----- places in the text -----

  predicate Without(s: string, p: nat, q: nat, c: char) {
    q <= |s| && forall i :: p <= i < q ==> s[i] != c
  }

  lemma AtSplit(s: string, p: nat, a: string, b: string)
    requires At(s, p, a + b)
    ensures At(s, p, a) && At(s, p + |a|, b)
  {
    forall i | 0 <= i < |a| ensures s[p + i] == a[i] { assert (a + b)[i] == a[i]; }
    forall i | 0 <= i < |b| ensures s[p + |a| + i] == b[i] { assert s[p + (|a| + i)] == (a + b)[|a| + i]; }
  }

  lemma AtSlice(s: string, p: nat, a: string)
    requires At(s, p, a)
    ensures s[p..p + |a|] == a
  {
  }

  lemma AtWithout(s: string, p: nat, a: string, c: char)
    requires At(s, p, a) && c !in a
    ensures Without(s, p, p + |a|, c)
  {
    forall i | p <= i < p + |a| ensures s[i] != c { assert s[p + (i - p)] == a[i - p]; }
  }

  lemma WithoutJoin(s: string, p: nat, m: nat, q: nat, c: char)
    requires p <= m <= q && Without(s, p, m, c) && Without(s, m, q, c)
    ensures Without(s, p, q, c)
  {
  }

  lemma FindIs(s: string, p: nat, piece: string, r: nat)
    requires p <= r && At(s, r, piece) && forall i :: p <= i < r ==> !At(s, i, piece)
    ensures Find(s, p, piece) == Some(r)
  {
  }

  lemma FindAnyCaseIs(s: string, p: nat, piece: string, r: nat)
    requires p <= r && Resembles(s, r, piece) && forall i :: p <= i < r ==> !Resembles(s, i, piece)
    ensures FindAnyCase(s, p, piece) == Some(r)
  {
  }

  // ----- keys in their places -----

  lemma KeySizes(k: Keys)
    requires InAnyCase(k)
    ensures |k.disposition| == 20 && |k.name| == 6 && |k.filename| == 10 && |k.contentType| == 13
  {
    hide SpeltAt;
  }

  lemma SplitKey(s: string, p: nat, key: string, a: string, b: string)
    requires At(s, p, key) && Spells(key, a + b)
    ensures At(s, p, key[..|a|]) && At(s, p + |a|, key[|a|..])
    ensures Spells(key[..|a|], a) && Spells(key[|a|..], b)
  {
    hide At, SpeltAt;
    SpellsParts(key, a, b);
    AtSplit(s, p, key[..|a|], key[|a|..]);
  }

  lemma KeyWithout(s: string, p: nat, key: string, piece: string, c: char)
    requires At(s, p, key) && Spells(key, piece) && c !in piece && c in "\r\n=:\"- "
    ensures Without(s, p, p + |piece|, c)
  {
    hide At, SpeltAt;
    SpellsWithout(key, piece, c);
    AtWithout(s, p, key, c);
  }

  lemma SignAt(s: string, p: nat, key: string, piece: string, j: nat)
    requires At(s, p, key) && Spells(key, piece) && j < |piece| && piece[j] in "\r\n=:\"- "
    ensures p + j < |s| && s[p + j] == piece[j]
  {
    SignsStay(key[0 + j], piece[j]);
  }

  // ----- the disposition line -----

  /** Where the pieces of the line are. */
  predicate LineAt(s: string, p: nat, f: Written) {
    var n := |f.name|;
    && InAnyCase(f.keys)
    && At(s, p, f.keys.disposition) && At(s, p + 20, FORM_DATA) && At(s, p + 32, f.keys.name)
    && At(s, p + 38, f.name) && At(s, p + 38 + n, "\"") && At(s, p + 39 + n, Extra(f))
  }

  lemma LinePlaces(s: string, p: nat, f: Written)
    requires InAnyCase(f.keys) && At(s, p, Line(f))
    ensures LineAt(s, p, f) && |Line(f)| == 39 + |f.name| + |Extra(f)|
  {
    hide At, Extra;
    var n := |f.name|;
    AtSplit(s, p, f.keys.disposition, FORM_DATA + (f.keys.name + (f.name + ("\"" + Extra(f)))));
    AtSplit(s, p + 20, FORM_DATA, f.keys.name + (f.name + ("\"" + Extra(f))));
    AtSplit(s, p + 32, f.keys.name, f.name + ("\"" + Extra(f)));
    AtSplit(s, p + 38, f.name, "\"" + Extra(f));
    AtSplit(s, p + 38 + n, "\"", Extra(f));
  }

  predicate ExtraAt(s: string, q: nat, f: Written)
    requires f.filename.Some?
  {
    var m := |f.filename.value|;
    && InAnyCase(f.keys)
    && At(s, q, "; ") && At(s, q + 2, f.keys.filename) && At(s, q + 12, f.filename.value) && At(s, q + 12 + m, "\"")
  }

  lemma ExtraPlaces(s: string, q: nat, f: Written)
    requires InAnyCase(f.keys) && f.filename.Some? && At(s, q, Extra(f))
    ensures ExtraAt(s, q, f) && |Extra(f)| == 13 + |f.filename.value|
  {
    hide At;
    AtSplit(s, q, "; ", f.keys.filename + (f.filename.value + "\""));
    AtSplit(s, q + 2, f.keys.filename, f.filename.value + "\"");
    AtSplit(s, q + 12, f.filename.value, "\"");
  }

  /** Before the name, the only equals sign ends `name=` and the only colon the header's name;
      up to its closing quote there is no line break. */
  lemma LineMarks(s: string, p: nat, f: Written)
    requires Quotable(f.name) && LineAt(s, p, f)
    ensures var q := p + 39 + |f.name|;
            && Without(s, p, q, '\r') && Without(s, p, q, '\n') && Without(s, p, p + 36, '=')
            && Without(s, p, p + 19, ':') && Without(s, p + 20, p + 38, ':')
            && q <= |s| && s[p + 7] == '-' && s[p + 28] == 't' && s[p + 37] == '"' && s[q - 1] == '"'
  {
    assert s[p + 28] == 't' by { assert s[p + 20 + 8] == FORM_DATA[8]; }
    hide At, LineAt, Without, Quotable, Spells;
    HeaderDash(s, p, f);
    LineMark(s, p, f, '\r');
    LineMark(s, p, f, '\n');
    LineMark(s, p, f, '=');
    LineMark(s, p, f, ':');
    NameMark(s, p, f, '\r');
    NameMark(s, p, f, '\n');
    QuoteMarks(s, p, f);
  }

  lemma HeaderDash(s: string, p: nat, f: Written)
    requires LineAt(s, p, f)
    ensures p + 7 < |s| && s[p + 7] == '-'
  {
    hide At, Spells;
    SignAt(s, p, f.keys.disposition, "Content-Disposition:", 7);
  }

  lemma LineMark(s: string, p: nat, f: Written, c: char)
    requires LineAt(s, p, f) && c in "\r\n=:"
    ensures Without(s, p, p + 19, c) && Without(s, p + 20, p + 36, c) && Without(s, p + 37, p + 38, c)
    ensures c != ':' ==> Without(s, p + 19, p + 20, c) && Without(s, p, p + 36, c)
    ensures c != '=' ==> Without(s, p + 36, p + 37, c) && Without(s, p + 20, p + 38, c)
  {
    hide At, Without, Spells;
    var header, key := f.keys.disposition, f.keys.name;
    KeySizes(f.keys);
    assert "Content-Disposition:" == "Content-Disposition" + ":" && "name=\"" == "name" + "=\"" && "=\"" == "=" + "\"";
    SplitKey(s, p, header, "Content-Disposition", ":");
    KeyWithout(s, p, header[..19], "Content-Disposition", c);
    AtWithout(s, p + 20, FORM_DATA, c);
    SplitKey(s, p + 32, key, "name", "=\"");
    KeyWithout(s, p + 32, key[..4], "name", c);
    SplitKey(s, p + 36, key[4..], "=", "\"");
    KeyWithout(s, p + 37, key[4..][1..], "\"", c);
    WithoutJoin(s, p + 20, p + 32, p + 36, c);
    if c != ':' {
      KeyWithout(s, p + 19, header[19..], ":", c);
      WithoutJoin(s, p, p + 19, p + 20, c);
      WithoutJoin(s, p, p + 20, p + 36, c);
    }
    if c != '=' {
      KeyWithout(s, p + 36, key[4..][..1], "=", c);
      WithoutJoin(s, p + 20, p + 36, p + 37, c);
      WithoutJoin(s, p + 20, p + 37, p + 38, c);
    }
  }

  lemma NameMark(s: string, p: nat, f: Written, c: char)
    requires LineAt(s, p, f) && c in "\r\n" && Quotable(f.name)
    ensures Without(s, p, p + 39 + |f.name|, c)
  {
    hide At, Without, Free;
    var q := p + 38 + |f.name|;
    LineMark(s, p, f, c);
    AtWithout(s, p + 38, f.name, c);
    AtWithout(s, q, "\"", c);
    WithoutJoin(s, p, p + 36, p + 37, c);
    WithoutJoin(s, p, p + 37, p + 38, c);
    WithoutJoin(s, p, p + 38, q, c);
    WithoutJoin(s, p, q, q + 1, c);
  }

  lemma QuoteMarks(s: string, p: nat, f: Written)
    requires LineAt(s, p, f)
    ensures p + 38 + |f.name| < |s| && s[p + 37] == '"' && s[p + 38 + |f.name|] == '"'
  {
    hide At, Spells;
    AtFirst(s, p + 38 + |f.name|, "\"");
    SignAt(s, p + 32, f.keys.name, "name=\"", 5);
  }

  // ----- reading the headers -----

  lemma ResemblesAt(s: string, i: nat, piece: string, j: nat)
    requires Resembles(s, i, piece) && j < |piece|
    ensures i + j < |s| && Lower(s[i + j]) == Lower(piece[j])
    ensures piece[j] == '=' || piece[j] == ':' ==> s[i + j] == piece[j]
    ensures s[i + j] in "\r\n :" ==> s[i + j] in piece
    ensures s[i + j] == '"' ==> piece[j] == '"'
  {
  }

  /** A quote keeps anything from resembling a key across it, except up to the key's own quote. */
  lemma QuoteBlocks(s: string, i: nat, piece: string, m: nat)
    requires m < |s| && s[m] == '"' && i <= m
      && ((piece == FILENAME && m < i + 9) || (piece == CONTENT_TYPE && m < i + 13))
    ensures !Resembles(s, i, piece)
  {
    hide Resembles;
    assert FILENAME[..9] == "filename=";
    assert piece[m - i] != '"' by {
      if piece == FILENAME {
        assert FILENAME[m - i] == FILENAME[..9][m - i] && '"' !in "filename=";
      } else {
        assert '"' !in CONTENT_TYPE;
      }
    }
    if Resembles(s, i, piece) { ResemblesAt(s, i, piece, m - i); }
  }

  lemma ResemblesWithin(s: string, p: nat, a: string, i: nat, piece: string)
    requires At(s, p, a) && i + |piece| <= |a| && Free(a, piece)
    ensures !Resembles(s, p + i, piece)
  {
    hide SpeltAt;
    if Resembles(s, p + i, piece) {
      forall j | 0 <= j < |piece| ensures Lower(a[i + j]) == Lower(piece[j]) {
        assert s[p + (i + j)] == a[i + j] && Lower(s[p + i + j]) == Lower(piece[j]);
      }
      assert Resembles(a, i, piece);
      SpeltResembles(a, i, piece);
    }
  }

  lemma NameRead(s: string, p: nat, f: Written, end: nat)
    requires Quotable(f.name) && LineAt(s, p, f) && p + 39 + |f.name| <= end
    ensures p <= |s| && Parameter(s, p, end, NAME) == Some(f.name)
  {
    hide At, Resembles, Free, Spells;
    LineMarks(s, p, f);
    SpellsFound(s, p + 32, f.keys.name, NAME);
    forall i | p <= i < p + 32 ensures !Resembles(s, i, NAME) {
      if Resembles(s, i, NAME) {
        ResemblesAt(s, i, NAME, 4);
        assert false;
      }
    }
    FindAnyCaseIs(s, p, NAME, p + 32);
    ClosingQuote(s, p + 38, f.name);
  }

  lemma AtFirst(s: string, p: nat, piece: string)
    requires At(s, p, piece) && piece != ""
    ensures p < |s| && s[p] == piece[0]
  {
    assert s[p + 0] == piece[0];
  }

  /** A value without quotes is cut out by the first quote after it. */
  lemma ClosingQuote(s: string, p: nat, value: string)
    requires '"' !in value && At(s, p, value) && At(s, p + |value|, "\"")
    ensures Find(s, p, "\"") == Some(p + |value|) && s[p..p + |value|] == value
  {
    hide At;
    AtWithout(s, p, value, '"');
    forall i | p <= i < p + |value| ensures !At(s, i, "\"") {
      if At(s, i, "\"") { AtFirst(s, i, "\""); }
    }
    FindIs(s, p, "\"", p + |value|);
    AtSlice(s, p, value);
  }

  /** Before the file name starts, nothing on the line looks like its key. */
  lemma NoEarlyFilename(s: string, p: nat, f: Written, i: nat)
    requires Quotable(f.name) && LineAt(s, p, f) && Free(f.name + "\"", FILENAME)
    requires p <= i < p + 39 + |f.name|
    ensures !Resembles(s, i, FILENAME)
  {
    hide Resembles, Quotable, Without, Free, LineAt, At;
    var q := p + 38 + |f.name|;
    LineMarks(s, p, f);
    if i + 8 <= p + 36 {
      EqualsBlocks(s, p, i);
    } else if i <= p + 37 {
      QuoteBlocks(s, i, FILENAME, p + 37);
    } else if q < i + 9 {
      QuoteBlocks(s, i, FILENAME, q);
    } else {
      NameAndQuote(s, p, f);
      ResemblesWithin(s, p + 38, f.name + "\"", i - (p + 38), FILENAME);
    }
  }

  lemma NameAndQuote(s: string, p: nat, f: Written)
    requires LineAt(s, p, f)
    ensures At(s, p + 38, f.name + "\"")
  {
    var n := f.name;
    forall i | 0 <= i < |n| + 1 ensures s[p + 38 + i] == (n + "\"")[i] {
      if i == |n| { AtFirst(s, p + 38 + |n|, "\""); }
    }
  }

  lemma EqualsBlocks(s: string, p: nat, i: nat)
    requires Without(s, p, p + 36, '=') && p <= i && i + 8 <= p + 36 && s[p + 28] == 't'
    ensures !Resembles(s, i, FILENAME)
  {
    hide Resembles;
    if Resembles(s, i, FILENAME) {
      ResemblesAt(s, i, FILENAME, 0);
      ResemblesAt(s, i, FILENAME, 8);
      assert false;
    }
  }

  lemma FilenameRead(s: string, p: nat, f: Written, end: nat)
    requires Writable(f) && LineAt(s, p, f)
    requires f.filename.Some? && ExtraAt(s, p + 39 + |f.name|, f)
    requires p + 52 + |f.name| + |f.filename.value| <= end
    ensures p <= |s| && Parameter(s, p, end, FILENAME) == f.filename
  {
    hide At, Resembles, LineAt, Free;
    var q := p + 39 + |f.name|;
    SpellsFound(s, q + 2, f.keys.filename, FILENAME);
    assert "; " == ";" + " ";
    AtSplit(s, q, ";", " ");
    AtFirst(s, q, ";");
    AtFirst(s, q + 1, " ");
    forall i | p <= i < q + 2 ensures !Resembles(s, i, FILENAME) {
      if i < q {
        NoEarlyFilename(s, p, f, i);
      } else if Resembles(s, i, FILENAME) {
        ResemblesAt(s, i, FILENAME, 0);
        assert false;
      }
    }
    FindAnyCaseIs(s, p, FILENAME, q + 2);
    ClosingQuote(s, q + 12, f.filename.value);
  }

  // ----- the optional type line -----

  predicate TypeAt(s: string, l: nat, f: Written)
    requires f.contentType.Some?
  {
    && InAnyCase(f.keys)
    && At(s, l, LINE_BREAK) && At(s, l + 2, f.keys.contentType)
    && At(s, l + 15, Blanks(f.spaces)) && At(s, l + 15 + f.spaces, f.contentType.value)
  }

  lemma TypePlaces(s: string, l: nat, f: Written)
    requires InAnyCase(f.keys) && f.contentType.Some? && At(s, l, TypeLine(f))
    ensures TypeAt(s, l, f) && |TypeLine(f)| == 15 + f.spaces + |f.contentType.value|
  {
    hide At;
    AtSplit(s, l, LINE_BREAK, f.keys.contentType + (Blanks(f.spaces) + f.contentType.value));
    AtSplit(s, l + 2, f.keys.contentType, Blanks(f.spaces) + f.contentType.value);
    AtSplit(s, l + 15, Blanks(f.spaces), f.contentType.value);
  }

  /** The headers of a part start at `p`; the disposition line ends at `l`, the headers at `end`. */
  predicate HeadAt(s: string, p: nat, f: Written, l: nat, end: nat)
  {
    && LineAt(s, p, f) && l == p + 39 + |f.name| + |Extra(f)|
    && (f.filename.Some? ==> ExtraAt(s, p + 39 + |f.name|, f))
    && (if f.contentType.Some? then TypeAt(s, l, f) && end == l + 15 + f.spaces + |f.contentType.value| else end == l)
    && At(s, end, EMPTY_LINE)
  }

  lemma WholeLine(s: string, p: nat, f: Written, l: nat, end: nat)
    requires Writable(f) && HeadAt(s, p, f, l, end)
    ensures Without(s, p, l, '\r') && Without(s, p, l, '\n')
  {
    hide At, LineAt, ExtraAt, Without, Free;
    LineMarks(s, p, f);
    if f.filename.Some? {
      ExtraMark(s, p + 39 + |f.name|, f, '\r');
      ExtraMark(s, p + 39 + |f.name|, f, '\n');
      WithoutJoin(s, p, p + 39 + |f.name|, l, '\r');
      WithoutJoin(s, p, p + 39 + |f.name|, l, '\n');
    }
  }

  lemma ExtraMark(s: string, q: nat, f: Written, c: char)
    requires f.filename.Some? && ExtraAt(s, q, f) && c in "\r\n" && c !in f.filename.value
    ensures Without(s, q, q + |Extra(f)|, c)
  {
    hide At, Without;
    var m := |f.filename.value|;
    AtWithout(s, q, "; ", c);
    KeyWithout(s, q + 2, f.keys.filename, "filename=\"", c);
    AtWithout(s, q + 12, f.filename.value, c);
    AtWithout(s, q + 12 + m, "\"", c);
    WithoutJoin(s, q, q + 2, q + 12, c);
    WithoutJoin(s, q, q + 12, q + 12 + m, c);
    WithoutJoin(s, q, q + 12 + m, q + 13 + m, c);
  }

  /** With no file name written, none is found before the end of the headers. */
  lemma NoFilename(s: string, p: nat, f: Written, l: nat, end: nat, i: nat)
    requires Writable(f) && f.filename.None? && HeadAt(s, p, f, l, end) && p <= i < end
    ensures !Resembles(s, i, FILENAME)
  {
    hide At, LineAt, Free;
    if i < l {
      NoEarlyFilename(s, p, f, i);
    } else {
      AtFirst(s, end, EMPTY_LINE);
      NoFilenameInType(s, l, f, end, i);
    }
  }

  lemma NoFilenameInType(s: string, l: nat, f: Written, end: nat, i: nat)
    requires f.contentType.Some? && TypeAt(s, l, f) && end == l + 15 + f.spaces + |f.contentType.value|
    requires end < |s| && s[end] == '\r' && l <= i < end && Free(f.contentType.value, "filename=\"")
    ensures !Resembles(s, i, FILENAME)
  {
    hide At, Resembles, Free, Spells;
    SignAt(s, l + 2, f.keys.contentType, "Content-Type:", 12);
    AtWithout(s, l, LINE_BREAK, '=');
    KeyWithout(s, l + 2, f.keys.contentType, "Content-Type:", '=');
    if l + 15 + f.spaces <= i && i + 10 <= end {
      ResemblesWithin(s, l + 15 + f.spaces, f.contentType.value, i - (l + 15 + f.spaces), FILENAME);
    } else if Resembles(s, i, FILENAME) {
      ResemblesAt(s, i, FILENAME, 8);
      if i <= l + 14 {
        ResemblesAt(s, i, FILENAME, l + 14 - i);
        assert false;
      } else if i < l + 15 + f.spaces {
        BlankAt(s, l + 15, f.spaces, i);
        ResemblesAt(s, i, FILENAME, 0);
        assert false;
      } else {
        ResemblesAt(s, i, FILENAME, end - i);
        assert false;
      }
    }
  }

  lemma BlankAt(s: string, p: nat, n: nat, i: nat)
    requires At(s, p, Blanks(n)) && p <= i < p + n
    ensures i < |s| && s[i] == ' '
  {
    assert s[p + (i - p)] == Blanks(n)[i - p];
  }

  lemma TypeRead(s: string, p: nat, f: Written, l: nat, end: nat)
    requires Writable(f) && HeadAt(s, p, f, l, end)
    ensures p <= |s| && ContentType(s, p, end) == f.contentType
  {
    hide At, LineAt, ExtraAt, Resembles, Quotable, Free, Spells;
    AtFirst(s, end, EMPTY_LINE);
    forall i | p <= i < l ensures !Resembles(s, i, CONTENT_TYPE) { NoTypeOnLine(s, p, f, l, end, i); }
    if f.contentType.Some? {
      var t, start := f.contentType.value, l + 15 + f.spaces;
      SignAt(s, l + 2, f.keys.contentType, "Content-Type:", 12);
      AtWithout(s, l, LINE_BREAK, ':');
      TypeKeyWithoutColon(s, l, f);
      SpellsFound(s, l + 2, f.keys.contentType, CONTENT_TYPE);
      forall i | p <= i < l + 2 ensures !Resembles(s, i, CONTENT_TYPE) {
        if i >= l && Resembles(s, i, CONTENT_TYPE) {
          ResemblesAt(s, i, CONTENT_TYPE, 12);
          assert false;
        }
      }
      FindAnyCaseIs(s, p, CONTENT_TYPE, l + 2);
      if t != "" { AtFirst(s, start, t); }
      PastBlanks(s, l + 15, f.spaces);
      AtWithout(s, start, t, '\r');
      AtWithout(s, start, t, '\n');
      LineEndIs(s, start, end);
      AtSlice(s, start, t);
    }
  }

  lemma TypeKeyWithoutColon(s: string, l: nat, f: Written)
    requires f.contentType.Some? && TypeAt(s, l, f)
    ensures Without(s, l + 2, l + 14, ':')
  {
    hide At, Spells;
    KeySizes(f.keys);
    assert "Content-Type:" == "Content-Type" + ":";
    SplitKey(s, l + 2, f.keys.contentType, "Content-Type", ":");
    KeyWithout(s, l + 2, f.keys.contentType[..12], "Content-Type", ':');
  }

  lemma PastBlanks(s: string, p: nat, n: nat)
    requires At(s, p, Blanks(n)) && p + n < |s| && s[p + n] != ' '
    ensures PastSpaces(s, p) == p + n
  {
    forall i | p <= i < p + n ensures s[i] == ' ' { BlankAt(s, p, n, i); }
    SpacesEnd(s, p, p + n);
  }

  lemma {:induction false} SpacesEnd(s: string, p: nat, q: nat)
    requires p <= q < |s| && s[q] != ' ' && forall i :: p <= i < q ==> s[i] == ' '
    ensures PastSpaces(s, p) == q
    decreases q - p
  {
    if p < q { SpacesEnd(s, p + 1, q); }
  }

  lemma LineEndIs(s: string, p: nat, q: nat)
    requires p <= q < |s| && s[q] == '\r' && Without(s, p, q, '\r') && Without(s, p, q, '\n')
    ensures LineEnd(s, p) == q
  {
  }

  /** Nothing on the disposition line looks like the other header. */
  lemma NoTypeOnLine(s: string, p: nat, f: Written, l: nat, end: nat, i: nat)
    requires Writable(f) && HeadAt(s, p, f, l, end) && p <= i < l
    ensures !Resembles(s, i, CONTENT_TYPE)
  {
    hide Resembles, Without, LineAt, At, Free;
    var n, q := f.name, p + 38 + |f.name|;
    LineMarks(s, p, f);
    if i + 12 < p + 37 {
      ColonBlocks(s, p, i);
    } else if i <= p + 37 {
      QuoteBlocks(s, i, CONTENT_TYPE, p + 37);
    } else if i + 13 <= q {
      NameHere(s, p, f);
      ResemblesWithin(s, p + 38, n, i - (p + 38), CONTENT_TYPE);
    } else if i <= q {
      QuoteBlocks(s, i, CONTENT_TYPE, q);
    } else {
      NoTypeInExtra(s, q + 1, f, i);
    }
  }

  lemma NameHere(s: string, p: nat, f: Written)
    requires LineAt(s, p, f)
    ensures At(s, p + 38, f.name)
  {
  }

  lemma ColonBlocks(s: string, p: nat, i: nat)
    requires Without(s, p, p + 19, ':') && Without(s, p + 20, p + 38, ':') && p <= i && i + 12 < p + 37
      && s[p + 7] == '-'
    ensures !Resembles(s, i, CONTENT_TYPE)
  {
    hide Resembles;
    if Resembles(s, i, CONTENT_TYPE) {
      ResemblesAt(s, i, CONTENT_TYPE, 0);
      ResemblesAt(s, i, CONTENT_TYPE, 12);
      assert false;
    }
  }

  lemma NoTypeInExtra(s: string, q: nat, f: Written, i: nat)
    requires f.filename.Some? && ExtraAt(s, q, f) && Quotable(f.filename.value)
    requires q <= i < q + 13 + |f.filename.value|
    ensures !Resembles(s, i, CONTENT_TYPE)
  {
    hide Resembles, At, Free, Spells;
    var v := f.filename.value;
    SignAt(s, q + 2, f.keys.filename, "filename=\"", 9);
    AtFirst(s, q + 12 + |v|, "\"");
    if i <= q + 11 {
      QuoteBlocks(s, i, CONTENT_TYPE, q + 11);
    } else if i + 13 <= q + 12 + |v| {
      ResemblesWithin(s, q + 12, v, i - (q + 12), CONTENT_TYPE);
    } else {
      QuoteBlocks(s, i, CONTENT_TYPE, q + 12 + |v|);
    }
  }

  /** The first blank line is the one after the headers. */
  lemma HeadersEnd(s: string, p: nat, f: Written, l: nat, end: nat)
    requires Writable(f) && HeadAt(s, p, f, l, end)
    ensures p <= |s| && Find(s, p, BLANK_LINE) == Some(end)
  {
    hide LineAt, ExtraAt, At, Spells;
    WholeLine(s, p, f, l, end);
    if f.contentType.Some? {
      var t := f.contentType.value;
      KeyWithout(s, l + 2, f.keys.contentType, "Content-Type:", '\r');
      AtWithout(s, l + 15, Blanks(f.spaces), '\r');
      AtWithout(s, l + 15 + f.spaces, t, '\r');
      assert LINE_BREAK == "\r" + "\n";
      AtSplit(s, l, "\r", "\n");
      AtFirst(s, l + 1, "\n");
    }
    forall i | p <= i < end ensures !At(s, i, BLANK_LINE) {
      if At(s, i, BLANK_LINE) {
        AtFirst(s, i, BLANK_LINE);
        BlankThird(s, i);
        assert false;
      }
    }
    FindIs(s, p, BLANK_LINE, end);
  }

  lemma BlankThird(s: string, i: nat)
    requires At(s, i, EMPTY_LINE)
    ensures i + 2 < |s| && s[i + 2] == '\r'
  {
    assert s[i + 2] == EMPTY_LINE[2];
  }

  // ----- the data -----

  lemma AtWithin(s: string, p: nat, a: string, i: nat, piece: string)
    requires At(s, p, a) && i + |piece| <= |a| && At(s, p + i, piece)
    ensures At(a, i, piece)
  {
    forall j | 0 <= j < |piece| ensures a[i + j] == piece[j] {
      assert s[p + (i + j)] == a[i + j] && s[p + i + j] == piece[j];
    }
  }

  /** No delimiter starts inside clean data or the line break after it. */
  lemma DataClean(s: string, p: nat, f: Written, boundary: string, i: nat)
    requires Clean(f, boundary) && ValidBoundary(boundary)
    requires At(s, p, f.data + LINE_BREAK) && p <= i < p + |f.data| + 2
    ensures !At(s, i, Dashed(boundary) + LINE_BREAK) && !At(s, i, Dashed(boundary) + "--")
  {
    hide At;
    var q, dashes := p + |f.data|, Dashed(boundary);
    AtSplit(s, p, f.data, LINE_BREAK);
    assert LINE_BREAK == "\r" + "\n";
    AtSplit(s, q, "\r", "\n");
    AtFirst(s, q + 1, "\n");
    if At(s, i, dashes + LINE_BREAK) {
      if i + |dashes| + 2 <= q + 2 {
        AtWithin(s, p, f.data + LINE_BREAK, i - p, dashes + LINE_BREAK);
        assert false;
      } else {
        assert dashes + LINE_BREAK == (dashes + "\r") + "\n";
        AtSplit(s, i, dashes + "\r", "\n");
        AtWithout(s, i, dashes + "\r", '\n');
        assert false;
      }
    }
    if At(s, i, dashes + "--") {
      if i + |dashes| + 2 <= q + 2 {
        AtWithin(s, p, f.data + LINE_BREAK, i - p, dashes + "--");
        assert false;
      } else {
        AtWithout(s, i, dashes + "--", '\n');
        assert false;
      }
    }
  }

  lemma AtCompose(s: string, p: nat, a: string, i: nat, piece: string)
    requires At(s, p, a) && At(a, i, piece)
    ensures At(s, p + i, piece)
  {
    forall j | 0 <= j < |piece| ensures s[p + i + j] == piece[j] {
      assert s[p + (i + j)] == a[i + j] && a[i + j] == piece[j];
    }
  }

  /** Data that is not clean is cut short. */
  lemma CutShort(s: string, p: nat, f: Written, boundary: string)
    requires !Clean(f, boundary) && ValidBoundary(boundary) && At(s, p, f.data + LINE_BREAK)
    ensures p <= |s|
    ensures var cut := FindCut(s, p, Delimiter(boundary), Terminator(boundary));
            !cut.Unterminated? && cut.at <= |s| && |DataBefore(s, p, cut.at)| < |f.data|
  {
    hide At, Find, Delimiter, Terminator;
    var dashes := Dashed(boundary);
    DelimiterText(boundary);
    AtFits(s, p, f.data + LINE_BREAK);
    var text, delimiter, terminator := f.data + LINE_BREAK, dashes + LINE_BREAK, dashes + "--";
    var i :| 0 <= i <= |f.data| && (At(text, i, delimiter) || At(text, i, terminator));
    var piece := if At(text, i, delimiter) then delimiter else terminator;
    AtFits(f.data + LINE_BREAK, i, piece);
    AtCompose(s, p, f.data + LINE_BREAK, i, piece);
    var cut := FindCut(s, p, Delimiter(boundary), Terminator(boundary));
    assert Find(s, p, piece).Some? && Find(s, p, piece).value <= p + i;
    assert cut.at <= p + i;
  }

  lemma DelimiterText(boundary: string)
    requires ValidBoundary(boundary)
    ensures Delimiter(boundary) == Dashed(boundary) + LINE_BREAK
    ensures Terminator(boundary) == Dashed(boundary) + "--"
  {
  }

  /** The data ends at the first delimiter after it. */
  lemma CutFound(s: string, p: nat, f: Written, boundary: string, more: bool)
    requires Clean(f, boundary) && ValidBoundary(boundary) && At(s, p, f.data + LINE_BREAK)
    requires var q := p + |f.data| + 2;
             if more then At(s, q, Dashed(boundary) + LINE_BREAK) else At(s, q, Dashed(boundary) + "--")
    ensures var q := p + |f.data| + 2;
            && q <= |s|
            && FindCut(s, p, Delimiter(boundary), Terminator(boundary)) == (if more then Next(q) else Last(q))
            && DataBefore(s, p, q) == f.data
  {
    hide At, Find, Delimiter, Terminator, Clean;
    var q, dashes := p + |f.data| + 2, Dashed(boundary);
    DelimiterText(boundary);
    forall i | p <= i < q ensures !At(s, i, dashes + LINE_BREAK) && !At(s, i, dashes + "--") {
      DataClean(s, p, f, boundary, i);
    }
    NotBoth(s, q, dashes);
    if more { FindIs(s, p, dashes + LINE_BREAK, q); } else { FindIs(s, p, dashes + "--", q); }
    AtSplit(s, p, f.data, LINE_BREAK);
    AtFits(s, p, f.data + LINE_BREAK);
    AtSlice(s, p, f.data);
  }

  lemma NotBoth(s: string, q: nat, dashes: string)
    ensures !(At(s, q, dashes + LINE_BREAK) && At(s, q, dashes + "--"))
  {
    hide At;
    if At(s, q, dashes + LINE_BREAK) && At(s, q, dashes + "--") {
      AtSplit(s, q, dashes, LINE_BREAK);
      AtSplit(s, q, dashes, "--");
      AtFirst(s, q + |dashes|, LINE_BREAK);
      AtFirst(s, q + |dashes|, "--");
      assert false;
    }
  }

  // ----- the round trip -----

  lemma PartPlaces(s: string, p: nat, f: Written, rest: string)
    requires InAnyCase(f.keys) && At(s, p, PartText(f) + rest)
    ensures var l := p + |Line(f)|;
            var end := l + |TypeLine(f)|;
            && HeadAt(s, p, f, l, end) && At(s, end + 4, f.data + LINE_BREAK)
            && At(s, end + 4 + |f.data| + 2, rest)
  {
    hide At, Line, TypeLine, ExtraAt, TypeAt, Extra;
    var l := p + |Line(f)|;
    var end := l + |TypeLine(f)|;
    AtSplit(s, p, PartText(f), rest);
    AtSplit(s, p, Line(f), TypeLine(f) + (EMPTY_LINE + (f.data + LINE_BREAK)));
    AtSplit(s, l, TypeLine(f), EMPTY_LINE + (f.data + LINE_BREAK));
    AtSplit(s, end, EMPTY_LINE, f.data + LINE_BREAK);
    LinePlaces(s, p, f);
    if f.filename.Some? { ExtraPlaces(s, p + 39 + |f.name|, f); }
    if f.contentType.Some? { TypePlaces(s, l, f); } else { NoTypeLine(f); }
  }

  lemma NoTypeLine(f: Written)
    requires f.contentType.None?
    ensures TypeLine(f) == ""
  {
  }

  lemma ExtraSize(f: Written)
    requires InAnyCase(f.keys)
    ensures |Extra(f)| == if f.filename.Some? then 13 + |f.filename.value| else 0
  {
    KeySizes(f.keys);
  }

  lemma HeadersRead(s: string, p: nat, f: Written, l: nat, end: nat)
    requires Writable(f) && HeadAt(s, p, f, l, end)
    ensures p <= |s| && Disposition(s, p, end, NAME) == Some(f.name) && Disposition(s, p, end, FILENAME) == f.filename
  {
    hide At, Resembles, LineAt, ExtraAt, TypeAt, Extra, Parameter;
    DispositionHere(s, p, f);
    ExtraSize(f);
    NameRead(s, p, f, end);
    if f.filename.Some? {
      FilenameRead(s, p, f, end);
    } else {
      forall i | p <= i < end ensures !Resembles(s, i, FILENAME) {
        NoFilename(s, p, f, l, end, i);
      }
      NoParameter(s, p, end, FILENAME);
    }
  }

  lemma DispositionHere(s: string, p: nat, f: Written)
    requires LineAt(s, p, f)
    ensures p + 20 <= |s| && FindAnyCase(s, p, DISPOSITION) == Some(p)
  {
    hide At, Resembles, Spells;
    KeySizes(f.keys);
    AtFits(s, p, f.keys.disposition);
    SpellsFound(s, p, f.keys.disposition, DISPOSITION);
    FindAnyCaseIs(s, p, DISPOSITION, p);
  }

  lemma NoParameter(s: string, p: nat, end: nat, key: string)
    requires p <= |s| && forall i :: p <= i < end ==> !Resembles(s, i, key)
    ensures Parameter(s, p, end, key) == None
  {
    hide Resembles;
  }

  /** From just after a delimiter, the fields still written are the fields read, exactly when
      all their data is clean. */
  lemma {:induction false} FieldsRead(s: string, p: nat, fields: seq<Written>, boundary: string)
    requires ValidBoundary(boundary) && fields != [] && forall f :: f in fields ==> Writable(f)
    requires At(s, p, PartText(fields[0]) + Render(fields[1..], boundary))
    ensures p <= |s|
    ensures Fields(s, p, boundary) == AllMeant(fields) <==> forall f :: f in fields ==> Clean(f, boundary)
    decreases |fields|
  {
    hide At, Writable, Clean, Find, FindCut, HeadAt, PartText, Line, TypeLine, Delimiter, Terminator, Fields,
      Disposition, ContentType, DataBefore;
    var f, more := fields[0], fields[1..];
    var end := p + |Line(f)| + |TypeLine(f)|;
    var q := end + 4 + |f.data| + 2;
    KeysKnown(f);
    PartPlaces(s, p, f, Render(more, boundary));
    HeadersEnd(s, p, f, p + |Line(f)|, end);
    HeadersRead(s, p, f, p + |Line(f)|, end);
    TypeRead(s, p, f, p + |Line(f)|, end);
    NotTerminator(s, p, f, p + |Line(f)|, end, boundary);
    if !Clean(f, boundary) {
      UncleanRead(s, p, f, end, boundary);
    } else if more == [] {
      CutFound(s, end + 4, f, boundary, false);
      FieldsLast(s, p, boundary, end, q);
      assert AllMeant(fields) == [Meant(f)];
    } else {
      AtSplit(s, q, Dashed(boundary) + LINE_BREAK, PartText(more[0]) + Render(more[1..], boundary));
      CutFound(s, end + 4, f, boundary, true);
      FieldsNext(s, p, boundary, end, q);
      DelimiterText(boundary);
      FieldsRead(s, q + |Delimiter(boundary)|, more, boundary);
      Extend(f, more, Fields(s, q + |Delimiter(boundary)|, boundary), boundary);
      assert [f] + more == fields;
    }
  }

  lemma Extend(f: Written, more: seq<Written>, read: seq<Field>, boundary: string)
    requires Clean(f, boundary) && (read == AllMeant(more) <==> forall g :: g in more ==> Clean(g, boundary))
    ensures [Meant(f)] + read == AllMeant([f] + more) <==> forall g :: g in [f] + more ==> Clean(g, boundary)
  {
    hide Clean;
    assert AllMeant([f] + more) == [Meant(f)] + AllMeant(more);
    assert ([Meant(f)] + read)[1..] == read && ([Meant(f)] + AllMeant(more))[1..] == AllMeant(more);
  }

  lemma UncleanRead(s: string, p: nat, f: Written, end: nat, boundary: string)
    requires p < |s| && !At(s, p, Terminator(boundary)) && Find(s, p, BLANK_LINE) == Some(end)
    requires !Clean(f, boundary) && ValidBoundary(boundary) && At(s, end + 4, f.data + LINE_BREAK)
    ensures Fields(s, p, boundary) != [] && Fields(s, p, boundary)[0] != Meant(f)
  {
    hide At, Clean, Find, FindCut, Delimiter, Terminator, Fields, Disposition, ContentType, DataBefore;
    CutShort(s, end + 4, f, boundary);
    var cut := FindCut(s, end + 4, Delimiter(boundary), Terminator(boundary));
    if cut.Next? {
      FieldsNext(s, p, boundary, end, cut.at);
    } else {
      FieldsLast(s, p, boundary, end, cut.at);
    }
  }

  lemma KeysKnown(f: Written)
    requires Writable(f)
    ensures InAnyCase(f.keys)
  {
  }

  lemma NotTerminator(s: string, p: nat, f: Written, l: nat, end: nat, boundary: string)
    requires HeadAt(s, p, f, l, end) && ValidBoundary(boundary)
    ensures p < |s| && !At(s, p, Terminator(boundary))
  {
    hide At, Spells;
    KeySizes(f.keys);
    AtFirst(s, p, f.keys.disposition);
    assert "Content-Disposition:" == "Content" + "-Disposition:";
    SplitKey(s, p, f.keys.disposition, "Content", "-Disposition:");
    KeyWithout(s, p, f.keys.disposition[..7], "Content", '-');
    if At(s, p, Terminator(boundary)) { AtFirst(s, p, Terminator(boundary)); }
  }

  /** A non-empty list of fields, with headers and parameters spelt in any mix of cases, written
      between boundaries after any preamble of whole lines without the boundary and before any
      epilogue, is parsed to exactly itself if and only if no part's data holds the boundary's
      dashes and text before a line break or two dashes. */
  lemma RoundTrip(s: Text, preamble: string, fields: seq<Written>, boundary: string, epilogue: string)
    requires ValidBoundary(boundary) && fields != [] && forall f :: f in fields ==> Writable(f)
    requires preamble == "" || (|preamble| >= 2 && preamble[|preamble| - 2..] == LINE_BREAK)
    requires forall i :: 0 <= i <= |preamble| ==> !At(preamble, i, Dashed(boundary) + LINE_BREAK)
    requires s == preamble + (Render(fields, boundary) + epilogue)
    ensures Parse(s, boundary) == Some(AllMeant(fields)) <==> forall f :: f in fields ==> Clean(f, boundary)
  {
    hide At, Writable, Clean, Find, Fields, PartText, Delimiter, Quotable, Free, Resembles;
    var p, dashes := |preamble|, Dashed(boundary);
    var body := PartText(fields[0]) + Render(fields[1..], boundary);
    DelimiterText(boundary);
    AtTail(s, preamble, Render(fields, boundary) + epilogue);
    AtSplit(s, p, Render(fields, boundary), epilogue);
    AtSplit(s, p, dashes + LINE_BREAK, body);
    FirstDelimiter(s, preamble, dashes);
    FieldsRead(s, p + |dashes| + 2, fields, boundary);
  }

  lemma FirstDelimiter(s: string, preamble: string, dashes: string)
    requires At(s, 0, preamble) && At(s, |preamble|, dashes + LINE_BREAK) && '\n' !in dashes
    requires preamble == "" || (|preamble| >= 2 && preamble[|preamble| - 2..] == LINE_BREAK)
    requires forall j :: 0 <= j <= |preamble| ==> !At(preamble, j, dashes + LINE_BREAK)
    ensures Find(s, 0, dashes + LINE_BREAK) == Some(|preamble|)
  {
    hide At;
    forall i | 0 <= i < |preamble| ensures !At(s, i, dashes + LINE_BREAK) { NoneEarlier(s, preamble, dashes, i); }
    FindIs(s, 0, dashes + LINE_BREAK, |preamble|);
  }

  lemma AtTail(s: string, a: string, b: string)
    requires s == a + b
    ensures At(s, |a|, b) && At(s, 0, a)
  {
  }

  /** A delimiter that starts in the preamble would lie in it, or run over its line break. */
  lemma NoneEarlier(s: string, preamble: string, dashes: string, i: nat)
    requires At(s, 0, preamble) && i < |preamble| && '\n' !in dashes
    requires |preamble| >= 2 && preamble[|preamble| - 2..] == LINE_BREAK
    requires forall j :: 0 <= j <= |preamble| ==> !At(preamble, j, dashes + LINE_BREAK)
    ensures !At(s, i, dashes + LINE_BREAK)
  {
    hide At;
    if At(s, i, dashes + LINE_BREAK) {
      if i + |dashes| + 2 <= |preamble| {
        AtWithin(s, 0, preamble, i, dashes + LINE_BREAK);
        assert false;
      } else {
        assert dashes + LINE_BREAK == (dashes + "\r") + "\n";
        AtSplit(s, i, dashes + "\r", "\n");
        AtWithout(s, i, dashes + "\r", '\n');
        LastOf(s, preamble);
        assert false;
      }
    }
  }

  lemma LastOf(s: string, preamble: string)
    requires At(s, 0, preamble) && |preamble| >= 2 && preamble[|preamble| - 2..] == LINE_BREAK
    ensures s[|preamble| - 1] == '\n'
  {
    assert s[0 + (|preamble| - 1)] == preamble[|preamble| - 2..][1];
  }

  /** A form without fields has no delimiter to find and is refused. */
  lemma EmptyFormRefused(boundary: string)
    requires ValidBoundary(boundary)
    ensures Parse(Render([], boundary), boundary) == None
  {
    hide At, Find;
    var s := Dashed(boundary) + "--";
    DelimiterText(boundary);
    var first := Find(s, 0, Dashed(boundary) + LINE_BREAK);
    if first.Some? {
      AtSplit(s, first.value, Dashed(boundary), LINE_BREAK);
      AtFirst(s, first.value + |Dashed(boundary)|, LINE_BREAK);
      assert false;
    }
  }

  const USUAL := Keys("Content-Disposition:", "name=\"", "filename=\"", "Content-Type:")
  const MID_LINE: Written := Written("a", None, None, "x--b\r\ny", USUAL, 1)

  lemma NulCat(a: string, b: string)
    requires '\0' !in a && '\0' !in b
    ensures '\0' !in a + b
  {
  }

  lemma MidLineText()
    ensures '\0' !in Render([MID_LINE], "b")
  {
    hide *;
    var f := MID_LINE;
    MidLinePieces();
    NulCat("\"", Extra(f));
    NulCat("a", "\"" + Extra(f));
    NulCat(f.keys.name, "a" + ("\"" + Extra(f)));
    NulCat(FORM_DATA, f.keys.name + ("a" + ("\"" + Extra(f))));
    NulCat(f.keys.disposition, FORM_DATA + (f.keys.name + ("a" + ("\"" + Extra(f)))));
    NulCat(f.data, LINE_BREAK);
    NulCat(EMPTY_LINE, f.data + LINE_BREAK);
    NulCat(TypeLine(f), EMPTY_LINE + (f.data + LINE_BREAK));
    NulCat(Line(f), TypeLine(f) + (EMPTY_LINE + (f.data + LINE_BREAK)));
    NulCat(PartText(f), Dashed("b") + "--");
    NulCat(Dashed("b") + LINE_BREAK, PartText(f) + (Dashed("b") + "--"));
  }

  lemma MidLinePieces()
    ensures var f := MID_LINE;
            && '\0' !in Extra(f) && '\0' !in TypeLine(f) && '\0' !in Dashed("b") + "--"
            && '\0' !in Dashed("b") + LINE_BREAK && '\0' !in f.keys.name && '\0' !in FORM_DATA
            && '\0' !in f.keys.disposition && '\0' !in f.data && '\0' !in LINE_BREAK
            && '\0' !in EMPTY_LINE && '\0' !in "\"" && '\0' !in "a"
            && Line(f) == f.keys.disposition + (FORM_DATA + (f.keys.name + ("a" + ("\"" + Extra(f)))))
            && PartText(f) == Line(f) + (TypeLine(f) + (EMPTY_LINE + (f.data + LINE_BREAK)))
            && Render([f], "b") == (Dashed("b") + LINE_BREAK) + (PartText(f) + (Dashed("b") + "--"))
  {
    hide Line, PartText;
    MidLineRender();
    MidLineLine();
  }

  lemma MidLineRender()
    ensures Render([MID_LINE], "b") == (Dashed("b") + LINE_BREAK) + (PartText(MID_LINE) + (Dashed("b") + "--"))
    ensures PartText(MID_LINE) == Line(MID_LINE) + (TypeLine(MID_LINE) + (EMPTY_LINE + (MID_LINE.data + LINE_BREAK)))
  {
    hide Line;
    assert [MID_LINE][1..] == [];
  }

  lemma MidLineLine()
    ensures var f := MID_LINE;
            Line(f) == f.keys.disposition + (FORM_DATA + (f.keys.name + ("a" + ("\"" + Extra(f)))))
  {
  }

  /** The data holds the delimiter, but no line of it starts with the boundary. */
  lemma MidLineData()
    ensures !Clean(MID_LINE, "b")
    ensures forall i :: 0 <= i <= |MID_LINE.data| ==> !At(LINE_BREAK + MID_LINE.data, i, LINE_BREAK + Dashed("b"))
  {
    var text, delimiter := MID_LINE.data + LINE_BREAK, Dashed("b") + LINE_BREAK;
    assert text == "x--b\r\ny\r\n" && delimiter == "--b\r\n";
    assert At(text, 1, delimiter);
    var lines, start := LINE_BREAK + MID_LINE.data, LINE_BREAK + Dashed("b");
    assert lines == "\r\nx--b\r\ny" && start[0] == '\r' && start[2] == '-';
    forall i | 0 <= i <= |MID_LINE.data| ensures !At(lines, i, start) {
      if At(lines, i, start) { AtFirst(lines, i, start); }
    }
  }

  /** The condition can fail on a form that section 5.1.1 of RFC 2046 allows: no line of the data
      starts with the boundary, but one ends with it, and the data is cut there. */
  lemma MidLineBoundary()
    ensures '\0' !in Render([MID_LINE], "b") && ValidBoundary("b") && Writable(MID_LINE)
    ensures forall i :: 0 <= i <= |MID_LINE.data| ==> !At(LINE_BREAK + MID_LINE.data, i, LINE_BREAK + Dashed("b"))
    ensures Parse(Render([MID_LINE], "b"), "b") != Some([Meant(MID_LINE)])
  {
    var s := Render([MID_LINE], "b");
    MidLineText();
    MidLineData();
    UsualKeys();
    assert Writable(MID_LINE);
    assert s == "" + (s + "") && MID_LINE in [MID_LINE];
    assert AllMeant([MID_LINE]) == [Meant(MID_LINE)];
    hide Render, Clean, At, Parse, Writable, Delimiter;
    NothingHoldsDelimiter("b");
    RoundTrip(s, "", [MID_LINE], "b", "");
  }

  lemma UsualKeys()
    ensures InAnyCase(USUAL)
  {
  }

  lemma NothingHoldsDelimiter(boundary: string)
    ensures forall i :: 0 <= i <= 0 ==> !At("", i, Dashed(boundary) + LINE_BREAK)
  {
  }

  // ----- long boundaries -----

  /** The buffers for the delimiters keep 255 characters, so 253 of a boundary and nothing after
      them: the two delimiters are then the same. */
  lemma LongDelimiters(boundary: string)
    requires |boundary| >= 253
    ensures Delimiter(boundary) == "--" + boundary[..253] == Terminator(boundary)
  {
    var text, delimiter, terminator := Dashed(boundary), "--" + boundary + LINE_BREAK, "--" + boundary + "--";
    assert delimiter[..255] == text[..255] == "--" + boundary[..253];
    assert terminator[..255] == text[..255];
  }

  /** With a boundary that long, a form gives at most one field, whatever it holds. */
  lemma LongBoundary(s: string, boundary: string)
    requires |boundary| >= 253
    ensures Parse(s, boundary).Some? ==> |Parse(s, boundary).value| <= 1
  {
    hide At, Find, Delimiter, Terminator, Disposition, ContentType, DataBefore, Part;
    LongDelimiters(boundary);
  }
}
