/** The multipart/form-data parser, and its inverse on well-formed messages. */
module Multipart {
  import opened Wrappers

  /** What a C string holds: NUL ends it. */
  type Text = s: string | '\0' !in s

  /** Missing headers leave their entry out. */
  datatype Field = Field(name: Option<string>, filename: Option<string>, contentType: Option<string>, data: string)

  // ----- searching -----

  predicate At(s: string, p: nat, piece: string) {
    p + |piece| <= |s| && forall i :: 0 <= i < |piece| ==> s[p + i] == piece[i]
  }

  function Lower(c: char): char {
    if 'A' <= c <= 'Z' then (c as int + 32) as char else c
  }

  /** `At`, ignoring the case of letters. */
  predicate Resembles(s: string, p: nat, piece: string) {
    p + |piece| <= |s| && forall i :: 0 <= i < |piece| ==> Lower(s[p + i]) == Lower(piece[i])
  }

  function Find(s: string, p: nat, piece: string): (r: Option<nat>)
    requires p <= |s|
    ensures r.Some? ==> p <= r.value && At(s, r.value, piece) && forall i :: p <= i < r.value ==> !At(s, i, piece)
    ensures r.None? ==> forall i :: p <= i <= |s| ==> !At(s, i, piece)
    decreases |s| - p
  {
    if At(s, p, piece) then Some(p) else if p == |s| then None else Find(s, p + 1, piece)
  }

  function FindAnyCase(s: string, p: nat, piece: string): (r: Option<nat>)
    requires p <= |s|
    ensures r.Some? ==>
              && p <= r.value && Resembles(s, r.value, piece)
              && forall i :: p <= i < r.value ==> !Resembles(s, i, piece)
    ensures r.None? ==> forall i :: p <= i <= |s| ==> !Resembles(s, i, piece)
    decreases |s| - p
  {
    if Resembles(s, p, piece) then Some(p) else if p == |s| then None else FindAnyCase(s, p + 1, piece)
  }

  /** The first position from `p` on that holds no space. */
  function PastSpaces(s: string, p: nat): (r: nat)
    requires p <= |s|
    ensures p <= r <= |s|
    decreases |s| - p
  {
    if p < |s| && s[p] == ' ' then PastSpaces(s, p + 1) else p
  }

  /** The first CR or LF from `p` on, or the end. */
  function LineEnd(s: string, p: nat): (r: nat)
    requires p <= |s|
    ensures p <= r <= |s| && (r < |s| ==> s[r] == '\r' || s[r] == '\n')
    ensures forall i :: p <= i < r ==> s[i] != '\r' && s[i] != '\n'
    decreases |s| - p
  {
    if p == |s| || s[p] == '\r' || s[p] == '\n' then p else LineEnd(s, p + 1)
  }

  // ----- one part -----

  const CRLF := "\r\n"
  const BLANK_LINE := "\r\n\r\n"
  const DISPOSITION := "Content-Disposition:"
  const CONTENT_TYPE := "Content-Type:"
  const NAME := "name=\""
  const FILENAME := "filename=\""

  /** The quoted text after `key`, if both lie before `end`. */
  function Parameter(s: string, p: nat, end: nat, key: string): Option<string>
    requires p <= |s|
  {
    var k := FindAnyCase(s, p, key);
    if k.None? || end <= k.value then None
    else
      var start := k.value + |key|;
      var close := Find(s, start, "\"");
      if close.None? || end <= close.value then None else Some(s[start..close.value])
  }

  function Disposition(s: string, p: nat, end: nat, key: string): Option<string>
    requires p <= |s|
  {
    var header := FindAnyCase(s, p, DISPOSITION);
    if header.None? || end <= header.value then None else Parameter(s, header.value, end, key)
  }

  function ContentType(s: string, p: nat, end: nat): Option<string>
    requires p <= |s|
  {
    var header := FindAnyCase(s, p, CONTENT_TYPE);
    if header.None? || end <= header.value then None
    else
      var start := PastSpaces(s, header.value + |CONTENT_TYPE|);
      Some(s[start..LineEnd(s, start)])
  }

  /** Where the data of a part stops: at the next part, at the end of the form, or nowhere. */
  datatype Cut = Next(at: nat) | Last(at: nat) | Unterminated

  function FindCut(s: string, p: nat, delimiter: string, terminator: string): (r: Cut)
    requires p <= |s|
    ensures !r.Unterminated? ==> p <= r.at
    ensures r.Next? ==> At(s, r.at, delimiter)
    ensures r.Last? ==> At(s, r.at, terminator)
  {
    var next, end := Find(s, p, delimiter), Find(s, p, terminator);
    if next.Some? && (end.None? || next.value < end.value) then Next(next.value)
    else if end.Some? then Last(end.value)
    else Unterminated
  }

  /** The data before a cut, less the two characters of the line break. */
  function DataBefore(s: string, p: nat, at: nat): string
    requires p <= at <= |s|
  {
    if p < at - 2 then s[p..at - 2] else ""
  }

  /** The part between `p`, whose headers end at `end`, and the cut at `at`. */
  function Part(s: string, p: nat, end: nat, at: nat): Field
    requires p <= end && end + 4 <= at <= |s|
  {
    Field(Disposition(s, p, end, NAME), Disposition(s, p, end, FILENAME), ContentType(s, p, end),
          DataBefore(s, end + 4, at))
  }

  // ----- the whole form -----

  /** A buffer of 256 bytes keeps 255 characters. */
  function Buffered(s: string): string {
    if |s| <= 255 then s else s[..255]
  }

  function Delimiter(boundary: string): (d: string)
    ensures d != ""
  {
    Buffered("--" + boundary + CRLF)
  }

  function Terminator(boundary: string): (d: string)
    ensures d != ""
  {
    Buffered("--" + boundary + "--")
  }

  /** The fields from `p` on, just after a delimiter. */
  function Fields(s: string, p: nat, boundary: string): seq<Field>
    requires p <= |s|
    decreases |s| - p
  {
    if p == |s| || At(s, p, Terminator(boundary)) then []
    else
      var blank := Find(s, p, BLANK_LINE);
      if blank.None? then []
      else
        var end, start := blank.value, blank.value + 4;
        var cut := FindCut(s, start, Delimiter(boundary), Terminator(boundary));
        if cut.Unterminated? then []
        else
          var field := Part(s, p, end, cut.at);
          if cut.Last? then [field] else [field] + Fields(s, cut.at + |Delimiter(boundary)|, boundary)
  }

  function Parse(s: string, boundary: string): Option<seq<Field>> {
    var first := Find(s, 0, Delimiter(boundary));
    if first.None? then None else Some(Fields(s, first.value + |Delimiter(boundary)|, boundary))
  }

  // ----- the parser, as a loop over a position -----

  method ReadContentType(body: Text, pos: nat, end: nat) returns (r: Option<string>)
    requires pos <= |body|
    ensures r == ContentType(body, pos, end)
  {
    var header := FindAnyCase(body, pos, CONTENT_TYPE);
    if header.None? || end <= header.value { return None; }
    var start := header.value + |CONTENT_TYPE|;
    while start < |body| && body[start] == ' '
      invariant start <= |body| && PastSpaces(body, start) == PastSpaces(body, header.value + |CONTENT_TYPE|)
    {
      start := start + 1;
    }
    var stop := start;
    while stop < |body| && body[stop] != '\r' && body[stop] != '\n'
      invariant start <= stop <= |body| && LineEnd(body, stop) == LineEnd(body, start)
    {
      stop := stop + 1;
    }
    return Some(body[start..stop]);
  }

  lemma FieldsNext(s: string, p: nat, boundary: string, end: nat, at: nat)
    requires p < |s| && !At(s, p, Terminator(boundary)) && Find(s, p, BLANK_LINE) == Some(end)
    requires FindCut(s, end + 4, Delimiter(boundary), Terminator(boundary)) == Next(at)
    ensures Fields(s, p, boundary) == [Part(s, p, end, at)] + Fields(s, at + |Delimiter(boundary)|, boundary)
  {
    hide At, Disposition, ContentType, DataBefore, FindCut, Find, Delimiter, Terminator;
  }

  lemma FieldsLast(s: string, p: nat, boundary: string, end: nat, at: nat)
    requires p < |s| && !At(s, p, Terminator(boundary)) && Find(s, p, BLANK_LINE) == Some(end)
    requires FindCut(s, end + 4, Delimiter(boundary), Terminator(boundary)) == Last(at)
    ensures Fields(s, p, boundary) == [Part(s, p, end, at)]
  {
    hide At, Disposition, ContentType, DataBefore, FindCut, Find, Delimiter, Terminator;
  }

  lemma FieldsStop(s: string, p: nat, boundary: string)
    requires p <= |s|
    requires p < |s| && !At(s, p, Terminator(boundary)) && Find(s, p, BLANK_LINE).Some? ==>
               FindCut(s, Find(s, p, BLANK_LINE).value + 4, Delimiter(boundary), Terminator(boundary)).Unterminated?
    ensures Fields(s, p, boundary) == []
  {
    hide At, Disposition, ContentType, DataBefore, FindCut, Find, Delimiter, Terminator;
  }

  method ParseForm(body: Text, boundary: Text) returns (form: Option<seq<Field>>)
    ensures form == Parse(body, boundary)
  {
    hide At, Find, FindAnyCase, Fields, Disposition, ContentType, Delimiter, Terminator, DataBefore;
    var delimiter, terminator := Delimiter(boundary), Terminator(boundary);
    var first := Find(body, 0, delimiter);
    if first.None? { return None; }
    AtFits(body, first.value, delimiter);
    var pos := first.value + |delimiter|;
    var fields: seq<Field> := [];
    ghost var all := Fields(body, pos, boundary);
    while pos < |body| && !At(body, pos, terminator)
      invariant pos <= |body| && all == fields + Fields(body, pos, boundary)
      decreases |body| - pos
    {
      assert fields + [] == fields;
      var blank := Find(body, pos, BLANK_LINE);
      if blank.None? {
        FieldsStop(body, pos, boundary);
        return Some(fields);
      }
      AtFits(body, blank.value, BLANK_LINE);
      var name := Disposition(body, pos, blank.value, NAME);
      var filename := Disposition(body, pos, blank.value, FILENAME);
      var contentType := ReadContentType(body, pos, blank.value);
      var start := blank.value + 4;
      var next, end := Find(body, start, delimiter), Find(body, start, terminator);
      if next.Some? && (end.None? || next.value < end.value) {
        AtFits(body, next.value, delimiter);
        var field := Field(name, filename, contentType, DataBefore(body, start, next.value));
        FieldsNext(body, pos, boundary, blank.value, next.value);
        Associate(fields, field, Fields(body, next.value + |delimiter|, boundary));
        fields := fields + [field];
        pos := next.value + |delimiter|;
      } else if end.Some? {
        AtFits(body, end.value, terminator);
        FieldsLast(body, pos, boundary, blank.value, end.value);
        return Some(fields + [Field(name, filename, contentType, DataBefore(body, start, end.value))]);
      } else {
        FieldsStop(body, pos, boundary);
        return Some(fields);
      }
    }
    FieldsStop(body, pos, boundary);
    assert fields + [] == fields;
    return Some(fields);
  }

  lemma Associate(fields: seq<Field>, field: Field, rest: seq<Field>)
    ensures fields + ([field] + rest) == fields + [field] + rest
  {
  }

  lemma AtFits(s: string, p: nat, piece: string)
    requires At(s, p, piece)
    ensures p + |piece| <= |s|
  {
  }
}
