/** How a response body goes out: whole with its length announced, or in chunks.  A receiver that
    follows the grammar of section 7.1 of RFC 9112 gets the body back. */
module Chunked {
  import opened Wrappers

  const CHUNK_SIZE := 8192
  const CRLF := "\r\n"

  // ----- hexadecimal numbers -----

  function HexDigit(n: nat): (c: char)
    requires n < 16
    ensures c == "0123456789abcdef"[n]
  {
    if n < 10 then ('0' as int + n) as char else ('a' as int + (n - 10)) as char
  }

  /** Lower-case digits without leading zeros. */
  function Hex(n: nat): (h: string)
    ensures h != ""
  {
    if n < 16 then [HexDigit(n)] else Hex(n / 16) + [HexDigit(n % 16)]
  }

  predicate IsHexDigit(c: char) { '0' <= c <= '9' || 'a' <= c <= 'f' || 'A' <= c <= 'F' }

  function DigitValue(c: char): (n: nat)
    requires IsHexDigit(c)
    ensures n < 16
  {
    if c <= '9' then c as int - '0' as int
    else if 'a' <= c then c as int - 'a' as int + 10
    else c as int - 'A' as int + 10
  }

  function HexValue(h: string): nat
    requires forall c :: c in h ==> IsHexDigit(c)
  {
    if h == "" then 0 else 16 * HexValue(h[..|h| - 1]) + DigitValue(h[|h| - 1])
  }

  lemma {:induction false} HexRead(n: nat)
    ensures forall c :: c in Hex(n) ==> IsHexDigit(c)
    ensures HexValue(Hex(n)) == n
  {
    if n >= 16 {
      HexRead(n / 16);
      assert Hex(n)[..|Hex(n)| - 1] == Hex(n / 16);
    } else {
      assert Hex(n)[..0] == "";
    }
  }

  // ----- the receiver -----

  /** How many hexadecimal digits `s` starts with. */
  function DigitsAhead(s: string): (d: nat)
    ensures d <= |s| && (forall c :: c in s[..d] ==> IsHexDigit(c)) && (d < |s| ==> !IsHexDigit(s[d]))
  {
    if s == "" || !IsHexDigit(s[0]) then 0
    else
      var d := 1 + DigitsAhead(s[1..]);
      assert s[..d] == [s[0]] + s[1..][..d - 1];
      d
  }

  /** The body in a sequence of chunks closed by a zero chunk; nothing for any other text.
      Chunk extensions and trailers are not accepted. */
  function Decode(s: string): Option<string>
    decreases |s|
  {
    var d := DigitsAhead(s);
    if d == 0 || |s| < d + 2 || s[d..d + 2] != "\r\n" then None
    else
      var n, rest := HexValue(s[..d]), s[d + 2..];
      if n == 0 then if rest == "\r\n" then Some("") else None
      else if |rest| < n + 2 || rest[n..n + 2] != "\r\n" then None
      else
        var more := Decode(rest[n + 2..]);
        if more.None? then None else Some(rest[..n] + more.value)
  }

  // ----- the writer -----

  function Chunk(data: string): string { Hex(|data|) + CRLF + data + CRLF }

  /** The pieces a body is cut into. */
  function Pieces(body: string): seq<string> {
    if body == "" then []
    else if |body| <= CHUNK_SIZE then [body]
    else [body[..CHUNK_SIZE]] + Pieces(body[CHUNK_SIZE..])
  }

  function Encode(pieces: seq<string>): string {
    if pieces == [] then "0" + CRLF + CRLF else Chunk(pieces[0]) + Encode(pieces[1..])
  }

  function Concat(pieces: seq<string>): string {
    if pieces == [] then "" else pieces[0] + Concat(pieces[1..])
  }

  datatype Framing = ContentLength(length: nat) | TransferChunked

  /** What the headers say about the body, and what follows them. */
  function FramingOf(body: string): Framing {
    if |body| > CHUNK_SIZE then TransferChunked else ContentLength(|body|)
  }

  function Sent(body: string): string {
    if |body| > CHUNK_SIZE then Encode(Pieces(body)) else body
  }

  method SendBody(body: string) returns (framing: Framing, sent: string)
    ensures framing == FramingOf(body) && sent == Sent(body)
  {
    hide Encode, Pieces, Chunk;
    framing := if |body| > CHUNK_SIZE then TransferChunked else ContentLength(|body|);
    sent := "";
    if |body| > 0 {
      if framing.TransferChunked? {
        var data, remaining := 0, |body|;
        assert body[0..] == body;
        while remaining > 0
          invariant 0 <= data <= |body| && remaining == |body| - data
          invariant sent + Encode(Pieces(body[data..])) == Encode(Pieces(body))
        {
          var size := if remaining > CHUNK_SIZE then CHUNK_SIZE else remaining;
          PieceStep(body, data, size);
          ChunkSteps(sent, body[data..data + size], Encode(Pieces(body[data + size..])));
          sent := sent + Hex(size);
          sent := sent + CRLF;
          sent := sent + body[data..data + size];
          sent := sent + CRLF;
          data, remaining := data + size, remaining - size;
        }
        NoPieces(body);
        sent := sent + "0\r\n\r\n";
      } else {
        sent := sent + body;
      }
    }
  }

  /** The four writes of a chunk append it. */
  lemma ChunkSteps(sent: string, data: string, rest: string)
    ensures sent + (Chunk(data) + rest) == sent + Hex(|data|) + CRLF + data + CRLF + rest
  {
    hide Hex;
    Reassociate(sent, Hex(|data|), CRLF, data, rest);
  }

  lemma Reassociate(a: string, b: string, c: string, d: string, e: string)
    ensures a + (b + c + d + c + e) == a + b + c + d + c + e
  {
    assert a + (b + c) == a + b + c;
    assert a + (b + c + d) == a + (b + c) + d;
    assert a + (b + c + d + c) == a + (b + c + d) + c;
    assert a + (b + c + d + c + e) == a + (b + c + d + c) + e;
  }

  lemma NoPieces(body: string)
    ensures Encode(Pieces(body[|body|..])) == "0\r\n\r\n"
  {
  }

  lemma PieceStep(body: string, p: nat, size: nat)
    requires p < |body| && size == if |body| - p > CHUNK_SIZE then CHUNK_SIZE else |body| - p
    ensures Encode(Pieces(body[p..])) == Chunk(body[p..p + size]) + Encode(Pieces(body[p + size..]))
  {
    hide Chunk;
    var rest, first, more := body[p..], body[p..p + size], Pieces(body[p + size..]);
    assert rest[..size] == first && rest[size..] == body[p + size..];
    if size == |rest| { assert body[p + size..] == "" && more == [] && rest == first; }
    assert Pieces(rest) == [first] + more;
    assert ([first] + more)[1..] == more;
  }

  // ----- what the receiver gets -----

  /** Every piece holds something and at most one chunk's worth, only the last may be smaller
      than a full chunk, and together they are the body. */
  lemma {:induction false} PiecesAre(body: string)
    ensures var ps := Pieces(body);
            && Concat(ps) == body
            && (forall i :: 0 <= i < |ps| ==> 0 < |ps[i]| <= 8192)
            && (forall i :: 0 <= i < |ps| - 1 ==> |ps[i]| == 8192)
  {
    if |body| > CHUNK_SIZE {
      PiecesAre(body[CHUNK_SIZE..]);
      assert Pieces(body)[1..] == Pieces(body[CHUNK_SIZE..]);
      assert body[..CHUNK_SIZE] + body[CHUNK_SIZE..] == body;
    } else if body != "" {
      assert Concat([body][1..]) == "";
    }
  }

  lemma DigitsBefore(h: string, tail: string)
    requires (forall c :: c in h ==> IsHexDigit(c)) && (tail == "" || !IsHexDigit(tail[0]))
    ensures DigitsAhead(h + tail) == |h|
    decreases |h|
  {
    if h != "" { assert (h + tail)[1..] == h[1..] + tail; } else { assert h + tail == tail; }
  }

  lemma ChunkShape(h: string, data: string, tail: string)
    ensures var s := h + CRLF + data + CRLF + tail;
            && s == h + (CRLF + data + CRLF + tail)
            && s[..|h|] == h && s[|h|..|h| + 2] == CRLF && s[|h| + 2..] == data + CRLF + tail
  {
  }

  lemma DataShape(data: string, tail: string)
    ensures var s := data + CRLF + tail;
            s[..|data|] == data && s[|data|..|data| + 2] == CRLF && s[|data| + 2..] == tail
  {
  }

  /** One chunk is taken off the front. */
  lemma DecodeChunk(data: string, tail: string)
    requires data != ""
    ensures Decode(Chunk(data) + tail) ==
            if Decode(tail).None? then None else Some(data + Decode(tail).value)
  {
    hide Hex, HexValue, DigitsAhead;
    var h := Hex(|data|);
    HexRead(|data|);
    ChunkShape(h, data, tail);
    DataShape(data, tail);
    DigitsBefore(h, CRLF + data + CRLF + tail);
  }

  lemma {:induction false} DecodeEncode(pieces: seq<string>)
    requires forall i :: 0 <= i < |pieces| ==> pieces[i] != ""
    ensures Decode(Encode(pieces)) == Some(Concat(pieces))
  {
    if pieces == [] {
      DigitsBefore("0", CRLF + CRLF);
      assert Encode(pieces) == "0" + (CRLF + CRLF);
      assert Encode(pieces)[..1] == "0" && Encode(pieces)[1..3] == CRLF && Encode(pieces)[3..] == CRLF;
      assert HexValue("0") == 0;
    } else {
      DecodeEncode(pieces[1..]);
      DecodeChunk(pieces[0], Encode(pieces[1..]));
    }
  }

  /** What a receiver that honours the announced framing takes as the body. */
  function Receive(framing: Framing, sent: string): Option<string> {
    match framing
    case ContentLength(n) => if |sent| == n then Some(sent) else None
    case TransferChunked => Decode(sent)
  }

  /** Whatever the body, the receiver gets it back, byte for byte.  Up to 8192 bytes go out whole,
      with their number announced; more go out in chunks. */
  lemma Delivered(body: string)
    ensures Receive(FramingOf(body), Sent(body)) == Some(body)
    ensures |body| <= 8192 ==> FramingOf(body) == ContentLength(|body|) && Sent(body) == body
    ensures |body| > 8192 ==> FramingOf(body) == TransferChunked
  {
    PiecesAre(body);
    DecodeEncode(Pieces(body));
  }
}
