/** Percent-encoding (section 2.1 of RFC 3986), with the client's and the server's encode sets. */
module PercentEncoding {
  import opened Sequences

  /** The octets to encode. Octets outside ASCII always are. */
  type EncodeSet = Octet -> bool

  predicate Alphanumeric(c: Octet) {
    '0' <= c <= '9' || 'A' <= c <= 'Z' || 'a' <= c <= 'z'
  }

  /** `NON_ALPHANUMERIC`, the client's choice for path segments and query values. */
  const CLIENT_SET: EncodeSet := (c: Octet) => !Alphanumeric(c)

  /** The server's set for path segments: controls, non-ASCII and fifteen delimiters. */
  const PATH_SEGMENT_SET: EncodeSet :=
    (c: Octet) => c as int < 0x20 || c as int >= 0x7F
                  || c in {' ', '"', '#', '<', '>', '?', '`', '{', '}', '/', '%', '[', ']', '@', ':'}

  function HexDigit(n: nat): Octet
    requires n < 16
  {
    if n < 10 then ('0' as int + n) as char else ('A' as int + n - 10) as char
  }

  function HexValue(c: Octet): Option<nat> {
    if '0' <= c <= '9' then Some(c as int - '0' as int)
    else if 'A' <= c <= 'F' then Some(c as int - 'A' as int + 10)
    else if 'a' <= c <= 'f' then Some(c as int - 'a' as int + 10)
    else None
  }

  function EncodeOctet(c: Octet, encode: EncodeSet): Text {
    if encode(c) then ['%', HexDigit(c as int / 16), HexDigit(c as int % 16)] else [c]
  }

  function Encode(s: Text, encode: EncodeSet): Text {
    if s == [] then [] else EncodeOctet(s[0], encode) + Encode(s[1..], encode)
  }

  /** The octet spelt by an escape at the start of `s`, if there is one. */
  function Escape(s: Text): Option<Octet> {
    if |s| >= 3 && s[0] == '%' && HexValue(s[1]).Some? && HexValue(s[2]).Some?
    then EscapeValue(HexValue(s[1]).value, HexValue(s[2]).value)
    else None
  }

  function EscapeValue(hi: nat, lo: nat): Option<Octet> {
    if hi < 16 && lo < 16 then Some((16 * hi + lo) as char) else None
  }

  /** Decoding leaves a `%` that starts no escape as it is. */
  function Decode(s: Text): Text {
    if s == [] then []
    else if Escape(s).Some? then [Escape(s).value] + Decode(s[3..])
    else [s[0]] + Decode(s[1..])
  }

  lemma HexRoundTrip(n: nat)
    requires n < 16
    ensures HexValue(HexDigit(n)) == Some(n)
  {
  }

  lemma EscapeRoundTrip(c: Octet, rest: Text)
    ensures Escape(['%', HexDigit(c as int / 16), HexDigit(c as int % 16)] + rest) == Some(c)
  {
    HexRoundTrip(c as int / 16);
    HexRoundTrip(c as int % 16);
    assert 16 * (c as int / 16) + c as int % 16 == c as int;
  }

  /** Any set that encodes the percent sign itself can be decoded. */
  lemma {:induction false} DecodeEncode(s: Text, encode: EncodeSet)
    requires encode('%')
    ensures Decode(Encode(s, encode)) == s
  {
    if s != [] {
      var c, rest := s[0], Encode(s[1..], encode);
      DecodeEncode(s[1..], encode);
      if encode(c) {
        EscapeRoundTrip(c, rest);
        assert Encode(s, encode)[3..] == rest;
      } else {
        assert Encode(s, encode)[0] == c && Encode(s, encode)[1..] == rest;
      }
    }
  }

  /** An octet of encoded text is one that needed no encoding, or part of an escape. */
  lemma {:induction false} EncodedOctets(s: Text, encode: EncodeSet)
    ensures forall c :: c in Encode(s, encode) ==> !encode(c) || c == '%' || '0' <= c <= '9' || 'A' <= c <= 'F'
    ensures s != [] ==> Encode(s, encode) != []
  {
    if s != [] {
      EncodedOctets(s[1..], encode);
    }
  }

  lemma EncodeLetter(c: Octet, encode: EncodeSet)
    ensures Encode([c], encode) == EncodeOctet(c, encode)
  {
    assert [c][1..] == [];
  }

  predicate Unreserved(c: Octet) {
    Alphanumeric(c) || c in {'-', '.', '_', '~'}
  }

  predicate SubDelimiter(c: Octet) {
    c in {'!', '$', '&', '\'', '(', ')', '*', '+', ',', ';', '='}
  }

  /** In the terms of section 2 of RFC 3986, the server leaves alone what is unreserved, the sub-delimiters and three more. */
  lemma PathSegmentSetIs(c: Octet)
    ensures PATH_SEGMENT_SET(c) <==> !Unreserved(c) && !SubDelimiter(c) && c !in {'\\', '^', '|'}
    ensures CLIENT_SET(c) <==> PATH_SEGMENT_SET(c) || (!Alphanumeric(c) && (Unreserved(c) || SubDelimiter(c) || c in {'\\', '^', '|'}))
  {
  }

  /** An escape is a percent sign and the octet in upper-case hexadecimal. */
  lemma EscapesAre(encode: EncodeSet)
    requires encode('%') && encode(' ') && encode('/') && encode(0xE9 as char)
    ensures Encode("%", encode) == "%25" && Encode(" ", encode) == "%20" && Encode("/", encode) == "%2F"
    ensures Encode([0xE9 as char], encode) == "%E9"
  {
    EncodeLetter('%', encode);
    EncodeLetter(' ', encode);
    EncodeLetter('/', encode);
    EncodeLetter(0xE9 as char, encode);
  }

  predicate IsHexDigit(c: Octet) {
    '0' <= c <= '9' || 'A' <= c <= 'F' || 'a' <= c <= 'f'
  }

  /** Only a percent sign before two hexadecimal digits starts an escape; any other octet stands for itself. */
  lemma DecodesOnlyEscapes(s: Text)
    requires s != [] && !(s[0] == '%' && |s| >= 3 && IsHexDigit(s[1]) && IsHexDigit(s[2]))
    ensures Decode(s) == [s[0]] + Decode(s[1..])
  {
  }

  /** Decoding reads hexadecimal letters of either case. */
  lemma DecodesEitherCase(rest: Text)
    ensures Decode("%c3%A9" + rest) == [0xC3 as char, 0xA9 as char] + Decode(rest)
  {
    var s := "%c3%A9" + rest;
    assert s[3..] == "%A9" + rest && s[3..][3..] == rest;
    assert Escape(s) == Some(0xC3 as char) && Escape(s[3..]) == Some(0xA9 as char);
  }

  /** Both sides' encodings of an id decode to it, and neither contains a path or query delimiter. */
  lemma SegmentsRoundTrip(id: Text)
    ensures Decode(Encode(id, PATH_SEGMENT_SET)) == id
    ensures Decode(Encode(id, CLIENT_SET)) == id
    ensures forall c :: c in Encode(id, PATH_SEGMENT_SET) ==> c !in {'/', '?', '#'}
    ensures forall c :: c in Encode(id, CLIENT_SET) ==> c !in {'/', '?', '#', '&', '=', '+'}
  {
    DecodeEncode(id, PATH_SEGMENT_SET);
    DecodeEncode(id, CLIENT_SET);
    EncodedOctets(id, PATH_SEGMENT_SET);
    EncodedOctets(id, CLIENT_SET);
  }
}
