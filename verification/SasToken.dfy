/**
 Shared access signatures of the Azure client: percent-encoding into bounded buffers
 (sections 2.1 and 2.3 of RFC 3986), the string that is signed, and the token.

 The signature (HMAC-SHA256, then base64) is any function from text to text.
 */
module SasToken {
  import opened Text
  import Decimal

  // ---- Percent-encoding -------------------------------------------------

  predicate Unreserved(c: char) {
    'a' <= c <= 'z' || 'A' <= c <= 'Z' || '0' <= c <= '9' || c == '-' || c == '_' || c == '.' || c == '~'
  }

  /** Text of single bytes. */
  predicate Octets(s: string) {
    forall i :: 0 <= i < |s| ==> s[i] as int < 256
  }

  function HexUpper(n: int): char
    requires 0 <= n < 16
  {
    if n < 10 then ('0' as int + n) as char else ('A' as int + n - 10) as char
  }

  function HexValue(c: char): Option<int> {
    if '0' <= c <= '9' then Some(c as int - '0' as int)
    else if 'A' <= c <= 'F' then Some(c as int - 'A' as int + 10)
    else None
  }

  /** One character of the source, taken as an unsigned char. */
  function Escape(c: char): (e: string)
    ensures |e| == if Unreserved(c) then 1 else 3
  {
    if Unreserved(c) then [c]
    else
      var b := c as int % 256;
      ['%', HexUpper(b / 16), HexUpper(b % 16)]
  }

  /** Letters, digits and "-_.~" stand for themselves, any other byte becomes '%' and its two digits. */
  lemma EscapeExactly(c: char, hex: string)
    requires c as int < 256 && hex == "0123456789ABCDEF"
    ensures Escape(c) ==
              if ('a' <= c <= 'z' || 'A' <= c <= 'Z' || '0' <= c <= '9' || c in ['-', '_', '.', '~']) then [c]
              else ['%', hex[c as int / 16], hex[c as int % 16]]
  {
    if !Unreserved(c) {
      var h, l := c as int / 16, c as int % 16;
      EscapeIs(c, h, l);
      HexUpperIs(h, hex);
      HexUpperIs(l, hex);
    }
  }

  lemma HexUpperIs(n: int, hex: string)
    requires 0 <= n < 16 && hex == "0123456789ABCDEF"
    ensures HexUpper(n) == hex[n]
  {
  }

  function Encode(s: string): string {
    if s == [] then [] else Escape(s[0]) + Encode(s[1..])
  }

  function Decode(t: string): Option<string> {
    if t == [] then Some([])
    else if t[0] == '%' then
      if |t| < 3 then None
      else
        match (HexValue(t[1]), HexValue(t[2]), Decode(t[3..]))
        case (Some(h), Some(l), Some(rest)) => Some([(16 * h + l) as char] + rest)
        case _ => None
    else
      match Decode(t[1..])
      case Some(rest) => Some([t[0]] + rest)
      case None => None
  }

  /** How many characters of s url_encode consumes for a buffer of size bytes. */
  function Kept(s: string, size: int): (n: nat)
    ensures n <= |s|
  {
    if s == [] || size <= 4 then 0 else 1 + Kept(s[1..], size - |Escape(s[0])|)
  }

  lemma {:induction false} EncodeSnoc(s: string, c: char)
    ensures Encode(s + [c]) == Encode(s) + Escape(c)
  {
    if s == [] {
      assert Encode([c]) == Escape(c) + Encode([]);
    } else {
      assert (s + [c])[1..] == s[1..] + [c];
      EncodeSnoc(s[1..], c);
    }
  }

  /** Kept is the first place where fewer than four bytes would be left after the next escape. */
  lemma {:induction false} KeptExactly(s: string, size: int)
    ensures var n := Kept(s, size);
            && (n < |s| ==> |Encode(s[..n])| + 4 >= size)
            && (forall m :: 0 <= m < n ==> |Encode(s[..m])| + 4 < size)
            && (size >= 1 ==> |Encode(s[..n])| < size)
  {
    var n := Kept(s, size);
    if n > 0 {
      KeptExactly(s[1..], size - |Escape(s[0])|);
      assert s[..n][1..] == s[1..][..n - 1];
      forall m | 0 < m < n
        ensures |Encode(s[..m])| + 4 < size
      {
        assert s[..m][1..] == s[1..][..m - 1];
      }
    }
  }

  /** The whole input is encoded exactly when its last character still found four spare bytes. */
  lemma WholeExactly(s: string, size: int)
    ensures Kept(s, size) == |s| <==> s == [] || |Encode(s[..|s| - 1])| + 4 < size
    ensures |Encode(s)| + 3 < size ==> Kept(s, size) == |s|
  {
    KeptExactly(s, size);
    if s != [] {
      var t := s[..|s| - 1];
      EncodeSnoc(t, s[|s| - 1]);
      assert t + [s[|s| - 1]] == s;
      if Kept(s, size) < |s| {
        PrefixShorter(s, Kept(s, size));
      }
    }
  }

  lemma {:induction false} PrefixShorter(s: string, n: nat)
    requires n < |s|
    ensures |Encode(s[..n])| <= |Encode(s[..|s| - 1])| < |Encode(s)|
    decreases |s|
  {
    var t := s[..|s| - 1];
    EncodeSnoc(t, s[|s| - 1]);
    assert t + [s[|s| - 1]] == s;
    if n < |t| {
      PrefixShorter(t, n);
      assert t[..n] == s[..n];
    }
  }

  lemma HexUpperValue(n: int)
    requires 0 <= n < 16
    ensures HexValue(HexUpper(n)) == Some(n)
  {
  }

  lemma Nibbles(b: int)
    requires 0 <= b < 256
    ensures b % 256 == b && 0 <= b / 16 < 16 && 16 * (b / 16) + b % 16 == b
  {
  }

  lemma EscapeIs(c: char, h: int, l: int)
    requires c as int < 256 && !Unreserved(c) && h == c as int / 16 && l == c as int % 16
    ensures 0 <= h < 16 && Escape(c) == ['%', HexUpper(h), HexUpper(l)] && 16 * h + l == c as int
  {
    Nibbles(c as int);
  }

  /** The two digits of an escape say which byte it is. */
  lemma EscapeDigits(c: char, h: int, l: int)
    requires c as int < 256 && !Unreserved(c) && h == c as int / 16 && l == c as int % 16
    ensures var e := Escape(c); |e| == 3 && e[0] == '%' && HexValue(e[1]) == Some(h) && HexValue(e[2]) == Some(l)
    ensures 0 <= h < 16 && 16 * h + l == c as int
  {
    EscapeIs(c, h, l);
    HexUpperValue(h);
    HexUpperValue(l);
  }

  /** Reading one escape. */
  lemma DecodeTriple(e: string, t: string, h: int, l: int, b: string, rest: string)
    requires |e| == 3 && e[0] == '%' && HexValue(e[1]) == Some(h) && HexValue(e[2]) == Some(l)
    requires 0 <= h < 16 && 0 <= l < 16 && b == [(16 * h + l) as char] && Decode(t) == Some(rest)
    ensures Decode(e + t) == Some(b + rest)
  {
    DropAppend(e, t, 0);
  }

  lemma DecodePlain(e: string, t: string, rest: string)
    requires |e| == 1 && e[0] != '%' && Decode(t) == Some(rest)
    ensures Decode(e + t) == Some(e + rest)
  {
    DropAppend(e, t, 0);
    assert [e[0]] == e;
  }

  lemma DecodeEscape(c: char, t: string, rest: string)
    requires c as int < 256 && Decode(t) == Some(rest)
    ensures Decode(Escape(c) + t) == Some([c] + rest)
  {
    if Unreserved(c) {
      DecodePlain(Escape(c), t, rest);
    } else {
      var h, l := c as int / 16, c as int % 16;
      EscapeDigits(c, h, l);
      DecodeTriple(Escape(c), t, h, l, [c], rest);
    }
  }

  /** Decoding gives the bytes back. */
  lemma {:induction false} DecodeEncode(s: string)
    requires Octets(s)
    ensures Decode(Encode(s)) == Some(s)
  {
    if s != [] {
      DecodeEncode(s[1..]);
      DecodeEscape(s[0], Encode(s[1..]), s[1..]);
      assert [s[0]] + s[1..] == s;
    }
  }

  /** Encoded text never contains a byte the token uses as punctuation. */
  lemma {:induction false} EncodedIsPlain(s: string)
    ensures forall i :: 0 <= i < |Encode(s)| ==> Unreserved(Encode(s)[i]) || Encode(s)[i] == '%'
  {
    if s != [] {
      EncodedIsPlain(s[1..]);
    }
  }

  function Escapes(s: string): nat {
    if s == [] then 0 else (if Unreserved(s[0]) then 0 else 1) + Escapes(s[1..])
  }

  lemma {:induction false} EncodedLength(s: string)
    ensures |Encode(s)| == |s| + 2 * Escapes(s)
  {
    if s != [] {
      EncodedLength(s[1..]);
    }
  }

  /** The loop of url_encode, seen from index n. */
  lemma KeptStep(s: string, size: int, n: nat, e: string)
    requires n <= Kept(s, size) && size >= 1 && e == Encode(s[..n])
    ensures |e| < size
    ensures n < |s| && |e| + 4 < size ==> n < Kept(s, size) && Encode(s[..n + 1]) == e + Escape(s[n])
    ensures n == |s| || |e| + 4 >= size ==> n == Kept(s, size)
  {
    KeptExactly(s, size);
    if n < |s| {
      EncodeSnoc(s[..n], s[n]);
      assert s[..n] + [s[n]] == s[..n + 1];
    }
  }

  /** e is written at the front of the buffer, and what it held before is still behind it. */
  predicate Holds(now: string, e: string, start: string) {
    |e| <= |start| && now == e + start[|e|..]
  }

  /** Writing x right behind e. */
  lemma Spliced(e: string, start: string, x: string)
    requires |e| + |x| <= |start|
    ensures var t := e + start[|e|..];
            t[..|e|] + x + t[|e| + |x|..] == e + x + start[|e| + |x|..]
  {
  }

  /** c itself or its escape, at di. */
  method PutBytes(dst: array<char>, di: nat, c: char) returns (next: nat)
    requires di + 3 <= dst.Length
    modifies dst
    ensures next == di + |Escape(c)|
    ensures dst[..] == old(dst[..])[..di] + Escape(c) + old(dst[..])[next..]
  {
    if Unreserved(c) {
      dst[di] := c;
      next := di + 1;
    } else {
      var b := c as int % 256;
      dst[di] := '%';
      dst[di + 1] := HexUpper(b / 16);
      dst[di + 2] := HexUpper(b % 16);
      next := di + 3;
    }
  }

  /** The body of the loop. */
  method PutEscape(dst: array<char>, di: nat, c: char, ghost e: string, ghost start: string) returns (next: nat)
    requires di + 3 <= dst.Length && di == |e| && Holds(dst[..], e, start)
    modifies dst
    ensures next == di + |Escape(c)| && Holds(dst[..], e + Escape(c), start)
  {
    Spliced(e, start, Escape(c));
    next := PutBytes(dst, di, c);
  }

  /** url_encode: the encoding of the prefix that fits, terminated, and nothing else written. */
  method UrlEncode(src: string, dst: array<char>)
    requires dst.Length >= 1 && '\0' !in src
    modifies dst
    ensures var e := Encode(src[..Kept(src, dst.Length)]);
            && |e| < dst.Length && dst[..] == e + ['\0'] + old(dst[..])[|e| + 1..]
  {
    var di, si := 0, 0;
    ghost var start, e := dst[..], "";
    KeptStep(src, dst.Length, 0, "");
    while si < |src| && di + 4 < dst.Length
      invariant si <= Kept(src, dst.Length) && e == Encode(src[..si])
      invariant di == |e| < dst.Length && Holds(dst[..], e, start)
      decreases |src| - si
    {
      KeptStep(src, dst.Length, si, e);
      di := PutEscape(dst, di, src[si], e, start);
      e, si := e + Escape(src[si]), si + 1;
      KeptStep(src, dst.Length, si, e);
    }
    KeptStep(src, dst.Length, si, e);
    PutEnd(dst, di, e, start);
  }

  method PutEnd(dst: array<char>, di: nat, ghost e: string, ghost start: string)
    requires di < dst.Length && di == |e| && Holds(dst[..], e, start)
    modifies dst
    ensures dst[..] == e + ['\0'] + start[|e| + 1..]
  {
    Spliced(e, start, ['\0']);
    ghost var was := dst[..];
    dst[di] := '\0';
    assert dst[..] == was[..di] + ['\0'] + was[di + 1..];
  }

  // ---- The signed string and the token ----------------------------------

  const SCHEME := "SharedAccessSignature sr="
  const SIG := "&sig="
  const SE := "&se="
  const SKN := "&skn="

  /** "%s\n%ld": what is signed. */
  function ToSign(encodedUri: string, expiry: int): string {
    encodedUri + ['\n'] + Decimal.Print(expiry)
  }

  function Tail(expiry: int, policy: Option<string>): string {
    SE + Decimal.Print(expiry) + if policy.Some? then SKN + policy.value else ""
  }

  function Token(encodedUri: string, encodedSig: string, expiry: int, policy: Option<string>): string {
    SCHEME + encodedUri + SIG + encodedSig + Tail(expiry, policy)
  }

  datatype Fields = Fields(uri: string, sig: string, expiry: int, policy: Option<string>)

  /** Drops a literal prefix. */
  function Expect(s: string, prefix: string): Option<string> {
    if prefix <= s then Some(s[|prefix|..]) else None
  }

  function ParseTail(s: string): Option<(int, Option<string>)> {
    match Expect(s, SE)
    case None => None
    case Some(rest) =>
      var i := IndexOf(rest, '&');
      match (Decimal.Read(rest[..i]), Expect(rest[i..], SKN))
      case (Some(n), Some(p)) => Some((n, Some(p)))
      case (Some(n), None) => if i == |rest| then Some((n, None)) else None
      case (None, _) => None
  }

  /** One encoded field up to the next '&', and what follows it. */
  function ParseField(s: string): Option<(string, string)> {
    var i := IndexOf(s, '&');
    match Decode(s[..i])
    case Some(text) => Some((text, s[i..]))
    case None => None
  }

  function ParseSigOn(uri: string, s: string): Option<Fields> {
    match Expect(s, SIG)
    case None => None
    case Some(r) =>
      match ParseField(r)
      case None => None
      case Some((sig, rest)) =>
        match ParseTail(rest)
        case None => None
        case Some((n, p)) => Some(Fields(uri, sig, n, p))
  }

  /** Reads a token back, as a server would. */
  function Parse(t: string): Option<Fields> {
    match Expect(t, SCHEME)
    case None => None
    case Some(r) =>
      match ParseField(r)
      case None => None
      case Some((uri, rest)) => ParseSigOn(uri, rest)
  }

  /** Reads back what was signed. */
  function ParseSigned(t: string): Option<(string, int)> {
    var i := IndexOf(t, '\n');
    if i == |t| then None
    else
      match (Decode(t[..i]), Decimal.Read(t[i + 1..]))
      case (Some(uri), Some(n)) => Some((uri, n))
      case _ => None
  }

  lemma ExpectGets(prefix: string, s: string)
    ensures Expect(prefix + s, prefix) == Some(s)
  {
  }

  /** A field that ends at the first '&' of what follows. */
  lemma FieldEnds(a: string, b: string)
    requires '&' !in a && (b == [] || b[0] == '&')
    ensures IndexOf(a + b, '&') == |a| && (a + b)[..|a|] == a && (a + b)[|a|..] == b
  {
    IndexAfter(a, b, '&');
  }

  lemma FieldParses(s: string, b: string)
    requires Octets(s) && (b == [] || b[0] == '&')
    ensures ParseField(Encode(s) + b) == Some((s, b))
  {
    EncodedIsPlain(s);
    DecodeEncode(s);
    FieldEnds(Encode(s), b);
  }

  lemma ParsesTail(expiry: int, policy: Option<string>)
    ensures ParseTail(Tail(expiry, policy)) == Some((expiry, policy))
    ensures Tail(expiry, policy)[0] == '&'
  {
    var digits := Decimal.Print(expiry);
    var rest := if policy.Some? then SKN + policy.value else "";
    FieldEnds(digits, rest);
    Decimal.ReadPrint(expiry);
    assert Tail(expiry, policy) == SE + (digits + rest);
    ExpectGets(SE, digits + rest);
    if policy.Some? {
      ExpectGets(SKN, policy.value);
    }
  }

  lemma ParsesSigOn(uri: string, sig: string, expiry: int, policy: Option<string>)
    requires Octets(sig)
    ensures ParseSigOn(uri, SIG + (Encode(sig) + Tail(expiry, policy))) == Some(Fields(uri, sig, expiry, policy))
  {
    ParsesTail(expiry, policy);
    FieldParses(sig, Tail(expiry, policy));
    ExpectGets(SIG, Encode(sig) + Tail(expiry, policy));
  }

  /** The four fields can be read back from a whole token. */
  lemma ParseToken(uri: string, sig: string, expiry: int, policy: Option<string>)
    requires Octets(uri) && Octets(sig)
    ensures Parse(Token(Encode(uri), Encode(sig), expiry, policy)) == Some(Fields(uri, sig, expiry, policy))
  {
    var rest := SIG + (Encode(sig) + Tail(expiry, policy));
    assert rest[0] == '&';
    ParsesSigOn(uri, sig, expiry, policy);
    FieldParses(uri, rest);
    ExpectGets(SCHEME, Encode(uri) + rest);
    TokenGroups(SCHEME, Encode(uri), SIG, Encode(sig), Tail(expiry, policy));
  }

  lemma TokenGroups(a: string, b: string, c: string, d: string, e: string)
    ensures a + b + c + d + e == a + (b + (c + (d + e)))
  {
  }

  lemma SplitsAt(a: string, c: char, b: string)
    requires c !in a
    ensures IndexOf(a + [c] + b, c) == |a| < |a + [c] + b|
    ensures (a + [c] + b)[..|a|] == a && (a + [c] + b)[|a| + 1..] == b
  {
    IndexAfter(a, [c] + b, c);
    assert a + [c] + b == a + ([c] + b);
  }

  /** The signed string determines both the resource and the expiry. */
  lemma SignedStringDetermines(uri: string, expiry: int)
    requires Octets(uri)
    ensures ParseSigned(ToSign(Encode(uri), expiry)) == Some((uri, expiry))
  {
    EncodedIsPlain(uri);
    DecodeEncode(uri);
    Decimal.ReadPrint(expiry);
    SplitsAt(Encode(uri), '\n', Decimal.Print(expiry));
  }

  // ---- build_sas_token --------------------------------------------------

  const URI_BUFFER: nat := 192
  const SIG_BUFFER: nat := 96
  const SIGN_BUFFER: nat := 256
  const VALIDITY: int := 3600

  /** The token text of a given moment, before the final buffer cuts it. */
  function FullToken(uri: string, policy: Option<string>, expiry: int, sign: string -> string): string {
    var u := Encode(uri[..Kept(uri, URI_BUFFER)]);
    var g := sign(ToSign(u, expiry));
    Token(u, Encode(g[..Kept(g, SIG_BUFFER)]), expiry, policy)
  }

  /** The token text in full: what is signed, the encoded parts with their buffers, and the order of the fields. */
  lemma FullTokenText(uri: string, policy: Option<string>, expiry: int, sign: string -> string)
    ensures var u := Encode(uri[..Kept(uri, 192)]);
            var g := sign(u + "\n" + Decimal.Print(expiry));
            FullToken(uri, policy, expiry, sign) ==
              "SharedAccessSignature sr=" + u + "&sig=" + Encode(g[..Kept(g, 96)]) + "&se=" + Decimal.Print(expiry)
              + if policy.Some? then "&skn=" + policy.value else ""
  {
    var u := Encode(uri[..Kept(uri, URI_BUFFER)]);
    var g := sign(ToSign(u, expiry));
    TokenText(SCHEME + u + SIG + Encode(g[..Kept(g, SIG_BUFFER)]), SE, Decimal.Print(expiry),
              if policy.Some? then SKN + policy.value else "");
  }

  lemma TokenText(front: string, se: string, digits: string, end: string)
    ensures front + (se + digits + end) == front + se + digits + end
  {
  }

  /** The signed string always fits its 256-byte buffer. */
  lemma SignedStringFits(uri: string, expiry: int)
    requires Decimal.IsLong(expiry)
    ensures |ToSign(Encode(uri[..Kept(uri, URI_BUFFER)]), expiry)| < SIGN_BUFFER
  {
    KeptExactly(uri, URI_BUFFER);
    Decimal.LongLength(expiry);
  }

  /** None when the symmetric key is not base64. Every snprintf cuts at its buffer. */
  method BuildSasToken(uri: string, policy: Option<string>, keyOk: bool, now: int, sign: string -> string, outSize: nat)
    returns (token: Option<string>)
    requires '\0' !in uri && Decimal.IsLong(now) && Decimal.IsLong(now + VALIDITY) && outSize >= 1
    requires forall s :: '\0' !in sign(s)
    ensures token == if keyOk then Some(Truncated(FullToken(uri, policy, now + 3600, sign), outSize - 1)) else None
  {
    if !keyOk {
      return None;
    }
    var expiry := now + VALIDITY;
    var encodedUri := new char[URI_BUFFER];
    UrlEncode(uri, encodedUri);
    EncodedIsPlain(uri[..Kept(uri, URI_BUFFER)]);
    var uriText := CText(encodedUri, Encode(uri[..Kept(uri, URI_BUFFER)]));
    SignedStringFits(uri, expiry);
    var signature := sign(Truncated(ToSign(uriText, expiry), SIGN_BUFFER - 1));
    var encodedSig := new char[SIG_BUFFER];
    UrlEncode(signature, encodedSig);
    EncodedIsPlain(signature[..Kept(signature, SIG_BUFFER)]);
    var sigText := CText(encodedSig, Encode(signature[..Kept(signature, SIG_BUFFER)]));
    return Some(Truncated(Token(uriText, sigText, expiry, policy), outSize - 1));
  }

  /** Reads a terminated string out of a buffer. */
  method CText(a: array<char>, ghost s: string) returns (t: string)
    requires s + ['\0'] <= a[..] && '\0' !in s
    ensures t == s
  {
    var n := 0;
    assert forall i :: 0 <= i <= |s| ==> a[i] == a[..][i] == (s + ['\0'])[i];
    while a[n] != '\0'
      invariant n <= |s|
      decreases |s| - n
    {
      n := n + 1;
    }
    t := a[..n];
  }

  lemma FullTokenParses(uri: string, policy: Option<string>, expiry: int, sign: string -> string)
    requires Octets(uri) && (forall s :: Octets(sign(s)))
    ensures var sig := sign(ToSign(Encode(uri[..Kept(uri, URI_BUFFER)]), expiry));
            Parse(FullToken(uri, policy, expiry, sign))
            == Some(Fields(uri[..Kept(uri, URI_BUFFER)], sig[..Kept(sig, SIG_BUFFER)], expiry, policy))
  {
    var sig := sign(ToSign(Encode(uri[..Kept(uri, URI_BUFFER)]), expiry));
    ParseToken(uri[..Kept(uri, URI_BUFFER)], sig[..Kept(sig, SIG_BUFFER)], expiry, policy);
  }

  lemma PrefixWhole(s: string, n: nat)
    requires n <= |s|
    ensures s[..n] == s <==> n == |s|
  {
  }

  /**
   A token that fits its buffer always parses, to whatever part of the URI and of the
   signature fitted theirs; so it carries the request exactly when both were encoded whole.
   */
  lemma TokenCarries(uri: string, policy: Option<string>, expiry: int, sign: string -> string, outSize: nat)
    requires Octets(uri) && (forall s :: Octets(sign(s)))
    requires |FullToken(uri, policy, expiry, sign)| < outSize
    ensures var sig := sign(ToSign(Encode(uri[..Kept(uri, URI_BUFFER)]), expiry));
            var parsed := Parse(Truncated(FullToken(uri, policy, expiry, sign), outSize - 1));
            && parsed == Some(Fields(uri[..Kept(uri, URI_BUFFER)], sig[..Kept(sig, SIG_BUFFER)], expiry, policy))
            && (parsed == Some(Fields(uri, sig, expiry, policy))
                <==> Kept(uri, URI_BUFFER) == |uri| && Kept(sig, SIG_BUFFER) == |sig|)
  {
    var sig := sign(ToSign(Encode(uri[..Kept(uri, URI_BUFFER)]), expiry));
    FullTokenParses(uri, policy, expiry, sign);
    PrefixWhole(uri, Kept(uri, URI_BUFFER));
    PrefixWhole(sig, Kept(sig, SIG_BUFFER));
  }

  /** The 44 base64 characters of a signature fit encoded_sig exactly when at most 24 of the first 43 are escaped. */
  lemma SignatureFits(sig: string)
    requires |sig| == 44
    ensures Kept(sig, SIG_BUFFER) == |sig| <==> Escapes(sig[..43]) <= 24
  {
    WholeExactly(sig, SIG_BUFFER);
    EncodedLength(sig[..43]);
  }
}
