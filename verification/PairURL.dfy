/**
 * Pairing tokens and pairing URLs (leaf/agent/notify/token.go). Strings are byte strings: a
 * character stands for a byte. Percent-encoding is that of a path segment (section 2.1 of RFC 3986).
 */
module PairURL {
  import opened Common
  import opened Text

  const PREFIX := "edgesync-pair://v1/"
  const ALPHABET := "23456789ABCDEFGHJKMNPQRSTVWXYZ"
  const REJECT_THRESHOLD := 240

  datatype PairInfo = PairInfo(endpointID: string, natsAddr: string, token: string)

  predicate IsBytes(s: string)
  {
    forall c :: c in s ==> c as int < 256
  }

  // ---------- percent-encoding ----------

  predicate IsAlnum(c: char)
  {
    'a' <= c <= 'z' || 'A' <= c <= 'Z' || '0' <= c <= '9'
  }

  /** What may stand for itself in a path segment. */
  predicate Plain(c: char)
  {
    IsAlnum(c) || c in "-_.~$&+:=@"
  }

  function HexDigit(n: nat): char
    requires n < 16
  {
    "0123456789ABCDEF"[n]
  }

  function HexValue(c: char): Option<nat>
  {
    if '0' <= c <= '9' then Some(c as int - '0' as int)
    else if 'a' <= c <= 'f' then Some(c as int - 'a' as int + 10)
    else if 'A' <= c <= 'F' then Some(c as int - 'A' as int + 10)
    else None
  }

  function PathEscape(s: string): string
    requires IsBytes(s)
  {
    if s == "" then ""
    else
      assert forall c :: c in s[1..] ==> c in s;
      var c := s[0];
      assert c in s;
      (if Plain(c) then [c] else ['%', HexDigit(c as int / 16), HexDigit(c as int % 16)]) + PathEscape(s[1..])
  }

  /** `url.PathUnescape`: a `%` not followed by two hex digits is an error. */
  function PathUnescape(s: string): Result<string>
  {
    if s == "" then Ok("")
    else if s[0] != '%' then
      match PathUnescape(s[1..])
      case Err(e) => Err(e)
      case Ok(t) => Ok([s[0]] + t)
    else if |s| < 3 || HexValue(s[1]).None? || HexValue(s[2]).None? then Err("invalid URL escape")
    else
      match PathUnescape(s[3..])
      case Err(e) => Err(e)
      case Ok(t) => Ok([HexByte(s[1], s[2])] + t)
  }

  function HexByte(a: char, b: char): (c: char)
    requires HexValue(a).Some? && HexValue(b).Some?
    ensures c as int == 16 * HexValue(a).value + HexValue(b).value < 256
  {
    (16 * HexValue(a).value + HexValue(b).value) as char
  }

  lemma HexRoundTrip(n: nat)
    requires n < 16
    ensures HexValue(HexDigit(n)) == Some(n) && HexDigit(n) != '/' && HexDigit(n) != '%'
  {
    assert forall i :: 0 <= i < 10 ==> "0123456789ABCDEF"[i] as int == 48 + i;
    assert forall i :: 10 <= i < 16 ==> "0123456789ABCDEF"[i] as int == 55 + i;
  }

  /** Exactly the hex digits of either case have a value, and it is the digit's. */
  lemma HexValueExactly(c: char, n: nat)
    ensures HexValue(c) == Some(n) <==> n < 16 && (c == "0123456789abcdef"[n] || c == "0123456789ABCDEF"[n])
  {
    assert forall i :: 0 <= i < 10 ==> "0123456789ABCDEF"[i] as int == 48 + i && "0123456789abcdef"[i] as int == 48 + i;
    assert forall i :: 10 <= i < 16 ==> "0123456789ABCDEF"[i] as int == 55 + i && "0123456789abcdef"[i] as int == 87 + i;
  }

  lemma UnescapePlain(c: char, e: string)
    requires c != '%'
    ensures PathUnescape([c] + e) ==
      match PathUnescape(e) case Err(m) => Err(m) case Ok(t) => Ok([c] + t)
  {
    assert ([c] + e)[1..] == e;
  }

  lemma UnescapeHex(n: nat, e: string)
    requires n < 256
    ensures PathUnescape(['%', HexDigit(n / 16), HexDigit(n % 16)] + e) ==
      match PathUnescape(e) case Err(m) => Err(m) case Ok(t) => Ok([n as char] + t)
  {
    HexRoundTrip(n / 16);
    HexRoundTrip(n % 16);
    assert HexByte(HexDigit(n / 16), HexDigit(n % 16)) == n as char;
    var p := ['%', HexDigit(n / 16), HexDigit(n % 16)];
    assert (p + e)[3..] == e;
  }

  /** Unescaping undoes escaping, and an escaped string holds no slash. */
  lemma {:induction false} EscapeRoundTrip(s: string)
    requires IsBytes(s)
    ensures PathUnescape(PathEscape(s)) == Ok(s)
    ensures '/' !in PathEscape(s)
    decreases |s|
  {
    if s != "" {
      var c, rest := s[0], s[1..];
      assert s == [c] + rest && c in s;
      assert forall x :: x in rest ==> x in s;
      EscapeRoundTrip(rest);
      if Plain(c) {
        UnescapePlain(c, PathEscape(rest));
      } else {
        HexRoundTrip(c as int / 16);
        HexRoundTrip(c as int % 16);
        UnescapeHex(c as int, PathEscape(rest));
      }
    }
  }

  // ---------- the URL ----------

  /** Strips the dashes. */
  function RawToken(formatted: string): (r: string)
    ensures '-' !in r
    ensures '-' !in formatted ==> r == formatted
  {
    if formatted == "" then ""
    else
      assert formatted == [formatted[0]] + formatted[1..];
      if formatted[0] == '-' then RawToken(formatted[1..]) else [formatted[0]] + RawToken(formatted[1..])
  }

  function FormatPairURL(endpointID: string, natsAddr: string, token: string): string
    requires IsBytes(natsAddr)
  {
    PREFIX + endpointID + "/" + PathEscape(natsAddr) + "/" + RawToken(token)
  }

  function ParsePairURL(raw: string): Result<PairInfo>
  {
    if !HasPrefix(raw, PREFIX) then Err("invalid pair URL: missing prefix")
    else ParseSegments(raw[|PREFIX|..])
  }

  /** Splits at the first two slashes, so the third part keeps any further ones. */
  function ParseSegments(rest: string): Result<PairInfo>
  {
    var first := Before(rest, '/');
    if first.None? then Err("invalid pair URL: expected 3 path segments, got 1")
    else
      var afterFirst := rest[|first.value| + 1..];
      var second := Before(afterFirst, '/');
      if second.None? then Err("invalid pair URL: expected 3 path segments, got 2")
      else
        match PathUnescape(second.value)
        case Err(e) => Err("invalid pair URL: unescape NATS addr: " + e)
        case Ok(addr) => Ok(PairInfo(first.value, addr, afterFirst[|second.value| + 1..]))
  }

  lemma Grouped(p: string, e: string, x: string, t: string)
    ensures p + e + "/" + x + "/" + t == p + (e + ['/'] + (x + ['/'] + t))
  {
    assert "/" == ['/'];
  }

  lemma DropPrefix(p: string, rest: string)
    ensures HasPrefix(p + rest, p) && (p + rest)[|p|..] == rest
  {
  }

  /** What the parser makes of three segments of which the first two hold no slash. */
  lemma ThreeSegments(e: string, x: string, t: string)
    requires '/' !in e && '/' !in x
    ensures ParseSegments(e + ['/'] + (x + ['/'] + t)) ==
      match PathUnescape(x)
      case Err(m) => Err("invalid pair URL: unescape NATS addr: " + m)
      case Ok(addr) => Ok(PairInfo(e, addr, t))
  {
    var rest := e + ['/'] + (x + ['/'] + t);
    BeforeSplit(e, x + ['/'] + t, '/');
    assert rest[|e| + 1..] == x + ['/'] + t;
    BeforeSplit(x, t, '/');
    assert (x + ['/'] + t)[|x| + 1..] == t;
  }

  /** The prefix and three parts, of which the first two hold no slash and the second unescapes. */
  ghost predicate IsPairURL(raw: string, p: PairInfo, x: string)
  {
    && '/' !in p.endpointID && '/' !in x && PathUnescape(x) == Ok(p.natsAddr)
    && raw == "edgesync-pair://v1/" + (p.endpointID + ['/'] + (x + ['/'] + p.token))
  }

  /** The three segments of what the parser accepts. */
  lemma SegmentsOf(rest: string) returns (x: string)
    requires ParseSegments(rest).Ok?
    ensures var p := ParseSegments(rest).value;
      '/' !in p.endpointID && '/' !in x && PathUnescape(x) == Ok(p.natsAddr)
      && rest == p.endpointID + ['/'] + (x + ['/'] + p.token)
  {
    var first := Before(rest, '/').value;
    var afterFirst := rest[|first| + 1..];
    x := Before(afterFirst, '/').value;
    SplitAt(rest, |first|);
    SplitAt(afterFirst, |x|);
  }

  lemma SplitAt(s: string, i: nat)
    requires i < |s|
    ensures s == s[..i] + [s[i]] + s[i + 1..]
  {
  }

  /** Exactly such strings parse, and to those parts. */
  lemma ParsesExactly(raw: string, p: PairInfo)
    ensures ParsePairURL(raw) == Ok(p) <==> exists x :: IsPairURL(raw, p, x)
  {
    if ParsePairURL(raw) == Ok(p) {
      var rest := raw[|PREFIX|..];
      var x := SegmentsOf(rest);
      PrefixOff(raw, PREFIX);
      assert IsPairURL(raw, p, x);
    }
    if x :| IsPairURL(raw, p, x) {
      DropPrefix(PREFIX, p.endpointID + ['/'] + (x + ['/'] + p.token));
      ThreeSegments(p.endpointID, x, p.token);
    }
  }

  lemma PrefixOff(s: string, p: string)
    requires HasPrefix(s, p)
    ensures s == p + s[|p|..]
  {
  }

  /** What stands for itself is not escaped, so an address of such characters is printed as it is. */
  lemma {:induction false} PlainIsUnchanged(s: string)
    requires IsBytes(s) && forall c :: c in s ==> IsAlnum(c) || c in "-_.~$&+:=@"
    ensures PathEscape(s) == s
    decreases |s|
  {
    if s != "" {
      assert s == [s[0]] + s[1..] && s[0] in s;
      assert forall c :: c in s[1..] ==> c in s;
      PlainIsUnchanged(s[1..]);
    }
  }

  lemma ParsedEndpointIsPlain(raw: string)
    requires ParsePairURL(raw).Ok?
    ensures '/' !in ParsePairURL(raw).value.endpointID
  {
  }

  /** The parser undoes the printer, for every address and token, exactly when the endpoint id holds
      no slash. */
  lemma PairURLRoundTrip(e: string, addr: string, token: string)
    requires IsBytes(addr)
    ensures ParsePairURL(FormatPairURL(e, addr, token)) == Ok(PairInfo(e, addr, RawToken(token)))
            <==> '/' !in e
  {
    EscapeRoundTrip(addr);
    var r := ParsePairURL(FormatPairURL(e, addr, token));
    if '/' !in e {
      var rest := e + ['/'] + (PathEscape(addr) + ['/'] + RawToken(token));
      Grouped(PREFIX, e, PathEscape(addr), RawToken(token));
      DropPrefix(PREFIX, rest);
      ThreeSegments(e, PathEscape(addr), RawToken(token));
    } else if r.Ok? {
      ParsedEndpointIsPlain(FormatPairURL(e, addr, token));
    }
  }

  lemma {:induction false} UnescapedIsBytes(s: string)
    requires IsBytes(s) && PathUnescape(s).Ok?
    ensures IsBytes(PathUnescape(s).value)
    decreases |s|
  {
    if s != "" {
      assert s[0] in s;
      var k := if s[0] == '%' then 3 else 1;
      assert forall c :: c in s[k..] ==> c in s;
      UnescapedIsBytes(s[k..]);
    }
  }

  /** Whatever parses can be printed again, and parses to the same with the token's dashes gone. */
  lemma ParsePrintParse(raw: string)
    requires IsBytes(raw) && ParsePairURL(raw).Ok?
    ensures var p := ParsePairURL(raw).value;
      && IsBytes(p.natsAddr)
      && ParsePairURL(FormatPairURL(p.endpointID, p.natsAddr, p.token)) == Ok(p.(token := RawToken(p.token)))
  {
    var p := ParsePairURL(raw).value;
    var rest := raw[|PREFIX|..];
    var afterFirst := rest[|Before(rest, '/').value| + 1..];
    var second := Before(afterFirst, '/').value;
    assert forall c :: c in second ==> c in raw;
    UnescapedIsBytes(second);
    ParsedEndpointIsPlain(raw);
    PairURLRoundTrip(p.endpointID, p.natsAddr, p.token);
  }

  // ---------- tokens ----------

  /** The random bytes that are not rejected, as characters of the alphabet. */
  function Drawn(bytes: seq<nat>): (t: string)
    ensures forall c :: c in t ==> c in ALPHABET
  {
    if bytes == [] then ""
    else
      var last := bytes[|bytes| - 1];
      var t := Drawn(bytes[..|bytes| - 1]);
      if last >= REJECT_THRESHOLD then t else t + [ALPHABET[last % |ALPHABET|]]
  }

  /** The random bytes that are not rejected, in order. */
  function Kept(bytes: seq<nat>): seq<nat>
  {
    if bytes == [] then [] else (if bytes[0] < 240 then [bytes[0]] else []) + Kept(bytes[1..])
  }

  lemma {:induction false} KeptSnoc(bytes: seq<nat>, b: nat)
    ensures Kept(bytes + [b]) == Kept(bytes) + if b < 240 then [b] else []
    decreases |bytes|
  {
    var tail := if b < 240 then [b] else [];
    if bytes == [] {
      assert bytes + [b] == [b] && [b][1..] == [];
    } else {
      var head := if bytes[0] < 240 then [bytes[0]] else [];
      assert (bytes + [b])[1..] == bytes[1..] + [b];
      KeptSnoc(bytes[1..], b);
      assert head + (Kept(bytes[1..]) + tail) == (head + Kept(bytes[1..])) + tail;
    }
  }

  /** Each of them draws, in its place, the character at its remainder. */
  lemma {:induction false} DrawnFromKept(bytes: seq<nat>)
    ensures |Drawn(bytes)| == |Kept(bytes)|
    ensures forall i :: 0 <= i < |Kept(bytes)| ==>
      Drawn(bytes)[i] == "23456789ABCDEFGHJKMNPQRSTVWXYZ"[Kept(bytes)[i] % 30]
    decreases |bytes|
  {
    if bytes != [] {
      var init, last := bytes[..|bytes| - 1], bytes[|bytes| - 1];
      DrawnFromKept(init);
      assert bytes == init + [last];
      KeptSnoc(init, last);
    }
  }

  function Dashed(chars: string): string
    requires |chars| == 12
  {
    chars[0..4] + "-" + chars[4..8] + "-" + chars[8..12]
  }

  /** Reads random bytes until twelve are accepted; `None` when the source runs out. */
  method GenerateToken(random: seq<nat>) returns (token: Option<string>, used: nat)
    ensures used <= |random|
    ensures token.Some? ==> |Drawn(random[..used])| == 12 && token.value == Dashed(Drawn(random[..used]))
    ensures token.Some? ==> used > 0 && |Drawn(random[..used - 1])| == 11
    ensures token.None? ==> used == |random| && |Drawn(random)| < 12
  {
    var chars := "";
    used := 0;
    while |chars| < 12
      invariant used <= |random| && |chars| <= 12
      invariant chars == Drawn(random[..used])
      invariant |chars| == 12 ==> used > 0 && |Drawn(random[..used - 1])| == 11
      decreases |random| - used
    {
      if used == |random| {
        assert random[..used] == random;
        return None, used;
      }
      var b := random[used];
      assert random[..used + 1][..used] == random[..used];
      used := used + 1;
      if b >= REJECT_THRESHOLD {
        continue;
      }
      chars := chars + [ALPHABET[b % |ALPHABET|]];
    }
    token := Some(Dashed(chars));
  }

  lemma {:induction false} RawTokenConcat(a: string, b: string)
    ensures RawToken(a + b) == RawToken(a) + RawToken(b)
    decreases |a|
  {
    if a == "" {
      assert a + b == b;
    } else {
      assert (a + b)[1..] == a[1..] + b;
      RawTokenConcat(a[1..], b);
    }
  }

  lemma DashedRawForm(chars: string)
    requires |chars| == 12 && '-' !in chars
    ensures RawToken(Dashed(chars)) == chars
  {
    var a, b, c := chars[0..4], chars[4..8], chars[8..12];
    assert '-' !in a && '-' !in b && '-' !in c;
    DashJoin(a, b);
    DashJoin(a + "-" + b, c);
    assert chars == a + b + c;
  }

  /** The raw form of a generated token is its twelve drawn characters. */
  lemma TokenRawForm(chars: string)
    requires |chars| == 12 && forall c :: c in chars ==> c in ALPHABET
    ensures RawToken(Dashed(chars)) == chars
  {
    NoDashInAlphabet();
    DashedRawForm(chars);
  }

  lemma NoDashInAlphabet()
    ensures '-' !in ALPHABET
  {
    assert forall x :: x in ALPHABET ==> x != '-';
  }

  lemma DashJoin(a: string, b: string)
    ensures RawToken(a + "-" + b) == RawToken(a) + RawToken(b)
  {
    RawTokenConcat(a + "-", b);
    RawTokenConcat(a, "-");
    assert "-"[1..] == "" && RawToken("-") == "";
  }

  /** No modulo bias: every character of the alphabet is drawn by the same number of byte values. */
  lemma NoBias(k: nat)
    requires k < |ALPHABET|
    ensures |set b: nat | b < 256 && b < REJECT_THRESHOLD && b % |ALPHABET| == k| == 8
  {
    var drawing := set b: nat | b < 256 && b < REJECT_THRESHOLD && b % |ALPHABET| == k;
    assert |ALPHABET| == 30;
    var listed := {k, k + 30, k + 60, k + 90, k + 120, k + 150, k + 180, k + 210};
    forall b: nat | b in drawing ensures b in listed {
      assert b == 30 * (b / 30) + k && b / 30 < 8;
    }
    assert drawing == listed;
  }
}
