/** Access tokens: `base64url(deviceID:expiry) . base64url(HMAC)`, built and checked.

    A Go string is a sequence of bytes; a byte is a character below 256 here. HMAC (section 2 of
    RFC 2104) is any function of secret and message. */
module Signer {
  import opened Text
  import opened Wrappers

  type Byte = c: char | c as int < 256
  type Bytes = seq<Byte>
  type Sextet = s: int | 0 <= s < 64
  type Int64 = n: int | -0x8000_0000_0000_0000 <= n < 0x8000_0000_0000_0000

  // ----- Unpadded URL-safe base64, section 5 of RFC 4648 -----

  function CharOf(s: Sextet): Byte {
    if s < 26 then ('A' as int + s) as char
    else if s < 52 then ('a' as int + (s - 26)) as char
    else if s < 62 then ('0' as int + (s - 52)) as char
    else if s == 62 then '-'
    else '_'
  }

  function ValueOf(c: char): Option<Sextet> {
    if 'A' <= c <= 'Z' then Some(c as int - 'A' as int)
    else if 'a' <= c <= 'z' then Some(c as int - 'a' as int + 26)
    else if '0' <= c <= '9' then Some(c as int - '0' as int + 52)
    else if c == '-' then Some(62)
    else if c == '_' then Some(63)
    else None
  }

  function Sextets(b: seq<Byte>): seq<Sextet> {
    if |b| == 0 then []
    else
      var x := b[0] as int;
      if |b| == 1 then [x / 4, x % 4 * 16]
      else
        var y := b[1] as int;
        if |b| == 2 then [x / 4, x % 4 * 16 + y / 16, y % 16 * 4]
        else
          var z := b[2] as int;
          [x / 4, x % 4 * 16 + y / 16, y % 16 * 4 + z / 64, z % 64] + Sextets(b[3..])
  }

  /** Bytes of a sextet sequence; a single left-over sextet is an error, left-over bits are not. */
  function Octets(s: seq<Sextet>): Option<Bytes> {
    if |s| == 0 then Some([])
    else if |s| == 1 then None
    else
      var p: int, q: int := s[0], s[1];
      var x: Byte := (p * 4 + q / 16) as char;
      if |s| == 2 then Some([x])
      else
        var r: int := s[2];
        var y: Byte := (q % 16 * 16 + r / 4) as char;
        if |s| == 3 then Some([x, y])
        else
          var t: int := s[3];
          var z: Byte := (r % 4 * 64 + t) as char;
          var rest := Octets(s[4..]);
          if rest.Some? then Some([x, y, z] + rest.value) else None
  }

  /** Six bits at a time and eight bits at a time are the same bits. */
  lemma Regrouped(x: int, y: int, z: int)
    requires 0 <= x < 256 && 0 <= y < 256 && 0 <= z < 256
    ensures var p, q, r, t := x / 4, x % 4 * 16 + y / 16, y % 16 * 4 + z / 64, z % 64;
      p * 4 + q / 16 == x && q % 16 * 16 + r / 4 == y && r % 4 * 64 + t == z
  {
  }

  /** The first four sextets are those of the first three bytes. */
  ghost predicate Heads(s: seq<Sextet>, b: Bytes) {
    && |s| >= 4 && |b| >= 3
    && s[0] == b[0] as int / 4 && s[1] == b[0] as int % 4 * 16 + b[1] as int / 16
    && s[2] == b[1] as int % 16 * 4 + b[2] as int / 64 && s[3] == b[2] as int % 64
  }

  lemma SextetsOfMore(b: Bytes)
    requires |b| >= 3
    ensures Heads(Sextets(b), b) && Sextets(b)[4..] == Sextets(b[3..])
  {
  }

  lemma OctetsOfMore(s: seq<Sextet>, b: Bytes)
    requires Heads(s, b) && Octets(s[4..]) == Some(b[3..])
    ensures Octets(s) == Some(b)
  {
    Regrouped(b[0] as int, b[1] as int, b[2] as int);
    assert b == [b[0], b[1], b[2]] + b[3..];
  }

  lemma {:induction false} OctetsOfSextets(b: Bytes)
    ensures Octets(Sextets(b)) == Some(b)
  {
    if |b| >= 3 {
      OctetsOfSextets(b[3..]);
      SextetsOfMore(b);
      OctetsOfMore(Sextets(b), b);
    } else if |b| == 2 {
      OctetsOfTwo(Sextets(b), b);
    } else if |b| == 1 {
      OctetsOfOne(Sextets(b), b);
    }
  }

  lemma OctetsOfOne(s: seq<Sextet>, b: Bytes)
    requires |s| == 2 && |b| == 1 && s[0] == b[0] as int / 4 && s[1] == b[0] as int % 4 * 16
    ensures Octets(s) == Some(b)
  {
    Regrouped(b[0] as int, 0, 0);
    assert b == [b[0]];
  }

  lemma OctetsOfTwo(s: seq<Sextet>, b: Bytes)
    requires |s| == 3 && |b| == 2
    requires s[0] == b[0] as int / 4 && s[1] == b[0] as int % 4 * 16 + b[1] as int / 16
    requires s[2] == b[1] as int % 16 * 4
    ensures Octets(s) == Some(b)
  {
    Regrouped(b[0] as int, b[1] as int, 0);
    assert b == [b[0], b[1]];
  }

  function Chars(s: seq<Sextet>): Bytes {
    seq(|s|, i requires 0 <= i < |s| => CharOf(s[i]))
  }

  function Encode(b: Bytes): Bytes { Chars(Sextets(b)) }

  /** Go skips line breaks; any other stranger is an error. */
  function Values(t: string): Option<seq<Sextet>> {
    if t == [] then Some([])
    else
      var rest := Values(t[1..]);
      if t[0] == '\r' || t[0] == '\n' then rest
      else if ValueOf(t[0]).None? || rest.None? then None
      else Some([ValueOf(t[0]).value] + rest.value)
  }

  function Decode(t: string): Option<Bytes> {
    var v := Values(t);
    if v.Some? then Octets(v.value) else None
  }

  lemma ValueOfChar(s: Sextet)
    ensures ValueOf(CharOf(s)) == Some(s) && CharOf(s) !in {'.', '\r', '\n'}
  {
  }

  lemma {:induction false} ValuesOfChars(s: seq<Sextet>)
    ensures Values(Chars(s)) == Some(s)
  {
    if s == [] {
    } else {
      ValuesOfChars(s[1..]);
      ValueOfChar(s[0]);
      assert Chars(s)[1..] == Chars(s[1..]);
      assert Chars(s)[0] == CharOf(s[0]);
      assert [s[0]] + s[1..] == s;
    }
  }

  lemma DecodeEncode(b: Bytes)
    ensures Decode(Encode(b)) == Some(b)
    ensures '.' !in Encode(b)
  {
    ValuesOfChars(Sextets(b));
    OctetsOfSextets(b);
  }

  // ----- Decimal numbers -----

  function Digits(n: nat): Bytes {
    var last: Byte := ('0' as int + n % 10) as char;
    if n < 10 then [last] else Digits(n / 10) + [last]
  }

  function Print(n: int): Bytes { if n < 0 then ['-'] + Digits(-n) else Digits(n) }

  function ParseDigits(t: string): Option<nat> {
    if t == [] then Some(0)
    else
      var last, rest := t[|t| - 1], ParseDigits(t[..|t| - 1]);
      if '0' <= last <= '9' && rest.Some? then Some(rest.value * 10 + (last as int - '0' as int)) else None
  }

  /** `ParseInt(t, 10, 64)`: an optional sign, at least one digit, nothing else, in range. */
  function Parse(t: string): Option<Int64> {
    var signed := t != [] && (t[0] == '-' || t[0] == '+');
    var digits := if signed then t[1..] else t;
    var n := ParseDigits(digits);
    if digits == [] || n.None? then None
    else
      var v: int := if signed && t[0] == '-' then 0 - n.value else n.value;
      if -0x8000_0000_0000_0000 <= v < 0x8000_0000_0000_0000 then Some(v) else None
  }

  lemma {:induction false} ParseOfDigits(n: nat)
    ensures Digits(n) != [] && '0' <= Digits(n)[0] <= '9'
    ensures ParseDigits(Digits(n)) == Some(n)
  {
    if n >= 10 {
      ParseOfDigits(n / 10);
      var d := Digits(n);
      assert d[..|d| - 1] == Digits(n / 10);
    } else {
      assert Digits(n)[..0] == [];
    }
  }

  lemma ParsePrint(n: Int64)
    ensures Parse(Print(n)) == Some(n)
  {
    var k: int := if n < 0 then 0 - n else n;
    ParseOfDigits(k);
    var d, t := Digits(k), Print(n);
    if n < 0 {
      assert t == ['-'] + d && t[0] == '-' && t[1..] == d;
    } else {
      assert t == d && t[0] == d[0];
    }
  }

  lemma {:induction false} ForeignDigit(t: string, i: nat)
    requires i < |t| && !('0' <= t[i] <= '9')
    ensures ParseDigits(t).None?
  {
    if i == |t| - 1 {
    } else {
      ForeignDigit(t[..|t| - 1], i);
    }
  }

  // ----- Tokens -----

  datatype Verdict = Accepted(device: string) | Invalid | Expired

  /** The verdict on a payload whose code is right. */
  function Judge(p: Bytes, now: int): Verdict {
    var colon := IndexOf(p, ':');
    if colon == |p| then Invalid
    else
      var expiry := Parse(p[colon + 1..]);
      if expiry.None? then Invalid
      else if now > expiry.value then Expired
      else Accepted(p[..colon])
  }

  datatype Signer = Signer(secret: Bytes, mac: (Bytes, Bytes) -> Bytes) {

    function Payload(device: Bytes, expiry: Int64): Bytes { device + [':'] + Print(expiry) }

    function Generate(device: Bytes, expiry: Int64): Bytes {
      var p := Payload(device, expiry);
      Encode(p) + ['.'] + Encode(mac(secret, p))
    }

    function Validate(token: string, now: int): Verdict {
      var dot := IndexOf(token, '.');
      if dot == |token| then Invalid
      else
        var payload, sig := Decode(token[..dot]), Decode(token[dot + 1..]);
        if payload.None? || sig.None? || sig.value != mac(secret, payload.value) then Invalid
        else
          Judge(payload.value, now)
    }
  }

  lemma {:induction false} IndexOfFirst<T>(a: seq<T>, b: seq<T>, x: T)
    requires x !in a
    ensures IndexOf(a + [x] + b, x) == |a|
  {
    if a == [] {
    } else {
      IndexOfFirst(a[1..], b, x);
      assert (a + [x] + b)[1..] == a[1..] + [x] + b;
    }
  }

  lemma SignedIsJudged(s: Signer, p: Bytes, now: int)
    ensures s.Validate(Encode(p) + ['.'] + Encode(s.mac(s.secret, p)), now) == Judge(p, now)
  {
    var m := s.mac(s.secret, p);
    var head, tail := Encode(p), Encode(m);
    var token := head + ['.'] + tail;
    DecodeEncode(p);
    DecodeEncode(m);
    IndexOfFirst(head, tail, '.');
    assert token[..|head|] == head && token[|head| + 1..] == tail;
  }

  /** What validation makes of a genuine token: its device up to the expiry second, the expired
      error afterwards. A colon in the device ID, and nothing else, spoils it. */
  lemma RoundTrip(s: Signer, device: Bytes, expiry: Int64, now: int)
    ensures s.Validate(s.Generate(device, expiry), now) ==
      if ':' in device then Invalid else if now > expiry then Expired else Accepted(device)
  {
    var p := s.Payload(device, expiry);
    SignedIsJudged(s, p, now);
    if ':' in device {
      JudgeColon(device, Print(expiry), now);
    } else {
      JudgeGenuine(device, expiry, now);
    }
  }

  lemma JudgeGenuine(device: Bytes, expiry: Int64, now: int)
    requires ':' !in device
    ensures Judge(device + [':'] + Print(expiry), now) == if now > expiry then Expired else Accepted(device)
  {
    var t := Print(expiry);
    var p := device + [':'] + t;
    IndexOfFirst(device, t, ':');
    ParsePrint(expiry);
    assert p[..|device|] == device && p[|device| + 1..] == t;
  }

  lemma JudgeColon(device: Bytes, t: Bytes, now: int)
    requires ':' in device
    ensures Judge(device + [':'] + t, now) == Invalid
  {
    var i := IndexOf(device, ':');
    assert device[..|device|] == device;
    var p := device + [':'] + t;
    var rest := p[i + 1..];
    assert p == device[..i] + [':'] + rest;
    IndexOfFirst(device[..i], rest, ':');
    assert rest[|device| - i - 1] == ':';
    ColonSpoils(rest, |device| - i - 1);
  }

  lemma ColonSpoils(t: string, i: nat)
    requires i < |t| && t[i] == ':'
    ensures Parse(t).None?
  {
    ForeignDigit(t, i);
    if t[0] == '-' || t[0] == '+' { ForeignDigit(t[1..], i - 1); }
  }

  /** An accepted token carries, for the device it names, a text that reads as a time not yet
      passed, and the correct code of exactly that device and text. */
  lemma AcceptedIsSigned(s: Signer, token: string, now: int)
    requires s.Validate(token, now).Accepted?
    ensures exists device: Bytes, t: Bytes ::
      && s.Validate(token, now) == Accepted(device) && ':' !in device
      && Parse(t).Some? && now <= Parse(t).value
      && Decode(token[IndexOf(token, '.') + 1..]) == Some(s.mac(s.secret, device + [':'] + t))
  {
    var p := Decode(token[..IndexOf(token, '.')]).value;
    var i := IndexOf(p, ':');
    var device: Bytes, t: Bytes := p[..i], p[i + 1..];
    assert p == device + [':'] + t;
  }

  // ----- What every text is worth -----

  /** The text is two encoded halves around its first dot: what is signed, and the correct code of
      that; and what is signed is `device`, which has no colon, a colon, and `t`. */
  ghost predicate Carries(s: Signer, token: string, device: Bytes, t: Bytes) {
    exists head: string, tail: string :: token == head + ['.'] + tail && Halves(s, head, tail, device, t)
  }

  ghost predicate Halves(s: Signer, head: string, tail: string, device: Bytes, t: Bytes) {
    && '.' !in head && ':' !in device
    && Decode(head) == Some(device + [':'] + t)
    && Decode(tail) == Some(s.mac(s.secret, device + [':'] + t))
  }

  ghost predicate InDate(t: Bytes, now: int) { Parse(t).Some? && now <= Parse(t).value }

  ghost predicate OutOfDate(t: Bytes, now: int) { Parse(t).Some? && Parse(t).value < now }

  lemma CarriedIsJudged(s: Signer, token: string, device: Bytes, t: Bytes, now: int)
    requires Carries(s, token, device, t)
    ensures s.Validate(token, now) ==
      if Parse(t).None? then Invalid else if now > Parse(t).value then Expired else Accepted(device)
  {
    var head: string, tail: string :| token == head + ['.'] + tail && Halves(s, head, tail, device, t);
    IndexOfFirst(head, tail, '.');
    assert token[..|head|] == head && token[|head| + 1..] == tail;
    var p := device + [':'] + t;
    IndexOfFirst(device, t, ':');
    assert p[..|device|] == device && p[|device| + 1..] == t;
  }

  /** A text that is not found invalid carries a device and a time. */
  lemma JudgedIsCarried(s: Signer, token: string, now: int) returns (device: Bytes, t: Bytes)
    requires !s.Validate(token, now).Invalid?
    ensures Carries(s, token, device, t) && Parse(t).Some?
  {
    var dot := IndexOf(token, '.');
    var head, tail := token[..dot], token[dot + 1..];
    assert token == head + ['.'] + tail;
    var p := Decode(head).value;
    var i := IndexOf(p, ':');
    device, t := p[..i], p[i + 1..];
    assert p == device + [':'] + t;
    assert Halves(s, head, tail, device, t);
  }

  /** The three verdicts, on every text. */
  lemma ValidateIff(s: Signer, token: string, now: int, d: Bytes)
    ensures s.Validate(token, now) == Accepted(d) <==> exists t: Bytes :: Carries(s, token, d, t) && InDate(t, now)
    ensures s.Validate(token, now) == Expired
       <==> exists d': Bytes, t: Bytes :: Carries(s, token, d', t) && OutOfDate(t, now)
    ensures s.Validate(token, now) == Invalid
       <==> !exists d': Bytes, t: Bytes :: Carries(s, token, d', t) && Parse(t).Some?
  {
    forall d': Bytes, t: Bytes | Carries(s, token, d', t)
      ensures s.Validate(token, now) ==
        if Parse(t).None? then Invalid else if now > Parse(t).value then Expired else Accepted(d')
    {
      CarriedIsJudged(s, token, d', t, now);
    }
    if !s.Validate(token, now).Invalid? {
      var d', t := JudgedIsCarried(s, token, now);
      assert Carries(s, token, d', t) && Parse(t).Some?;
    }
  }

  // ----- Agreement with the standards -----

  /** The alphabet of table 2 in section 5 of RFC 4648: capitals, small letters, digits, and two
      signs, each in order. */
  lemma AlphabetIsStandard(s: Sextet)
    ensures CharOf(0) == 'A' && CharOf(25) == 'Z' && CharOf(26) == 'a' && CharOf(51) == 'z'
    ensures CharOf(52) == '0' && CharOf(61) == '9' && CharOf(62) == '-' && CharOf(63) == '_'
    ensures s !in {25, 51, 61, 62, 63} ==> CharOf(s + 1) as int == CharOf(s) as int + 1
  {
  }

  function Number(s: seq<Sextet>): nat {
    if s == [] then 0 else Number(s[..|s| - 1]) * 64 + s[|s| - 1]
  }

  /** Three bytes and their four sextets are the same 24-bit number, highest bits first; one or two
      bytes at the end are filled up with zero bits. */
  lemma GroupsAreNumbers(x: Byte, y: Byte, z: Byte)
    ensures var s := Sextets([x, y, z]);
      |s| == 4 && x as int * 65536 + y as int * 256 + z as int == Number(s)
    ensures var s := Sextets([x, y]);
      |s| == 3 && (x as int * 256 + y as int) * 4 == Number(s)
    ensures var s := Sextets([x]); |s| == 2 && x as int * 16 == Number(s)
  {
    assert [x, y, z][3..] == [] && Sextets([]) == [];
    var s := Sextets([x, y, z]);
    NumberOf(s[0], s[1], s[2], s[3]);
    assert s == [s[0], s[1], s[2], s[3]];
    var t := Sextets([x, y]);
    NumberOf(t[0], t[1], t[2], 0);
    var u := Sextets([x]);
    NumberOf(u[0], u[1], 0, 0);
  }

  lemma NumberOf(a: Sextet, b: Sextet, c: Sextet, d: Sextet)
    ensures Number([a, b]) == a as int * 64 + b
    ensures Number([a, b, c]) == a as int * 4096 + b as int * 64 + c
    ensures Number([a, b, c, d]) == a as int * 262144 + b as int * 4096 + c as int * 64 + d
  {
    assert [a, b, c, d][..3] == [a, b, c] && [a, b, c][..2] == [a, b] && [a, b][..1] == [a] && [a][..0] == [];
    assert Number([a]) == a;
    assert Number([a, b]) == Number([a]) * 64 + b;
    assert Number([a, b, c]) == Number([a, b]) * 64 + c;
  }

  /** Numbers are written in base ten, highest digit first. */
  lemma DigitsAreDecimal(n: int)
    requires n >= 0
    ensures n < 10 ==> Print(n) == ["0123456789"[n]]
    ensures n > 0 ==> forall d | 0 <= d < 10 :: Print(10 * n + d) == Print(n) + ["0123456789"[d]]
    ensures n > 0 ==> Print(-n) == ['-'] + Print(n)
  {
    if n > 0 {
      forall d | 0 <= d < 10 ensures Print(10 * n + d) == Print(n) + ["0123456789"[d]] {
        assert (10 * n + d) / 10 == n && (10 * n + d) % 10 == d;
      }
    }
  }
}
