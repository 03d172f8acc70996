/** The encoded form of a password hash: its printer, its parser as the formatted scanner and the base64 decoder behave,
    and verification. Key derivation and the pepper's HMAC are arbitrary deterministic functions. */
module PasswordHash {
  import opened Wrappers

  type Byte = x: int | 0 <= x < 256

  const VERSION := 19
  const MAX_DERIVED_KEY_LEN := 1024
  const UINT8 := 0x100
  const UINT32 := 0x1_0000_0000
  const INT64 := 0x8000_0000_0000_0000

  // ----- base64, standard alphabet, unpadded: sections 3.2 and 4 of RFC 4648 -----

  function Symbol(v: int): char
    requires 0 <= v < 64
  {
    if v < 26 then 'A' + v as char
    else if v < 52 then 'a' + (v - 26) as char
    else if v < 62 then '0' + (v - 52) as char
    else if v == 62 then '+' else '/'
  }

  function SymbolValue(c: char): Option<int> {
    if 'A' <= c <= 'Z' then Some(c as int - 'A' as int)
    else if 'a' <= c <= 'z' then Some(c as int - 'a' as int + 26)
    else if '0' <= c <= '9' then Some(c as int - '0' as int + 52)
    else if c == '+' then Some(62) else if c == '/' then Some(63) else None
  }

  /** Four symbols for three bytes; two for one and three for two left over. */
  function Encode64(b: seq<Byte>): string {
    if b == [] then ""
    else if |b| == 1 then [Symbol(b[0] / 4), Symbol(b[0] % 4 * 16)]
    else if |b| == 2 then [Symbol(b[0] / 4), Symbol(b[0] % 4 * 16 + b[1] / 16), Symbol(b[1] % 16 * 4)]
    else
      [Symbol(b[0] / 4), Symbol(b[0] % 4 * 16 + b[1] / 16), Symbol(b[1] % 16 * 4 + b[2] / 64), Symbol(b[2] % 64)]
      + Encode64(b[3..])
  }

  predicate Sextets(vs: seq<int>) {
    forall k :: 0 <= k < |vs| ==> 0 <= vs[k] < 64
  }

  /** The values of the symbols; line breaks are skipped, and anything else outside the alphabet is an error. */
  function Values(s: string): (r: Option<seq<int>>)
    ensures r.Some? ==> Sextets(r.value)
  {
    if s == "" then Some([])
    else if s[0] == '\r' || s[0] == '\n' then Values(s[1..])
    else
      var v := SymbolValue(s[0]);
      var rest := Values(s[1..]);
      if v.None? || rest.None? then None else Some([v.value] + rest.value)
  }

  /** The left-over bits of an incomplete group are dropped whatever they are. */
  function Bytes(vs: seq<int>): seq<Byte>
    requires Sextets(vs)
  {
    if |vs| < 2 then []
    else if |vs| == 2 then [vs[0] * 4 + vs[1] / 16]
    else if |vs| == 3 then [vs[0] * 4 + vs[1] / 16, vs[1] % 16 * 16 + vs[2] / 4]
    else [vs[0] * 4 + vs[1] / 16, vs[1] % 16 * 16 + vs[2] / 4, vs[2] % 4 * 64 + vs[3]] + Bytes(vs[4..])
  }

  function Decode64(s: string): Option<seq<Byte>> {
    var vs := Values(s);
    if vs.None? || |vs.value| % 4 == 1 then None else Some(Bytes(vs.value))
  }

  // ----- splitting, printing and scanning -----

  function Split(s: string): (r: seq<string>)
    ensures r != []
  {
    if s == "" then [""]
    else
      var rest := Split(s[1..]);
      if s[0] == '$' then [""] + rest else [[s[0]] + rest[0]] + rest[1..]
  }

  function Joined(parts: seq<string>): string
    requires parts != []
  {
    if |parts| == 1 then parts[0] else parts[0] + "$" + Joined(parts[1..])
  }

  function Decimal(n: nat): (s: string)
    ensures s != "" && forall k :: 0 <= k < |s| ==> IsDigit(s[k])
  {
    if n < 10 then [DigitOf(n)] else Decimal(n / 10) + [DigitOf(n % 10)]
  }

  predicate IsDigit(c: char) {
    '0' <= c <= '9'
  }

  function DigitOf(d: nat): (c: char)
    requires d < 10
    ensures IsDigit(c) && c as int - '0' as int == d
  {
    '0' + d as char
  }

  /** The scanner's blanks. */
  predicate IsSpace(c: char) {
    var x := c as int;
    || 0x09 <= x <= 0x0d || x == 0x20 || x == 0x85 || x == 0xa0 || x == 0x1680 || 0x2000 <= x <= 0x200a
    || 0x2028 <= x <= 0x2029 || x == 0x202f || x == 0x205f || x == 0x3000
  }

  /** Blanks are skipped before a number; a line feed there is an error. */
  function SkipSpace(s: string): Option<string> {
    if s == "" then Some(s)
    else if s[0] == '\n' then None
    else if IsSpace(s[0]) then SkipSpace(s[1..])
    else Some(s)
  }

  function DigitCount(s: string): (n: nat)
    ensures n <= |s| && (forall k :: 0 <= k < n ==> IsDigit(s[k])) && (n < |s| ==> !IsDigit(s[n]))
  {
    if s == "" || !IsDigit(s[0]) then 0 else DigitCount(s[1..]) + 1
  }

  function Number(s: string): nat
    requires forall k :: 0 <= k < |s| ==> IsDigit(s[k])
  {
    if s == "" then 0
    else
      assert IsDigit(s[|s| - 1]);
      10 * Number(s[..|s| - 1]) + (s[|s| - 1] as int - '0' as int)
  }

  /** A scanned number and the input after it. */
  datatype Scanned = Scanned(value: int, rest: string)

  function ScanDigits(s: string): Option<Scanned> {
    var n := DigitCount(s);
    if n == 0 then None else Some(Scanned(Number(s[..n]), s[n..]))
  }

  function ScanUint(s: string, bound: nat): Option<Scanned> {
    var t := SkipSpace(s);
    var d := if t.None? then None else ScanDigits(t.value);
    if d.None? || d.value.value >= bound then None else d
  }

  function ScanInt(s: string): Option<Scanned> {
    var t := SkipSpace(s);
    if t.None? || t.value == "" then None
    else
      var signed := t.value[0] == '+' || t.value[0] == '-';
      var d := ScanDigits(if signed then t.value[1..] else t.value);
      if d.None? then None
      else
        var v := if t.value[0] == '-' then -d.value.value else d.value.value;
        if -INT64 <= v < INT64 then Some(Scanned(v, d.value.rest)) else None
  }

  function Literal(s: string, text: string): Option<string> {
    if text <= s then Some(s[|text|..]) else None
  }

  // ----- the encoded hash -----

  datatype Params = Params(memory: int, time: int, threads: int)
  {
    predicate InRange() {
      0 <= memory < UINT32 && 0 <= time < UINT32 && 0 <= threads < UINT8
    }
  }

  datatype Decoded = Decoded(params: Params, salt: seq<Byte>, key: seq<Byte>)

  datatype HashError = InvalidHash | IncompatibleVersion

  function PrintParams(p: Params): string
    requires p.InRange()
  {
    "m=" + Decimal(p.memory) + ",t=" + Decimal(p.time) + ",p=" + Decimal(p.threads)
  }

  function PrintedParts(before: string, d: Decoded, afterVersion: string, afterParams: string): seq<string>
    requires d.params.InRange()
  {
    [before, "argon2id", "v=" + (Decimal(VERSION) + afterVersion), PrintParams(d.params) + afterParams,
     Encode64(d.salt), Encode64(d.key)]
  }

  /** $argon2id$v=19$m=..,t=..,p=..$salt$key */
  function Print(d: Decoded): string
    requires d.params.InRange()
  {
    Joined(PrintedParts("", d, "", ""))
  }

  function ScanVersion(s: string): Option<int> {
    var t := Literal(s, "v=");
    var v := if t.None? then None else ScanInt(t.value);
    if v.None? then None else Some(v.value.value)
  }

  function ScanField(s: string, text: string, bound: nat): Option<Scanned> {
    var t := Literal(s, text);
    if t.None? then None else ScanUint(t.value, bound)
  }

  /** Three fields; what follows the last one is not looked at. */
  function ScanParams(s: string): Option<Params> {
    var m := ScanField(s, "m=", UINT32);
    var t := if m.None? then None else ScanField(m.value.rest, ",t=", UINT32);
    var p := if t.None? then None else ScanField(t.value.rest, ",p=", UINT8);
    if p.None? then None else Some(Params(m.value.value, t.value.value, p.value.value))
  }

  function Decode(encoded: string): Result<Decoded, HashError> {
    var parts := Split(encoded);
    if |parts| != 6 || parts[1] != "argon2id" then Err(InvalidHash)
    else
      var version := ScanVersion(parts[2]);
      if version.None? then Err(InvalidHash)
      else if version.value != VERSION then Err(IncompatibleVersion)
      else
        var params := ScanParams(parts[3]);
        var salt, key := Decode64(parts[4]), Decode64(parts[5]);
        if params.None? || salt.None? || key.None? then Err(InvalidHash)
        else Ok(Decoded(params.value, salt.value, key.value))
  }

  // ----- hashing and verifying -----

  /** The key derivation takes the password, the salt, the parameters and the key length wanted. */
  datatype Hasher = Hasher(
    params: Params, keyLen: nat, pepper: seq<Byte>,
    hmac: (seq<Byte>, seq<Byte>) -> seq<Byte>,
    idKey: (seq<Byte>, seq<Byte>, Params, nat) -> seq<Byte>)
  {
    function Peppered(password: seq<Byte>): seq<Byte> {
      if pepper == [] then password else hmac(pepper, password)
    }

    /** With the salt that was drawn. */
    function Hash(password: seq<Byte>, salt: seq<Byte>): string
      requires params.InRange()
    {
      Print(Decoded(params, salt, idKey(Peppered(password), salt, params, keyLen)))
    }

    function Verify(password: seq<Byte>, encoded: string): Result<bool, HashError> {
      var d := Decode(encoded);
      if d.Err? then Err(d.error)
      else if |d.value.key| > MAX_DERIVED_KEY_LEN then Err(InvalidHash)
      else Ok(idKey(Peppered(password), d.value.salt, d.value.params, |d.value.key|) == d.value.key)
    }

    /** The derivation returns as many bytes as asked for. */
    ghost predicate DerivesKeysOfLength() {
      forall password, salt, p, n :: |idKey(password, salt, p, n)| == n
    }
  }

  // ----- base64 round trip -----

  lemma SymbolRoundTrip(v: int)
    requires 0 <= v < 64
    ensures SymbolValue(Symbol(v)) == Some(v)
    ensures Symbol(v) != '\r' && Symbol(v) != '\n' && Symbol(v) != '$'
  {
  }

  function Symbols(vs: seq<int>): string
    requires Sextets(vs)
  {
    seq(|vs|, k requires 0 <= k < |vs| => Symbol(vs[k]))
  }

  lemma {:induction false} ValuesOfSymbols(vs: seq<int>)
    requires Sextets(vs)
    ensures Values(Symbols(vs)) == Some(vs)
  {
    if vs != [] {
      SymbolRoundTrip(vs[0]);
      assert Symbols(vs)[1..] == Symbols(vs[1..]);
      ValuesOfSymbols(vs[1..]);
      assert vs == [vs[0]] + vs[1..];
    }
  }

  function SextetsOf(b: seq<Byte>): (vs: seq<int>)
    ensures Sextets(vs)
  {
    if b == [] then []
    else if |b| == 1 then [b[0] / 4, b[0] % 4 * 16]
    else if |b| == 2 then [b[0] / 4, b[0] % 4 * 16 + b[1] / 16, b[1] % 16 * 4]
    else [b[0] / 4, b[0] % 4 * 16 + b[1] / 16, b[1] % 16 * 4 + b[2] / 64, b[2] % 64] + SextetsOf(b[3..])
  }

  lemma {:induction false} EncodeIsSymbols(b: seq<Byte>)
    ensures Encode64(b) == Symbols(SextetsOf(b))
  {
    if |b| >= 3 {
      EncodeIsSymbols(b[3..]);
    }
  }

  lemma {:induction false} BytesOfSextets(b: seq<Byte>)
    ensures Bytes(SextetsOf(b)) == b && |SextetsOf(b)| % 4 != 1
  {
    if |b| >= 3 {
      BytesOfSextets(b[3..]);
      assert SextetsOf(b)[4..] == SextetsOf(b[3..]);
      assert b == [b[0], b[1], b[2]] + b[3..];
    }
  }

  /** Decoding undoes encoding, for all bytes; and what is printed has no separator in it. */
  lemma Base64RoundTrip(b: seq<Byte>)
    ensures Decode64(Encode64(b)) == Some(b)
    ensures '$' !in Encode64(b)
  {
    EncodeIsSymbols(b);
    ValuesOfSymbols(SextetsOf(b));
    BytesOfSextets(b);
    forall k | 0 <= k < |Encode64(b)|
      ensures Encode64(b)[k] != '$'
    {
      SymbolRoundTrip(SextetsOf(b)[k]);
    }
  }

  // ----- numbers round trip -----

  lemma {:induction false} NumberOfDecimal(n: nat)
    ensures Number(Decimal(n)) == n
  {
    if n < 10 {
      assert Decimal(n)[..0] == "";
    } else {
      NumberOfDecimal(n / 10);
      assert Decimal(n)[..|Decimal(n)| - 1] == Decimal(n / 10);
    }
  }

  lemma {:induction false} DigitCountIs(s: string, rest: string)
    requires (forall k :: 0 <= k < |s| ==> IsDigit(s[k])) && (rest == "" || !IsDigit(rest[0]))
    ensures DigitCount(s + rest) == |s|
  {
    if s != "" {
      assert (s + rest)[1..] == s[1..] + rest;
      DigitCountIs(s[1..], rest);
    } else {
      assert s + rest == rest;
    }
  }

  lemma ScanDecimal(n: nat, rest: string)
    requires rest == "" || !IsDigit(rest[0])
    ensures SkipSpace(Decimal(n) + rest) == Some(Decimal(n) + rest)
    ensures ScanDigits(Decimal(n) + rest) == Some(Scanned(n, rest))
  {
    var s := Decimal(n) + rest;
    assert s[0] == Decimal(n)[0] && IsDigit(s[0]);
    DigitCountIs(Decimal(n), rest);
    NumberOfDecimal(n);
    assert s[..|Decimal(n)|] == Decimal(n) && s[|Decimal(n)|..] == rest;
  }

  lemma LiteralOf(text: string, rest: string)
    ensures Literal(text + rest, text) == Some(rest)
  {
    assert (text + rest)[|text|..] == rest;
  }

  lemma ScanFieldOf(text: string, n: nat, rest: string, bound: nat)
    requires n < bound && (rest == "" || !IsDigit(rest[0]))
    ensures ScanField(text + (Decimal(n) + rest), text, bound) == Some(Scanned(n, rest))
  {
    LiteralOf(text, Decimal(n) + rest);
    ScanDecimal(n, rest);
  }

  /** What follows the last parameter is not read, unless it prolongs the number. */
  lemma ParamsRoundTrip(p: Params, tail: string)
    requires p.InRange() && (tail == "" || !IsDigit(tail[0]))
    ensures ScanParams(PrintParams(p) + tail) == Some(p)
  {
    var threads := ",p=" + (Decimal(p.threads) + tail);
    var times := ",t=" + (Decimal(p.time) + threads);
    assert PrintParams(p) + tail == "m=" + (Decimal(p.memory) + times);
    ScanFieldOf("m=", p.memory, times, UINT32);
    ScanFieldOf(",t=", p.time, threads, UINT32);
    ScanFieldOf(",p=", p.threads, tail, UINT8);
  }

  lemma VersionRoundTrip(n: nat, after: string)
    requires n < INT64 && (after == "" || !IsDigit(after[0]))
    ensures ScanVersion("v=" + (Decimal(n) + after)) == Some(n)
  {
    LiteralOf("v=", Decimal(n) + after);
    ScanDecimal(n, after);
  }

  // ----- splitting -----

  lemma {:induction false} SplitAtDollar(a: string, rest: string)
    requires '$' !in a
    ensures Split(a + "$" + rest) == [a] + Split(rest)
  {
    if a == "" {
      assert (a + "$" + rest)[1..] == rest;
    } else {
      assert (a + "$" + rest)[1..] == a[1..] + "$" + rest;
      SplitAtDollar(a[1..], rest);
      assert a == [a[0]] + a[1..];
    }
  }

  lemma {:induction false} SplitWhole(a: string)
    requires '$' !in a
    ensures Split(a) == [a]
  {
    if a != "" {
      SplitWhole(a[1..]);
      assert a == [a[0]] + a[1..];
    }
  }

  function Dollars(s: string): nat {
    if s == "" then 0 else (if s[0] == '$' then 1 else 0) + Dollars(s[1..])
  }

  lemma {:induction false} SplitCounts(s: string)
    ensures |Split(s)| == Dollars(s) + 1
  {
    if s != "" {
      SplitCounts(s[1..]);
    }
  }

  predicate NoDollars(parts: seq<string>) {
    forall k :: 0 <= k < |parts| ==> '$' !in parts[k]
  }

  /** Splitting undoes joining. */
  lemma {:induction false} SplitUndoesJoin(parts: seq<string>)
    requires parts != [] && NoDollars(parts)
    ensures Split(Joined(parts)) == parts
  {
    if |parts| == 1 {
      SplitWhole(parts[0]);
    } else {
      SplitUndoesJoin(parts[1..]);
      SplitAtDollar(parts[0], Joined(parts[1..]));
      assert parts == [parts[0]] + parts[1..];
    }
  }

  lemma SplitPrinted(before: string, d: Decoded, afterVersion: string, afterParams: string)
    requires d.params.InRange() && '$' !in before && '$' !in afterVersion && '$' !in afterParams
    ensures Split(Joined(PrintedParts(before, d, afterVersion, afterParams)))
            == PrintedParts(before, d, afterVersion, afterParams)
  {
    Base64RoundTrip(d.salt);
    Base64RoundTrip(d.key);
    SplitUndoesJoin(PrintedParts(before, d, afterVersion, afterParams));
  }

  // ----- the main results -----

  /** Printed parts decode, and leniently: text before the first separator is not looked at, nor is text after the
      version or after the last parameter, as long as it does not prolong the number. */
  lemma DecodeIsLenient(before: string, d: Decoded, afterVersion: string, afterParams: string)
    requires d.params.InRange() && '$' !in before && '$' !in afterVersion && '$' !in afterParams
    requires (afterVersion == "" || !IsDigit(afterVersion[0])) && (afterParams == "" || !IsDigit(afterParams[0]))
    ensures Decode(Joined(PrintedParts(before, d, afterVersion, afterParams))) == Ok(d)
  {
    SplitPrinted(before, d, afterVersion, afterParams);
    VersionRoundTrip(VERSION, afterVersion);
    ParamsRoundTrip(d.params, afterParams);
    Base64RoundTrip(d.salt);
    Base64RoundTrip(d.key);
  }

  /** Decoding gives back exactly the parameters, salt and key that were printed, for all of them. */
  lemma DecodeUndoesPrint(d: Decoded)
    requires d.params.InRange()
    ensures Decode(Print(d)) == Ok(d)
  {
    DecodeIsLenient("", d, "", "");
  }

  /** A password verifies against its own hash, whatever the password, the pepper and the salt, exactly if the key
      length is at most 1024; a longer key is refused as invalid. */
  lemma VerifyAcceptsOwnHash(h: Hasher, password: seq<Byte>, salt: seq<Byte>)
    requires h.params.InRange() && h.DerivesKeysOfLength()
    ensures h.Verify(password, h.Hash(password, salt))
            == if h.keyLen <= MAX_DERIVED_KEY_LEN then Ok(true) else Err(InvalidHash)
  {
    DecodeUndoesPrint(Decoded(h.params, salt, h.idKey(h.Peppered(password), salt, h.params, h.keyLen)));
  }

  /** What is derived from a password: keyed with the pepper first, if there is one. */
  function Derived(h: Hasher, password: seq<Byte>, salt: seq<Byte>, p: Params, length: nat): seq<Byte> {
    h.idKey(if |h.pepper| > 0 then h.hmac(h.pepper, password) else password, salt, p, length)
  }

  /** A string that decodes to a key of at most 1024 bytes accepts exactly the passwords from which that key derives under
      its own salt and parameters; any other string gets no verdict. */
  lemma VerifyComparesKeys(h: Hasher, password: seq<Byte>, encoded: string)
    ensures Decode(encoded).Err? ==> h.Verify(password, encoded) == Err(Decode(encoded).error)
    ensures Decode(encoded).Ok? ==>
              var d := Decode(encoded).value;
              h.Verify(password, encoded)
              == if |d.key| > 1024 then Err(InvalidHash)
                 else Ok(Derived(h, password, d.salt, d.params, |d.key|) == d.key)
  {
  }

  /** Another password verifies against a hash if and only if it derives the same key; else it is refused. */
  lemma OthersAreRefused(h: Hasher, password: seq<Byte>, other: seq<Byte>, salt: seq<Byte>)
    requires h.params.InRange() && h.DerivesKeysOfLength() && h.keyLen <= 1024
    ensures h.Verify(other, h.Hash(password, salt))
            == Ok(Derived(h, other, salt, h.params, h.keyLen) == Derived(h, password, salt, h.params, h.keyLen))
  {
    DecodeUndoesPrint(Decoded(h.params, salt, h.idKey(h.Peppered(password), salt, h.params, h.keyLen)));
  }

  /** The text of a hash. */
  lemma HashText(h: Hasher, password: seq<Byte>, salt: seq<Byte>)
    requires h.params.InRange()
    ensures h.Hash(password, salt)
            == "$argon2id$v=19$" + ("m=" + Decimal(h.params.memory) + ",t=" + Decimal(h.params.time)
               + ",p=" + Decimal(h.params.threads)) + "$" + Encode64(salt)
               + "$" + Encode64(Derived(h, password, salt, h.params, h.keyLen))
  {
    PrintText(Decoded(h.params, salt, Derived(h, password, salt, h.params, h.keyLen)));
  }

  lemma PrintText(d: Decoded)
    requires d.params.InRange()
    ensures Print(d)
            == "$argon2id$v=19$" + ("m=" + Decimal(d.params.memory) + ",t=" + Decimal(d.params.time)
               + ",p=" + Decimal(d.params.threads)) + "$" + Encode64(d.salt) + "$" + Encode64(d.key)
  {
    assert Decimal(VERSION) == "19";
    assert "v=" + ("19" + "") == "v=19" && PrintParams(d.params) + "" == PrintParams(d.params);
    JoinsSix("", "argon2id", "v=19", PrintParams(d.params), Encode64(d.salt), Encode64(d.key));
    assert "" + "$" + "argon2id" + "$" + "v=19" + "$" == "$argon2id$v=19$";
  }

  lemma JoinsSix(a: string, b: string, c: string, d: string, e: string, f: string)
    ensures Joined([a, b, c, d, e, f]) == a + "$" + b + "$" + c + "$" + d + "$" + e + "$" + f
  {
    assert [a, b, c, d, e, f][1..] == [b, c, d, e, f] && [b, c, d, e, f][1..] == [c, d, e, f];
    assert [c, d, e, f][1..] == [d, e, f] && [d, e, f][1..] == [e, f] && [e, f][1..] == [f];
    assert Joined([e, f]) == e + "$" + f;
    assert Joined([d, e, f]) == d + "$" + e + "$" + f;
    assert Joined([c, d, e, f]) == c + "$" + d + "$" + e + "$" + f;
    assert Joined([b, c, d, e, f]) == b + "$" + c + "$" + d + "$" + e + "$" + f;
  }

  /** The test vectors of section 10 of RFC 4648, without padding. */
  lemma EncodesTestVectors()
    ensures Encode64([102]) == "Zg" && Encode64([102, 111]) == "Zm8" && Encode64([102, 111, 111]) == "Zm9v"
    ensures Encode64([102, 111, 111, 98]) == "Zm9vYg" && Encode64([102, 111, 111, 98, 97]) == "Zm9vYmE"
    ensures Encode64([102, 111, 111, 98, 97, 114]) == "Zm9vYmFy"
  {
    assert [102, 111, 111][3..] == [] && [102, 111, 111, 98][3..] == [98];
    assert [102, 111, 111, 98, 97][3..] == [98, 97] && [102, 111, 111, 98, 97, 114][3..] == [98, 97, 114];
    assert [98, 97, 114][3..] == [];
  }

  /** Another algorithm is an invalid hash, another version an incompatible one, whatever the rest. */
  lemma OthersDoNotDecode(parts: seq<string>, version: nat)
    requires |parts| == 6 && NoDollars(parts) && version < INT64
    ensures parts[1] != "argon2id" ==> Decode(Joined(parts)) == Err(InvalidHash)
    ensures parts[1] == "argon2id" && parts[2] == "v=" + Decimal(version) && version != 19 ==>
              Decode(Joined(parts)) == Err(IncompatibleVersion)
  {
    SplitUndoesJoin(parts);
    VersionRoundTrip(version, "");
    assert Decimal(version) + "" == Decimal(version);
  }

  /** A string without exactly five separators is rejected as invalid, and no string decodes out of range. */
  lemma DecodeNeedsFiveDollars(s: string)
    ensures Dollars(s) != 5 ==> Decode(s) == Err(InvalidHash)
    ensures Decode(s).Ok? ==> Decode(s).value.params.InRange()
  {
    SplitCounts(s);
  }

  /** So printing what was decoded gives a string that decodes to the same: parsing normalizes. */
  lemma PrintNormalizes(s: string)
    requires Decode(s).Ok?
    ensures Decode(s).value.params.InRange() && Decode(Print(Decode(s).value)) == Decode(s)
  {
    DecodeNeedsFiveDollars(s);
    DecodeUndoesPrint(Decode(s).value);
  }
}
