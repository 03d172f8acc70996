/** Which texts an encoded hash may hold: exactly what the base64 decoder and the formatted scanner accept, and what they
    read there. */
module PasswordHashText {
  import opened Wrappers
  import opened PasswordHash

  // ----- base64 -----

  predicate IsSymbol(c: char) {
    'A' <= c <= 'Z' || 'a' <= c <= 'z' || '0' <= c <= '9' || c == '+' || c == '/'
  }

  predicate IsLineBreak(c: char) {
    c == '\r' || c == '\n'
  }

  function WithoutLineBreaks(s: string): string {
    if s == "" then ""
    else if IsLineBreak(s[0]) then WithoutLineBreaks(s[1..])
    else [s[0]] + WithoutLineBreaks(s[1..])
  }

  lemma {:induction false} ValuesExactly(s: string)
    ensures Values(s).Some? <==> forall k :: 0 <= k < |s| ==> IsLineBreak(s[k]) || IsSymbol(s[k])
    ensures Values(s).Some? ==> |Values(s).value| == |WithoutLineBreaks(s)|
    ensures Values(WithoutLineBreaks(s)) == Values(s)
  {
    if s != "" {
      ValuesExactly(s[1..]);
      assert forall k :: 0 <= k < |s| - 1 ==> s[1..][k] == s[k + 1];
      assert Values(s).Some? ==> forall k :: 0 < k < |s| ==> s[k] == s[1..][k - 1];
      if !IsLineBreak(s[0]) {
        assert WithoutLineBreaks(s)[1..] == WithoutLineBreaks(s[1..]);
      }
    }
  }

  /** A text decodes if and only if it holds line breaks and symbols of the alphabet alone, and not one symbol too many
      for a byte; the line breaks make no difference. */
  lemma DecodesExactly(s: string)
    ensures Decode64(s).Some?
            <==> (forall k :: 0 <= k < |s| ==> IsLineBreak(s[k]) || IsSymbol(s[k])) && |WithoutLineBreaks(s)| % 4 != 1
    ensures Decode64(WithoutLineBreaks(s)) == Decode64(s)
  {
    ValuesExactly(s);
  }

  // ----- numbers -----

  predicate Blanks(s: string) {
    forall k :: 0 <= k < |s| ==> IsSpace(s[k]) && s[k] != '\n'
  }

  lemma {:induction false} SkipsBlanks(blanks: string, rest: string)
    requires Blanks(blanks)
    ensures SkipSpace(blanks + rest) == SkipSpace(rest)
  {
    if blanks == "" {
      assert blanks + rest == rest;
    } else {
      assert (blanks + rest)[1..] == blanks[1..] + rest;
      SkipsBlanks(blanks[1..], rest);
    }
  }

  /** A number after blanks is read in full, if it is below the bound. */
  lemma ReadsUint(blanks: string, n: nat, rest: string, bound: nat)
    requires Blanks(blanks) && (rest == "" || !IsDigit(rest[0]))
    ensures ScanUint(blanks + (Decimal(n) + rest), bound) == if n < bound then Some(Scanned(n, rest)) else None
  {
    SkipsBlanks(blanks, Decimal(n) + rest);
    ScanDecimal(n, rest);
  }

  predicate IsSign(sign: string) {
    sign == "" || sign == "+" || sign == "-"
  }

  function Signed(sign: string, n: int): int {
    if sign == "-" then -n else n
  }

  function IntRead(v: int, rest: string): Option<Scanned> {
    if -0x8000_0000_0000_0000 <= v <= 0x7fff_ffff_ffff_ffff then Some(Scanned(v, rest)) else None
  }

  lemma ReadsUnsigned(n: nat, rest: string)
    requires rest == "" || !IsDigit(rest[0])
    ensures ScanInt(Decimal(n) + rest) == IntRead(n, rest)
  {
    ScanDecimal(n, rest);
    assert IsDigit((Decimal(n) + rest)[0]);
  }

  lemma ReadsSigned(sign: char, n: nat, rest: string)
    requires (sign == '+' || sign == '-') && (rest == "" || !IsDigit(rest[0]))
    ensures ScanInt([sign] + (Decimal(n) + rest)) == IntRead(Signed([sign], n), rest)
  {
    var digits := Decimal(n) + rest;
    ScanDecimal(n, rest);
    assert SkipSpace([sign] + digits) == Some([sign] + digits);
    assert ([sign] + digits)[1..] == digits;
    assert ([sign] == "-") == (sign == '-') by {
      assert [sign][0] == sign;
    }
  }

  lemma ReadsAnySign(sign: string, n: nat, rest: string)
    requires IsSign(sign) && (rest == "" || !IsDigit(rest[0]))
    ensures ScanInt(sign + (Decimal(n) + rest)) == IntRead(Signed(sign, n), rest)
  {
    if sign == "" {
      ReadsUnsigned(n, rest);
      assert sign + (Decimal(n) + rest) == Decimal(n) + rest;
    } else {
      ReadsSigned(sign[0], n, rest);
      assert sign == [sign[0]];
    }
  }

  lemma IntAfterBlanks(blanks: string, text: string)
    requires Blanks(blanks)
    ensures ScanInt(blanks + text) == ScanInt(text)
  {
    SkipsBlanks(blanks, text);
  }

  /** A signed one may have either sign, and is read in full if it takes no more than 64 bits. */
  lemma ReadsInt(blanks: string, sign: string, n: nat, rest: string)
    requires Blanks(blanks) && IsSign(sign) && (rest == "" || !IsDigit(rest[0]))
    ensures ScanInt(blanks + (sign + (Decimal(n) + rest))) == IntRead(Signed(sign, n), rest)
  {
    IntAfterBlanks(blanks, sign + (Decimal(n) + rest));
    ReadsAnySign(sign, n, rest);
  }

  /** A line feed in front of a number is never read over. */
  lemma LineFeedIsRefused(blanks: string, rest: string, bound: nat)
    requires Blanks(blanks)
    ensures ScanUint(blanks + ("\n" + rest), bound).None? && ScanInt(blanks + ("\n" + rest)).None?
  {
    SkipsBlanks(blanks, "\n" + rest);
  }

  // ----- the version and the parameters -----

  /** The version may be written with blanks, a sign and a tail. Any but 19 is incompatible, one of more than 64 bits or
      after a line feed is invalid, and for 19 the rest decides. */
  lemma VersionIsRead(parts: seq<string>, blanks: string, sign: string, n: nat, rest: string)
    requires |parts| == 6 && NoDollars(parts) && parts[1] == "argon2id"
    requires Blanks(blanks) && IsSign(sign) && (rest == "" || !IsDigit(rest[0]))
    requires parts[2] == "v=" + (blanks + (sign + (Decimal(n) + rest)))
    ensures var v := Signed(sign, n);
            && (!(-0x8000_0000_0000_0000 <= v <= 0x7fff_ffff_ffff_ffff) ==> Decode(Joined(parts)) == Err(InvalidHash))
            && (-0x8000_0000_0000_0000 <= v <= 0x7fff_ffff_ffff_ffff && v != 19 ==>
                  Decode(Joined(parts)) == Err(IncompatibleVersion))
            && (v == 19 ==> Decode(Joined(parts)).Ok? || Decode(Joined(parts)) == Err(InvalidHash))
  {
    SplitUndoesJoin(parts);
    LiteralOf("v=", blanks + (sign + (Decimal(n) + rest)));
    ReadsInt(blanks, sign, n, rest);
  }

  function FieldText(name: string, blanks: string, n: nat, rest: string): string {
    name + (blanks + (Decimal(n) + rest))
  }

  lemma FieldIsRead(name: string, blanks: string, n: nat, rest: string, bound: nat)
    requires Blanks(blanks) && (rest == "" || !IsDigit(rest[0]))
    ensures ScanField(FieldText(name, blanks, n, rest), name, bound)
            == if n < bound then Some(Scanned(n, rest)) else None
  {
    LiteralOf(name, blanks + (Decimal(n) + rest));
    ReadsUint(blanks, n, rest, bound);
  }

  /** Three numbers, each perhaps after blanks, are read as the parameters if memory and time fit 32 bits and threads
      fits 8; otherwise nothing is. */
  lemma ParamsAreRead(b1: string, b2: string, b3: string, memory: nat, time: nat, threads: nat, rest: string)
    requires Blanks(b1) && Blanks(b2) && Blanks(b3) && (rest == "" || !IsDigit(rest[0]))
    ensures ScanParams(FieldText("m=", b1, memory, FieldText(",t=", b2, time, FieldText(",p=", b3, threads, rest))))
            == if memory < 0x1_0000_0000 && time < 0x1_0000_0000 && threads < 0x100
               then Some(Params(memory, time, threads)) else None
  {
    var third := FieldText(",p=", b3, threads, rest);
    var second := FieldText(",t=", b2, time, third);
    assert third[0] == ',' && second[0] == ',';
    FieldIsRead("m=", b1, memory, second, UINT32);
    FieldIsRead(",t=", b2, time, third, UINT32);
    FieldIsRead(",p=", b3, threads, rest, UINT8);
  }
}
