/**
  The PHC string of an Argon2id hash: printing it, and parsing it back. Scanning follows
  fmt.Sscanf: blanks before a number are skipped, a line break ends the scan. Decoding
  base64 follows encoding/base64: line breaks are skipped. Strings are Unicode text.
 */
module Phc {
  import opened Basics

  const U32 := 0x1_0000_0000
  const U8 := 0x100

  datatype Params = Params(memory: nat, iterations: nat, parallelism: nat, saltLength: nat, keyLength: nat)
  datatype Decoded = Decoded(params: Params, salt: seq<Byte>, key: seq<Byte>)
  datatype DecodeError = InvalidHash | IncompatibleVersion

  // ------------------------------------------------------------------ decimal numbers

  predicate IsDigit(c: char) {
    '0' <= c <= '9'
  }

  function Digit(d: nat): (c: char)
    requires d < 10
    ensures IsDigit(c)
  {
    ('0' as int + d) as char
  }

  /** The %d of an unsigned number. */
  function Decimal(n: nat): string {
    if n < 10 then [Digit(n)] else Decimal(n / 10) + [Digit(n % 10)]
  }

  /** The value of the first n characters, read as digits. */
  function Value(s: string, n: nat): nat
    requires n <= |s| && forall i :: 0 <= i < n ==> IsDigit(s[i])
  {
    if n == 0 then 0 else assert IsDigit(s[n - 1]); 10 * Value(s, n - 1) + (s[n - 1] as int - '0' as int)
  }

  /** How many of the characters from i on are digits. */
  function DigitsEnd(s: string, i: nat): (j: nat)
    requires i <= |s|
    ensures i <= j <= |s|
    ensures forall k :: i <= k < j ==> IsDigit(s[k])
    ensures j < |s| ==> !IsDigit(s[j])
    decreases |s| - i
  {
    if i < |s| && IsDigit(s[i]) then DigitsEnd(s, i + 1) else i
  }

  /** White space other than the line feed. */
  predicate IsBlank(c: char) {
    || c == ' ' || c == '\t' || '\U{0b}' <= c <= '\r' || c == '\U{85}' || c == '\U{a0}' || c == '\U{1680}'
    || '\U{2000}' <= c <= '\U{200a}' || '\U{2028}' <= c <= '\U{2029}'
    || c == '\U{202f}' || c == '\U{205f}' || c == '\U{3000}'
  }

  /** What follows the blanks at the front, or None if that is a line feed: the scanner gives up there. */
  function SkipSpace(s: string): Option<string> {
    if s == "" then Some("")
    else if s[0] == '\n' then None
    else if IsBlank(s[0]) then SkipSpace(s[1..])
    else Some(s)
  }

  /** Scan one number below the bound, leaving the rest. */
  function ScanNumber(s: string, bound: nat): Option<(nat, string)> {
    var t := SkipSpace(s);
    if t.None? then None
    else
      var k := DigitsEnd(t.value, 0);
      if k == 0 || Value(t.value, k) >= bound then None else Some((Value(t.value, k), t.value[k..]))
  }

  /** Blanks, and possibly a line feed with anything after it. */
  ghost predicate Ignored(tail: string) {
    exists k :: 0 <= k <= |tail| && BlankUpTo(tail, k)
  }

  ghost predicate BlankUpTo(tail: string, k: nat)
    requires k <= |tail|
  {
    (forall i :: 0 <= i < k ==> IsBlank(tail[i])) && (k == |tail| || tail[k] == '\n')
  }

  /** The scanner finds nothing in a tail exactly when the tail is of that form. */
  lemma {:induction false} SkipSpaceIff(tail: string)
    ensures (SkipSpace(tail).None? || SkipSpace(tail).value == "") <==> Ignored(tail)
  {
    if tail == "" || tail[0] == '\n' {
      assert BlankUpTo(tail, 0);
    } else {
      var rest := tail[1..];
      SkipSpaceIff(rest);
      if IsBlank(tail[0]) && Ignored(rest) {
        var k :| 0 <= k <= |rest| && BlankUpTo(rest, k);
        assert BlankUpTo(tail, k + 1);
      }
      if k :| 0 <= k <= |tail| && BlankUpTo(tail, k) {
        assert BlankUpTo(rest, k - 1);
      }
    }
  }

  lemma {:induction false} DecimalDigits(n: nat)
    ensures |Decimal(n)| > 0 && forall i :: 0 <= i < |Decimal(n)| ==> IsDigit(Decimal(n)[i])
  {
    if n >= 10 { DecimalDigits(n / 10); }
  }

  lemma {:induction false} ValuePrefix(s: string, t: string, n: nat)
    requires n <= |s| && forall i :: 0 <= i < n ==> IsDigit(s[i])
    ensures forall i :: 0 <= i < n ==> (s + t)[i] == s[i]
    ensures Value(s + t, n) == Value(s, n)
  {
    if n > 0 { ValuePrefix(s, t, n - 1); }
  }

  lemma {:induction false} DecimalValue(n: nat)
    ensures |Decimal(n)| > 0 && (forall i :: 0 <= i < |Decimal(n)| ==> IsDigit(Decimal(n)[i]))
    ensures Value(Decimal(n), |Decimal(n)|) == n
  {
    DecimalDigits(n);
    if n >= 10 {
      DecimalValue(n / 10);
      ValuePrefix(Decimal(n / 10), [Digit(n % 10)], |Decimal(n / 10)|);
    }
  }

  lemma {:induction false} DigitsEndAt(s: string, i: nat, k: nat)
    requires i <= k <= |s| && (forall x :: i <= x < k ==> IsDigit(s[x])) && (k < |s| ==> !IsDigit(s[k]))
    ensures DigitsEnd(s, i) == k
    decreases k - i
  {
    if i < k { DigitsEndAt(s, i + 1, k); }
  }

  // ------------------------------------------------------------------ unpadded base64

  function Sextet(v: nat): char
    requires v < 64
  {
    if v < 26 then ('A' as int + v) as char
    else if v < 52 then ('a' as int + (v - 26)) as char
    else if v < 62 then ('0' as int + (v - 52)) as char
    else if v == 62 then '+' else '/'
  }

  function SextetValue(c: char): (v: Option<nat>)
    ensures v.Some? ==> v.value < 64
  {
    if 'A' <= c <= 'Z' then Some(c as int - 'A' as int)
    else if 'a' <= c <= 'z' then Some(c as int - 'a' as int + 26)
    else if '0' <= c <= '9' then Some(c as int - '0' as int + 52)
    else if c == '+' then Some(62)
    else if c == '/' then Some(63)
    else None
  }

  function Group(x: Byte, y: Byte, z: Byte): string {
    [Sextet(x / 4), Sextet(x % 4 * 16 + y / 16), Sextet(y % 16 * 4 + z / 64), Sextet(z % 64)]
  }

  function Base64(bytes: seq<Byte>): string {
    if |bytes| == 0 then ""
    else if |bytes| == 1 then [Sextet(bytes[0] / 4), Sextet(bytes[0] % 4 * 16)]
    else if |bytes| == 2 then
      [Sextet(bytes[0] / 4), Sextet(bytes[0] % 4 * 16 + bytes[1] / 16), Sextet(bytes[1] % 16 * 4)]
    else
      Group(bytes[0], bytes[1], bytes[2]) + Base64(bytes[3..])
  }

  function Unbase64(s: string): Option<seq<Byte>> {
    if |s| == 0 then Some([])
    else if |s| == 1 then None
    else
      var a, b := SextetValue(s[0]), SextetValue(s[1]);
      if a.None? || b.None? then None
      else if |s| == 2 then Some([a.value * 4 + b.value / 16])
      else
        var c := SextetValue(s[2]);
        if c.None? then None
        else if |s| == 3 then Some([a.value * 4 + b.value / 16, b.value % 16 * 16 + c.value / 4])
        else
          var d, rest := SextetValue(s[3]), Unbase64(s[4..]);
          if d.None? || rest.None? then None
          else
            Some([a.value * 4 + b.value / 16, b.value % 16 * 16 + c.value / 4, c.value % 4 * 64 + d.value] + rest.value)
  }

  /** Without the line breaks, which the decoder skips. */
  function DropBreaks(s: string): string {
    if s == "" then ""
    else (if s[0] == '\n' || s[0] == '\r' then "" else [s[0]]) + DropBreaks(s[1..])
  }

  function DecodeBase64(s: string): Option<seq<Byte>> {
    Unbase64(DropBreaks(s))
  }

  predicate Plain(c: char) {
    c != '$' && c != '\n' && c != '\r'
  }

  lemma {:induction false} DropNone(s: string)
    requires forall i :: 0 <= i < |s| ==> Plain(s[i])
    ensures DropBreaks(s) == s
  {
    if s != "" {
      DropNone(s[1..]);
      assert s == [s[0]] + s[1..];
    }
  }

  lemma GroupRoundTrip(x: Byte, y: Byte, z: Byte)
    ensures var a, b, c, d := x / 4, x % 4 * 16 + y / 16, y % 16 * 4 + z / 64, z % 64;
            && a < 64 && b < 64 && c < 64 && d < 64
            && a * 4 + b / 16 == x && b % 16 * 16 + c / 4 == y && c % 4 * 64 + d == z
            && SextetValue(Sextet(a)) == Some(a) && SextetValue(Sextet(b)) == Some(b)
            && SextetValue(Sextet(c)) == Some(c) && SextetValue(Sextet(d)) == Some(d)
            && Plain(Sextet(a)) && Plain(Sextet(b)) && Plain(Sextet(c)) && Plain(Sextet(d))
  {}

  lemma GroupDecodes(x: Byte, y: Byte, z: Byte, s: string, bytes: seq<Byte>)
    requires Unbase64(s) == Some(bytes)
    ensures Unbase64(Group(x, y, z) + s) == Some([x, y, z] + bytes)
  {
    GroupRoundTrip(x, y, z);
    assert (Group(x, y, z) + s)[4..] == s;
  }

  lemma OneDecodes(x: Byte)
    ensures Unbase64(Base64([x])) == Some([x])
  {
    GroupRoundTrip(x, 0, 0);
  }

  lemma TwoDecodes(x: Byte, y: Byte)
    ensures Unbase64(Base64([x, y])) == Some([x, y])
  {
    GroupRoundTrip(x, y, 0);
  }

  lemma {:induction false} Base64Decodes(bytes: seq<Byte>)
    ensures Unbase64(Base64(bytes)) == Some(bytes)
  {
    if |bytes| >= 3 {
      Base64Decodes(bytes[3..]);
      GroupDecodes(bytes[0], bytes[1], bytes[2], Base64(bytes[3..]), bytes[3..]);
      assert bytes == [bytes[0], bytes[1], bytes[2]] + bytes[3..];
    } else if |bytes| == 2 {
      TwoDecodes(bytes[0], bytes[1]);
      assert bytes == [bytes[0], bytes[1]];
    } else if |bytes| == 1 {
      OneDecodes(bytes[0]);
      assert bytes == [bytes[0]];
    }
  }

  lemma {:induction false} Base64Plain(bytes: seq<Byte>)
    ensures forall i :: 0 <= i < |Base64(bytes)| ==> Plain(Base64(bytes)[i])
  {
    if |bytes| >= 3 {
      Base64Plain(bytes[3..]);
      GroupRoundTrip(bytes[0], bytes[1], bytes[2]);
    }
  }

  /** Encoding and decoding, for every byte string. */
  lemma Base64RoundTrip(bytes: seq<Byte>)
    ensures DecodeBase64(Base64(bytes)) == Some(bytes) && '$' !in Base64(bytes)
  {
    Base64Plain(bytes);
    DropNone(Base64(bytes));
    Base64Decodes(bytes);
  }

  // ------------------------------------------------------------------- the PHC string

  const MINIMAL_PREFIX := "$argon2id$"

  /** strings.Split on '$'. */
  function Split(s: string): (parts: seq<string>)
    ensures |parts| > 0
  {
    if s == "" then [""]
    else
      var parts := Split(s[1..]);
      if s[0] == '$' then [""] + parts else [[s[0]] + parts[0]] + parts[1..]
  }

  lemma {:induction false} SplitField(field: string, rest: string)
    requires '$' !in field
    ensures Split(field + "$" + rest) == [field] + Split(rest)
  {
    var s := field + "$" + rest;
    if field == "" {
      assert s[1..] == rest;
    } else {
      assert s[1..] == field[1..] + "$" + rest;
      SplitField(field[1..], rest);
      assert [field[0]] + field[1..] == field;
    }
  }

  lemma {:induction false} SplitLast(field: string)
    requires '$' !in field
    ensures Split(field) == [field]
  {
    if field != "" {
      SplitLast(field[1..]);
      assert [field[0]] + field[1..] == field;
    }
  }

  function PrintParams(memory: nat, iterations: nat, parallelism: nat): string {
    "m=" + Decimal(memory) + (",t=" + Decimal(iterations) + (",p=" + Decimal(parallelism)))
  }

  /** Scan `prefix`, then a number below the bound. */
  function ScanField(s: string, prefix: string, bound: nat): Option<(nat, string)> {
    if prefix <= s then ScanNumber(s[|prefix|..], bound) else None
  }

  function ScanParams(s: string): Option<(nat, nat, nat)> {
    var m := ScanField(s, "m=", U32);
    if m.None? then None
    else
      var t := ScanField(m.value.1, ",t=", U32);
      if t.None? then None
      else
        var p := ScanField(t.value.1, ",p=", U8);
        if p.None? then None
        else
          var tail := SkipSpace(p.value.1);
          if tail.Some? && tail.value != "" then None else Some((m.value.0, t.value.0, p.value.0))
  }

  function Encode(p: Params, salt: seq<Byte>, key: seq<Byte>): string {
    "" + "$" + ("argon2id" + "$" + ("v=19" + "$" +
      (PrintParams(p.memory, p.iterations, p.parallelism) + "$" + (Base64(salt) + "$" + Base64(key)))))
  }

  function Decode(s: string): Result<Decoded, DecodeError> {
    if !(MINIMAL_PREFIX <= s) then Failure(InvalidHash)
    else
      var parts := Split(s);
      if |parts| != 6 || parts[0] != "" || parts[1] != "argon2id" then Failure(InvalidHash)
      else if parts[2] != "v=19" then Failure(IncompatibleVersion)
      else
        var params, salt, key := ScanParams(parts[3]), DecodeBase64(parts[4]), DecodeBase64(parts[5]);
        if params.None? || salt.None? || key.None? then Failure(InvalidHash)
        else
          var (m, t, p) := params.value;
          Success(Decoded(Params(m, t, p, |salt.value| % U32, |key.value| % U32), salt.value, key.value))
  }

  /** `text` is blanks and then digits, at least one, of the value n below the bound. */
  ghost predicate Spells(text: string, n: nat, bound: nat) {
    exists k :: 0 <= k < |text| && SpellsFrom(text, k, n, bound)
  }

  ghost predicate SpellsFrom(text: string, k: nat, n: nat, bound: nat)
    requires k < |text|
  {
    && (forall i :: 0 <= i < k ==> IsBlank(text[i])) && (forall i :: k <= i < |text| ==> IsDigit(text[i]))
    && ValueOf(text[k..]) == Some(n) && n < bound
  }

  function ValueOf(digits: string): Option<nat> {
    if forall i :: 0 <= i < |digits| ==> IsDigit(digits[i]) then Some(Value(digits, |digits|)) else None
  }

  predicate NoDigitFirst(rest: string) {
    rest == "" || !IsDigit(rest[0])
  }

  /** Skipping blanks, seen from the front and from where they end. */
  lemma {:induction false} SkipBlanks(s: string, k: nat)
    requires k < |s| && (forall i :: 0 <= i < k ==> IsBlank(s[i])) && s[k] != '\n' && !IsBlank(s[k])
    ensures SkipSpace(s) == Some(s[k..])
  {
    if k > 0 {
      SkipBlanks(s[1..], k - 1);
      assert s[1..][k - 1..] == s[k..];
    } else {
      assert s[0..] == s;
    }
  }

  lemma {:induction false} SkippedBlanks(s: string) returns (k: nat)
    requires SkipSpace(s).Some? && SkipSpace(s).value != ""
    ensures k < |s| && SkipSpace(s) == Some(s[k..]) && forall i :: 0 <= i < k ==> IsBlank(s[i])
  {
    if IsBlank(s[0]) {
      var n := SkippedBlanks(s[1..]);
      k := n + 1;
      assert s[1..][n..] == s[k..];
      assert forall i :: 0 < i < k ==> s[i] == s[1..][i - 1];
    } else {
      k := 0;
      assert s[0..] == s;
    }
  }

  /** A number is scanned off the front exactly when the front spells it and no digit follows. */
  lemma ScanSpelled(text: string, rest: string, n: nat, bound: nat)
    requires Spells(text, n, bound) && NoDigitFirst(rest)
    ensures ScanNumber(text + rest, bound) == Some((n, rest))
  {
    var s := text + rest;
    var k :| 0 <= k < |text| && SpellsFrom(text, k, n, bound);
    assert IsDigit(text[k]) && s[k] == text[k];
    SkipBlanks(s, k);
    var d := text[k..];
    assert s[k..] == d + rest;
    DigitsEndAt(d + rest, 0, |d|);
    ValuePrefix(d, rest, |d|);
    assert (d + rest)[|d|..] == rest;
  }

  lemma PrintedSpells(n: nat, bound: nat)
    requires n < bound
    ensures Spells(Decimal(n), n, bound)
  {
    DecimalValue(n);
    assert Decimal(n)[0..] == Decimal(n);
    assert SpellsFrom(Decimal(n), 0, n, bound);
  }

  lemma SpelledScan(s: string, bound: nat) returns (text: string)
    requires ScanNumber(s, bound).Some?
    ensures var (n, rest) := ScanNumber(s, bound).value;
            s == text + rest && Spells(text, n, bound) && NoDigitFirst(rest)
  {
    var k := SkippedBlanks(s);
    var (n, rest) := ScanNumber(s, bound).value;
    var live := s[k..];
    var e := DigitsEnd(live, 0);
    text := s[..k + e];
    var d := text[k..];
    assert live == d + rest && |d| == e;
    assert forall i :: 0 <= i < e ==> d[i] == live[i];
    ValuePrefix(d, rest, e);
    assert forall i :: k <= i < |text| ==> text[i] == live[i - k];
    assert SpellsFrom(text, k, n, bound);
  }

  /** The three fields as they may be written, and what may stand behind them. */
  ghost predicate Written(s: string, m: nat, t: nat, p: nat, a: string, b: string, c: string, tail: string) {
    && s == "m=" + (a + (",t=" + (b + (",p=" + (c + tail)))))
    && Spells(a, m, U32) && Spells(b, t, U32) && Spells(c, p, U8) && Ignored(tail)
  }

  lemma FieldIff(prefix: string, text: string, rest: string, n: nat, bound: nat)
    requires Spells(text, n, bound) && NoDigitFirst(rest)
    ensures ScanField(prefix + (text + rest), prefix, bound) == Some((n, rest))
  {
    assert (prefix + (text + rest))[|prefix|..] == text + rest;
    ScanSpelled(text, rest, n, bound);
  }

  lemma FieldScanned(s: string, prefix: string, bound: nat) returns (text: string)
    requires ScanField(s, prefix, bound).Some?
    ensures var (n, rest) := ScanField(s, prefix, bound).value;
            s == prefix + (text + rest) && Spells(text, n, bound)
  {
    text := SpelledScan(s[|prefix|..], bound);
  }

  lemma IgnoredNoDigit(tail: string)
    requires Ignored(tail)
    ensures NoDigitFirst(tail)
  {
    var k :| 0 <= k <= |tail| && BlankUpTo(tail, k);
  }

  lemma WrittenScans(s: string, m: nat, t: nat, p: nat, a: string, b: string, c: string, tail: string)
    requires Written(s, m, t, p, a, b, c, tail)
    ensures ScanParams(s) == Some((m, t, p))
  {
    IgnoredNoDigit(tail);
    SkipSpaceIff(tail);
    var third := ",p=" + (c + tail);
    var second := ",t=" + (b + third);
    FieldIff(",p=", c, tail, p, U8);
    FieldIff(",t=", b, third, t, U32);
    FieldIff("m=", a, second, m, U32);
  }

  lemma ScannedIsWritten(s: string) returns (a: string, b: string, c: string, tail: string)
    requires ScanParams(s).Some?
    ensures var (m, t, p) := ScanParams(s).value; Written(s, m, t, p, a, b, c, tail)
  {
    var m := ScanField(s, "m=", U32);
    a := FieldScanned(s, "m=", U32);
    var t := ScanField(m.value.1, ",t=", U32);
    b := FieldScanned(m.value.1, ",t=", U32);
    var p := ScanField(t.value.1, ",p=", U8);
    c := FieldScanned(t.value.1, ",p=", U8);
    tail := p.value.1;
    SkipSpaceIff(tail);
  }

  /** Exactly which strings are accepted as params, and with which values: each number may follow blanks and begin
      with zeros, and behind the last there may be blanks, or blanks and a line feed followed by anything. */
  lemma ParamsIff(s: string, m: nat, t: nat, p: nat)
    ensures ScanParams(s) == Some((m, t, p)) <==> exists a, b, c, tail :: Written(s, m, t, p, a, b, c, tail)
  {
    if ScanParams(s) == Some((m, t, p)) {
      var a, b, c, tail := ScannedIsWritten(s);
    } else if a, b, c, tail :| Written(s, m, t, p, a, b, c, tail) {
      WrittenScans(s, m, t, p, a, b, c, tail);
    }
  }

  lemma ParamsPrinted(memory: nat, iterations: nat, parallelism: nat)
    requires memory < U32 && iterations < U32 && parallelism < U8
    ensures ScanParams(PrintParams(memory, iterations, parallelism)) == Some((memory, iterations, parallelism))
  {
    var (a, b, c) := (Decimal(memory), Decimal(iterations), Decimal(parallelism));
    PrintedSpells(memory, U32);
    PrintedSpells(iterations, U32);
    PrintedSpells(parallelism, U8);
    assert BlankUpTo("", 0);
    assert "m=" + (a + (",t=" + (b + (",p=" + (c + ""))))) == PrintParams(memory, iterations, parallelism);
    WrittenScans(PrintParams(memory, iterations, parallelism), memory, iterations, parallelism, a, b, c, "");
  }

  lemma BlankPrintedSpells(n: nat, bound: nat)
    requires n < bound
    ensures Spells(" " + Decimal(n), n, bound)
  {
    DecimalValue(n);
    assert (" " + Decimal(n))[1..] == Decimal(n);
    assert SpellsFrom(" " + Decimal(n), 1, n, bound);
  }

  function OddlyWritten(memory: nat, iterations: nat, parallelism: nat, junk: string): string {
    var rest := ",t=" + (Decimal(iterations) + (",p=" + (Decimal(parallelism) + ("\n" + junk))));
    "m=" + ((" " + Decimal(memory)) + rest)
  }

  /** So params need not be as printed: with any values, a blank before a number and any junk on a further line
      are accepted. */
  lemma NotOnlyPrinted(memory: nat, iterations: nat, parallelism: nat, junk: string)
    requires memory < U32 && iterations < U32 && parallelism < U8
    ensures ScanParams(OddlyWritten(memory, iterations, parallelism, junk)) == Some((memory, iterations, parallelism))
  {
    var (a, b, c) := (" " + Decimal(memory), Decimal(iterations), Decimal(parallelism));
    BlankPrintedSpells(memory, U32);
    PrintedSpells(iterations, U32);
    PrintedSpells(parallelism, U8);
    assert BlankUpTo("\n" + junk, 0);
    WrittenScans(OddlyWritten(memory, iterations, parallelism, junk), memory, iterations, parallelism, a, b, c,
      "\n" + junk);
  }

  lemma {:induction false} DecimalPlain(n: nat)
    ensures '$' !in Decimal(n)
  {
    DecimalDigits(n);
  }

  lemma EncodeParts(p: Params, salt: seq<Byte>, key: seq<Byte>)
    ensures Split(Encode(p, salt, key)) ==
            ["", "argon2id", "v=19", PrintParams(p.memory, p.iterations, p.parallelism), Base64(salt), Base64(key)]
  {
    Base64RoundTrip(salt);
    Base64RoundTrip(key);
    DecimalPlain(p.memory);
    DecimalPlain(p.iterations);
    DecimalPlain(p.parallelism);
    var params := PrintParams(p.memory, p.iterations, p.parallelism);
    SplitLast(Base64(key));
    SplitField(Base64(salt), Base64(key));
    SplitField(params, Base64(salt) + "$" + Base64(key));
    SplitField("v=19", params + "$" + (Base64(salt) + "$" + Base64(key)));
    SplitField("argon2id", "v=19" + "$" + (params + "$" + (Base64(salt) + "$" + Base64(key))));
    SplitField("", "argon2id" + "$" + ("v=19" + "$" + (params + "$" + (Base64(salt) + "$" + Base64(key)))));
  }

  lemma EncodePrefix(p: Params, salt: seq<Byte>, key: seq<Byte>)
    ensures MINIMAL_PREFIX <= Encode(p, salt, key)
  {}

  predicate InRange(p: Params) {
    p.memory < U32 && p.iterations < U32 && p.parallelism < U8
  }

  /** Parsing a printed hash gives back the three costs and both byte strings, with their lengths. */
  lemma RoundTrip(p: Params, salt: seq<Byte>, key: seq<Byte>)
    requires InRange(p)
    ensures Decode(Encode(p, salt, key)) ==
            Success(Decoded(p.(saltLength := |salt| % U32, keyLength := |key| % U32), salt, key))
  {
    EncodeParts(p, salt, key);
    ParamsPrinted(p.memory, p.iterations, p.parallelism);
    Base64RoundTrip(salt);
    Base64RoundTrip(key);
    EncodePrefix(p, salt, key);
  }

  /** Equal strings come from equal costs, salt and key. */
  lemma EncodeInjective(p: Params, salt: seq<Byte>, key: seq<Byte>, q: Params, salt': seq<Byte>, key': seq<Byte>)
    requires InRange(p) && InRange(q) && Encode(p, salt, key) == Encode(q, salt', key')
    ensures p.memory == q.memory && p.iterations == q.iterations && p.parallelism == q.parallelism
    ensures salt == salt' && key == key'
  {
    RoundTrip(p, salt, key);
    RoundTrip(q, salt', key');
  }

  /** Whatever Decode accepts, printing the result and decoding again gives the same result. */
  lemma DecodeNormalises(s: string)
    requires Decode(s).Success?
    ensures var d := Decode(s).value; Decode(Encode(d.params, d.salt, d.key)) == Decode(s)
  {
    var d := Decode(s).value;
    RoundTrip(d.params, d.salt, d.key);
  }
}
