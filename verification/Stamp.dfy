/** Proof-of-work stamps: `1;20;<date>;<recipient>;<nonce>;<counter>`.  SHA-256 is any function from strings to 32
    bytes. */
module Stamp {
  import opened Wrappers
  import opened TextSearch
  import opened Calendar

  newtype byte = x: int | 0 <= x < 256

  type Digest = d: seq<byte> | |d| == 32 witness seq(32, _ => 0)

  const BITS: nat := 20
  const HEADER := "X-Glasir-Stamp"
  const VERSION := "1"

  // ---- hex --------------------------------------------------------------------------------------------------------

  function HexDigit(n: nat): char
    requires n < 16
  {
    if n < 10 then '0' + n as char else 'a' + (n - 10) as char
  }

  /** The i-th half byte, high half first. */
  function Nibble(s: seq<byte>, i: nat): (r: nat)
    requires i < 2 * |s|
    ensures r < 16
  {
    if i % 2 == 0 then s[i / 2] as nat / 16 else s[i / 2] as nat % 16
  }

  /** hex.EncodeToString */
  function Hex(s: seq<byte>): (h: string)
    ensures |h| == 2 * |s|
    ensures forall i :: 0 <= i < |h| ==> h[i] == HexDigit(Nibble(s, i))
  {
    seq(2 * |s|, i requires 0 <= i < 2 * |s| => HexDigit(Nibble(s, i)))
  }

  function TargetPrefix(bits: nat): string { seq(bits / 4, _ => '0') }

  predicate HasPrefix(h: string, prefix: string) { prefix <= h }

  predicate HashHasPrefix(sha: string -> Digest, token: string, prefix: string) { HasPrefix(Hex(sha(token)), prefix) }

  function PowerOfTwo(k: nat): (p: nat)
    ensures p > 0
  {
    if k == 0 then 1 else 2 * PowerOfTwo(k - 1)
  }

  /** Bit j of a digest, counted from its most significant one. */
  function Bit(s: seq<byte>, j: nat): nat
    requires j < 8 * |s|
  {
    s[j / 8] as nat / PowerOfTwo(7 - j % 8) % 2
  }

  /** A half byte is zero when its four bits are. */
  lemma NibbleBits(s: seq<byte>, i: nat)
    requires i < 2 * |s|
    ensures Nibble(s, i) == 0 <==> forall j :: 4 * i <= j < 4 * i + 4 ==> Bit(s, j) == 0
  {
    hide Bit, Nibble;
    NibbleFourBits(s, i);
    if forall j :: 4 * i <= j < 4 * i + 4 ==> Bit(s, j) == 0 {
      assert Bit(s, 4 * i) == 0 && Bit(s, 4 * i + 1) == 0 && Bit(s, 4 * i + 2) == 0 && Bit(s, 4 * i + 3) == 0;
    }
  }

  lemma NibbleFourBits(s: seq<byte>, i: nat)
    requires i < 2 * |s|
    ensures Nibble(s, i) == 0
        <==> Bit(s, 4 * i) == 0 && Bit(s, 4 * i + 1) == 0 && Bit(s, 4 * i + 2) == 0 && Bit(s, 4 * i + 3) == 0
  {
    BitsOfNibble(s, i);
    hide Bit;
    HalfByte(s[i / 2] as nat);
  }

  lemma BitsOfNibble(s: seq<byte>, i: nat)
    requires i < 2 * |s|
    ensures var b := s[i / 2] as nat;
            if i % 2 == 0 then
              Bit(s, 4 * i) == b / 128 % 2 && Bit(s, 4 * i + 1) == b / 64 % 2
              && Bit(s, 4 * i + 2) == b / 32 % 2 && Bit(s, 4 * i + 3) == b / 16 % 2
            else
              Bit(s, 4 * i) == b / 8 % 2 && Bit(s, 4 * i + 1) == b / 4 % 2
              && Bit(s, 4 * i + 2) == b / 2 % 2 && Bit(s, 4 * i + 3) == b / 1 % 2
  {
    PowersOfTwo();
    hide PowerOfTwo;
    var h := i / 2;
    assert i == 2 * h + i % 2;
    assert 4 * i == 8 * h + 4 * (i % 2);
  }

  lemma PowersOfTwo()
    ensures PowerOfTwo(0) == 1 && PowerOfTwo(1) == 2 && PowerOfTwo(2) == 4 && PowerOfTwo(3) == 8
    ensures PowerOfTwo(4) == 16 && PowerOfTwo(5) == 32 && PowerOfTwo(6) == 64 && PowerOfTwo(7) == 128
  {}

  lemma HalfByte(b: nat)
    requires b < 256
    ensures b / 16 == 0 <==> b / 128 % 2 == 0 && b / 64 % 2 == 0 && b / 32 % 2 == 0 && b / 16 % 2 == 0
    ensures b % 16 == 0 <==> b / 8 % 2 == 0 && b / 4 % 2 == 0 && b / 2 % 2 == 0 && b / 1 % 2 == 0
  {
    var h, l := b / 16, b % 16;
    assert b == 16 * h + l;
    ShiftedBits(h, l);
    FourBits(h);
    FourBits(l);
  }

  lemma ShiftedBits(h: nat, l: nat)
    requires l < 16
    ensures (16 * h + l) / 128 == h / 8 && (16 * h + l) / 64 == h / 4 && (16 * h + l) / 32 == h / 2
    ensures (16 * h + l) / 8 % 2 == l / 8 % 2 && (16 * h + l) / 4 % 2 == l / 4 % 2 && (16 * h + l) / 2 % 2 == l / 2 % 2
  {
    HighBits(h, l);
    LowBits(h, l);
  }

  lemma HighBits(h: nat, l: nat)
    requires l < 16
    ensures (16 * h + l) / 128 == h / 8 && (16 * h + l) / 64 == h / 4 && (16 * h + l) / 32 == h / 2
  {
    assert 16 * h + l == 128 * (h / 8) + (16 * (h % 8) + l);
    assert 16 * h + l == 64 * (h / 4) + (16 * (h % 4) + l);
    assert 16 * h + l == 32 * (h / 2) + (16 * (h % 2) + l);
  }

  lemma LowBits(h: nat, l: nat)
    requires l < 16
    ensures (16 * h + l) / 8 % 2 == l / 8 % 2 && (16 * h + l) / 4 % 2 == l / 4 % 2 && (16 * h + l) / 2 % 2 == l / 2 % 2
  {
    assert 16 * h + l == 8 * (2 * h + l / 8) + l % 8;
    assert 16 * h + l == 4 * (4 * h + l / 4) + l % 4;
    assert 16 * h + l == 2 * (8 * h + l / 2) + l % 2;
    EvenPlus(h, l / 8);
    EvenPlus(2 * h, l / 4);
    EvenPlus(4 * h, l / 2);
  }

  lemma EvenPlus(a: nat, x: nat)
    ensures (2 * a + x) % 2 == x % 2
  {}

  lemma FourBits(n: nat)
    requires n < 16
    ensures n == 0 <==> n / 8 % 2 == 0 && n / 4 % 2 == 0 && n / 2 % 2 == 0 && n / 1 % 2 == 0
  {}

  /** The test on the hex text is a test on bits: the first 4*(bits/4) of the digest are zero. */
  lemma PrefixIsZeroBits(d: Digest, bits: nat)
    requires bits <= 256
    ensures HasPrefix(Hex(d), TargetPrefix(bits)) <==> forall j :: 0 <= j < 4 * (bits / 4) ==> Bit(d, j) == 0
  {
    hide Bit;
    var n, h := bits / 4, Hex(d);
    forall i | 0 <= i < n
      ensures h[i] == '0' <==> forall j :: 4 * i <= j < 4 * i + 4 ==> Bit(d, j) == 0
    {
      NibbleBits(d, i);
    }
    if forall i :: 0 <= i < n ==> h[i] == '0' {
      forall j | 0 <= j < 4 * n ensures Bit(d, j) == 0 {
        assert h[j / 4] == '0';
      }
    }
    assert TargetPrefix(bits) <= h <==> forall i :: 0 <= i < n ==> h[i] == '0';
  }

  // ---- text -------------------------------------------------------------------------------------------------------

  /** %d of a natural number. */
  function Decimal(n: nat): (s: string)
    ensures s != "" && forall c :: c in s ==> IsDigit(c)
  {
    if n < 10 then [Digit(n)] else Decimal(n / 10) + [Digit(n % 10)]
  }

  /** What a decimal number means. */
  function Number(s: string): nat
    requires forall c :: c in s ==> IsDigit(c)
  {
    if s == "" then 0 else 10 * Number(s[..|s| - 1]) + Value(s[|s| - 1])
  }

  lemma {:induction false} DecimalMeans(n: nat)
    ensures Number(Decimal(n)) == n
  {
    if n >= 10 {
      DecimalMeans(n / 10);
      assert Decimal(n)[..|Decimal(n)| - 1] == Decimal(n / 10);
    } else {
      assert Decimal(n)[..0] == "";
    }
  }

  /** Of eight digits, four are the year, two the month and two the day, and no other text names a date. */
  lemma ParseMeans(s: string, d: Date)
    ensures Parse(s) == Some(d) <==>
            && |s| == 8 && (forall c :: c in s ==> IsDigit(c))
            && Exists(d) && Number(s) == 10_000 * d.year + 100 * d.month + d.day
  {
    hide Exists, Number;
    if |s| == 8 && forall c :: c in s ==> IsDigit(c) {
      EightDigits(s);
      var y := ((Value(s[0]) * 10 + Value(s[1])) * 10 + Value(s[2])) * 10 + Value(s[3]);
      var m, n := Value(s[4]) * 10 + Value(s[5]), Value(s[6]) * 10 + Value(s[7]);
      OnlyDate(y, m, n, d);
    }
  }

  lemma OnlyDate(y: nat, m: nat, n: nat, d: Date)
    requires m < 100 && n < 100
    ensures Exists(d) && 10_000 * d.year + 100 * d.month + d.day == 10_000 * y + 100 * m + n ==> d == Date(y, m, n)
  {
    if Exists(d) {
      DaysAreTwoDigits(d);
      hide Exists;
      HundredsApart(100 * d.year + d.month, d.day, 100 * y + m, n);
      HundredsApart(d.year, d.month, y, m);
    }
  }

  lemma DaysAreTwoDigits(d: Date)
    requires Exists(d)
    ensures d.month < 100 && d.day < 100
  {}

  lemma HundredsApart(a: nat, b: nat, c: nat, d: nat)
    requires b < 100 && d < 100
    ensures 100 * a + b == 100 * c + d ==> a == c && b == d
  {}

  lemma EightDigits(s: string)
    requires |s| == 8 && forall c :: c in s ==> IsDigit(c)
    ensures forall i :: 0 <= i < 8 ==> IsDigit(s[i])
    ensures Number(s) == 10_000 * (((Value(s[0]) * 10 + Value(s[1])) * 10 + Value(s[2])) * 10 + Value(s[3]))
                       + 100 * (Value(s[4]) * 10 + Value(s[5])) + (Value(s[6]) * 10 + Value(s[7]))
  {
    hide Number;
    NumberStep(s, 1);
    NumberStep(s, 2);
    NumberStep(s, 3);
    NumberStep(s, 4);
    NumberStep(s, 5);
    NumberStep(s, 6);
    NumberStep(s, 7);
    NumberStep(s, 8);
    assert s[..8] == s;
    NoDigits(s);
  }

  lemma NumberStep(s: string, n: nat)
    requires 0 < n <= |s| && forall c :: c in s ==> IsDigit(c)
    ensures IsDigit(s[n - 1]) && Number(s[..n]) == 10 * Number(s[..n - 1]) + Value(s[n - 1])
  {
    assert s[..n][..n - 1] == s[..n - 1];
  }

  lemma NoDigits(s: string)
    ensures Number(s[..0]) == 0
  {}

  // ---- tokens -----------------------------------------------------------------------------------------------------

  function Prefix(date: string, recipient: string, nonce: string): string {
    VERSION + ";" + (Decimal(BITS) + ";" + (date + ";" + (recipient + ";" + (nonce + ";"))))
  }

  ghost predicate Works(sha: string -> Digest, prefix: string, counter: nat) {
    HashHasPrefix(sha, prefix + Decimal(counter), TargetPrefix(BITS))
  }

  /** The search of Generate ends for every prefix. */
  ghost predicate Solvable(sha: string -> Digest) { forall p: string :: SolvableFor(sha, p) }

  ghost predicate SolvableFor(sha: string -> Digest, prefix: string) { exists n: nat :: Works(sha, prefix, n) }

  /** Each step of the search hashes another token. */
  lemma EachTokenDiffers(prefix: string, m: nat, n: nat)
    requires prefix + Decimal(m) == prefix + Decimal(n)
    ensures m == n
  {
    hide Decimal, Number;
    assert Decimal(m) == (prefix + Decimal(m))[|prefix|..] == Decimal(n);
    DecimalMeans(m);
    DecimalMeans(n);
  }

  ghost predicate Least(sha: string -> Digest, prefix: string, counter: nat) {
    Works(sha, prefix, counter) && forall n :: 0 <= n < counter ==> !Works(sha, prefix, n)
  }

  /** `token` is a stamp for `recipient` made at time t. */
  ghost predicate MadeFor(sha: string -> Digest, token: string, recipient: string, t: int) {
    Printable(t) && exists nonce: seq<byte>, counter: nat :: MadeFrom(sha, token, recipient, t, nonce, counter)
  }

  ghost predicate MadeFrom(sha: string -> Digest, token: string, recipient: string, t: int, nonce: seq<byte>,
                           counter: nat)
    requires Printable(t)
  {
    var prefix := Prefix(DateStamp(t), recipient, Hex(nonce));
    token == prefix + Decimal(counter) && Least(sha, prefix, counter)
  }

  /** The loop: the least counter that meets the target. */
  method Search(sha: string -> Digest, prefix: string, target: string) returns (token: string, ghost counter: nat)
    requires target == TargetPrefix(BITS) && SolvableFor(sha, prefix)
    ensures token == prefix + Decimal(counter) && Least(sha, prefix, counter)
  {
    hide TargetPrefix, HashHasPrefix, Decimal;
    ghost var enough: nat :| Works(sha, prefix, enough);
    var n: nat := 0;
    while true
      invariant forall k :: 0 <= k < n ==> !Works(sha, prefix, k)
      decreases enough - n
    {
      token := prefix + Decimal(n);
      if HashHasPrefix(sha, token, target) {
        assert Works(sha, prefix, n);
        counter := n;
        return;
      }
      assert !Works(sha, prefix, n);
      n := n + 1;
    }
  }

  method Generate(sha: string -> Digest, recipient: string, now: int, random: seq<byte>) returns (token: string)
    requires Printable(now) && Solvable(sha)
    ensures exists counter: nat :: MadeFrom(sha, token, recipient, now, random, counter)
    ensures MadeFor(sha, token, recipient, now)
  {
    hide DateStamp, Prefix, TargetPrefix, Hex, Least, SolvableFor, Printable;
    var date := DateStamp(now);
    var nonce := Hex(random);
    var prefix := Prefix(date, recipient, nonce);
    ghost var counter;
    token, counter := Search(sha, prefix, TargetPrefix(BITS));
    assert MadeFrom(sha, token, recipient, now, random, counter);
  }

  /** nil or an error. */
  predicate Verify(sha: string -> Digest, now: int, token: string) {
    var parts := SplitN(token, ';', 6);
    && |parts| == 6
    && parts[0] == VERSION
    && var t := Parse(parts[2]);
    && t.Some? && Exists(t.value)
    && now - Midnight(t.value) <= 48 * HOUR
    && HashHasPrefix(sha, token, TargetPrefix(BITS))
  }

  /** The text of a stamp: six fields, of which the last may hold anything. */
  ghost predicate Reads(token: string, bits: string, date: string, recipient: string, nonce: string, counter: string) {
    && ';' !in bits && ';' !in date && ';' !in recipient && ';' !in nonce
    && token == "1" + ";" + (bits + ";" + (date + ";" + (recipient + ";" + (nonce + ";" + counter))))
  }

  /** The date is one of the calendar, and its midnight is at most two days ago. */
  predicate Current(now: int, date: string) {
    Parse(date).Some? && Exists(Parse(date).value) && now - DayNumber(Parse(date).value) * DAY <= 2 * DAY
  }

  /** The proof of work: the first twenty bits of the digest are zero. */
  predicate Worked(sha: string -> Digest, token: string) { forall j :: 0 <= j < 20 ==> Bit(sha(token), j) == 0 }

  lemma FieldsRead(bits: string, date: string, recipient: string, nonce: string, counter: string, token: string)
    requires Reads(token, bits, date, recipient, nonce, counter)
    ensures SplitN(token, ';', 6) == ["1", bits, date, recipient, nonce, counter]
    ensures |Split(token, ';')| >= 4 && Split(token, ';')[3] == recipient
  {
    hide Split, SplitN;
    SplitFirst("1", ';', bits + ";" + (date + ";" + (recipient + ";" + (nonce + ";" + counter))), 6);
    SplitFirst(bits, ';', date + ";" + (recipient + ";" + (nonce + ";" + counter)), 5);
    SplitFirst(date, ';', recipient + ";" + (nonce + ";" + counter), 4);
    SplitFirst(recipient, ';', nonce + ";" + counter, 3);
    SplitFirst(nonce, ';', counter, 2);
    LastField(counter);
  }

  lemma LastField(counter: string)
    ensures SplitN(counter, ';', 1) == [counter]
  {}

  /** The first field of several, and the rest. */
  lemma FirstField(s: string, n: nat) returns (a: string, b: string)
    requires n > 1 && |SplitN(s, ';', n)| == n
    ensures s == a + ";" + b && ';' !in a && SplitN(s, ';', n) == [a] + SplitN(b, ';', n - 1)
    ensures |SplitN(b, ';', n - 1)| == n - 1
  {
    SplitCut(s, ';', n);
    hide SplitN;
    a, b := s[..IndexOf(s, ';')], s[IndexOf(s, ';') + 1..];
  }

  /** Six pieces are six fields. */
  lemma SixFields(token: string)
    requires |SplitN(token, ';', 6)| == 6 && SplitN(token, ';', 6)[0] == "1"
    ensures var p := SplitN(token, ';', 6); Reads(token, p[1], p[2], p[3], p[4], p[5])
  {
    hide Split, SplitN;
    var version, t1 := FirstField(token, 6);
    var bits, t2 := FirstField(t1, 5);
    var date, t3 := FirstField(t2, 4);
    var recipient, t4 := FirstField(t3, 3);
    var nonce, counter := FirstField(t4, 2);
    LastField(counter);
    assert SplitN(token, ';', 6) == [version, bits, date, recipient, nonce, counter];
  }

  /** What passes, and nothing else does: version 1, a date at most two days old, and the work done for this very
      token. */
  lemma VerifyMeans(sha: string -> Digest, now: int, token: string)
    ensures Verify(sha, now, token) <==>
            Worked(sha, token)
            && exists bits, date, recipient, nonce, counter ::
                 Reads(token, bits, date, recipient, nonce, counter) && Current(now, date)
  {
    hide SplitN, Split, Parse, Hex, Bit, Reads, Exists, DayNumber;
    PrefixIsZeroBits(sha(token), BITS);
    if Verify(sha, now, token) {
      SixFields(token);
    }
    if bits, date, recipient, nonce, counter :|
        Reads(token, bits, date, recipient, nonce, counter) && Current(now, date) {
      FieldsRead(bits, date, recipient, nonce, counter, token);
    }
  }

  lemma NoSemicolonInConstants()
    ensures ';' !in VERSION && ';' !in Decimal(BITS)
  {
    assert !IsDigit(';');
  }

  lemma NoSemicolonInHex(s: seq<byte>)
    ensures ';' !in Hex(s)
  {
    forall i | 0 <= i < |Hex(s)| ensures Hex(s)[i] != ';' {}
  }

  lemma NoSemicolonInDate(d: Date)
    requires d.year < 10000 && Exists(d)
    ensures ';' !in Format(d)
  {
    assert !IsDigit(';');
  }

  /** What follows the date in a stamp. */
  function Tail(recipient: string, nonce: string, counter: string): string { recipient + ";" + (nonce + ";" + counter) }

  /** The field the gate takes for the recipient: all of it, or what precedes its first semicolon. */
  function RecipientField(recipient: string): string {
    if ';' in recipient then recipient[..IndexOf(recipient, ';')] else recipient
  }

  /** The first three fields of a stamp come out whatever the recipient is. */
  lemma Fields(date: string, recipient: string, nonce: string, counter: nat)
    requires ';' !in date
    ensures var token, tail := Prefix(date, recipient, nonce) + Decimal(counter),
            Tail(recipient, nonce, Decimal(counter));
            && SplitN(token, ';', 6) == [VERSION] + ([Decimal(BITS)] + ([date] + SplitN(tail, ';', 3)))
            && Split(token, ';') == [VERSION] + ([Decimal(BITS)] + ([date] + Split(tail, ';')))
  {
    TokenShape(date, recipient, nonce, counter);
    NoSemicolonInConstants();
    hide Decimal, Prefix, Split, SplitN, Tail;
    var tail := Tail(recipient, nonce, Decimal(counter));
    SplitFirst(VERSION, ';', Decimal(BITS) + ";" + (date + ";" + tail), 6);
    SplitFirst(Decimal(BITS), ';', date + ";" + tail, 5);
    SplitFirst(date, ';', tail, 4);
  }

  lemma TokenShape(date: string, recipient: string, nonce: string, counter: nat)
    ensures Prefix(date, recipient, nonce) + Decimal(counter)
         == VERSION + ";" + (Decimal(BITS) + ";" + (date + ";" + Tail(recipient, nonce, Decimal(counter))))
  {
    hide Decimal;
    var c, b := Decimal(counter), Decimal(BITS);
    assert (nonce + ";") + c == nonce + ";" + c;
    assert (recipient + ";" + (nonce + ";")) + c == recipient + ";" + ((nonce + ";") + c);
    assert (date + ";" + (recipient + ";" + (nonce + ";"))) + c == date + ";" + ((recipient + ";" + (nonce + ";")) + c);
    assert (b + ";" + (date + ";" + (recipient + ";" + (nonce + ";")))) + c
        == b + ";" + ((date + ";" + (recipient + ";" + (nonce + ";"))) + c);
  }

  lemma TailFields(recipient: string, nonce: string, counter: string)
    requires ';' !in nonce
    ensures var tail := Tail(recipient, nonce, counter);
            |SplitN(tail, ';', 3)| == 3 && |Split(tail, ';')| >= 3 && Split(tail, ';')[0] == RecipientField(recipient)
  {
    if ';' in recipient {
      SpilledFields(recipient, nonce + ";" + counter);
    } else {
      SplitFirst(recipient, ';', nonce + ";" + counter, 3);
      SplitFirst(nonce, ';', counter, 2);
    }
  }

  lemma SpilledFields(recipient: string, rest: string)
    requires ';' in recipient
    ensures var tail := recipient + ";" + rest;
            |SplitN(tail, ';', 3)| == 3 && |Split(tail, ';')| >= 3 &&
                Split(tail, ';')[0] == recipient[..IndexOf(recipient, ';')]
  {
    hide SplitN, Split;
    var i := IndexOf(recipient, ';');
    var a, b := recipient[..i], recipient[i + 1..];
    TailAround(recipient, i, rest);
    SplitFirst(a, ';', b + ";" + rest, 3);
    TwoMore(b, rest);
  }

  lemma TailAround(recipient: string, i: nat, rest: string)
    requires i < |recipient| && recipient[i] == ';'
    ensures recipient + ";" + rest == recipient[..i] + ";" + (recipient[i + 1..] + ";" + rest)
  {
    var a, b := recipient[..i], recipient[i + 1..];
    assert recipient == a + ";" + b;
    assert (a + ";" + b) + ";" + rest == a + ";" + (b + ";" + rest);
  }

  lemma TwoMore(a: string, b: string)
    ensures |SplitN(a + ";" + b, ';', 2)| == 2 && |Split(a + ";" + b, ';')| >= 2
  {
    var s := a + ";" + b;
    assert s[|a|] == ';';
  }

  /** The fields of a generated stamp, as Verify and the gate see them. */
  lemma MadeFields(sha: string -> Digest, token: string, recipient: string, t: int)
    requires MadeFor(sha, token, recipient, t)
    ensures var parts := SplitN(token, ';', 6); |parts| == 6 && parts[0] == VERSION && parts[2] == DateStamp(t)
    ensures var parts := Split(token, ';'); |parts| >= 4 && parts[3] == RecipientField(recipient)
    ensures HashHasPrefix(sha, token, TargetPrefix(BITS))
  {
    hide DateOf, SplitN, Split, Parse, TargetPrefix, Hex, Prefix, RecipientField, Tail, HashHasPrefix, Format, Decimal;
    var nonce: seq<byte>, counter: nat :| MadeFrom(sha, token, recipient, t, nonce, counter);
    NoSemicolonInDate(DateOf(t / DAY));
    NoSemicolonInHex(nonce);
    Fields(DateStamp(t), recipient, Hex(nonce), counter);
    TailFields(recipient, Hex(nonce), Decimal(counter));
  }

  /** For a recipient without a semicolon the stamp reads as it was made, field by field. */
  lemma GeneratedReads(sha: string -> Digest, token: string, recipient: string, t: int, nonce: seq<byte>, counter: nat)
    requires Printable(t) && MadeFrom(sha, token, recipient, t, nonce, counter) && ';' !in recipient
    ensures Reads(token, "20", DateStamp(t), recipient, Hex(nonce), Decimal(counter))
  {
    hide DateOf, Format, Least, Prefix, Decimal, Hex;
    NoSemicolonInDate(DateOf(t / DAY));
    NoSemicolonInHex(nonce);
    TokenShape(DateStamp(t), recipient, Hex(nonce), counter);
    BitsText();
  }

  lemma BitsText()
    ensures Decimal(BITS) == "20"
  {
    assert Decimal(2) == "2";
  }

  /** A stamp verifies exactly until 48 hours after the midnight before it was made, whoever the recipient is. */
  lemma MadeVerifies(sha: string -> Digest, token: string, recipient: string, t: int, now: int)
    requires MadeFor(sha, token, recipient, t)
    ensures Verify(sha, now, token) <==> now - (t - t % DAY) <= 48 * HOUR
  {
    hide DateStamp, DateOf, SplitN, Split, Parse, Midnight, TargetPrefix, MadeFrom, HashHasPrefix, RecipientField;
    MadeFields(sha, token, recipient, t);
    StampIsMidnight(t);
  }

  /** In particular for 24 hours from its making, and never more than 48. */
  lemma Validity(sha: string -> Digest, token: string, recipient: string, t: int, now: int)
    requires MadeFor(sha, token, recipient, t)
    ensures now - t <= 24 * HOUR ==> Verify(sha, now, token)
    ensures now - t > 48 * HOUR ==> !Verify(sha, now, token)
  {
    hide MadeFor, Verify;
    MadeVerifies(sha, token, recipient, t, now);
  }
}
