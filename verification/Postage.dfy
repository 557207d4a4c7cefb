/** Stamp headers: how they get into a message, and when the receiving gate accepts them. */
module Postage {
  import opened Wrappers
  import opened Schema
  import opened Calendar
  import opened TextSearch
  import opened Stamp

  datatype Field = Field(name: string, value: string)

  /** A message as the MIME library presents it: header fields from the top, under canonical names, and the body. */
  datatype Entity = Entity(header: seq<Field>, body: Bytes)

  /** What is taken from libraries: SHA-256, the Unicode tables, and reading and writing messages. */
  datatype Library = Library(
    sha: string -> Digest, lower: char -> char, space: char -> bool,
    read: Bytes -> Option<Entity>, write: Entity -> Option<Bytes>)

  /** Reading gives back what was written; lower-casing makes no semicolons, and neither they nor digits are white
      space. */
  ghost predicate Lawful(lib: Library) {
    && (forall e :: lib.write(e).Some? ==> lib.read(lib.write(e).value) == Some(e))
    && (forall c :: lib.lower(c) == ';' <==> c == ';')
    && !lib.space(';') && (forall c :: IsDigit(c) ==> !lib.space(c))
  }

  // ---- header fields ----------------------------------------------------------------------------------------------

  function Values(h: seq<Field>, name: string): seq<string> {
    if h == [] then [] else (if h[0].name == name then [h[0].value] else []) + Values(h[1..], name)
  }

  function Del(h: seq<Field>, name: string): seq<Field> {
    if h == [] then [] else (if h[0].name == name then [] else [h[0]]) + Del(h[1..], name)
  }

  /** A new field goes to the top. */
  function Add(h: seq<Field>, name: string, value: string): seq<Field> { [Field(name, value)] + h }

  function Set(h: seq<Field>, name: string, value: string): seq<Field> { Add(Del(h, name), name, value) }

  lemma {:induction false} DelValues(h: seq<Field>, name: string, other: string)
    ensures Values(Del(h, name), other) == if other == name then [] else Values(h, other)
  {
    if h != [] {
      DelValues(h[1..], name, other);
      if h[0].name == name {
        assert Del(h, name) == Del(h[1..], name);
      } else {
        assert Del(h, name) == [h[0]] + Del(h[1..], name);
      }
    }
  }

  /** Set leaves exactly one field of that name, and every other name as it was. */
  lemma SetValues(h: seq<Field>, name: string, value: string, other: string)
    ensures Values(Set(h, name, value), other) == if other == name then [value] else Values(h, other)
  {
    DelValues(h, name, other);
    AddValues(Del(h, name), name, value, other);
  }

  lemma AddValues(h: seq<Field>, name: string, value: string, other: string)
    ensures Values(Add(h, name, value), other) == (if other == name then [value] else []) + Values(h, other)
  {
    assert Add(h, name, value)[1..] == h;
  }

  // ---- comparing recipients ---------------------------------------------------------------------------------------

  function TrimLeft(lib: Library, s: string): string {
    if s != "" && lib.space(s[0]) then TrimLeft(lib, s[1..]) else s
  }

  function TrimRight(lib: Library, s: string): string {
    if s != "" && lib.space(s[|s| - 1]) then TrimRight(lib, s[..|s| - 1]) else s
  }

  function TrimSpace(lib: Library, s: string): string { TrimRight(lib, TrimLeft(lib, s)) }

  function ToLower(lib: Library, s: string): string { seq(|s|, i requires 0 <= i < |s| => lib.lower(s[i])) }

  /** strings.ReplaceAll(s, c, "") */
  function Without(s: string, c: char): string {
    if s == "" then "" else (if s[0] == c then "" else [s[0]]) + Without(s[1..], c)
  }

  /** The local function `clean`. */
  function Clean(lib: Library, s: string): string { Without(Without(ToLower(lib, TrimSpace(lib, s)), '['), ']') }

  lemma {:induction false} WithoutKeeps(s: string, c: char, d: char)
    requires d != c
    ensures d in Without(s, c) <==> d in s
  {
    if s != "" {
      WithoutKeeps(s[1..], c, d);
      assert d in s <==> d == s[0] || d in s[1..];
    }
  }

  lemma {:induction false} TrimLeftKeeps(lib: Library, s: string, d: char)
    requires !lib.space(d)
    ensures d in TrimLeft(lib, s) <==> d in s
  {
    if s != "" && lib.space(s[0]) {
      TrimLeftKeeps(lib, s[1..], d);
      assert d in s <==> d == s[0] || d in s[1..];
    }
  }

  lemma {:induction false} TrimRightKeeps(lib: Library, s: string, d: char)
    requires !lib.space(d)
    ensures d in TrimRight(lib, s) <==> d in s
  {
    if s != "" && lib.space(s[|s| - 1]) {
      TrimRightKeeps(lib, s[..|s| - 1], d);
      assert d in s <==> d == s[|s| - 1] || d in s[..|s| - 1];
    }
  }

  /** Cleaning neither removes nor makes semicolons. */
  lemma CleanSemicolon(lib: Library, s: string)
    requires Lawful(lib)
    ensures ';' in Clean(lib, s) <==> ';' in s
  {
    TrimLeftKeeps(lib, s, ';');
    TrimRightKeeps(lib, TrimLeft(lib, s), ';');
    var t := TrimSpace(lib, s);
    var l := ToLower(lib, t);
    if ';' in l {
      var i :| 0 <= i < |l| && l[i] == ';';
      assert t[i] == ';';
    }
    if ';' in t {
      var i :| 0 <= i < |t| && t[i] == ';';
      assert l[i] == ';';
    }
    WithoutKeeps(l, '[', ';');
    WithoutKeeps(Without(l, '['), ']', ';');
  }

  predicate Blank(lib: Library, s: string) { forall c :: c in s ==> lib.space(c) }

  /** Trimming takes the white space at both ends, and no more. */
  lemma {:induction false} TrimsExactly(lib: Library, a: string, s: string, b: string)
    requires Blank(lib, a) && Blank(lib, b) && s != "" && !lib.space(s[0]) && !lib.space(s[|s| - 1])
    ensures TrimSpace(lib, a + s + b) == s
  {
    TrimsLeft(lib, a, s + b);
    assert a + s + b == a + (s + b);
    TrimsRight(lib, s, b);
  }

  lemma {:induction false} TrimsLeft(lib: Library, a: string, s: string)
    requires Blank(lib, a) && s != "" && !lib.space(s[0])
    ensures TrimLeft(lib, a + s) == s
  {
    if a == "" {
      assert a + s == s;
    } else {
      assert (a + s)[1..] == a[1..] + s;
      TrimsLeft(lib, a[1..], s);
    }
  }

  lemma {:induction false} TrimsRight(lib: Library, s: string, b: string)
    requires Blank(lib, b) && s != "" && !lib.space(s[|s| - 1])
    ensures TrimRight(lib, s + b) == s
  {
    if b == "" {
      assert s + b == s;
    } else {
      assert (s + b)[..|s + b| - 1] == s + b[..|b| - 1];
      TrimsRight(lib, s, b[..|b| - 1]);
    }
  }

  lemma {:induction false} WithoutParts(s: string, t: string, c: char)
    ensures Without(s + t, c) == Without(s, c) + Without(t, c)
  {
    if s == "" {
      assert s + t == t;
    } else {
      assert (s + t)[1..] == s[1..] + t;
      WithoutParts(s[1..], t, c);
    }
  }

  /** An address that cleaning leaves alone. */
  predicate Plain(lib: Library, s: string) {
    forall c :: c in s ==> !lib.space(c) && lib.lower(c) == c && c != '[' && c != ']'
  }

  lemma {:induction false} WithoutNone(s: string, c: char)
    requires c !in s
    ensures Without(s, c) == s
  {
    if s != "" { WithoutNone(s[1..], c); }
  }

  lemma CleanPlain(lib: Library, s: string)
    requires Plain(lib, s)
    ensures Clean(lib, s) == s
  {
    assert TrimLeft(lib, s) == s && TrimRight(lib, s) == s;
    assert ToLower(lib, s) == s;
    WithoutNone(s, '[');
    WithoutNone(s, ']');
  }

  /** Cleaning takes the white space around an address and the brackets in it. */
  lemma CleanIgnores(lib: Library, a: string, x: string, y: string, z: string, b: string)
    requires Blank(lib, a) && Blank(lib, b) && Plain(lib, x) && Plain(lib, y) && Plain(lib, z) && x != ""
    requires !lib.space('[') && !lib.space(']') && lib.lower('[') == '[' && lib.lower(']') == ']'
    ensures Clean(lib, a + (x + "[" + y + "]" + z) + b) == x + y + z
  {
    hide TrimSpace, Without;
    var s := x + "[" + y + "]" + z;
    TrimsExactly(lib, a, s, b);
    assert ToLower(lib, s) == s;
    WithoutBrackets(x, y, z);
  }

  lemma WithoutBrackets(x: string, y: string, z: string)
    requires '[' !in x && '[' !in y && '[' !in z && ']' !in x && ']' !in y && ']' !in z
    ensures Without(Without(x + "[" + y + "]" + z, '['), ']') == x + y + z
  {
    WithoutOne(x, '[', y + "]" + z);
    assert x + "[" + y + "]" + z == x + "[" + (y + "]" + z);
    WithoutOne(x + y, ']', z);
    assert x + (y + "]" + z) == (x + y) + "]" + z;
  }

  lemma WithoutOne(a: string, c: char, b: string)
    requires c !in a && c !in b
    ensures Without(a + [c] + b, c) == a + b
  {
    hide Without;
    WithoutParts(a + [c], b, c);
    WithoutParts(a, [c], c);
    WithoutItself(c);
    WithoutNone(a, c);
    WithoutNone(b, c);
  }

  lemma WithoutItself(c: char)
    ensures Without([c], c) == ""
  {
    assert [c][1..] == "";
  }

  /** And it does not see case: what lower-cases alike is cleaned alike. */
  lemma CleanIgnoresCase(lib: Library, s: string, t: string)
    requires |s| == |t|
    requires forall i :: 0 <= i < |s| ==> lib.lower(s[i]) == lib.lower(t[i]) && (lib.space(s[i]) <==> lib.space(t[i]))
    ensures Clean(lib, s) == Clean(lib, t)
  {
    TrimLeftAlike(lib, s, t);
    TrimRightAlike(lib, TrimLeft(lib, s), TrimLeft(lib, t));
    assert ToLower(lib, TrimSpace(lib, s)) == ToLower(lib, TrimSpace(lib, t));
  }

  ghost predicate Alike(lib: Library, s: string, t: string) {
    |s| == |t| && forall i :: 0 <= i < |s| ==>
      lib.lower(s[i]) == lib.lower(t[i]) && (lib.space(s[i]) <==> lib.space(t[i]))
  }

  lemma {:induction false} TrimLeftAlike(lib: Library, s: string, t: string)
    requires Alike(lib, s, t)
    ensures Alike(lib, TrimLeft(lib, s), TrimLeft(lib, t))
  {
    if s != "" && lib.space(s[0]) { TrimLeftAlike(lib, s[1..], t[1..]); }
  }

  lemma {:induction false} TrimRightAlike(lib: Library, s: string, t: string)
    requires Alike(lib, s, t)
    ensures Alike(lib, TrimRight(lib, s), TrimRight(lib, t))
  {
    if s != "" && lib.space(s[|s| - 1]) { TrimRightAlike(lib, s[..|s| - 1], t[..|t| - 1]); }
  }

  // ---- the gate ---------------------------------------------------------------------------------------------------

  /** The field of a token that is compared with recipients. */
  function TokenRecipient(token: string): Option<string> {
    var parts := Split(token, ';');
    if |parts| >= 4 then Some(parts[3]) else None
  }

  /** A stamp header pays for a recipient. */
  predicate Pays(lib: Library, now: int, stamp: string, rcpt: string) {
    var token := TrimSpace(lib, stamp);
    && Verify(lib.sha, now, token)
    && TokenRecipient(token).Some?
    && Clean(lib, TokenRecipient(token).value) == Clean(lib, rcpt)
  }

  predicate Paid(lib: Library, now: int, stamps: seq<string>, rcpt: string) {
    exists k :: 0 <= k < |stamps| && Pays(lib, now, stamps[k], rcpt)
  }

  /** Every recipient is paid for by some stamp. */
  predicate Accepts(lib: Library, now: int, stamps: seq<string>, rcpts: seq<string>) {
    forall i :: 0 <= i < |rcpts| ==> Paid(lib, now, stamps, rcpts[i])
  }

  /** The work done for this token, a current date, and this recipient's name in it. */
  ghost predicate WorkFor(lib: Library, now: int, token: string, rcpt: string) {
    Worked(lib.sha, token)
    && exists bits, date, recipient, nonce, counter ::
         && Reads(token, bits, date, recipient, nonce, counter)
         && Current(now, date) && Clean(lib, recipient) == Clean(lib, rcpt)
  }

  /** What a stamp has to be to pay for a recipient. */
  lemma PaysMeans(lib: Library, now: int, stamp: string, rcpt: string)
    ensures Pays(lib, now, stamp, rcpt) <==> WorkFor(lib, now, TrimSpace(lib, stamp), rcpt)
  {
    hide Verify, Worked, Split, Clean, TrimSpace, Parse, Reads, Current;
    var token := TrimSpace(lib, stamp);
    VerifyMeans(lib.sha, now, token);
    if bits, date, recipient, nonce, counter :|
        Reads(token, bits, date, recipient, nonce, counter) && Current(now, date) {
      OneReading(token, bits, date, recipient, nonce, counter);
    }
  }

  /** A token can be read in one way only. */
  lemma OneReading(token: string, bits: string, date: string, recipient: string, nonce: string, counter: string)
    requires Reads(token, bits, date, recipient, nonce, counter)
    ensures TokenRecipient(token) == Some(recipient)
    ensures forall b, d, r, n, c :: Reads(token, b, d, r, n, c) ==> r == recipient && d == date
  {
    FieldsRead(bits, date, recipient, nonce, counter, token);
    forall b, d, r, n, c | Reads(token, b, d, r, n, c) ensures r == recipient && d == date {
      FieldsRead(b, d, r, n, c, token);
      assert ["1", b, d, r, n, c][2] == ["1", bits, date, recipient, nonce, counter][2];
    }
  }

  /** The work is done for this recipient in one of the stamps. */
  ghost predicate WorkIn(lib: Library, now: int, stamps: seq<string>, rcpt: string) {
    exists k :: 0 <= k < |stamps| && WorkFor(lib, now, TrimSpace(lib, stamps[k]), rcpt)
  }

  lemma PaidMeans(lib: Library, now: int, stamps: seq<string>, rcpt: string)
    ensures Paid(lib, now, stamps, rcpt) <==> WorkIn(lib, now, stamps, rcpt)
  {
    hide Pays, WorkFor, TrimSpace;
    forall k | 0 <= k < |stamps|
      ensures Pays(lib, now, stamps[k], rcpt) <==> WorkFor(lib, now, TrimSpace(lib, stamps[k]), rcpt)
    {
      PaysMeans(lib, now, stamps[k], rcpt);
    }
  }

  /** The gate opens exactly for messages with the work done for every recipient. */
  lemma AcceptsMeans(lib: Library, now: int, stamps: seq<string>, rcpts: seq<string>)
    ensures Accepts(lib, now, stamps, rcpts) <==>
            forall i :: 0 <= i < |rcpts| ==> WorkIn(lib, now, stamps, rcpts[i])
  {
    hide Paid, WorkIn;
    forall i | 0 <= i < |rcpts| ensures Paid(lib, now, stamps, rcpts[i]) <==> WorkIn(lib, now, stamps, rcpts[i]) {
      PaidMeans(lib, now, stamps, rcpts[i]);
    }
  }

  lemma MadeIsTrim(lib: Library, token: string, recipient: string, t: int)
    requires Lawful(lib) && MadeFor(lib.sha, token, recipient, t)
    ensures TrimSpace(lib, token) == token
  {
    hide Decimal, DateStamp, Hex, Least;
    var nonce: seq<byte>, counter: nat :| MadeFrom(lib.sha, token, recipient, t, nonce, counter);
    var c := Decimal(counter);
    assert token[0] == '1';
    assert token[|token| - 1] == c[|c| - 1] && IsDigit(c[|c| - 1]);
  }

  /** What the gate reads out of the stamp is the recipient, unless that has a semicolon. */
  lemma RecipientMatches(lib: Library, rcpt: string)
    requires Lawful(lib)
    ensures Clean(lib, RecipientField(rcpt)) == Clean(lib, rcpt) <==> ';' !in rcpt
  {
    if ';' in rcpt {
      CleanSemicolon(lib, rcpt);
      CleanSemicolon(lib, RecipientField(rcpt));
    }
  }

  /** A stamp pays for every spelling of the recipient it was made for, and for nobody else, exactly while it
      verifies. */
  lemma MadePaysFor(lib: Library, token: string, rcpt: string, other: string, t: int, now: int)
    requires Lawful(lib) && MadeFor(lib.sha, token, rcpt, t)
    ensures Pays(lib, now, token, other) <==>
            Clean(lib, other) == Clean(lib, RecipientField(rcpt)) && now - (t - t % DAY) <= 48 * HOUR
  {
    hide Verify, Clean, Split, MadeFor, DateStamp, SplitN, Lawful, RecipientField, TrimSpace, HashHasPrefix,
        TargetPrefix;
    MadeIsTrim(lib, token, rcpt, t);
    MadeFields(lib.sha, token, rcpt, t);
    MadeVerifies(lib.sha, token, rcpt, t, now);
  }

  /** In particular for that recipient itself, if it has no semicolon; if it has one, never. */
  lemma MadePays(lib: Library, token: string, rcpt: string, t: int, now: int)
    requires Lawful(lib) && MadeFor(lib.sha, token, rcpt, t)
    ensures Pays(lib, now, token, rcpt) <==> ';' !in rcpt && now - (t - t % DAY) <= 48 * HOUR
  {
    hide Pays, Clean, MadeFor, Lawful, RecipientField;
    MadePaysFor(lib, token, rcpt, rcpt, t, now);
    RecipientMatches(lib, rcpt);
  }

  /** A stamp made for one plain address pays for no other. */
  lemma MadePaysNoOther(lib: Library, token: string, rcpt: string, other: string, t: int, now: int)
    requires Lawful(lib) && MadeFor(lib.sha, token, rcpt, t) && Plain(lib, rcpt) && Plain(lib, other) && ';' !in rcpt
    ensures Pays(lib, now, token, other) ==> other == rcpt
  {
    hide Pays, Clean, MadeFor, Lawful;
    MadePaysFor(lib, token, rcpt, other, t, now);
    CleanPlain(lib, rcpt);
    CleanPlain(lib, other);
  }

  // ---- stamping a message -----------------------------------------------------------------------------------------

  /** What QueueFor stores for one recipient. */
  function Stamped(lib: Library, content: Bytes, token: string): Option<Bytes> {
    var msg := lib.read(content);
    if msg.None? then None else lib.write(msg.value.(header := Set(msg.value.header, HEADER, token)))
  }

  /** However many stamps a message comes with, it leaves with exactly one; nothing else in it changes. */
  lemma ExactlyOneStamp(lib: Library, content: Bytes, token: string)
    requires Lawful(lib) && Stamped(lib, content, token).Some?
    ensures var was, now := lib.read(content), lib.read(Stamped(lib, content, token).value);
            && was.Some? && now.Some? && now.value.body == was.value.body
            && Values(now.value.header, HEADER) == [token]
            && forall name :: name != HEADER ==> Values(now.value.header, name) == Values(was.value.header, name)
  {
    var was := lib.read(content).value;
    SetValues(was.header, HEADER, token, HEADER);
    forall name | name != HEADER ensures Values(Set(was.header, HEADER, token), name) == Values(was.header, name) {
      SetValues(was.header, HEADER, token, name);
    }
  }

  /** End to end: what the sending node stores for a recipient passes the receiving gate, with that recipient, exactly
      until 48 hours after the midnight before stamping, if the recipient has no semicolon; and never if it has one. */
  lemma PostageAccepted(lib: Library, content: Bytes, token: string, rcpt: string, t: int, now: int)
    requires Lawful(lib) && MadeFor(lib.sha, token, rcpt, t) && Stamped(lib, content, token).Some?
    ensures var msg := lib.read(Stamped(lib, content, token).value);
            && msg.Some?
            && Accepts(lib, now, Values(msg.value.header, HEADER), [rcpt]) ==
               (';' !in rcpt && now - (t - t % DAY) <= 48 * HOUR)
            && (';' !in rcpt && now - t <= 24 * HOUR ==> Accepts(lib, now, Values(msg.value.header, HEADER), [rcpt]))
  {
    hide Lawful, MadeFor, Stamped, Pays;
    ExactlyOneStamp(lib, content, token);
    MadePays(lib, token, rcpt, t, now);
    assert [token][0] == token && [rcpt][0] == rcpt;
  }
}
