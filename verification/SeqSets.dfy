/** IMAP sequence sets: what getIDsFromSeqSet makes of them. */
module SeqSets {
  import opened Wrappers
  import opened Schema
  import opened Ranks

  const TWO32: int := 0x1_0000_0000
  const TOP: int := 0xFFFF_FFFF

  newtype uint32 = x: int | 0 <= x < 0x1_0000_0000

  /** One element of the set; `*` is 0. */
  datatype Range = Range(start: uint32, stop: uint32)

  /** Go's int32(x). */
  function AsInt32(x: int): int {
    var y := x % TWO32;
    if y < 0x8000_0000 then y else y - TWO32
  }

  /** lo, lo+1, ..., hi; nothing if lo > hi. */
  function Span(lo: int, hi: int): (r: seq<int>)
    ensures |r| == if lo <= hi then hi - lo + 1 else 0
    ensures forall k :: 0 <= k < |r| ==> r[k] == lo + k
  {
    seq(if lo <= hi then hi - lo + 1 else 0, k => lo + k)
  }

  function Cast(s: seq<int>): (r: seq<int>)
    ensures |r| == |s| && forall k :: 0 <= k < |s| ==> r[k] == AsInt32(s[k])
  {
    seq(|s|, k requires 0 <= k < |s| => AsInt32(s[k]))
  }

  /** Where a range ends in a mailbox: `*` is uid_next - 1 (as a uint32), in both modes. */
  function StopOf(r: Range, box: Option<Mailbox>): Result<int> {
    if r.stop != 0 then Ok(r.stop as int)
    else if box.None? then Err
    else Ok((box.value.uidNext - 1) % TWO32)
  }

  function Listing(box: Option<Mailbox>): (s: seq<nat>) {
    if box.None? then [] else Sorted(box.value.mail.Keys)
  }

  /** What one range stands for: its UIDs, or the slice of the mailbox's ascending UID list, an error if it reaches
      outside. */
  function Piece(uid: bool, r: Range, box: Option<Mailbox>): Result<seq<int>> {
    var stop := StopOf(r, box);
    if stop.Err? then Err
    else
      var lo, hi := r.start as int, stop.value;
      if uid then Ok(Cast(Span(lo, hi)))
      else if lo > hi then Ok([])
      else if 1 <= lo && hi <= |Listing(box)| then Ok(Cast(Listing(box)[lo - 1..hi]))
      else Err
  }

  /** What a set stands for: its ranges one after the other. */
  function Expand(uid: bool, ranges: seq<Range>, box: Option<Mailbox>): Result<seq<int>> {
    if ranges == [] then Ok([])
    else
      var before := Expand(uid, ranges[..|ranges| - 1], box);
      var last := Piece(uid, ranges[|ranges| - 1], box);
      if before.Err? || last.Err? then Err else Ok(before.value + last.value)
  }

  /** An error in one range is an error of the set. */
  lemma {:induction false} ExpandErr(uid: bool, ranges: seq<Range>, box: Option<Mailbox>, k: nat)
    requires k < |ranges| && Piece(uid, ranges[k], box).Err?
    ensures Expand(uid, ranges, box).Err?
  {
    if k < |ranges| - 1 {
      ExpandErr(uid, ranges[..|ranges| - 1], box, k);
    }
  }

  /** The value of the loop counter after n iterations, in uint32 arithmetic. */
  function Counter(start: uint32, n: nat): int { (start as int + n) % TWO32 }

  /** The loop over a range leaves by its guard exactly when the range does not end at 2^32-1: after that UID the
      counter wraps around to 0. */
  lemma LoopEnds(start: uint32, stop: uint32)
    ensures (exists n: nat :: Counter(start, n) > stop as int) <==> stop as int < TOP
  {
    if stop as int < TOP {
      var n: nat := if start <= stop then stop as int + 1 - start as int else 0;
      assert Counter(start, n) > stop as int;
    }
  }

  // ---- what the sets mean to a client -----------------------------------------------------------------------------

  lemma OneRange(uid: bool, r: Range, box: Option<Mailbox>)
    ensures Expand(uid, [r], box) == Piece(uid, r, box)
  {
    hide Piece;
    assert [r][..0] == [] && [r][0] == r;
    assert Expand(uid, [], box) == Ok([]);
    var p := Piece(uid, r, box);
    if p.Ok? { assert [] + p.value == p.value; }
  }

  /** A set is its parts, one after the other: an error if one of them is, or else what the one and then what the other
      stands for. */
  lemma {:induction false} ExpandParts(uid: bool, a: seq<Range>, b: seq<Range>, box: Option<Mailbox>)
    ensures Expand(uid, a + b, box).Err? <==> Expand(uid, a, box).Err? || Expand(uid, b, box).Err?
    ensures Expand(uid, a + b, box).Ok? ==>
              Expand(uid, a + b, box).value == Expand(uid, a, box).value + Expand(uid, b, box).value
  {
    hide Piece;
    if b == [] {
      assert a + b == a;
    } else {
      assert (a + b)[..|a + b| - 1] == a + b[..|b| - 1];
      ExpandParts(uid, a, b[..|b| - 1], box);
    }
  }

  /** The number u is in the range, from its start to its stop. */
  predicate InRange(r: Range, box: Option<Mailbox>, u: int) {
    StopOf(r, box).Ok? && r.start as int <= u <= StopOf(r, box).value
  }

  /** Some range of the set stands for x as a UID. */
  ghost predicate NamedUid(ranges: seq<Range>, box: Option<Mailbox>, x: int) {
    exists k, u :: 0 <= k < |ranges| && InRange(ranges[k], box, u) && x == AsInt32(u)
  }

  /** Some range of the set has the sequence number of message x. */
  ghost predicate NamedNumber(ranges: seq<Range>, mb: Mailbox, x: int) {
    exists k, q: nat :: 0 <= k < |ranges| && InRange(ranges[k], Some(mb), q) && HasNumber(mb, x, q)
  }

  /** As UIDs, a set of any ranges is refused only for a `*` without a mailbox, and stands for the UIDs from the start
      to the stop of each of its ranges, and for no others. */
  lemma {:induction false} UidSet(ranges: seq<Range>, box: Option<Mailbox>)
    ensures Expand(true, ranges, box).Err? <==> box.None? && exists k :: 0 <= k < |ranges| && ranges[k].stop == 0
    ensures Expand(true, ranges, box).Ok? ==>
              forall x :: x in Expand(true, ranges, box).value <==> NamedUid(ranges, box, x)
  {
    if ranges != [] {
      var p, last := ranges[..|ranges| - 1], ranges[|ranges| - 1];
      UidSet(p, box);
      hide Piece, InRange, AsInt32;
      UidPiece(last, box);
      forall x ensures NamedUid(ranges, box, x) <==> NamedUid(p, box, x) || NamedUid([last], box, x) {
        NamedUidLast(ranges, box, x);
      }
    }
  }

  lemma NamedUidLast(ranges: seq<Range>, box: Option<Mailbox>, x: int)
    requires ranges != []
    ensures NamedUid(ranges, box, x)
       <==> NamedUid(ranges[..|ranges| - 1], box, x) || NamedUid([ranges[|ranges| - 1]], box, x)
  {
    hide InRange, AsInt32;
    var p, q := ranges[..|ranges| - 1], [ranges[|ranges| - 1]];
    if k, u :| 0 <= k < |ranges| && InRange(ranges[k], box, u) && x == AsInt32(u) {
      if k < |p| { assert InRange(p[k], box, u); } else { assert InRange(q[0], box, u); }
    }
    if k, u :| 0 <= k < |p| && InRange(p[k], box, u) && x == AsInt32(u) { assert InRange(ranges[k], box, u); }
    if k, u :| 0 <= k < |q| && InRange(q[k], box, u) && x == AsInt32(u) { assert InRange(ranges[|p|], box, u); }
  }

  lemma UidPiece(r: Range, box: Option<Mailbox>)
    ensures Piece(true, r, box).Err? <==> box.None? && r.stop == 0
    ensures Piece(true, r, box).Ok? ==>
              forall x :: x in Piece(true, r, box).value <==> NamedUid([r], box, x)
  {
    hide AsInt32;
    if Piece(true, r, box).Ok? {
      var lo, hi := r.start as int, StopOf(r, box).value;
      forall x ensures x in Cast(Span(lo, hi)) <==> NamedUid([r], box, x) {
        if x in Cast(Span(lo, hi)) {
          var k :| 0 <= k < |Cast(Span(lo, hi))| && Cast(Span(lo, hi))[k] == x;
          assert InRange([r][0], box, lo + k) && x == AsInt32(lo + k);
        }
        if k, u :| 0 <= k < |[r]| && InRange([r][k], box, u) && x == AsInt32(u) {
          assert Cast(Span(lo, hi))[u - lo] == x;
        }
      }
    }
  }

  /** In particular `i:j` stands for i, i+1, ..., j as int32. */
  lemma UidRange(i: uint32, j: uint32, box: Option<Mailbox>, k: nat)
    requires j != 0 && i as int + k <= j as int
    ensures var r := Expand(true, [Range(i, j)], box);
            && r.Ok? && |r.value| == j as int - i as int + 1
            && r.value[k] == if i as int + k < 0x8000_0000 then i as int + k else i as int + k - 0x1_0000_0000
  {
    OneRange(true, Range(i, j), box);
    hide Expand, Cast, Span, Piece;
    ExplicitPiece(i, j, box);
    Wrapped(i as int + k);
    hide *;
  }

  lemma ExplicitPiece(i: uint32, j: uint32, box: Option<Mailbox>)
    requires j != 0
    ensures Piece(true, Range(i, j), box) == Ok(Cast(Span(i as int, j as int)))
  {}

  /** Numbers from 2^31 on come out negative. */
  lemma Wrapped(x: int)
    requires 0 <= x < TWO32
    ensures AsInt32(x) == if x < 0x8000_0000 then x else x - 0x1_0000_0000
  {}

  /** As sequence numbers, a set of any ranges is accepted exactly when each is empty or within the mailbox, and then
      stands for the messages that have the sequence numbers from the start to the stop of each. */
  lemma {:induction false} SequenceSet(ranges: seq<Range>, mb: Mailbox)
    ensures Expand(false, ranges, Some(mb)).Ok? <==>
            forall k :: 0 <= k < |ranges| ==> WithinBox(ranges[k], mb)
    ensures Expand(false, ranges, Some(mb)).Ok? ==>
              forall x :: x in Expand(false, ranges, Some(mb)).value <==> NamedNumber(ranges, mb, x)
  {
    if ranges != [] {
      var p, last := ranges[..|ranges| - 1], ranges[|ranges| - 1];
      SequenceSet(p, mb);
      hide Piece, InRange, HasNumber, WithinBox;
      SequencePiece(last, mb);
      forall x ensures NamedNumber(ranges, mb, x) <==> NamedNumber(p, mb, x) || NamedNumber([last], mb, x) {
        NamedNumberLast(ranges, mb, x);
      }
    }
  }

  predicate WithinBox(r: Range, mb: Mailbox) {
    var stop := StopOf(r, Some(mb)).value;
    r.start as int > stop || (1 <= r.start && stop <= |mb.mail.Keys|)
  }

  lemma NamedNumberLast(ranges: seq<Range>, mb: Mailbox, x: int)
    requires ranges != []
    ensures NamedNumber(ranges, mb, x)
       <==> NamedNumber(ranges[..|ranges| - 1], mb, x) || NamedNumber([ranges[|ranges| - 1]], mb, x)
  {
    hide InRange, HasNumber;
    var p, l := ranges[..|ranges| - 1], [ranges[|ranges| - 1]];
    if k, q: nat :| 0 <= k < |ranges| && InRange(ranges[k], Some(mb), q) && HasNumber(mb, x, q) {
      if k < |p| { assert InRange(p[k], Some(mb), q); } else { assert InRange(l[0], Some(mb), q); }
    }
    if k, q: nat :| 0 <= k < |p| && InRange(p[k], Some(mb), q) && HasNumber(mb, x, q) {
      assert InRange(ranges[k], Some(mb), q);
    }
    if k, q: nat :| 0 <= k < |l| && InRange(l[k], Some(mb), q) && HasNumber(mb, x, q) {
      assert InRange(ranges[|p|], Some(mb), q);
    }
  }

  lemma SequencePiece(r: Range, mb: Mailbox)
    ensures Piece(false, r, Some(mb)).Ok? <==> WithinBox(r, mb)
    ensures Piece(false, r, Some(mb)).Ok? ==>
              forall x :: x in Piece(false, r, Some(mb)).value <==> NamedNumber([r], mb, x)
  {
    PieceIs(r, mb);
    hide Piece, Sorted, Rank, HasNumber, Cast, WithinBox, NamedNumber;
    var lo, hi := r.start as int, StopOf(r, Some(mb)).value;
    if Piece(false, r, Some(mb)).Ok? {
      forall x ensures x in Piece(false, r, Some(mb)).value <==> NamedNumber([r], mb, x) {
        if lo > hi { NoneNamed(r, mb, x); } else { SliceNamed(r, mb, x); }
      }
    }
  }

  lemma PieceIs(r: Range, mb: Mailbox)
    ensures var lo, hi := r.start as int, StopOf(r, Some(mb)).value;
            && (Piece(false, r, Some(mb)).Ok? <==> WithinBox(r, mb))
            && (lo > hi ==> Piece(false, r, Some(mb)) == Ok([]))
            && (lo <= hi && WithinBox(r, mb) ==>
                  && 1 <= lo && hi <= |Sorted(mb.mail.Keys)|
                  && Piece(false, r, Some(mb)) == Ok(Cast(Sorted(mb.mail.Keys)[lo - 1..hi])))
  {
    hide Cast;
  }

  lemma NoneNamed(r: Range, mb: Mailbox, x: int)
    requires r.start as int > StopOf(r, Some(mb)).value
    ensures !NamedNumber([r], mb, x)
  {
    hide HasNumber;
  }

  lemma SliceNamed(r: Range, mb: Mailbox, x: int)
    requires var lo, hi := r.start as int, StopOf(r, Some(mb)).value; 1 <= lo <= hi <= |Sorted(mb.mail.Keys)|
    ensures x in Cast(Sorted(mb.mail.Keys)[r.start as int - 1..StopOf(r, Some(mb)).value]) <==> NamedNumber([r], mb, x)
  {
    hide Sorted, Rank, HasNumber;
    var lo, hi := r.start as int, StopOf(r, Some(mb)).value;
    SliceRanks(mb, lo, hi);
    var s := Cast(Sorted(mb.mail.Keys)[lo - 1..hi]);
    hide Cast;
    if x in s {
      var k :| 0 <= k < |s| && s[k] == x;
      assert InRange([r][0], Some(mb), lo + k) && HasNumber(mb, x, lo + k);
    }
    if k, q: nat :| 0 <= k < |[r]| && InRange([r][k], Some(mb), q) && HasNumber(mb, x, q) {
      OneNumber(mb, s[q - lo], x, q);
    }
  }

  /** There is one message with a given sequence number. */
  lemma OneNumber(mb: Mailbox, x: int, y: int, q: nat)
    requires HasNumber(mb, x, q) && HasNumber(mb, y, q)
    ensures x == y
  {
    hide AsInt32, Rank, Sorted, Ascending, Members;
    var u :| u in mb.mail && x == AsInt32(u) && Rank(mb.mail.Keys, u) == q;
    var v :| v in mb.mail && y == AsInt32(v) && Rank(mb.mail.Keys, v) == q;
    RankIsPosition(mb.mail.Keys, u);
    RankIsPosition(mb.mail.Keys, v);
  }

  /** As UIDs, `n:*` stands for n, n+1, ..., uid_next-1 (cast to int32), which covers every message with a UID of at
      least n. (RFC 3501 reads `*` as the largest UID in use; the two differ in UIDs without a message.) */
  lemma UidStarCovers(n: uint32, mb: Mailbox)
    requires Numbered(mb) && mb.uidNext <= TWO32
    ensures var r := Expand(true, [Range(n, 0)], Some(mb));
            && r.Ok?
            && (forall u :: u in mb.mail && u >= n as int ==> AsInt32(u) in r.value)
            && (mb.uidNext <= 0x8000_0000 ==> forall u :: u in r.value <==> n as int <= u < mb.uidNext)
  {
    OneRange(true, Range(n, 0), Some(mb));
    var lo, hi := n as int, mb.uidNext - 1;
    assert StopOf(Range(n, 0), Some(mb)) == Ok(hi);
    CastSpan(lo, hi);
    hide Span, Cast, Expand, AsInt32;
  }

  lemma CastSpan(lo: int, hi: int)
    requires 0 <= lo
    ensures forall u :: lo <= u <= hi ==> AsInt32(u) in Cast(Span(lo, hi))
    ensures hi < 0x8000_0000 ==> forall u :: u in Cast(Span(lo, hi)) <==> lo <= u <= hi
  {
    forall u | lo <= u <= hi ensures AsInt32(u) in Cast(Span(lo, hi)) {
      assert Cast(Span(lo, hi))[u - lo] == AsInt32(u);
    }
    if hi < 0x8000_0000 {
      assert Cast(Span(lo, hi)) == Span(lo, hi);
      forall u | lo <= u <= hi ensures u in Span(lo, hi) {
        assert Span(lo, hi)[u - lo] == u;
      }
    }
  }

  /** x is the UID, as an int32, of the message with sequence number q. */
  ghost predicate HasNumber(mb: Mailbox, x: int, q: nat) {
    exists u :: u in mb.mail && x == AsInt32(u) && Rank(mb.mail.Keys, u) == q
  }

  /** As sequence numbers, `i:j` within the mailbox stands for the messages with exactly those sequence numbers, in
      order. */
  lemma SequenceSlice(i: uint32, j: uint32, mb: Mailbox)
    requires 1 <= i as int <= j as int <= |mb.mail.Keys|
    ensures var r := Expand(false, [Range(i, j)], Some(mb));
            && r.Ok? && |r.value| == j as int - i as int + 1
            && (forall k :: 0 <= k < |r.value| ==> HasNumber(mb, r.value[k], i as int + k))
  {
    hide Expand, HasNumber;
    OneRange(false, Range(i, j), Some(mb));
    SliceRanks(mb, i as int, j as int);
  }

  lemma SliceRanks(mb: Mailbox, i: nat, j: nat)
    requires 1 <= i <= j <= |Sorted(mb.mail.Keys)|
    ensures var s := Cast(Sorted(mb.mail.Keys)[i - 1..j]); forall k :: 0 <= k < |s| ==> HasNumber(mb, s[k], i + k)
  {
    hide Sorted, Rank, AsInt32;
    var list := Sorted(mb.mail.Keys);
    var s := Cast(list[i - 1..j]);
    forall k | 0 <= k < |s| ensures HasNumber(mb, s[k], i + k) {
      PositionHasRank(mb.mail.Keys, i + k);
      assert list[i - 1..j][k] == list[i + k - 1];
    }
  }

  /** Sequence numbers past the end (or 0) are refused. */
  lemma SequenceOutside(i: uint32, j: uint32, mb: Mailbox)
    requires i <= j && j != 0
    ensures Expand(false, [Range(i, j)], Some(mb)).Err? <==> i == 0 || j as int > |mb.mail.Keys|
  {
    assert [Range(i, j)][..0] == [];
  }

  lemma {:induction false} AtMost(s: set<nat>, n: nat)
    requires forall u :: u in s ==> 1 <= u <= n
    ensures |s| <= n && (|s| == n <==> forall u :: 1 <= u <= n ==> u in s)
  {
    if n == 0 {
      assert s == {};
    } else {
      AtMost(s - {n}, n - 1);
      if n !in s {
        assert s - {n} == s;
      } else {
        assert forall u :: 1 <= u <= n - 1 ==> (u in s <==> u in s - {n});
      }
    }
  }

  /** As sequence numbers, `n:*` ends at uid_next-1 and not at the last message: it is accepted exactly when it is
      empty or no UID of the mailbox is missing. */
  lemma SequenceStar(n: uint32, mb: Mailbox)
    requires Numbered(mb) && mb.uidNext <= TWO32
    ensures Expand(false, [Range(n, 0)], Some(mb)).Ok? <==>
              n as int >= mb.uidNext || (n != 0 && forall u :: 1 <= u < mb.uidNext ==> u in mb.mail)
  {
    hide Expand, Sorted, Cast, AsInt32;
    OneRange(false, Range(n, 0), Some(mb));
    StarStop(n, mb);
    ListingLength(mb);
    hide Listing;
    AtMost(mb.mail.Keys, mb.uidNext - 1);
  }

  lemma StarStop(n: uint32, mb: Mailbox)
    requires 1 <= mb.uidNext <= TWO32
    ensures StopOf(Range(n, 0), Some(mb)) == Ok(mb.uidNext - 1)
  {}

  lemma ListingLength(mb: Mailbox)
    ensures |Listing(Some(mb))| == |mb.mail.Keys|
  {}
}
