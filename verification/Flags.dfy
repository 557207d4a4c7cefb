/** The flags column: space-separated IMAP flags, decoded by substring search and tested with LIKE. */
module Flags {
  import opened Wrappers
  import opened TextSearch

  /** The four flags of types.Mail. */
  datatype Flags = Flags(seen: bool, answered: bool, flagged: bool, deleted: bool)

  const NO_FLAGS := Flags(false, false, false, false)

  const SEEN := "\\Seen"
  const ANSWERED := "\\Answered"
  const FLAGGED := "\\Flagged"
  const DELETED := "\\Deleted"

  /** The list MailUpdateFlags builds. */
  function Tokens(f: Flags): seq<string> {
    (if f.seen then [SEEN] else []) + (if f.answered then [ANSWERED] else [])
    + (if f.flagged then [FLAGGED] else []) + (if f.deleted then [DELETED] else [])
  }

  /** What MailUpdateFlags stores. */
  function Encode(f: Flags): string { Join(Tokens(f)) }

  /** What MailSelect reads back; a NULL column reads as the empty string. */
  function Decode(column: Option<string>): Flags {
    var s := if column.Some? then column.value else "";
    Flags(Contains(s, SEEN), Contains(s, ANSWERED), Contains(s, FLAGGED), Contains(s, DELETED))
  }

  /** The columns the program writes: NULL, or the encoding of some flags. */
  ghost predicate WellFormed(column: Option<string>) {
    column.Some? ==> exists f :: column.value == Encode(f)
  }

  /** The condition of MailExpunge, `m.flags LIKE '%\\Deleted%'`; on NULL it is not true. */
  predicate Expungeable(column: Option<string>) {
    column.Some? && Like(column.value, SqlPattern("Deleted"))
  }

  /** The condition of MailUnseen, `m.flags IS NULL OR m.flags NOT LIKE '%\\Seen%'`. */
  predicate Unseen(column: Option<string>) {
    column.None? || !Like(column.value, SqlPattern("Seen"))
  }

  lemma TokenPairs(t: string, n: string)
    requires t in [SEEN, ANSWERED, FLAGGED, DELETED] && n in [SEEN, ANSWERED, FLAGGED, DELETED]
    ensures Contains(t, n) <==> t == n
  {
    ContainsInToken(t, n);
    assert n <= t ==> n[1] == t[1];
  }

  /** For each of the four tokens, searching the encoding finds it exactly when its flag is set. */
  lemma EncodeContains(f: Flags, n: string)
    requires n in [SEEN, ANSWERED, FLAGGED, DELETED]
    ensures Contains(Encode(f), n) <==> n in Tokens(f)
  {
    ContainsInJoin(Tokens(f), n);
    forall t | t in Tokens(f) ensures Contains(t, n) <==> t == n {
      TokenPairs(t, n);
    }
  }

  lemma TokenOf(f: Flags)
    ensures SEEN in Tokens(f) <==> f.seen
    ensures ANSWERED in Tokens(f) <==> f.answered
    ensures FLAGGED in Tokens(f) <==> f.flagged
    ensures DELETED in Tokens(f) <==> f.deleted
  {
    assert SEEN[1] == 'S' && ANSWERED[1] == 'A' && FLAGGED[1] == 'F' && DELETED[1] == 'D';
  }

  /** Decoding inverts encoding, for all sixteen subsets; NULL decodes to no flags. */
  lemma RoundTrip(f: Flags)
    ensures Decode(Some(Encode(f))) == f
    ensures Decode(None) == NO_FLAGS
  {
    TokenOf(f);
    EncodeContains(f, SEEN);
    EncodeContains(f, ANSWERED);
    EncodeContains(f, FLAGGED);
    EncodeContains(f, DELETED);
  }

  /** `Seen` and `Deleted` occur in the encoding only as their own flags. */
  lemma WordInEncoding(f: Flags)
    ensures Contains(Encode(f), "Seen") <==> f.seen
    ensures Contains(Encode(f), "Deleted") <==> f.deleted
  {
    TokenOf(f);
    ContainsInJoin(Tokens(f), "Seen");
    ContainsInJoin(Tokens(f), "Deleted");
    forall t | t in Tokens(f) ensures (Contains(t, "Seen") <==> t == SEEN) &&
        (Contains(t, "Deleted") <==> t == DELETED) {
      WordInToken(t);
    }
  }

  lemma WordInToken(t: string)
    requires t in [SEEN, ANSWERED, FLAGGED, DELETED]
    ensures Contains(t, "Seen") <==> t == SEEN
    ensures Contains(t, "Deleted") <==> t == DELETED
  {
    if t == SEEN { assert FoundAt(t, "Seen", 1); } else { NotContained(t, "Seen"); }
    if t == DELETED { assert FoundAt(t, "Deleted", 1); } else { NotContained(t, "Deleted"); }
  }

  /** The LIKE tests look for the bare word, not for the backslash; on every column the program writes they
      nevertheless agree with the decoded bits. */
  lemma LikeAgrees(column: Option<string>)
    requires WellFormed(column)
    ensures Expungeable(column) <==> Decode(column).deleted
    ensures Unseen(column) <==> !Decode(column).seen
  {
    hide Contains, Decode, Encode, Like, SqlPattern;
    if column.Some? {
      var f :| column.value == Encode(f);
      RoundTrip(f);
      WordInEncoding(f);
      LikeIsContains(column.value, "Seen");
      LikeIsContains(column.value, "Deleted");
    } else {
      RoundTrip(NO_FLAGS);
    }
  }

  /** On any column at all, each test agrees with its decoded bit if and only if the bare word only occurs where the
      flag does. */
  lemma LikeAgreesExactly(column: Option<string>)
    ensures var s := if column.Some? then column.value else "";
            && ((Expungeable(column) <==> Decode(column).deleted) <==>
                (Contains(s, "Deleted") ==> Contains(s, DELETED)))
            && ((Unseen(column) <==> !Decode(column).seen) <==> (Contains(s, "Seen") ==> Contains(s, SEEN)))
  {
    var s := if column.Some? then column.value else "";
    ContainsWord(s, "Deleted");
    ContainsWord(s, "Seen");
    hide Contains, Like, SqlPattern;
    LikeIsContains(s, "Seen");
    LikeIsContains(s, "Deleted");
    assert SEEN == "\\" + "Seen" && DELETED == "\\" + "Deleted";
    if column.None? {
      NothingInEmpty("Seen");
      NothingInEmpty("Deleted");
    }
  }

  lemma ContainsWord(s: string, w: string)
    ensures Contains(s, "\\" + w) ==> Contains(s, w)
  {
    var n := "\\" + w;
    if i :| 0 <= i <= |s| && FoundAt(s, n, i) {
      assert s[i + 1..i + 1 + |w|] == s[i..i + |n|][1..];
      assert FoundAt(s, w, i + 1);
    }
  }

  lemma NothingInEmpty(w: string)
    requires w != ""
    ensures !Contains("", w)
  {}

  /** The column a flag called `NotSeen` would make is one on which they do not. */
  lemma LikeDiffersOnForeignColumns()
    ensures !Unseen(Some("\\NotSeen")) && !Decode(Some("\\NotSeen")).seen
  {
    var s := "\\NotSeen";
    assert FoundAt(s, "Seen", 4);
    LikeIsContains(s, "Seen");
    ContainsInToken(s, SEEN);
    assert !(SEEN <= s) by { assert SEEN[1] != s[1]; }
  }
}
