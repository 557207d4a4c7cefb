/** What the IMAP server's loops over messages come to, on the nested view. */
module ImapSpec {
  import opened Flags
  import opened Schema
  import opened Operations
  import opened StoreQueries

  // ---- STORE ------------------------------------------------------------------------------------------------------

  datatype FlagsOp = SetFlags | AddFlags | RemoveFlags

  function Bit(was: bool, op: FlagsOp, named: bool): bool {
    match op
    case SetFlags => named
    case AddFlags => was || named
    case RemoveFlags => was && !named
  }

  /** old + F, old - F, or F; names other than the four flags are ignored. */
  function Updated(f: Flags, op: FlagsOp, names: seq<string>): Flags {
    Flags(Bit(f.seen, op, SEEN in names), Bit(f.answered, op, ANSWERED in names),
          Bit(f.flagged, op, FLAGGED in names), Bit(f.deleted, op, DELETED in names))
  }

  /** The messages among `ids` marked, every other message as it was. */
  function Marked(mail: map<nat, Message>, ids: seq<int>, op: FlagsOp, names: seq<string>): map<nat, Message> {
    map u | u in mail :: if u in ids then mail[u].(flags := Updated(mail[u].flags, op, names)) else mail[u]
  }

  function MarkedWorld(w: World, user: string, name: string, ids: seq<int>, op: FlagsOp, names: seq<string>): World {
    if Has(w, user, name) then
      var mb := w.accounts[user][name]; Put(w, user, name, mb.(mail := Marked(mb.mail, ids, op, names)))
    else w
  }

  /** The position of the first UID without a message. */
  function FirstMissing(mail: map<nat, Message>, ids: seq<int>): (k: nat)
    ensures k <= |ids| && (forall i :: 0 <= i < k ==> ids[i] in mail) && (k < |ids| ==> ids[k] !in mail)
  {
    if ids == [] || ids[0] !in mail then 0 else 1 + FirstMissing(mail, ids[1..])
  }

  /** Marking twice, or a set that names a message twice, is marking once (RFC 3501, section 6.4.6). */
  lemma MarkingIsIdempotent(mail: map<nat, Message>, ids: seq<int>, op: FlagsOp, names: seq<string>)
    ensures Marked(Marked(mail, ids, op, names), ids, op, names) == Marked(mail, ids, op, names)
    ensures Marked(mail, ids + ids, op, names) == Marked(mail, ids, op, names)
  {
    assert forall u :: u in ids + ids <==> u in ids;
  }

  /** One flag: adding keeps it or sets it, removing keeps it or clears it, setting replaces it. */
  predicate FlagRule(was: bool, now: bool, op: FlagsOp, named: bool) {
    && (op == AddFlags ==> (now <==> was || named))
    && (op == RemoveFlags ==> (now <==> was && !named))
    && (op == FlagsOp.SetFlags ==> (now <==> named))
  }

  predicate FlagRules(was: Flags, now: Flags, op: FlagsOp, names: seq<string>) {
    && FlagRule(was.seen, now.seen, op, "\\Seen" in names)
    && FlagRule(was.answered, now.answered, op, "\\Answered" in names)
    && FlagRule(was.flagged, now.flagged, op, "\\Flagged" in names)
    && FlagRule(was.deleted, now.deleted, op, "\\Deleted" in names)
  }

  /** In this folder every message named by `ids` has its four flags by the rule and its body, every other message is as
      it was, and no message or UID came or went. */
  ghost predicate FolderMarked(mb: Mailbox, mb': Mailbox, ids: seq<int>, op: FlagsOp, names: seq<string>) {
    && mb'.uidNext == mb.uidNext && mb'.mail.Keys == mb.mail.Keys
    && forall u :: u in mb.mail ==>
         if u in ids then
           mb'.mail[u].body == mb.mail[u].body && FlagRules(mb.mail[u].flags, mb'.mail[u].flags, op, names)
         else mb'.mail[u] == mb.mail[u]
  }

  /** No other folder, account or alias changed. */
  ghost predicate OnlyFolder(w: World, w': World, user: string, name: string) {
    && w'.aliases == w.aliases && w'.accounts.Keys == w.accounts.Keys
    && (forall a :: a in w.accounts ==> w'.accounts[a].Keys == w.accounts[a].Keys)
    && (forall a, f :: a in w.accounts && f in w.accounts[a] && (a != user || f != name) ==>
          w'.accounts[a][f] == w.accounts[a][f])
  }

  /** What STORE does to the folder, and that it does nothing else. */
  ghost predicate StoreDone(w: World, w': World, user: string, name: string, ids: seq<int>, op: FlagsOp,
                            names: seq<string>)
  {
    OnlyFolder(w, w', user, name)
    && (Has(w, user, name) ==>
          FolderMarked(w.accounts[user][name], w'.accounts[user][name], ids, op, names))
  }

  lemma StoredExactly(w: World, user: string, name: string, ids: seq<int>, op: FlagsOp, names: seq<string>)
    ensures StoreDone(w, MarkedWorld(w, user, name, ids, op, names), user, name, ids, op, names)
  {
    if Has(w, user, name) { MarkedByRule(w.accounts[user][name], ids, op, names); }
    hide FolderMarked, Marked;
  }

  lemma MarkedByRule(mb: Mailbox, ids: seq<int>, op: FlagsOp, names: seq<string>)
    ensures FolderMarked(mb, mb.(mail := Marked(mb.mail, ids, op, names)), ids, op, names)
  {
    forall f: Flags ensures FlagRules(f, Updated(f, op, names), op, names) { UpdatedByRule(f, op, names); }
    hide FlagRules, Updated;
  }

  lemma UpdatedByRule(f: Flags, op: FlagsOp, names: seq<string>)
    ensures FlagRules(f, Updated(f, op, names), op, names)
  {}

  lemma NothingMarked(w: World, user: string, name: string, op: FlagsOp, names: seq<string>)
    ensures MarkedWorld(w, user, name, [], op, names) == w
  {
    if Has(w, user, name) {
      var mb := w.accounts[user][name];
      assert Marked(mb.mail, [], op, names) == mb.mail;
      assert w.accounts[user][name := mb] == w.accounts[user];
      assert w.accounts[user := w.accounts[user]] == w.accounts;
    }
  }

  lemma MarkedIn(w: World, user: string, name: string, ids: seq<int>, op: FlagsOp, names: seq<string>)
    ensures MailIn(MarkedWorld(w, user, name, ids, op, names), user, name) ==
            Marked(MailIn(w, user, name), ids, op, names)
  {}

  /** Marking one more message, whose flags are read from the state reached so far. */
  lemma MarkStep(w: World, user: string, name: string, ids: seq<int>, id: int, op: FlagsOp, names: seq<string>,
                 f: Flags)
    requires var mail := MailIn(MarkedWorld(w, user, name, ids, op, names), user, name);
             id in mail ==> f == Updated(mail[id].flags, op, names)
    ensures Spec(MarkedWorld(w, user, name, ids, op, names), MailUpdateFlags(user, name, id, f)).0
         == MarkedWorld(w, user, name, ids + [id], op, names)
  {
    MarkedIn(w, user, name, ids, op, names);
    var w1 := MarkedWorld(w, user, name, ids, op, names);
    if Has(w, user, name) {
      var mb := w.accounts[user][name];
      MarkOne(mb.mail, ids, id, op, names, f);
      var mail1 := Marked(mb.mail, ids, op, names);
      if id in mail1 {
        assert w1.accounts[user] == w.accounts[user][name := mb.(mail := mail1)];
        PutTwice(w, user, name, mb.(mail := mail1), mb.(mail := mail1[id := mail1[id].(flags := f)]));
      }
    }
  }

  lemma PutTwice(w: World, user: string, name: string, a: Mailbox, b: Mailbox)
    requires user in w.accounts
    ensures Put(Put(w, user, name, a), user, name, b) == Put(w, user, name, b)
  {
    assert w.accounts[user][name := a][name := b] == w.accounts[user][name := b];
    assert w.accounts[user := w.accounts[user][name := a]][user := w.accounts[user][name := b]]
        == w.accounts[user := w.accounts[user][name := b]];
  }

  lemma MarkOne(mail: map<nat, Message>, ids: seq<int>, id: int, op: FlagsOp, names: seq<string>, f: Flags)
    requires var mail1 := Marked(mail, ids, op, names); id in mail1 ==> f == Updated(mail1[id].flags, op, names)
    ensures var mail1 := Marked(mail, ids, op, names);
            Marked(mail, ids + [id], op, names) == if id in mail1 then mail1[id := mail1[id].(flags := f)] else mail1
  {
    assert forall u :: u in ids + [id] <==> u in ids || u == id;
  }

  predicate AllIn(mail: map<nat, Message>, ids: seq<int>) { forall k :: 0 <= k < |ids| ==> ids[k] in mail }

  function At(mail: map<nat, Message>, id: int): Message
    requires id in mail
  {
    mail[id]
  }

  // ---- COPY -------------------------------------------------------------------------------------------------------

  /** One message: read it, append its body to `dest`, then write its flags under the new UID, in the folder copied
      from. */
  function CopyOne(w: World, user: string, src: string, dest: string, id: int): (World, Outcome) {
    var mail := MailIn(w, user, src);
    if id !in mail then (w, Failed)
    else
      var (w1, r) := SpecAppend(w, user, dest, Message(NO_FLAGS, mail[id].body));
      if r.Failed? then (w1, Failed) else Spec(w1, MailUpdateFlags(user, src, r.uid, mail[id].flags))
  }

  /** One after the other, up to the first error. */
  function CopyAll(w: World, user: string, src: string, dest: string, ids: seq<int>): (World, Outcome) {
    if ids == [] then (w, OK)
    else
      var before := CopyAll(w, user, src, dest, ids[..|ids| - 1]);
      if before.1.Failed? then before else CopyOne(before.0, user, src, dest, ids[|ids| - 1])
  }

  function Reflagged(mb: Mailbox, u: nat, f: Flags): Mailbox {
    if u in mb.mail then mb.(mail := mb.mail[u := mb.mail[u].(flags := f)]) else mb
  }

  /** The two folders after copying messages `ids` of `s` to the other folder `d`. */
  function CopyInto(s: Mailbox, d: Mailbox, ids: seq<int>): (r: (Mailbox, Mailbox))
    requires AllIn(s.mail, ids)
    ensures r.0.mail.Keys == s.mail.Keys
  {
    if ids == [] then (s, d)
    else
      var (s1, d1) := CopyInto(s, d, ids[..|ids| - 1]);
      var m := At(s1.mail, ids[|ids| - 1]);
      (Reflagged(s1, d1.uidNext, m.flags), Appended(d1, Message(NO_FLAGS, m.body)))
  }

  function PutBoth(w: World, user: string, src: string, s: Mailbox, dest: string, d: Mailbox): World
    requires user in w.accounts
  {
    w.(accounts := w.accounts[user := w.accounts[user][src := s][dest := d]])
  }

  lemma CopyOneApart(w: World, user: string, src: string, s: Mailbox, dest: string, d: Mailbox, id: int)
    requires user in w.accounts && src != dest && id in s.mail
    ensures CopyOne(PutBoth(w, user, src, s, dest, d), user, src, dest, id)
         == (PutBoth(w, user, src, Reflagged(s, d.uidNext, s.mail[id].flags), dest,
                     Appended(d, Message(NO_FLAGS, s.mail[id].body))), OK)
  {
    var w1 := PutBoth(w, user, src, s, dest, d);
    var d' := Appended(d, Message(NO_FLAGS, s.mail[id].body));
    var acc := w.accounts[user];
    assert acc[src := s][dest := d][dest := d'] == acc[src := s][dest := d'];
    assert Put(w1, user, dest, d') == PutBoth(w, user, src, s, dest, d');
    if d.uidNext in s.mail {
      var s' := Reflagged(s, d.uidNext, s.mail[id].flags);
      assert acc[src := s][dest := d'][src := s'] == acc[src := s'][dest := d'];
      assert Put(PutBoth(w, user, src, s, dest, d'), user, src, s') == PutBoth(w, user, src, s', dest, d');
    }
  }

  /** Copying to another folder gets as far as the first UID without a message, and comes to CopyInto. */
  lemma {:induction false} CopyAllApart(w: World, user: string, src: string, dest: string, ids: seq<int>)
    requires Has(w, user, src) && Has(w, user, dest) && src != dest
    ensures var s, d := w.accounts[user][src], w.accounts[user][dest];
            var k := FirstMissing(s.mail, ids);
            var r := CopyInto(s, d, ids[..k]);
            CopyAll(w, user, src, dest, ids) ==
                (PutBoth(w, user, src, r.0, dest, r.1), if k == |ids| then OK else Failed)
  {
    var s, d := w.accounts[user][src], w.accounts[user][dest];
    if ids == [] {
      PutBothSame(w, user, src, dest);
    } else {
      var p, id := ids[..|ids| - 1], ids[|ids| - 1];
      CopyAllApart(w, user, src, dest, p);
      MissingPrefix(s.mail, ids);
      hide FirstMissing, PutBoth, CopyOne, Reflagged, Appended;
      var k := FirstMissing(s.mail, p);
      if k == |p| {
        var r := CopyInto(s, d, p);
        assert p[..k] == p;
        if id in s.mail {
          CopyOneApart(w, user, src, r.0, dest, r.1, id);
          assert ids[..|ids|] == ids;
        } else {
          CopyOneMissing(w, user, src, r.0, dest, r.1, id);
          assert ids[..k] == p;
        }
      } else {
        assert ids[..k] == p[..k];
      }
    }
  }

  lemma PutBothSame(w: World, user: string, src: string, dest: string)
    requires Has(w, user, src) && Has(w, user, dest)
    ensures PutBoth(w, user, src, w.accounts[user][src], dest, w.accounts[user][dest]) == w
  {
    var acc := w.accounts[user];
    assert acc[src := acc[src]][dest := acc[dest]] == acc;
    assert w.accounts[user := acc] == w.accounts;
  }

  lemma CopyOneMissing(w: World, user: string, src: string, s: Mailbox, dest: string, d: Mailbox, id: int)
    requires user in w.accounts && src != dest && id !in s.mail
    ensures CopyOne(PutBoth(w, user, src, s, dest, d), user, src, dest, id) ==
            (PutBoth(w, user, src, s, dest, d), Failed)
  {}

  lemma {:induction false} MissingPrefix(mail: map<nat, Message>, ids: seq<int>)
    requires ids != []
    ensures var p := ids[..|ids| - 1]; var k := FirstMissing(mail, p);
            FirstMissing(mail, ids) == if k == |p| && ids[|p|] in mail then |ids| else k
  {
    var p := ids[..|ids| - 1];
    if p != [] && ids[0] in mail {
      MissingPrefix(mail, ids[1..]);
      assert ids[1..][..|ids| - 2] == p[1..];
    }
  }

  /** Copying keeps what is there: bodies and UIDs in both folders, and the messages of the destination altogether.
      The copies get consecutive UIDs in the order of the set. */
  lemma {:induction false} CopiesAppend(s: Mailbox, d: Mailbox, ids: seq<int>)
    requires Numbered(d) && AllIn(s.mail, ids)
    ensures var (s', d') := CopyInto(s, d, ids);
            && s'.uidNext == s.uidNext && (forall u :: u in s.mail ==> s'.mail[u].body == s.mail[u].body)
            && d'.uidNext == d.uidNext + |ids|
            && (forall u :: u in d'.mail <==> u in d.mail || d.uidNext <= u < d'.uidNext)
            && (forall u :: u in d.mail ==> d'.mail[u] == d.mail[u])
            && (forall k :: 0 <= k < |ids| ==> d'.mail[d.uidNext + k] == Message(NO_FLAGS, At(s.mail, ids[k]).body))
  {
    if ids != [] {
      var p := ids[..|ids| - 1];
      CopiesAppend(s, d, p);
      assert forall k :: 0 <= k < |p| ==> ids[k] == p[k];
    }
  }

  /** The flags the messages of the set have when their turn comes: their own, or, for a message that is itself under
      the UID of an earlier copy, those written there with that copy. */
  function FlagsRead(s: Mailbox, next: nat, ids: seq<int>): (read: seq<Flags>)
    requires AllIn(s.mail, ids)
    ensures |read| == |ids|
  {
    if ids == [] then []
    else
      var n := |ids| - 1;
      var before := FlagsRead(s, next, ids[..n]);
      before + [ReadNow(s, next, before, ids[n])]
  }

  function ReadNow(s: Mailbox, next: nat, read: seq<Flags>, id: int): Flags
    requires id in s.mail
  {
    if next <= id < next + |read| then read[id - next] else At(s.mail, id).flags
  }

  lemma {:induction false} ReadInTurn(s: Mailbox, next: nat, ids: seq<int>, k: nat)
    requires k < |ids| && AllIn(s.mail, ids)
    ensures FlagsRead(s, next, ids)[k] == ReadNow(s, next, FlagsRead(s, next, ids)[..k], ids[k])
  {
    var n := |ids| - 1;
    if k < n {
      ReadInTurn(s, next, ids[..n], k);
      assert FlagsRead(s, next, ids)[..k] == FlagsRead(s, next, ids[..n])[..k];
    } else {
      assert FlagsRead(s, next, ids)[..n] == FlagsRead(s, next, ids[..n]);
    }
  }

  /** A folder's mail after these flags have been written to the messages from UID `next` on, where there are any. */
  function Touched(s: Mailbox, next: nat, read: seq<Flags>): map<nat, Message> {
    map u | u in s.mail :: if next <= u < next + |read| then s.mail[u].(flags := read[u - next]) else s.mail[u]
  }

  /** What a copy to another folder does to the folder copied from: the message whose UID is that of the k-th copy, if
      there is one, gets the flags of the k-th message of the set; nothing else changes. */
  lemma {:induction false} CopiesTouch(s: Mailbox, d: Mailbox, ids: seq<int>)
    requires Numbered(d) && AllIn(s.mail, ids)
    ensures CopyInto(s, d, ids).0 == s.(mail := Touched(s, d.uidNext, FlagsRead(s, d.uidNext, ids)))
  {
    if ids == [] {
      assert Touched(s, d.uidNext, []) == s.mail;
    } else {
      var p, n := ids[..|ids| - 1], |ids| - 1;
      assert AllIn(s.mail, p);
      CopiesTouch(s, d, p);
      LastCopied(s, d, ids);
      hide CopyInto, Numbered, Touched;
      var before := FlagsRead(s, d.uidNext, p);
      TouchedMore(s, d.uidNext, before, ids[n]);
    }
  }

  lemma LastCopied(s: Mailbox, d: Mailbox, ids: seq<int>)
    requires Numbered(d) && AllIn(s.mail, ids) && ids != []
    ensures var p, n := ids[..|ids| - 1], |ids| - 1;
            && AllIn(s.mail, p) && ids[n] in CopyInto(s, d, p).0.mail
            && CopyInto(s, d, ids).0
            == Reflagged(CopyInto(s, d, p).0, d.uidNext + n, At(CopyInto(s, d, p).0.mail, ids[n]).flags)
  {
    CopiesAppend(s, d, ids[..|ids| - 1]);
  }

  /** One more message is read and its flags are written. */
  lemma TouchedMore(s: Mailbox, next: nat, read: seq<Flags>, id: int)
    requires id in s.mail
    ensures id in Touched(s, next, read) && At(Touched(s, next, read), id).flags == ReadNow(s, next, read, id)
    ensures var f := ReadNow(s, next, read, id);
            s.(mail := Touched(s, next, read + [f])) == Reflagged(s.(mail := Touched(s, next, read)), next + |read|, f)
  {
    var f, was := ReadNow(s, next, read, id), Touched(s, next, read);
    hide ReadNow;
    var now := Touched(s, next, read + [f]);
    assert now == if next + |read| in was then was[next + |read| := was[next + |read|].(flags := f)] else was;
  }

  /** The messages under the UIDs of the copies have the flags of the copies' originals already. */
  predicate FlagsAgree(s: Mailbox, next: nat, ids: seq<int>)
    requires AllIn(s.mail, ids)
  {
    forall k :: 0 <= k < |ids| && next + k in s.mail ==> s.mail[next + k].flags == At(s.mail, ids[k]).flags
  }

  /** A copy to another folder leaves the folder copied from as it was if and only if they do. */
  lemma CopyLeavesSource(s: Mailbox, d: Mailbox, ids: seq<int>)
    requires Numbered(d) && AllIn(s.mail, ids)
    ensures CopyInto(s, d, ids).0 == s <==> FlagsAgree(s, d.uidNext, ids)
  {
    CopiesTouch(s, d, ids);
    hide CopyInto, FlagsAgree, Numbered, FlagsRead, Touched;
    var read := FlagsRead(s, d.uidNext, ids);
    UntouchedWhen(s, d.uidNext, read);
    if Touched(s, d.uidNext, read) == s.mail { UnchangedAgrees(s, d.uidNext, ids); }
    if FlagsAgree(s, d.uidNext, ids) { AgreeingUnchanged(s, d.uidNext, ids); }
  }

  predicate Written(s: Mailbox, next: nat, read: seq<Flags>) {
    forall k :: 0 <= k < |read| && next + k in s.mail ==> s.mail[next + k].flags == read[k]
  }

  lemma UntouchedWhen(s: Mailbox, next: nat, read: seq<Flags>)
    ensures Touched(s, next, read) == s.mail <==> Written(s, next, read)
  {
    var now := Touched(s, next, read);
    if now == s.mail {
      forall k | 0 <= k < |read| && next + k in s.mail ensures s.mail[next + k].flags == read[k] {
        assert now[next + k] == s.mail[next + k];
      }
    }
    if Written(s, next, read) {
      forall u | u in s.mail ensures now[u] == s.mail[u] {
        if next <= u < next + |read| { assert next + (u - next) in s.mail; }
      }
    }
  }

  lemma UnchangedAgrees(s: Mailbox, next: nat, ids: seq<int>)
    requires AllIn(s.mail, ids) && Written(s, next, FlagsRead(s, next, ids))
    ensures FlagsAgree(s, next, ids)
  {
    hide FlagsRead;
    var read := FlagsRead(s, next, ids);
    forall k | 0 <= k < |ids| && next + k in s.mail ensures s.mail[next + k].flags == At(s.mail, ids[k]).flags {
      ReadInTurn(s, next, ids, k);
      if next <= ids[k] < next + k { assert next + (ids[k] - next) in s.mail; }
    }
  }

  lemma AgreeingUnchanged(s: Mailbox, next: nat, ids: seq<int>)
    requires AllIn(s.mail, ids) && FlagsAgree(s, next, ids)
    ensures Written(s, next, FlagsRead(s, next, ids))
  {
    hide FlagsRead;
    forall k | 0 <= k < |ids| && next + k in s.mail ensures s.mail[next + k].flags == FlagsRead(s, next, ids)[k] {
      OwnFlags(s, next, ids, k);
    }
  }

  lemma {:induction false} OwnFlags(s: Mailbox, next: nat, ids: seq<int>, k: nat)
    requires k < |ids| && AllIn(s.mail, ids) && FlagsAgree(s, next, ids)
    ensures FlagsRead(s, next, ids)[k] == At(s.mail, ids[k]).flags
    decreases k
  {
    hide FlagsRead;
    ReadInTurn(s, next, ids, k);
    if next <= ids[k] < next + k {
      OwnFlags(s, next, ids, ids[k] - next);
      assert next + (ids[k] - next) in s.mail;
    }
  }

  /** Flags do not survive a copy to another folder: every copy equals its original exactly when no original had flags.
      (RFC 3501, section 6.4.7, asks for them to be preserved.) */
  lemma CopyDropsFlags(s: Mailbox, d: Mailbox, ids: seq<int>)
    requires Numbered(d) && AllIn(s.mail, ids)
    ensures (forall k :: 0 <= k < |ids| ==>
               d.uidNext + k in CopyInto(s, d, ids).1.mail &&
                   CopyInto(s, d, ids).1.mail[d.uidNext + k] == At(s.mail, ids[k]))
         <==> (forall k :: 0 <= k < |ids| ==> At(s.mail, ids[k]).flags == NO_FLAGS)
  {
    CopiesAppend(s, d, ids);
    hide CopyInto;
    var d' := CopyInto(s, d, ids).1;
    if !(forall k :: 0 <= k < |ids| ==> At(s.mail, ids[k]).flags == NO_FLAGS) {
      var k :| 0 <= k < |ids| && At(s.mail, ids[k]).flags != NO_FLAGS;
      assert d'.mail[d.uidNext + k] != At(s.mail, ids[k]);
    }
  }

  /** Both happen: copying message 2, flagged, to an empty folder flags message 1 of the folder copied from, and not
      the copy. */
  lemma CopyExample()
    ensures var flagged := NO_FLAGS.(flagged := true);
            var s, d := Mailbox(3, map[1 := Message(NO_FLAGS, []), 2 := Message(flagged, [])]), Mailbox(1, map[]);
            var (s', d') := CopyInto(s, d, [2]);
            s'.mail[1].flags == flagged && d'.mail == map[1 := Message(NO_FLAGS, [])]
  {
    var flagged := NO_FLAGS.(flagged := true);
    var s, d := Mailbox(3, map[1 := Message(NO_FLAGS, []), 2 := Message(flagged, [])]), Mailbox(1, map[]);
    assert [2][..0] == [];
    assert CopyInto(s, d, []) == (s, d);
  }

  /** Copying within a folder: each copy is appended with the flags of its original. */
  function CopyWithin(s: Mailbox, ids: seq<int>): (r: Mailbox)
    requires Numbered(s) && forall k :: 0 <= k < |ids| ==> CanCopy(s, ids[k], k)
    ensures r.uidNext == s.uidNext + |ids|
    ensures forall u :: u in r.mail <==> u in s.mail || s.uidNext <= u < s.uidNext + |ids|
    ensures forall u :: u in s.mail ==> r.mail[u] == s.mail[u]
    ensures forall k :: 0 <= k < |ids| && CanCopy(s, ids[k], k) ==> r.mail[s.uidNext + k] == At(r.mail, ids[k])
  {
    if ids == [] then s
    else
      var p, n := ids[..|ids| - 1], |ids| - 1;
      assert forall k :: 0 <= k < n ==> p[k] == ids[k];
      var s1 := CopyWithin(s, p);
      assert CanCopy(s, ids[n], n);
      Appended(s1, At(s1.mail, ids[n]))
  }

  /** When message k of the set is read, the folder also holds the k copies made before it. */
  predicate CanCopy(s: Mailbox, id: int, k: nat) { id in s.mail || s.uidNext <= id < s.uidNext + k }

  /** The position of the first message of the set that cannot be copied when its turn comes. */
  function FirstUncopiable(s: Mailbox, ids: seq<int>): (k: nat)
    ensures k <= |ids| && (forall i :: 0 <= i < k ==> CanCopy(s, ids[i], i)) && (k < |ids| ==> !CanCopy(s, ids[k], k))
  {
    if ids == [] then 0
    else
      var k := FirstUncopiable(s, ids[..|ids| - 1]);
      if k == |ids| - 1 && CanCopy(s, ids[k], k) then |ids| else k
  }

  /** Within one folder COPY does keep the flags; it too gets as far as the first UID without a message. */
  lemma {:induction false} CopyAllWithin(w: World, user: string, src: string, ids: seq<int>)
    requires Has(w, user, src) && Numbered(w.accounts[user][src])
    ensures var s := w.accounts[user][src]; var k := FirstUncopiable(s, ids);
            CopyAll(w, user, src, src, ids) ==
                (Put(w, user, src, CopyWithin(s, ids[..k])), if k == |ids| then OK else Failed)
  {
    var s := w.accounts[user][src];
    if ids == [] {
      assert w.accounts[user][src := s] == w.accounts[user];
      assert w.accounts[user := w.accounts[user]] == w.accounts;
    } else {
      var n := |ids| - 1;
      var p := ids[..n];
      CopyAllWithin(w, user, src, p);
      hide CopyOne, CopyWithin, Put, Has, Numbered, CanCopy;
      var k := FirstUncopiable(s, p);
      assert ids[..k] == p[..k];
      if k == n { LastWithin(w, user, src, ids); }
    }
  }

  /** The last message of the set, when all before it have been copied. */
  lemma LastWithin(w: World, user: string, src: string, ids: seq<int>)
    requires Has(w, user, src) && Numbered(w.accounts[user][src]) && ids != []
    requires var p := ids[..|ids| - 1]; FirstUncopiable(w.accounts[user][src], p) == |p|
    ensures var s, n := w.accounts[user][src], |ids| - 1; var p := ids[..n];
            && p[..n] == p && (forall k :: 0 <= k < n ==> CanCopy(s, p[k], k))
            && (CanCopy(s, ids[n], n) ==> forall k :: 0 <= k < |ids| ==> CanCopy(s, ids[..|ids|][k], k))
            && CopyOne(Put(w, user, src, CopyWithin(s, p)), user, src, src, ids[n])
            == if CanCopy(s, ids[n], n) then (Put(w, user, src, CopyWithin(s, ids[..|ids|])), OK)
               else (Put(w, user, src, CopyWithin(s, p)), Failed)
  {
    var s, n := w.accounts[user][src], |ids| - 1;
    var p := ids[..n];
    AllBefore(s, ids);
    hide CopyOne, CopyWithin, Put;
    if CanCopy(s, ids[n], n) {
      CopyWithinMore(s, ids);
      CopyOneWithin(w, user, src, CopyWithin(s, p), ids[n]);
    } else {
      CopyNoneWithin(w, user, src, CopyWithin(s, p), ids[n]);
    }
  }

  lemma AllBefore(s: Mailbox, ids: seq<int>)
    requires ids != [] && FirstUncopiable(s, ids[..|ids| - 1]) == |ids| - 1
    ensures var p, n := ids[..|ids| - 1], |ids| - 1;
            && p[..n] == p && ids[..|ids|] == ids && (forall k :: 0 <= k < n ==> CanCopy(s, p[k], k) && p[k] == ids[k])
            && (CanCopy(s, ids[n], n) ==> forall k :: 0 <= k < |ids| ==> CanCopy(s, ids[k], k))
  {}

  lemma CopyWithinMore(s: Mailbox, ids: seq<int>)
    requires ids != [] && Numbered(s) && forall k :: 0 <= k < |ids| ==> CanCopy(s, ids[k], k)
    ensures var p, n := ids[..|ids| - 1], |ids| - 1;
            && (forall k :: 0 <= k < n ==> CanCopy(s, p[k], k)) && ids[n] in CopyWithin(s, p).mail
            && CopyWithin(s, ids[..|ids|]) == Appended(CopyWithin(s, p), At(CopyWithin(s, p).mail, ids[n]))
  {
    assert ids[..|ids|] == ids;
    assert CanCopy(s, ids[|ids| - 1], |ids| - 1);
  }

  lemma CopyNoneWithin(w: World, user: string, src: string, s: Mailbox, id: int)
    requires user in w.accounts && id !in s.mail
    ensures CopyOne(Put(w, user, src, s), user, src, src, id) == (Put(w, user, src, s), Failed)
  {}

  lemma CopyOneWithin(w: World, user: string, src: string, s: Mailbox, id: int)
    requires user in w.accounts && id in s.mail
    ensures CopyOne(Put(w, user, src, s), user, src, src, id) == (Put(w, user, src, Appended(s, s.mail[id])), OK)
  {
    var copy := Message(NO_FLAGS, s.mail[id].body);
    var s1, s2 := Appended(s, copy), Appended(s, s.mail[id]);
    PutTwice(w, user, src, s, s1);
    PutTwice(w, user, src, s1, s2);
    assert s1.mail[s.uidNext := s.mail[id]] == s2.mail;
  }

  // ---- MOVE -------------------------------------------------------------------------------------------------------

  function MoveAll(w: World, user: string, src: string, dest: string, ids: seq<int>): (World, Outcome) {
    if ids == [] then (w, OK)
    else
      var before := MoveAll(w, user, src, dest, ids[..|ids| - 1]);
      if before.1.Failed? then before else SpecMove(before.0, user, src, ids[|ids| - 1], dest)
  }

  /** A move fails before anything is moved, or not at all. */
  lemma {:induction false} MoveAllOrNothing(w: World, user: string, src: string, dest: string, ids: seq<int>)
    ensures var r := MoveAll(w, user, src, dest, ids);
            if ids == [] || (Has(w, user, src) && Has(w, user, dest)) then r.1 == OK &&
                Has(r.0, user, src) == Has(w, user, src)
                                                                          && Has(r.0, user, dest) == Has(w, user, dest)
            else r == (w, Failed)
  {
    if ids != [] { MoveAllOrNothing(w, user, src, dest, ids[..|ids| - 1]); }
  }

  /** The two folders after moving `ids` from `s` to the other folder `d`. */
  function MoveInto(s: Mailbox, d: Mailbox, ids: seq<int>): (Mailbox, Mailbox) {
    if ids == [] then (s, d)
    else
      var (s1, d1) := MoveInto(s, d, ids[..|ids| - 1]);
      var id := ids[|ids| - 1];
      if id in s1.mail then (s1.(mail := s1.mail - {id}), Appended(d1, s1.mail[id]))
      else (s1, d1.(uidNext := d1.uidNext + 1))
  }

  lemma {:induction false} MoveAllApart(w: World, user: string, src: string, dest: string, ids: seq<int>)
    requires Has(w, user, src) && Has(w, user, dest) && src != dest
    ensures var r := MoveInto(w.accounts[user][src], w.accounts[user][dest], ids);
            MoveAll(w, user, src, dest, ids) == (PutBoth(w, user, src, r.0, dest, r.1), OK)
  {
    if ids == [] {
      PutBothSame(w, user, src, dest);
    } else {
      var p := ids[..|ids| - 1];
      MoveAllApart(w, user, src, dest, p);
      var r := MoveInto(w.accounts[user][src], w.accounts[user][dest], p);
      MoveOneApart(w, user, src, r.0, dest, r.1, ids[|ids| - 1]);
    }
  }

  lemma MoveOneApart(w: World, user: string, src: string, s: Mailbox, dest: string, d: Mailbox, id: int)
    requires user in w.accounts && src != dest
    ensures SpecMove(PutBoth(w, user, src, s, dest, d), user, src, id, dest)
         == if id in s.mail then (PutBoth(w, user, src, s.(mail := s.mail - {id}), dest, Appended(d, s.mail[id])), OK)
            else (PutBoth(w, user, src, s, dest, d.(uidNext := d.uidNext + 1)), OK)
  {
    var acc := w.accounts[user];
    var w1 := PutBoth(w, user, src, s, dest, d);
    if id in s.mail {
      var s', d' := s.(mail := s.mail - {id}), Appended(d, s.mail[id]);
      assert acc[src := s][dest := d][src := s'] == acc[src := s'][dest := d];
      assert Put(w1, user, src, s') == PutBoth(w, user, src, s', dest, d);
      assert acc[src := s'][dest := d][dest := d'] == acc[src := s'][dest := d'];
      assert Put(PutBoth(w, user, src, s', dest, d), user, dest, d') == PutBoth(w, user, src, s', dest, d');
    } else {
      var d' := d.(uidNext := d.uidNext + 1);
      assert acc[src := s][dest := d][dest := d'] == acc[src := s][dest := d'];
      assert Put(w1, user, dest, d') == PutBoth(w, user, src, s, dest, d');
    }
  }

  /** Position k of the set moves a message: it exists and has not been moved already. */
  predicate Moves(s: Mailbox, ids: seq<int>, k: nat)
    requires k < |ids|
  {
    ids[k] in s.mail && ids[k] !in ids[..k]
  }

  /** From `d` to `d'` what moved has arrived, each message under the new UID of its position; the rest of the new UIDs
      is skipped, and what was there is as it was. */
  ghost predicate Received(s: Mailbox, d: Mailbox, d': Mailbox, ids: seq<int>) {
    && d'.uidNext == d.uidNext + |ids|
    && (forall u :: u in d'.mail ==> u < d'.uidNext)
    && (forall u :: u < d.uidNext ==> (u in d'.mail <==> u in d.mail))
    && (forall u :: u in d.mail ==> u in d'.mail && d'.mail[u] == d.mail[u])
    && (forall u :: d.uidNext <= u < d'.uidNext ==> (u in d'.mail <==> Moves(s, ids, u - d.uidNext)))
    && (forall u :: d.uidNext <= u < d'.uidNext && Moves(s, ids, u - d.uidNext) ==>
          u in d'.mail && d'.mail[u] == At(s.mail, ids[u - d.uidNext]))
  }

  /** The k-th UID of the set takes the k-th new UID of the destination.  Where there is no message (any more) to move,
      that UID is skipped; what was in the destination stays; the folder moved from keeps exactly what was not named
      (RFC 6851). */
  lemma MovedExactly(s: Mailbox, d: Mailbox, ids: seq<int>)
    requires Numbered(d)
    ensures var (s', d') := MoveInto(s, d, ids);
            && s'.uidNext == s.uidNext
            && (forall u :: u in s'.mail <==> u in s.mail && u !in ids)
            && (forall u :: u in s'.mail ==> s'.mail[u] == s.mail[u])
            && Received(s, d, d', ids)
  {
    hide Received;
    MovedOut(s, d, ids);
    MovedIn(s, d, ids);
  }

  /** The folder moved from keeps what was not named. */
  lemma {:induction false} MovedOut(s: Mailbox, d: Mailbox, ids: seq<int>)
    ensures var s' := MoveInto(s, d, ids).0;
            && s'.uidNext == s.uidNext
            && (forall u :: u in s'.mail <==> u in s.mail && u !in ids)
            && (forall u :: u in s'.mail ==> s'.mail[u] == s.mail[u])
  {
    if ids != [] {
      var p, n := ids[..|ids| - 1], |ids| - 1;
      MovedOut(s, d, p);
      assert forall u :: u in ids <==> u in p || u == ids[n];
    }
  }

  lemma {:induction false} MovedIn(s: Mailbox, d: Mailbox, ids: seq<int>)
    requires Numbered(d)
    ensures Received(s, d, MoveInto(s, d, ids).1, ids)
  {
    if ids != [] {
      var p := ids[..|ids| - 1];
      MovedIn(s, d, p);
      MovedLast(s, d, ids);
      ReceivedMore(s, d, MoveInto(s, d, p).1, MoveInto(s, d, ids).1, ids);
    }
  }

  lemma ReceivedMore(s: Mailbox, d: Mailbox, d1: Mailbox, d': Mailbox, ids: seq<int>)
    requires ids != [] && Numbered(d) && Received(s, d, d1, ids[..|ids| - 1])
    requires LastReceived(s, d1, d', ids)
    ensures Received(s, d, d', ids)
  {
    var p, n := ids[..|ids| - 1], |ids| - 1;
    MovesPrefix(s, ids);
    hide Moves, At, Numbered;
    forall u | d.uidNext <= u < d'.uidNext
      ensures u in d'.mail <==> Moves(s, ids, u - d.uidNext)
      ensures Moves(s, ids, u - d.uidNext) ==> ids[u - d.uidNext] in s.mail
      ensures Moves(s, ids, u - d.uidNext) ==> u in d'.mail && d'.mail[u] == At(s.mail, ids[u - d.uidNext])
    {
      MovesThere(s, ids, u - d.uidNext);
      if u < d1.uidNext { assert u in d'.mail <==> u in d1.mail; } else { assert u - d.uidNext == n; }
    }
  }

  /** The last position of the set takes effect between `d1` and `d'`. */
  ghost predicate LastReceived(s: Mailbox, d1: Mailbox, d': Mailbox, ids: seq<int>)
    requires ids != []
  {
    var n := |ids| - 1;
    && d'.uidNext == d1.uidNext + 1
    && (forall u :: u != d1.uidNext ==> (u in d'.mail <==> u in d1.mail))
    && (forall u :: u in d1.mail && u != d1.uidNext ==> d'.mail[u] == d1.mail[u])
    && (d1.uidNext in d'.mail <==> Moves(s, ids, n))
    && (Moves(s, ids, n) ==> d1.uidNext in d'.mail && d'.mail[d1.uidNext] == At(s.mail, ids[n]))
  }

  lemma MovesThere(s: Mailbox, ids: seq<int>, k: nat)
    requires k < |ids|
    ensures Moves(s, ids, k) ==> ids[k] in s.mail
  {}

  lemma MovedLast(s: Mailbox, d: Mailbox, ids: seq<int>)
    requires ids != []
    requires var d1 := MoveInto(s, d, ids[..|ids| - 1]).1; d1.uidNext !in d1.mail
    ensures LastReceived(s, MoveInto(s, d, ids[..|ids| - 1]).1, MoveInto(s, d, ids).1, ids)
  {
    MovedOut(s, d, ids[..|ids| - 1]);
    MovesPrefix(s, ids);
  }

  lemma MovesPrefix(s: Mailbox, ids: seq<int>)
    requires ids != []
    ensures var p, n := ids[..|ids| - 1], |ids| - 1;
            && (forall k :: 0 <= k < n ==> p[k] == ids[k] && (Moves(s, p, k) <==> Moves(s, ids, k)))
            && (Moves(s, ids, n) <==> ids[n] in s.mail && ids[n] !in p)
  {
    var p, n := ids[..|ids| - 1], |ids| - 1;
    forall k | 0 <= k < n ensures p[k] == ids[k] && (Moves(s, p, k) <==> Moves(s, ids, k)) {
      assert p[..k] == ids[..k];
    }
  }

  // ---- MOVE within one folder -------------------------------------------------------------------------------------

  /** Message `id`, if it is there, put under UID `next`. */
  function MovedMail(mail: map<nat, Message>, id: int, next: nat): map<nat, Message> {
    if id in mail then (mail - {id})[next := mail[id]] else mail
  }

  function MoveInside(s: Mailbox, ids: seq<int>): Mailbox {
    if ids == [] then s
    else
      var s1, id := MoveInside(s, ids[..|ids| - 1]), ids[|ids| - 1];
      Mailbox(s1.uidNext + 1, MovedMail(s1.mail, id, s1.uidNext))
  }

  lemma {:induction false} MoveAllWithin(w: World, user: string, src: string, ids: seq<int>)
    requires Has(w, user, src)
    ensures MoveAll(w, user, src, src, ids) == (Put(w, user, src, MoveInside(w.accounts[user][src], ids)), OK)
  {
    var s := w.accounts[user][src];
    if ids == [] {
      assert w.accounts[user][src := s] == w.accounts[user];
      assert w.accounts[user := w.accounts[user]] == w.accounts;
    } else {
      var p := ids[..|ids| - 1];
      MoveAllWithin(w, user, src, p);
      MoveOneWithin(w, user, src, MoveInside(s, p), ids[|ids| - 1]);
    }
  }

  lemma MoveOneWithin(w: World, user: string, src: string, s: Mailbox, id: int)
    requires Has(w, user, src)
    ensures SpecMove(Put(w, user, src, s), user, src, id, src)
         == (Put(w, user, src, Mailbox(s.uidNext + 1, MovedMail(s.mail, id, s.uidNext))), OK)
  {
    var w1 := Put(w, user, src, s);
    if id in s.mail {
      var s1 := s.(mail := s.mail - {id});
      PutTwice(w, user, src, s, s1);
      PutTwice(w, user, src, s1, Appended(s1, s.mail[id]));
    } else {
      PutTwice(w, user, src, s, s.(uidNext := s.uidNext + 1));
    }
  }

  /** Where message u is after the moves: each position of the set that names its UID of that moment gives it the UID of
      that position. */
  function Follow(next: nat, ids: seq<int>, u: nat): nat {
    if ids == [] then u
    else
      var n := |ids| - 1;
      var v := Follow(next, ids[..n], u);
      if v == ids[n] then next + n else v
  }

  /** By UID before the moves, the UID after them. */
  function Followed(s: Mailbox, ids: seq<int>): map<nat, nat> { map u | u in s.mail :: Follow(s.uidNext, ids, u) }

  /** `mail'` is `mail` with each message u under `place[u]`, no two under the same, and nothing else. */
  ghost predicate Rearranged(mail: map<nat, Message>, mail': map<nat, Message>, place: map<nat, nat>) {
    Carried(mail, mail', place) && Apart(place) && forall v :: v in mail' ==> Filled(place, v)
  }

  ghost predicate Carried(mail: map<nat, Message>, mail': map<nat, Message>, place: map<nat, nat>) {
    place.Keys == mail.Keys && forall u :: u in place ==> place[u] in mail' && mail'[place[u]] == mail[u]
  }

  ghost predicate Apart(place: map<nat, nat>) {
    forall t, u :: t in place && u in place && place[t] == place[u] ==> t == u
  }

  ghost predicate Filled(place: map<nat, nat>, v: nat) { exists u :: u in place && place[u] == v }

  /** From `place` to `place'` what was under `id` has come under `next`. */
  ghost predicate Replaced(place: map<nat, nat>, place': map<nat, nat>, id: int, next: nat) {
    place'.Keys == place.Keys && forall u :: u in place ==> place'[u] == if place[u] == id then next else place[u]
  }

  lemma RearrangedOnce(mail: map<nat, Message>, mail1: map<nat, Message>, place: map<nat, nat>, id: int, next: nat,
                       place': map<nat, nat>)
    requires Rearranged(mail, mail1, place) && next !in mail1 && Replaced(place, place', id, next)
    ensures Rearranged(mail, MovedMail(mail1, id, next), place')
  {
    CarriedOnce(mail, mail1, place, id, next, place');
    ApartOnce(mail, mail1, place, id, next, place');
    forall v | v in MovedMail(mail1, id, next) ensures Filled(place', v) {
      FilledOnce(mail1, place, id, next, place', v);
    }
  }

  lemma CarriedOnce(mail: map<nat, Message>, mail1: map<nat, Message>, place: map<nat, nat>, id: int, next: nat,
                    place': map<nat, nat>)
    requires Carried(mail, mail1, place) && next !in mail1 && Replaced(place, place', id, next)
    ensures Carried(mail, MovedMail(mail1, id, next), place')
  {}

  lemma ApartOnce(mail: map<nat, Message>, mail1: map<nat, Message>, place: map<nat, nat>, id: int, next: nat,
                  place': map<nat, nat>)
    requires Carried(mail, mail1, place) && Apart(place) && next !in mail1 && Replaced(place, place', id, next)
    ensures Apart(place')
  {}

  lemma FilledOnce(mail1: map<nat, Message>, place: map<nat, nat>, id: int, next: nat, place': map<nat, nat>, v: nat)
    requires (forall v :: v in mail1 ==> Filled(place, v)) && Replaced(place, place', id, next)
    requires v in MovedMail(mail1, id, next)
    ensures Filled(place', v)
  {
    var v1: nat := if v in mail1 && v != id then v else id;
    assert Filled(place, v1);
    var u :| u in place && place[u] == v1;
    assert place'[u] == v;
  }

  /** A move within a folder loses, doubles and changes no message: each is found where its moves took it, and nothing
      else is there. */
  lemma {:induction false} MovedInside(s: Mailbox, ids: seq<int>)
    requires Numbered(s)
    ensures MoveInside(s, ids).uidNext == s.uidNext + |ids| && Numbered(MoveInside(s, ids))
    ensures Rearranged(s.mail, MoveInside(s, ids).mail, Followed(s, ids))
  {
    hide Rearranged, Follow, Followed, MovedMail, Numbered;
    if ids == [] {
      NothingRearranged(s);
    } else {
      var p, id := ids[..|ids| - 1], ids[|ids| - 1];
      MovedInside(s, p);
      var s1 := MoveInside(s, p);
      FollowedMore(s, ids);
      NumberedMore(s1, id);
      RearrangedOnce(s.mail, s1.mail, Followed(s, p), id, s1.uidNext, Followed(s, ids));
    }
  }

  lemma FollowedMore(s: Mailbox, ids: seq<int>)
    requires ids != []
    ensures Replaced(Followed(s, ids[..|ids| - 1]), Followed(s, ids), ids[|ids| - 1], s.uidNext + |ids| - 1)
  {}

  lemma NumberedMore(s: Mailbox, id: int)
    requires Numbered(s)
    ensures s.uidNext !in s.mail && Numbered(Mailbox(s.uidNext + 1, MovedMail(s.mail, id, s.uidNext)))
  {}

  lemma NothingRearranged(s: Mailbox)
    ensures Rearranged(s.mail, s.mail, Followed(s, []))
  {
    forall v | v in s.mail ensures Filled(Followed(s, []), v) {
      assert Followed(s, [])[v] == v;
    }
  }

  /** A message stays under its UID exactly if the set does not name it. */
  lemma {:induction false} FollowStays(next: nat, ids: seq<int>, u: nat)
    requires u < next
    ensures if u in ids then next <= Follow(next, ids, u) < next + |ids| else Follow(next, ids, u) == u
  {
    if ids != [] {
      var n := |ids| - 1;
      FollowStays(next, ids[..n], u);
      assert u in ids <==> u in ids[..n] || u == ids[n];
    }
  }
}
