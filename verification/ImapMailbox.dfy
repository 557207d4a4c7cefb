/** The IMAP server's mailbox and user objects, working on the store. */
module ImapMailbox {
  import opened Wrappers
  import opened Flags
  import opened Schema
  import opened Operations
  import opened Ranks
  import opened StoreQueries
  import opened Storage
  import opened SeqSets
  import opened ImapSpec
  import opened Holdings
  import StoreRuns

  function BoxIn(w: World, user: string, name: string): Option<Schema.Mailbox> {
    if Has(w, user, name) then Some(w.accounts[user][name]) else None
  }

  lemma ListingIs(w: World, user: string, name: string)
    ensures Listing(BoxIn(w, user, name)) == Sorted(MailIn(w, user, name).Keys)
  {
    if !Has(w, user, name) { assert MailIn(w, user, name).Keys == {}; }
  }

  /** What the inner loop has appended when its counter has gone from lo to i. */
  function Walked(uid: bool, lo: nat, i: nat, list: seq<nat>): seq<int> {
    if i <= lo then []
    else if uid then Cast(Span(lo, i - 1))
    else if 1 <= lo && i - 1 <= |list| then Cast(list[lo - 1..i - 1])
    else []
  }

  lemma WalkStep(uid: bool, lo: nat, i: nat, list: seq<nat>)
    requires lo <= i && (uid || (1 <= lo && i <= |list|))
    ensures Walked(uid, lo, i + 1, list) == Walked(uid, lo, i, list) + [AsInt32(if uid then i else list[i - 1])]
  {}

  lemma NoMailbox(uid: bool, range: Range, box: Option<Schema.Mailbox>)
    requires StopOf(range, box).Err?
    ensures Piece(uid, range, box).Err?
  {}

  lemma WalkNone(uid: bool, lo: nat, list: seq<nat>)
    ensures Walked(uid, lo, lo, list) == []
  {}

  /** When the guard fails, the range has been walked. */
  lemma WalkEnds(uid: bool, range: Range, box: Option<Schema.Mailbox>, i: nat)
    requires var stop := StopOf(range, box); var lo := range.start as int;
             stop.Ok? && lo <= i && i > stop.value && (i > lo ==> i <= stop.value + 1)
    requires i == range.start as int || uid || (1 <= range.start as int && i - 1 <= |Listing(box)|)
    ensures Piece(uid, range, box) == Result.Ok(Walked(uid, range.start as int, i, Listing(box)))
  {
    hide Listing, Cast, Span;
    if uid && i == range.start as int { assert Cast(Span(i, StopOf(range, box).value)) == []; }
  }

  /** A sequence number outside the mailbox is an error of the range. */
  lemma WalkFails(range: Range, box: Option<Schema.Mailbox>, i: nat)
    requires var stop := StopOf(range, box); stop.Ok? && range.start as int <= i <= stop.value
    requires !(1 <= i <= |Listing(box)|)
    ensures Piece(false, range, box).Err?
  {
    hide Listing;
  }

  class Mailbox {
    const store: Store
    const user: string
    const name: string

    constructor (store: Store, user: string, name: string)
      ensures this.store == store && this.user == user && this.name == name
    {
      this.store, this.user, this.name := store, user, name;
    }

    ghost function Box(): Option<Schema.Mailbox> reads store { BoxIn(View(store.db), user, name) }

    /** Both loops over the set.  A range may not end at 2^32-1 (see LoopEnds); by sequence number it would fail
        first. */
    method GetIDsFromSeqSet(uid: bool, ranges: seq<Range>) returns (r: Result<seq<int>>)
      requires store.Valid()
      requires if uid then forall k :: 0 <= k < |ranges| ==> Ends(ranges[k], Box()) else |Listing(Box())| < TOP
      ensures r == Expand(uid, ranges, Box())
    {
      hide Sound, View, Piece, BoxIn, Listing;
      var ids: seq<int> := [];
      assert ranges[..|ranges|] == ranges;
      for k := 0 to |ranges|
        invariant Expand(uid, ranges[..k], Box()) == Result.Ok(ids)
      {
        assert ranges[..k + 1][..k] == ranges[..k];
        var piece := Walk(uid, ranges[k]);
        if piece.Err? {
          ExpandErr(uid, ranges, Box(), k);
          return Err;
        }
        ids := ids + piece.value;
      }
      r := Result.Ok(ids);
    }

    /** The body of the outer loop. */
    method Walk(uid: bool, range: Range) returns (r: Result<seq<int>>)
      requires store.Valid()
      requires if uid then Ends(range, Box()) else |Listing(Box())| < TOP
      ensures r == Piece(uid, range, Box())
    {
      hide Sound, View, Cast, Span, Sorted, Walked, Piece, MailIn, Listing;
      ListingIs(View(store.db), user, name);
      var stop := range.stop;
      if range.stop == 0 {
        var next := store.MailNextID(user, name);
        if next.Err? {
          NoMailbox(uid, range, Box());
          return Err;
        }
        stop := ((next.value - 1) % TWO32) as uint32;
      }
      ghost var list := Listing(Box());
      ghost var lo := range.start as nat;
      var ids: seq<int> := [];
      assert Walked(uid, lo, lo, list) == [] by { WalkNone(uid, lo, list); }
      var i := range.start;
      while i <= stop
        invariant lo <= i as int && (i as int > lo ==> i as int <= stop as int + 1)
        invariant i as int == lo || uid || (1 <= lo && i as int - 1 <= |list|)
        invariant ids == Walked(uid, lo, i as int, list)
        decreases TWO32 - i as int
      {
        if !uid {
          var pid := store.MailIDForSeq(user, name, i as int);
          if pid.Err? {
            WalkFails(range, Box(), i as int);
            return Err;
          }
          WalkStep(uid, lo, i as int, list);
          ids := ids + [AsInt32(pid.value)];
        } else {
          WalkStep(uid, lo, i as int, list);
          ids := ids + [AsInt32(i as int)];
        }
        assert i as int < TOP;
        i := ((i as int + 1) % TWO32) as uint32;
      }
      WalkEnds(uid, range, Box(), i as int);
      r := Result.Ok(ids);
    }

    // ---- STORE ----------------------------------------------------------------------------------------------------

    /** The loop over the flag names. */
    method SetFields(mail: Flags, op: FlagsOp, flags: seq<string>) returns (f: Flags)
      requires op == FlagsOp.SetFlags ==> mail == NO_FLAGS
      ensures f == Updated(mail, op, flags)
    {
      f := mail;
      assert flags[..|flags|] == flags;
      for j := 0 to |flags|
        invariant f == Updated(mail, op, flags[..j])
      {
        var flag := flags[j];
        var value := op != RemoveFlags;
        assert flags[..j + 1] == flags[..j] + [flag];
        FieldSet(mail, op, flags[..j], flag);
        if flag == SEEN { f := f.(seen := value); }
        else if flag == ANSWERED { f := f.(answered := value); }
        else if flag == FLAGGED { f := f.(flagged := value); }
        else if flag == DELETED { f := f.(deleted := value); }
      }
    }

    /** STORE: each message of the set gets old + F, old - F or F, and no other message changes.  Adding and removing
        stop with an error at the first UID without a message, with the messages before it done; setting skips such
        UIDs. */
    method UpdateMessagesFlags(uid: bool, ranges: seq<Range>, op: FlagsOp, flags: seq<string>) returns (r: Outcome)
      requires store.Valid()
      requires if uid then forall k :: 0 <= k < |ranges| ==> Ends(ranges[k], Box()) else |Listing(Box())| < TOP
      modifies store`db
      ensures store.Valid()
      ensures Expand(uid, ranges, old(Box())).Err? ==> store.db == old(store.db) && r == Failed
      ensures Expand(uid, ranges, old(Box())).Ok? ==>
                var w, ids := View(old(store.db)), Expand(uid, ranges, old(Box())).value;
                var k := if op == FlagsOp.SetFlags then |ids| else FirstMissing(MailIn(w, user, name), ids);
                && View(store.db) == MarkedWorld(w, user, name, ids[..k], op, flags)
                && StoreDone(w, View(store.db), user, name, ids[..k], op, flags)
                && r == if k == |ids| then OK else Failed
    {
      hide Sound, View, Expand, Do, MarkedWorld, MailIn, Updated, BoxIn, StoreDone;
      var ids := GetIDsFromSeqSet(uid, ranges);
      if ids.Err? { return Failed; }
      ghost var w := View(store.db);
      r := UpdateEach(ids.value, op, flags);
      ghost var k := if op == FlagsOp.SetFlags then |ids.value| else FirstMissing(MailIn(w, user, name), ids.value);
      StoredExactly(w, user, name, ids.value[..k], op, flags);
    }

    method UpdateEach(ids: seq<int>, op: FlagsOp, flags: seq<string>) returns (r: Outcome)
      requires store.Valid()
      modifies store`db
      ensures store.Valid()
      ensures var w := View(old(store.db));
              var k := if op == FlagsOp.SetFlags then |ids| else FirstMissing(MailIn(w, user, name), ids);
              && View(store.db) == MarkedWorld(w, user, name, ids[..k], op, flags)
              && r == if k == |ids| then OK else Failed
    {
      hide Sound, View, Do, Spec, MarkedWorld, MailIn, Updated;
      ghost var w := View(store.db);
      NothingMarked(w, user, name, op, flags);
      assert ids[..0] == [] && ids[..|ids|] == ids;
      for i := 0 to |ids|
        invariant store.Valid() && View(store.db) == MarkedWorld(w, user, name, ids[..i], op, flags)
        invariant op != FlagsOp.SetFlags ==> forall j :: 0 <= j < i ==> ids[j] in MailIn(w, user, name)
      {
        MarkedIn(w, user, name, ids[..i], op, flags);
        var mail := NO_FLAGS;
        if op != FlagsOp.SetFlags {
          var selected := store.MailSelect(user, name, ids[i]);
          if selected.Err? { return Failed; }
          mail := selected.value.1.flags;
        }
        var f := SetFields(mail, op, flags);
        SetIgnoresOld(mail, FlagsAt(MailIn(View(store.db), user, name), ids[i]), op, flags);
        MarkStep(w, user, name, ids[..i], ids[i], op, flags, f);
        UpdateSucceeds(View(store.db), user, name, ids[i], f);
        assert ids[..i + 1] == ids[..i] + [ids[i]];
        r := store.MailUpdateFlags(user, name, ids[i], f.seen, f.answered, f.flagged, f.deleted);
        if r.Failed? { return; }
      }
      r := OK;
    }

    // ---- COPY -----------------------------------------------------------------------------------------------------

    method CopyMessages(uid: bool, ranges: seq<Range>, destName: string) returns (r: Outcome)
      requires store.Valid()
      requires if uid then forall k :: 0 <= k < |ranges| ==> Ends(ranges[k], Box()) else |Listing(Box())| < TOP
      modifies store`db
      ensures store.Valid()
      ensures destName == OUTBOX || Expand(uid, ranges, old(Box())).Err? ==> store.db == old(store.db) && r == Failed
      ensures destName != OUTBOX && Expand(uid, ranges, old(Box())).Ok? ==>
                (View(store.db), r) == CopyAll(View(old(store.db)), user, name, destName,
                                               Expand(uid, ranges, old(Box())).value)
    {
      hide Sound, View, Expand, Do, Spec, BoxIn, CopyAll;
      if destName == OUTBOX { return Failed; }
      var ids := GetIDsFromSeqSet(uid, ranges);
      if ids.Err? { return Failed; }
      r := CopyEach(ids.value, destName);
    }

    method CopyEach(ids: seq<int>, destName: string) returns (r: Outcome)
      requires store.Valid()
      modifies store`db
      ensures store.Valid()
      ensures (View(store.db), r) == CopyAll(View(old(store.db)), user, name, destName, ids)
    {
      hide Sound, View, CopyOne;
      ghost var w := View(store.db);
      assert ids[..|ids|] == ids;
      for i := 0 to |ids|
        invariant store.Valid() && (View(store.db), OK) == CopyAll(w, user, name, destName, ids[..i])
      {
        assert ids[..i + 1][..i] == ids[..i];
        CopyOutcome(View(store.db), user, name, destName, ids[i]);
        r := CopyMessage(ids[i], destName);
        if r.Failed? {
          CopyStops(w, user, name, destName, ids, i + 1);
          return;
        }
      }
      r := OK;
    }

    method CopyMessage(id: int, destName: string) returns (r: Outcome)
      requires store.Valid()
      modifies store`db
      ensures store.Valid()
      ensures (View(store.db), r) == CopyOne(View(old(store.db)), user, name, destName, id)
    {
      hide Sound, View, Do, SpecAppend, MailIn;
      var selected := store.MailSelect(user, name, id);
      if selected.Err? { return Failed; }
      var mail := selected.value.1;
      r := store.MailCreate(user, destName, mail.body);
      if r.Failed? { return; }
      var f := mail.flags;
      r := store.MailUpdateFlags(user, name, r.uid, f.seen, f.answered, f.flagged, f.deleted);
    }

    // ---- MOVE -----------------------------------------------------------------------------------------------------

    /** MOVE: no message of any account is lost, added or changed; moved out of Outbox, queue rows under `Outbox` go
        with it. */
    method MoveMessages(uid: bool, ranges: seq<Range>, dest: string) returns (r: Outcome)
      requires store.Valid()
      requires if uid then forall k :: 0 <= k < |ranges| ==> Ends(ranges[k], Box()) else |Listing(Box())| < TOP
      modifies store`db, store`queue
      ensures store.Valid()
      ensures dest == OUTBOX || Expand(uid, ranges, old(Box())).Err? ==>
                store.db == old(store.db) && store.queue == old(store.queue) && r == Failed
      ensures dest != OUTBOX && Expand(uid, ranges, old(Box())).Ok? ==>
                var ids := Expand(uid, ranges, old(Box())).value;
                && (View(store.db), r) == MoveAll(View(old(store.db)), user, name, dest, ids)
                && store.queue == if name == OUTBOX && r == OK then Cleared(old(store.queue), OUTBOX, ids)
                   else old(store.queue)
      ensures SameHoldings(old(store.db), store.db)
    {
      hide Sound, View, Expand, BoxIn, SameHoldings, Cleared, MoveAll;
      SameToStart(store.db);
      if dest == OUTBOX { return Failed; }
      var ids := GetIDsFromSeqSet(uid, ranges);
      if ids.Err? { return Failed; }
      r := MoveEach(ids.value, dest);
    }

    method MoveEach(ids: seq<int>, dest: string) returns (r: Outcome)
      requires store.Valid()
      modifies store`db, store`queue
      ensures store.Valid()
      ensures (View(store.db), r) == MoveAll(View(old(store.db)), user, name, dest, ids)
      ensures store.queue == if name == OUTBOX && r == OK then Cleared(old(store.queue), OUTBOX, ids)
              else old(store.queue)
      ensures SameHoldings(old(store.db), store.db)
    {
      hide Sound, View, SpecMove, SameHoldings, Cleared;
      ghost var was, rows := store.db, store.queue;
      ghost var w := View(was);
      assert ids[..|ids|] == ids;
      NothingCleared(rows, OUTBOX);
      SameToStart(was);
      for i := 0 to |ids|
        invariant store.Valid() && (View(store.db), OK) == MoveAll(w, user, name, dest, ids[..i])
        invariant store.queue == if name == OUTBOX then Cleared(rows, OUTBOX, ids[..i]) else rows
        invariant SameHoldings(was, store.db)
      {
        assert ids[..i + 1][..i] == ids[..i];
        assert ids[..i + 1] == ids[..i] + [ids[i]];
        MoveOutcome(View(store.db), user, name, ids[i], dest);
        ClearedTwice(rows, OUTBOX, ids[..i], ids[i]);
        ghost var before := store.db;
        r := MoveMessage(ids[i], dest);
        SameThroughout(was, before, store.db);
        if r.Failed? {
          MoveStops(w, user, name, dest, ids, i);
          NothingCleared(rows, OUTBOX);
          return;
        }
      }
      r := OK;
    }

    /** One message, and its queue rows if it leaves the Outbox. */
    method MoveMessage(id: int, dest: string) returns (r: Outcome)
      requires store.Valid()
      modifies store`db, store`queue
      ensures store.Valid()
      ensures (View(store.db), r) == SpecMove(View(old(store.db)), user, name, id, dest)
      ensures store.queue == if name == OUTBOX && r == OK then Cleared(old(store.queue), OUTBOX, [id])
              else old(store.queue)
      ensures SameHoldings(old(store.db), store.db)
    {
      hide Sound, View, SpecMove, SameHoldings, Cleared, Move;
      MoveKeepsAll(store.db, user, name, id, dest);
      MoveOutcome(View(store.db), user, name, id, dest);
      r := store.MailMove(user, name, id, dest);
      if r.Failed? { return; }
      if name == OUTBOX {
        store.QueueDeleteDestinationForID(OUTBOX, id);
      }
    }

    // ---- APPEND, EXPUNGE ------------------------------------------------------------------------------------------

    method Expunge() returns (r: Outcome)
      requires store.Valid()
      modifies store`db
      ensures Did(old(store.db), MailExpunge(user, name), store.db, r)
    {
      r := store.MailExpunge(user, name);
    }

    /** APPEND: of several flags given, only the last is stored; one that is none of the four clears all. */
    method CreateMessage(flags: seq<string>, body: Bytes) returns (r: Outcome)
      requires store.Valid()
      modifies store`db
      ensures store.Valid()
      ensures var w := View(old(store.db));
              (View(store.db), r) ==
              if !Has(w, user, name) then (w, Failed)
              else (SpecAppend(w, user, name,
                               Message(if flags == [] then NO_FLAGS else OnlyFlag(flags[|flags| - 1]), body)).0, OK)
    {
      hide Sound, View, Do, Put, OnlyFlag;
      ghost var w := View(store.db);
      var created := store.MailCreate(user, name, body);
      if created.Failed? { return created; }
      var id := created.uid;
      for j := 0 to |flags|
        invariant store.Valid()
        invariant View(store.db) == SpecAppend(w, user, name,
                                               Message(if j == 0 then NO_FLAGS else OnlyFlag(flags[j - 1]), body)).0
      {
        var flag := flags[j];
        OnlyFlagIs(flag);
        RefreshedFlags(w, user, name, if j == 0 then NO_FLAGS else OnlyFlag(flags[j - 1]), OnlyFlag(flag), body);
        r := store.MailUpdateFlags(user, name, id, flag == SEEN, flag == ANSWERED, flag == FLAGGED, flag == DELETED);
        if r.Failed? { return; }
      }
      r := OK;
    }
  }

  /** A user's folders; the protected ones cannot be deleted or renamed. */
  class User {
    const store: Store
    const username: string

    constructor (store: Store, username: string)
      ensures this.store == store && this.username == username
    {
      this.store, this.username := store, username;
    }

    method CreateMailbox(name: string) returns (r: Outcome)
      requires store.Valid()
      modifies store`db
      ensures Did(old(store.db), Op.MailboxCreate(username, name), store.db, r)
    {
      r := store.MailboxCreate(username, name);
    }

    /** Whatever it does, it is an operation the runs of AccountsAlways allow. */
    method DeleteMailbox(name: string) returns (r: Outcome)
      requires store.Valid()
      modifies store`db
      ensures var op := Op.MailboxDelete(username, name);
              if name in ["INBOX", "Outbox", "Sent"] then store.db == old(store.db) && r == Failed
              else StoreRuns.Allowed(op) && Did(old(store.db), op, store.db, r)
    {
      hide Did, Sound;
      if name == "INBOX" || name == "Outbox" || name == "Sent" { return Failed; }
      r := store.MailboxDelete(username, name);
    }

    method RenameMailbox(existingName: string, newName: string) returns (r: Outcome)
      requires store.Valid()
      modifies store`db
      ensures var op := Op.MailboxRename(username, existingName, newName);
              if existingName in ["INBOX", "Outbox", "Sent"] then store.db == old(store.db) && r == Failed
              else StoreRuns.Allowed(op) && Did(old(store.db), op, store.db, r)
    {
      hide Did, Sound;
      if existingName == "INBOX" || existingName == "Outbox" || existingName == "Sent" { return Failed; }
      r := store.MailboxRename(username, existingName, newName);
    }
  }

  // ---- lemmas about one iteration ---------------------------------------------------------------------------------

  /** After an error nothing more is copied. */
  lemma {:induction false} CopyStops(w: World, user: string, src: string, dest: string, ids: seq<int>, i: nat)
    requires i <= |ids| && CopyAll(w, user, src, dest, ids[..i]).1.Failed?
    ensures CopyAll(w, user, src, dest, ids) == CopyAll(w, user, src, dest, ids[..i])
  {
    hide CopyOne;
    if i == |ids| {
      assert ids[..i] == ids;
    } else {
      assert ids[..|ids| - 1][..i] == ids[..i];
      CopyStops(w, user, src, dest, ids[..|ids| - 1], i);
    }
  }

  lemma CopyOutcome(w: World, user: string, src: string, dest: string, id: int)
    ensures CopyOne(w, user, src, dest, id).1 in {OK, Failed}
  {}

  lemma MoveOutcome(w: World, user: string, src: string, uid: int, dest: string)
    ensures SpecMove(w, user, src, uid, dest).1 in {OK, Failed}
  {}

  /** A failed move is the first one, and has moved nothing. */
  lemma MoveStops(w: World, user: string, src: string, dest: string, ids: seq<int>, i: nat)
    requires i < |ids| && MoveAll(w, user, src, dest, ids[..i]).1 == OK
    requires SpecMove(MoveAll(w, user, src, dest, ids[..i]).0, user, src, ids[i], dest).1.Failed?
    ensures MoveAll(w, user, src, dest, ids) ==
            SpecMove(MoveAll(w, user, src, dest, ids[..i]).0, user, src, ids[i], dest)
    ensures i == 0
  {
    MoveAllOrNothing(w, user, src, dest, ids[..i]);
    MoveAllOrNothing(w, user, src, dest, ids);
    hide MoveAll;
    assert ids[..0] == [];
  }

  lemma NothingCleared(queue: map<Id, Queued>, dest: string)
    ensures Cleared(queue, dest, []) == queue
  {}

  lemma ClearedTwice(queue: map<Id, Queued>, dest: string, ids: seq<int>, id: int)
    ensures Cleared(Cleared(queue, dest, ids), dest, [id]) == Cleared(queue, dest, ids + [id])
  {
    assert forall u :: u in ids + [id] <==> u in ids || u == id;
  }

  function OnlyFlag(flag: string): Flags { Flags(flag == SEEN, flag == ANSWERED, flag == FLAGGED, flag == DELETED) }

  /** What APPEND stores is what its list of flags says if and only if every known flag in the list is its last
      entry. */
  lemma AppendKeepsFlags(flags: seq<string>)
    requires flags != []
    ensures OnlyFlag(flags[|flags| - 1]) == Updated(NO_FLAGS, FlagsOp.SetFlags, flags)
       <==> forall f :: f in flags && f in [SEEN, ANSWERED, FLAGGED, DELETED] ==> f == flags[|flags| - 1]
  {
    var last := flags[|flags| - 1];
    FourFlags();
    if OnlyFlag(last) == Updated(NO_FLAGS, FlagsOp.SetFlags, flags) {
      forall f | f in flags && f in [SEEN, ANSWERED, FLAGGED, DELETED] ensures f == last {}
    }
  }

  lemma FourFlags()
    ensures SEEN != ANSWERED && SEEN != FLAGGED && SEEN != DELETED
    ensures ANSWERED != FLAGGED && ANSWERED != DELETED && FLAGGED != DELETED
  {
    assert SEEN[1] == 'S' && ANSWERED[1] == 'A' && FLAGGED[1] == 'F' && DELETED[1] == 'D';
  }

  lemma OnlyFlagIs(flag: string)
    ensures OnlyFlag(flag) == Flags(flag == SEEN, flag == ANSWERED, flag == FLAGGED, flag == DELETED)
  {}

  /** Updating the flags of the message just appended is as if it had been appended with them. */
  lemma RefreshedFlags(w: World, user: string, name: string, f: Flags, g: Flags, body: Bytes)
    requires Has(w, user, name)
    ensures Spec(SpecAppend(w, user, name, Message(f, body)).0,
                 MailUpdateFlags(user, name, w.accounts[user][name].uidNext, g))
         == (SpecAppend(w, user, name, Message(g, body)).0, OK)
  {
    var mb := w.accounts[user][name];
    var a, b := Appended(mb, Message(f, body)), Appended(mb, Message(g, body));
    assert a.mail[mb.uidNext := Message(g, body)] == b.mail;
    PutTwice(w, user, name, a, b);
  }

  /** The loop over this range leaves by its guard. */
  predicate Ends(r: Range, box: Option<Schema.Mailbox>) {
    var stop := StopOf(r, box); stop.Ok? ==> stop.value < TOP
  }

  lemma FieldSet(mail: Flags, op: FlagsOp, names: seq<string>, flag: string)
    ensures var f, value := Updated(mail, op, names), op != RemoveFlags;
            Updated(mail, op, names + [flag]) ==
            if flag == SEEN then f.(seen := value)
            else if flag == ANSWERED then f.(answered := value)
            else if flag == FLAGGED then f.(flagged := value)
            else if flag == DELETED then f.(deleted := value)
            else f
  {
    assert SEEN[1] == 'S' && ANSWERED[1] == 'A' && FLAGGED[1] == 'F' && DELETED[1] == 'D';
    assert forall n :: n in names + [flag] <==> n in names || n == flag;
  }

  function FlagsAt(mail: map<nat, Message>, id: int): Flags { if id in mail then mail[id].flags else NO_FLAGS }

  lemma SetIgnoresOld(mail: Flags, other: Flags, op: FlagsOp, names: seq<string>)
    ensures op == FlagsOp.SetFlags ==> Updated(mail, op, names) == Updated(other, op, names)
  {}

  lemma UpdateSucceeds(w: World, user: string, name: string, id: int, f: Flags)
    ensures Spec(w, MailUpdateFlags(user, name, id, f)).1 == OK
  {}
}
