/** The tables refine the nested view: every operation keeps all keys and commutes with the view. */
module Refinement {
  import opened Wrappers
  import opened Flags
  import opened Schema
  import opened Operations

  lemma Keys(db: Db)
    requires Sound(db)
    ensures UniqueAddresses(db.users) && UniqueNames(db.boxes) && UniqueUids(db.msgs) && UniqueAliases(db.aliases)
    ensures forall b :: b in db.boxes ==> db.boxes[b].owner in db.users
  {}

  // ---- queries ----------------------------------------------------------------------------------------------------

  /** The join of a folder finds the one row the view has under (user, name), or nothing. */
  lemma BoxFact(db: Db, user: string, name: string)
    requires Sound(db)
    ensures BoxIds(db, user, name) == {} <==> !Has(View(db), user, name)
    ensures forall b :: b in BoxIds(db, user, name) ==>
              BoxIds(db, user, name) == {b} && View(db).accounts[user][name] == MailboxOf(db.boxes, db.msgs, b)
  {
    hide MailOf;
    forall b | b in BoxIds(db, user, name)
      ensures BoxIds(db, user, name) == {b} && Has(View(db), user, name)
              && View(db).accounts[user][name] == MailboxOf(db.boxes, db.msgs, b)
    {
      AccountAt(db.users, db.boxes, db.msgs, db.boxes[b].owner);
      FolderAt(db.boxes, db.msgs, b);
      forall c | c in BoxIds(db, user, name) ensures c == b {}
    }
    if Has(View(db), user, name) {
      var i := UserAt(db.users, user);
      assert BoxAt(db.boxes, i, name) in BoxIds(db, user, name);
    }
  }

  lemma UserFact(db: Db, a: string)
    requires Sound(db)
    ensures UserIds(db, a) == {} <==> a !in View(db).accounts
    ensures forall i :: i in UserIds(db, a) ==>
              UserIds(db, a) == {i} && View(db).accounts[a] == AccountOf(db.boxes, db.msgs, i)
  {
    forall i | i in UserIds(db, a)
      ensures UserIds(db, a) == {i} && a in View(db).accounts && View(db).accounts[a] == AccountOf(db.boxes, db.msgs, i)
    {
      AccountAt(db.users, db.boxes, db.msgs, i);
    }
    if a in View(db).accounts { assert UserAt(db.users, a) in UserIds(db, a); }
  }

  lemma NameFact(db: Db, i: Id, name: string)
    requires Sound(db) && i in db.users
    ensures NameTaken(db, i, name) <==> name in View(db).accounts[db.users[i].address]
  {
    AccountAt(db.users, db.boxes, db.msgs, i);
    assert NameTaken(db, i, name) <==> name in Names(db.boxes, i);
  }

  // ---- one mailbox changes ----------------------------------------------------------------------------------------

  /** Only mailbox `b`'s row and the messages in it differ. */
  ghost predicate OnlyBox(boxes: map<Id, Box>, msgs: map<Id, Msg>, boxes': map<Id, Box>, msgs': map<Id, Msg>, b: Id) {
    && b in boxes && boxes'.Keys == boxes.Keys
    && (forall c :: c in boxes && c != b ==> boxes'[c] == boxes[c])
    && boxes'[b].owner == boxes[b].owner && boxes'[b].name == boxes[b].name
    && (forall m :: m in msgs && msgs[m].box != b ==> m in msgs' && msgs'[m] == msgs[m])
    && (forall m :: m in msgs' && msgs'[m].box != b ==> m in msgs && msgs'[m] == msgs[m])
    && UniqueNames(boxes) && UniqueUids(msgs) && UniqueUids(msgs')
  }

  lemma NamesSame(boxes: map<Id, Box>, msgs: map<Id, Msg>, boxes': map<Id, Box>, msgs': map<Id, Msg>, b: Id, j: Id)
    requires OnlyBox(boxes, msgs, boxes', msgs', b)
    ensures Names(boxes', j) == Names(boxes, j) && UniqueNames(boxes')
  {
    assert forall c :: c in boxes ==> boxes'[c].owner == boxes[c].owner && boxes'[c].name == boxes[c].name;
  }

  /** The owner's account changes at that folder only; other accounts do not. */
  lemma AccountPut(boxes: map<Id, Box>, msgs: map<Id, Msg>, boxes': map<Id, Box>, msgs': map<Id, Msg>, b: Id, j: Id)
    requires OnlyBox(boxes, msgs, boxes', msgs', b)
    ensures AccountOf(boxes', msgs', j)
         == if j == boxes[b].owner then AccountOf(boxes, msgs, j)[boxes[b].name := MailboxOf(boxes', msgs', b)]
            else AccountOf(boxes, msgs, j)
  {
    hide MailOf;
    var was := AccountOf(boxes, msgs, j);
    var r := if j == boxes[b].owner then was[boxes[b].name := MailboxOf(boxes', msgs', b)] else was;
    NamesSame(boxes, msgs, boxes', msgs', b, j);
    assert b in boxes;
    forall c | c in boxes' && boxes'[c].owner == j
      ensures boxes'[c].name in r && r[boxes'[c].name] == MailboxOf(boxes', msgs', c)
    {
      FolderAt(boxes, msgs, c);
      if c != b { MailOfSame(msgs, msgs', c); }
    }
    AccountOfIs(boxes', msgs', j, r);
  }

  lemma AccountsPut(users: map<Id, User>, boxes: map<Id, Box>, msgs: map<Id, Msg>, boxes': map<Id, Box>,
                    msgs': map<Id, Msg>, b: Id)
    requires UniqueAddresses(users) && OnlyBox(boxes, msgs, boxes', msgs', b) && boxes[b].owner in users
    ensures var u := users[boxes[b].owner].address; var was := AccountsOf(users, boxes, msgs);
            u in was && AccountsOf(users, boxes', msgs') ==
                was[u := was[u][boxes[b].name := MailboxOf(boxes', msgs', b)]]
  {
    hide MailOf, AccountOf;
    var i := boxes[b].owner;
    var was := AccountsOf(users, boxes, msgs);
    AccountAt(users, boxes, msgs, i);
    var r := was[users[i].address := was[users[i].address][boxes[b].name := MailboxOf(boxes', msgs', b)]];
    forall j | j in users ensures users[j].address in r && r[users[j].address] == AccountOf(boxes', msgs', j) {
      AccountAt(users, boxes, msgs, j);
      AccountPut(boxes, msgs, boxes', msgs', b, j);
    }
    AccountsOfIs(users, boxes', msgs', r);
  }

  lemma ViewPut(db: Db, db': Db, b: Id)
    requires UniqueAddresses(db.users) && OnlyBox(db.boxes, db.msgs, db'.boxes, db'.msgs, b) &&
             db.boxes[b].owner in db.users
    requires db'.users == db.users && db'.aliases == db.aliases
    ensures var u := db.users[db.boxes[b].owner].address;
            u in View(db).accounts
            && View(db') == Put(View(db), u, db.boxes[b].name, MailboxOf(db'.boxes, db'.msgs, b))
  {
    AccountsPut(db.users, db.boxes, db.msgs, db'.boxes, db'.msgs, b);
  }

  // ---- a message arrives under a mailbox's next UID ---------------------------------------------------------------

  /** Row `row` is stored as message `id` and its mailbox's counter is incremented. */
  function Placed(db: Db, id: Id, row: Msg, next: Id): Db
    requires row.box in db.boxes
  {
    Increment(db.(msgs := db.msgs[id := row], nextMsg := next), row.box)
  }

  ghost predicate Placeable(db: Db, id: Id, row: Msg, next: Id) {
    && row.box in db.boxes && row.uid == db.boxes[row.box].uidNext && row.size == |row.body| && WellFormed(row.flags)
    && id !in db.msgs && id < next && db.nextMsg <= next
  }

  /** uid_next has not been used in its mailbox, and the next message id not at all. */
  lemma FreshUid(db: Db, b: Id)
    requires Sound(db) && b in db.boxes
    ensures db.nextMsg !in db.msgs && db.boxes[b].uidNext !in Uids(db.msgs, b) && 1 <= db.boxes[b].uidNext
  {
    forall m | m in db.msgs && db.msgs[m].box == b ensures db.msgs[m].uid < db.boxes[b].uidNext {
      assert MsgOk(db.msgs[m], db.boxes);
    }
  }

  /** Raising a counter keeps the mailboxes' keys and every message's bound. */
  lemma IncrementBoxes(boxes: map<Id, Box>, next: Id, users: map<Id, User>, b: Id, boxes': map<Id, Box>)
    requires BoxesOk(boxes, next, users) && b in boxes
    requires boxes' == boxes[b := boxes[b].(uidNext := boxes[b].uidNext + 1)]
    ensures BoxesOk(boxes', next, users)
    ensures forall m: Msg :: MsgOk(m, boxes) ==> MsgOk(m, boxes')
  {}

  lemma PlacedSound(db: Db, id: Id, row: Msg, next: Id)
    requires Sound(db) && Placeable(db, id, row, next) && UniqueUids(db.msgs[id := row]) && 1 <= row.uid
    ensures var db' := Placed(db, id, row, next); Sound(db') && OnlyBox(db.boxes, db.msgs, db'.boxes, db'.msgs, row.box)
  {
    hide UsersOk, AliasesOk, WellFormed, UniqueNames, UniqueUids;
    var db' := Placed(db, id, row, next);
    IncrementBoxes(db.boxes, db.nextBox, db.users, row.box, db'.boxes);
    forall m | m in db'.msgs ensures m < db'.nextMsg && MsgOk(db'.msgs[m], db'.boxes) {
      if m != id { assert MsgOk(db.msgs[m], db.boxes); }
    }
  }

  lemma PlacedView(db: Db, id: Id, row: Msg, next: Id)
    requires Sound(db) && Placeable(db, id, row, next)
    ensures var db' := Placed(db, id, row, next); var b := row.box;
            && Sound(db') && db.boxes[b].owner in db.users
            && var u := db.users[db.boxes[b].owner].address;
               u in View(db).accounts
               && View(db') == Put(View(db), u, db.boxes[b].name, Appended(MailboxOf(db.boxes, db.msgs, b), Read(row)))
  {
    hide Sound, OnlyBox, UniqueAddresses, UniqueUids, MailOf, AccountsOf, AliasesOf, Read, WellFormed, Uids;
    FreshUid(db, row.box);
    Keys(db);
    MailInsert(db.msgs, id, row);
    PlacedSound(db, id, row, next);
    ViewPut(db, Placed(db, id, row, next), row.box);
  }

  lemma AppendRefines(db: Db, user: string, name: string, column: Option<string>, body: Bytes)
    requires Sound(db) && WellFormed(column)
    ensures Sound(Append(db, user, name, column, body).0)
    ensures var r := Append(db, user, name, column, body);
            (View(r.0), r.1) == SpecAppend(View(db), user, name, Message(Decode(column), body))
  {
    hide Sound, MailOf, Decode, WellFormed, AccountsOf, AliasesOf;
    BoxFact(db, user, name);
    var ids := BoxIds(db, user, name);
    if ids != {} {
      var b := The(ids);
      FreshUid(db, b);
      assert !UidTaken(db, b, db.boxes[b].uidNext, {});
      PlacedView(db, db.nextMsg, Msg(b, db.boxes[b].uidNext, column, |body|, body), db.nextMsg + 1);
    }
  }

  // ---- messages of one mailbox are deleted or marked --------------------------------------------------------------

  lemma PutSame(w: World, user: string, name: string)
    requires Has(w, user, name)
    ensures Put(w, user, name, w.accounts[user][name]) == w
  {
    var acc := w.accounts[user];
    assert acc[name := acc[name]] == acc;
    assert w.accounts[user := acc] == w.accounts;
  }

  /** Deleting messages of mailbox `b` removes them from its mail, and nothing else. */
  lemma RemovedView(db: Db, ids: set<Id>, b: Id)
    requires Sound(db) && b in db.boxes && forall m :: m in ids && m in db.msgs ==> db.msgs[m].box == b
    ensures var db' := DeleteMsgs(db, ids);
            && Sound(db') && db.boxes[b].owner in db.users
            && var u := db.users[db.boxes[b].owner].address;
               u in View(db).accounts && View(db') ==
                   Put(View(db), u, db.boxes[b].name, MailboxOf(db.boxes, db'.msgs, b))
  {
    hide MailboxOf, MailOf, AccountsOf, AliasesOf, UsersOk, AliasesOk, WellFormed, UniqueNames;
    var db' := DeleteMsgs(db, ids);
    Keys(db);
    ViewPut(db, db', b);
  }

  lemma DeleteRefines(db: Db, user: string, name: string, uid: int)
    requires Sound(db)
    ensures var db' := Do(db, MailDelete(user, name, uid)).0;
            Sound(db') && View(db') == Spec(View(db), MailDelete(user, name, uid)).0
  {
    hide Sound, AccountsOf, AliasesOf, MailOf, UniqueUids;
    BoxFact(db, user, name);
    Keys(db);
    var ids := MsgIdsAt(db, user, name, uid);
    if b :| b in BoxIds(db, user, name) {
      RemovedView(db, ids, b);
      DeletedMail(db.msgs, ids, b, uid);
    } else {
      assert DeleteMsgs(db, ids) == db;
    }
  }

  lemma DeletedMail(msgs: map<Id, Msg>, ids: set<Id>, b: Id, uid: int)
    requires UniqueUids(msgs)
    requires forall m :: m in msgs ==> (m in ids <==> msgs[m].box == b && msgs[m].uid == uid)
    ensures MailOf(map m | m in msgs && m !in ids :: msgs[m], b) == MailOf(msgs, b) - {uid}
  {
    hide Read, UniqueUids;
    MailRemove(msgs, map m | m in msgs && m !in ids :: msgs[m], b);
  }

  lemma ExpungeRefines(db: Db, user: string, name: string)
    requires Sound(db)
    ensures var db' := Do(db, MailExpunge(user, name)).0;
            Sound(db') && View(db') == Spec(View(db), MailExpunge(user, name)).0
  {
    hide Sound, AccountsOf, AliasesOf, Expungeable, Decode, MailboxOf, Kept;
    BoxFact(db, user, name);
    var ids := set m | m in MsgIds(db, user, name) && Expungeable(db.msgs[m].flags);
    if b :| b in BoxIds(db, user, name) {
      RemovedView(db, ids, b);
      ExpungedMail(db, ids, b);
    } else {
      assert DeleteMsgs(db, ids) == db;
    }
  }

  /** On every row of the table, the LIKE test of MailExpunge agrees with the decoded flag. */
  lemma ExpungeAgrees(db: Db)
    requires Sound(db)
    ensures forall m :: m in db.msgs ==> (Expungeable(db.msgs[m].flags) <==> Decode(db.msgs[m].flags).deleted)
  {
    hide Expungeable, Decode, UsersOk, BoxesOk, AliasesOk, WellFormed;
    forall m | m in db.msgs ensures Expungeable(db.msgs[m].flags) <==> Decode(db.msgs[m].flags).deleted {
      assert MsgOk(db.msgs[m], db.boxes);
      LikeAgrees(db.msgs[m].flags);
    }
  }

  lemma ExpungedMail(db: Db, ids: set<Id>, b: Id)
    requires Sound(db) && b in db.boxes
    requires forall m :: m in ids <==> m in db.msgs && db.msgs[m].box == b && Expungeable(db.msgs[m].flags)
    ensures MailboxOf(db.boxes, DeleteMsgs(db, ids).msgs, b) == Kept(MailboxOf(db.boxes, db.msgs, b))
  {
    hide Expungeable, Decode, Sound, UniqueUids, MailOf;
    Keys(db);
    ExpungeAgrees(db);
    UndeletedMail(db.msgs, DeleteMsgs(db, ids).msgs, b);
  }

  lemma UndeletedMail(msgs: map<Id, Msg>, msgs': map<Id, Msg>, b: Id)
    requires UniqueUids(msgs) && (forall m :: m in msgs' ==> m in msgs && msgs'[m] == msgs[m])
    requires forall m :: m in msgs && msgs[m].box == b ==> (m in msgs' <==> !Decode(msgs[m].flags).deleted)
    ensures MailOf(msgs', b) == map u | u in MailOf(msgs, b) && !MailOf(msgs, b)[u].flags.deleted :: MailOf(msgs, b)[u]
  {
    hide Decode, UniqueUids;
    MailRemove(msgs, msgs', b);
    forall u | u in MailOf(msgs, b) ensures u in MailOf(msgs', b) <==> !MailOf(msgs, b)[u].flags.deleted {
      var m := MsgAt(msgs, b, u);
    }
  }

  lemma FlagsRefine(db: Db, user: string, name: string, uid: int, f: Flags)
    requires Sound(db)
    ensures var db' := Do(db, MailUpdateFlags(user, name, uid, f)).0;
            Sound(db') && View(db') == Spec(View(db), MailUpdateFlags(user, name, uid, f)).0
  {
    hide Sound, AccountsOf, AliasesOf, MailOf, UniqueUids, Encode;
    BoxFact(db, user, name);
    Keys(db);
    var ids := MsgIdsAt(db, user, name, uid);
    if b :| b in BoxIds(db, user, name) {
      MarkedView(db, ids, b, f);
      MarkedMail(db.msgs, ids, b, uid, f);
      PutSame(View(db), user, name);
    } else {
      assert SetFlags(db, ids, Some(Encode(f))) == db;
    }
  }

  lemma MarkedView(db: Db, ids: set<Id>, b: Id, f: Flags)
    requires Sound(db) && b in db.boxes && forall m :: m in ids && m in db.msgs ==> db.msgs[m].box == b
    ensures var db' := SetFlags(db, ids, Some(Encode(f)));
            && Sound(db') && db.boxes[b].owner in db.users
            && var u := db.users[db.boxes[b].owner].address;
               u in View(db).accounts && View(db') ==
                   Put(View(db), u, db.boxes[b].name, MailboxOf(db.boxes, db'.msgs, b))
  {
    hide MailboxOf, MailOf, AccountsOf, AliasesOf, UsersOk, AliasesOk, Encode, UniqueNames, UniqueUids, WellFormed;
    var db' := SetFlags(db, ids, Some(Encode(f)));
    Keys(db);
    SameKeys(db.msgs, db'.msgs, b);
    forall m | m in db'.msgs ensures MsgOk(db'.msgs[m], db'.boxes) {
      assert MsgOk(db.msgs[m], db.boxes);
      EncodedWellFormed(f);
    }
    assert OnlyBox(db.boxes, db.msgs, db'.boxes, db'.msgs, b);
    ViewPut(db, db', b);
  }

  lemma EncodedWellFormed(f: Flags)
    ensures WellFormed(Some(Encode(f)))
  {}

  /** Rewriting columns other than the mailbox and the UID changes no key. */
  lemma SameKeys(msgs: map<Id, Msg>, msgs': map<Id, Msg>, b: Id)
    requires UniqueUids(msgs) && msgs'.Keys == msgs.Keys
    requires forall m :: m in msgs ==> msgs'[m].box == msgs[m].box && msgs'[m].uid == msgs[m].uid
    ensures UniqueUids(msgs') && Uids(msgs', b) == Uids(msgs, b)
    ensures forall u :: u in Uids(msgs, b) ==> MsgAt(msgs', b, u) == MsgAt(msgs, b, u)
  {
    forall u ensures u in Uids(msgs', b) <==> u in Uids(msgs, b) {
      if u in Uids(msgs, b) { assert msgs'[MsgAt(msgs, b, u)].uid == u; }
      if u in Uids(msgs', b) { assert msgs[MsgAt(msgs', b, u)].uid == u; }
    }
  }

  lemma MarkedMail(msgs: map<Id, Msg>, ids: set<Id>, b: Id, uid: int, f: Flags)
    requires UniqueUids(msgs)
    requires forall m :: m in msgs ==> (m in ids <==> msgs[m].box == b && msgs[m].uid == uid)
    ensures var msgs' := map m | m in msgs :: if m in ids then msgs[m].(flags := Some(Encode(f))) else msgs[m];
            var was := MailOf(msgs, b);
            MailOf(msgs', b) == if uid in was then was[uid := was[uid].(flags := f)] else was
  {
    hide Decode, Encode, UniqueUids, Uids, MailOf;
    var msgs' := map m | m in msgs :: if m in ids then msgs[m].(flags := Some(Encode(f))) else msgs[m];
    var was := MailOf(msgs, b);
    SameKeys(msgs, msgs', b);
    RoundTrip(f);
    var r := if uid in was then was[uid := was[uid].(flags := f)] else was;
    forall m | m in msgs' && msgs'[m].box == b ensures msgs'[m].uid in r && r[msgs'[m].uid] == Read(msgs'[m]) {
      MailAt(msgs, m);
    }
    MailKeys(msgs, b);
    MailOfIs(msgs', b, r);
  }

  lemma MailKeys(msgs: map<Id, Msg>, b: Id)
    ensures MailOf(msgs, b).Keys == Uids(msgs, b)
  {}

  // ---- MailMove ---------------------------------------------------------------------------------------------------

  lemma MoveRefines(db: Db, user: string, name: string, uid: int, dest: string)
    requires Sound(db)
    ensures var r := Move(db, user, name, uid, dest);
            Sound(r.0) && (View(r.0), r.1) == SpecMove(View(db), user, name, uid, dest)
  {
    hide Sound, MailOf, AccountsOf, AliasesOf, Read, Uids, UniqueUids;
    BoxFact(db, user, name);
    BoxFact(db, user, dest);
    var ids := MsgIdsAt(db, user, name, uid);
    if s :| s in BoxIds(db, user, name) {
      if d :| d in BoxIds(db, user, dest) {
        FreshUid(db, d);
        SameOwner(db, s, d);
        NamedMessage(db, s, uid, ids);
        NotTaken(db, d, ids);
        if ids == {} {
          assert Relocate(db, ids, d, db.boxes[d].uidNext).msgs == db.msgs;
          BumpedView(db, d);
        } else {
          MovedView(db, s, d, uid, The(ids));
          assert ids == {The(ids)};
          assert Relocate(db, ids, d, db.boxes[d].uidNext).msgs
              == DeleteMsgs(db, ids).msgs[The(ids) := db.msgs[The(ids)].(box := d, uid := db.boxes[d].uidNext)];
        }
      }
    }
  }

  lemma SameOwner(db: Db, s: Id, d: Id)
    requires Sound(db) && s in db.boxes && d in db.boxes && db.boxes[s].owner in db.users &&
             db.boxes[d].owner in db.users
    requires db.users[db.boxes[s].owner].address == db.users[db.boxes[d].owner].address
    ensures db.boxes[s].owner == db.boxes[d].owner
  {}

  lemma NotTaken(db: Db, d: Id, ids: set<Id>)
    requires d in db.boxes && db.boxes[d].uidNext !in Uids(db.msgs, d)
    ensures !UidTaken(db, d, db.boxes[d].uidNext, ids)
  {}

  /** A move names at most one row: the one the view shows under that UID. */
  lemma NamedMessage(db: Db, s: Id, uid: int, ids: set<Id>)
    requires Sound(db) && forall m :: m in ids <==> m in db.msgs && db.msgs[m].box == s && db.msgs[m].uid == uid
    ensures ids == {} <==> uid !in MailOf(db.msgs, s)
    ensures forall m :: m in ids ==>
              ids == {m} && uid in MailOf(db.msgs, s) && MailOf(db.msgs, s)[uid] == Read(db.msgs[m])
  {
    hide Read, AliasesOk, UsersOk, BoxesOk, MsgOk;
    forall m | m in ids ensures ids == {m} && uid in MailOf(db.msgs, s) && MailOf(db.msgs, s)[uid] == Read(db.msgs[m]) {
      MailAt(db.msgs, m);
      assert forall n :: n in ids ==> n == m;
    }
    if uid in Uids(db.msgs, s) { assert MsgAt(db.msgs, s, uid) in ids; }
  }

  lemma BumpedView(db: Db, d: Id)
    requires Sound(db) && d in db.boxes
    ensures var db' := Increment(db, d);
            && Sound(db') && db.boxes[d].owner in db.users
            && var u := db.users[db.boxes[d].owner].address;
               u in View(db).accounts
               && View(db') == Put(View(db), u, db.boxes[d].name,
                                   MailboxOf(db.boxes, db.msgs, d).(uidNext := db.boxes[d].uidNext + 1))
  {
    hide MailOf, AccountsOf, AliasesOf, AliasesOk, UsersOk, UniqueNames, UniqueUids, MsgOk;
    Keys(db);
    IncrementBoxes(db.boxes, db.nextBox, db.users, d, Increment(db, d).boxes);
    ViewPut(db, Increment(db, d), d);
  }

  /** Taking message `m` out of its mailbox and placing it in another under the other's next UID. */
  lemma MovedView(db: Db, s: Id, d: Id, uid: nat, m: Id)
    requires Sound(db) && m in db.msgs && db.msgs[m].box == s && db.msgs[m].uid == uid && s in db.boxes && d in db.boxes
    requires db.boxes[s].owner == db.boxes[d].owner && db.boxes[s].owner in db.users
    ensures var u := db.users[db.boxes[s].owner].address;
            var row := db.msgs[m].(box := d, uid := db.boxes[d].uidNext);
            var db' := Increment(db.(msgs := DeleteMsgs(db, {m}).msgs[m := row]), d);
            var w := View(db);
            && Sound(db') && u in w.accounts
            && var w1 := Put(w, u, db.boxes[s].name,
                             MailboxOf(db.boxes, db.msgs, s).(mail := MailOf(db.msgs, s) - {uid}));
               && db.boxes[d].name in w1.accounts[u]
               && View(db') == Put(w1, u, db.boxes[d].name,
                                   Appended(w1.accounts[u][db.boxes[d].name], Read(db.msgs[m])))
  {
    hide Sound, MailOf, AccountsOf, AliasesOf, Read, Uids, UniqueUids;
    var db1 := DeleteMsgs(db, {m});
    var row := db.msgs[m].(box := d, uid := db.boxes[d].uidNext);
    MoveParts(db, m, d);
    RemovedView(db, {m}, s);
    DeletedMail(db.msgs, {m}, s, uid);
    DestinationFact(db1, d);
    PlacedView(db1, m, row, db1.nextMsg);
  }

  lemma MoveParts(db: Db, m: Id, d: Id)
    requires Sound(db) && m in db.msgs && d in db.boxes
    ensures UniqueUids(db.msgs)
    ensures forall n :: n in db.msgs && db.msgs[n].box == db.msgs[m].box && db.msgs[n].uid == db.msgs[m].uid ==> n == m
    ensures Placeable(DeleteMsgs(db, {m}), m, db.msgs[m].(box := d, uid := db.boxes[d].uidNext), db.nextMsg)
    ensures Read(db.msgs[m].(box := d, uid := db.boxes[d].uidNext)) == Read(db.msgs[m])
  {
    assert MsgOk(db.msgs[m], db.boxes);
  }

  lemma DestinationFact(db: Db, d: Id)
    requires Sound(db) && d in db.boxes
    ensures db.boxes[d].owner in db.users
    ensures var u := db.users[db.boxes[d].owner].address;
            Has(View(db), u, db.boxes[d].name)
            && View(db).accounts[u][db.boxes[d].name] == MailboxOf(db.boxes, db.msgs, d)
  {
    hide MailboxOf, MsgOk;
    AccountAt(db.users, db.boxes, db.msgs, db.boxes[d].owner);
    FolderAt(db.boxes, db.msgs, d);
  }
}
