/** The database handle: each method runs the program's SQL statements one after the other on the tables.  The
    contracts say what the call does to the nested view, with the outcome; `db == Do(...)` says the same of the rows. */
module Storage {
  import opened Wrappers
  import opened TextSearch
  import opened Flags
  import opened Schema
  import opened Operations
  import opened Refinement
  import opened AccountRefinement
  import opened Ranks
  import opened Sums
  import opened StoreQueries

  /** The call did to `was` what `op` stands for, in the rows and in the view. */
  ghost predicate Did(was: Db, op: Op, db: Db, r: Outcome) {
    Sound(db) && (db, r) == Do(was, op) && (View(db), r) == Spec(View(was), op)
  }

  lemma DoneAs(was: Db, op: Op, db: Db, r: Outcome)
    requires Sound(was) && (db, r) == Do(was, op)
    ensures Did(was, op, db, r)
  {
    hide Do, Spec, Sound, View;
    Refines(was, op);
  }

  /** A join on unique keys has at most one row. */
  lemma OneBox(db: Db, user: string, name: string, b: Id)
    requires Sound(db) && b in BoxIds(db, user, name)
    ensures BoxIds(db, user, name) == {b} && The(BoxIds(db, user, name)) == b && b in db.boxes
  {
    hide Sound, View;
    BoxFact(db, user, name);
  }

  lemma OneUser(db: Db, a: string, i: Id)
    requires Sound(db) && i in UserIds(db, a)
    ensures UserIds(db, a) == {i} && The(UserIds(db, a)) == i
  {
    hide Sound, View;
    UserFact(db, a);
  }

  /** A row of `queue`. */
  datatype Queued = Queued(destination: string, id: int, from: string, rcpt: string)

  /** The rows left when those of `dest` for the messages `ids` are deleted. */
  function Cleared(queue: map<Id, Queued>, dest: string, ids: seq<int>): map<Id, Queued> {
    map k | k in queue && !(queue[k].destination == dest && queue[k].id in ids) :: queue[k]
  }

  predicate Pending(queue: map<Id, Queued>, id: int) { exists k :: k in queue && queue[k].id == id }

  function RowsFor(queue: map<Id, Queued>, dest: string): set<Id> { set k | k in queue && queue[k].destination == dest }

  /** `ks` names each row of the destination once, and no other row. */
  predicate Lists(ks: seq<Id>, queue: map<Id, Queued>, dest: string) {
    && (forall i :: 0 <= i < |ks| ==> ks[i] in queue && queue[ks[i]].destination == dest)
    && (forall k :: k in RowsFor(queue, dest) ==> k in ks)
    && Distinct(ks)
  }

  function RowsOf(queue: map<Id, Queued>, ks: seq<Id>): (refs: seq<Queued>)
    requires forall i :: 0 <= i < |ks| ==> ks[i] in queue
    ensures |refs| == |ks| && forall i :: 0 <= i < |ks| ==> refs[i] == queue[ks[i]]
  {
    seq(|ks|, i requires 0 <= i < |ks| => queue[ks[i]])
  }

  predicate Distinct<T(==)>(s: seq<T>) { forall i, j :: 0 <= i < j < |s| ==> s[i] != s[j] }

  function Destinations(queue: map<Id, Queued>): set<string> { set k | k in queue :: queue[k].destination }

  class Store {
    var db: Db
    var queue: map<Id, Queued>
    var nextRow: Id

    ghost predicate Valid() reads this`db { Sound(db) }

    // ---- folders --------------------------------------------------------------------------------------------------

    method MailboxCreate(username: string, name: string) returns (r: Outcome)
      requires Valid()
      modifies this`db
      ensures Did(old(db), Op.MailboxCreate(username, name), db, r)
    {
      hide Sound, View, Spec;
      ghost var was := db;
      InsertIgnore(username, name);
      r := OK;
      DoneAs(was, Op.MailboxCreate(username, name), db, r);
    }

    /** The INSERT IGNORE that MailboxCreate and DeliverToSent share. */
    method InsertIgnore(username: string, name: string)
      requires Valid()
      modifies this`db
      ensures db == EnsureBox(old(db), username, name)
    {
      hide Sound, UserIds, NameTaken;
      var ids := UserIds(db, username);
      if ids != {} {
        var i: Id :| i in ids;
        OneUser(db, username, i);
        if !NameTaken(db, i, name) {
          db := InsertBox(db, i, name);
        }
      }
    }

    method MailboxRename(username: string, name: string, newName: string) returns (r: Outcome)
      requires Valid()
      modifies this`db
      ensures Did(old(db), Op.MailboxRename(username, name, newName), db, r)
    {
      hide Sound, View, Spec, BoxIds, NameTaken;
      ghost var was := db;
      r := OK;
      var ids := BoxIds(db, username, name);
      if ids != {} && name != newName {
        var b: Id :| b in ids;
        OneBox(db, username, name, b);
        if NameTaken(db, db.boxes[b].owner, newName) {
          r := Failed;
        } else {
          db := RenameBox(db, b, newName);
        }
      }
      DoneAs(was, Op.MailboxRename(username, name, newName), db, r);
    }

    method MailboxDelete(username: string, name: string) returns (r: Outcome)
      requires Valid()
      modifies this`db
      ensures Did(old(db), Op.MailboxDelete(username, name), db, r)
    {
      hide Sound, View, Spec;
      ghost var was := db;
      db := DeleteBoxes(db, BoxIds(db, username, name));
      r := OK;
      DoneAs(was, Op.MailboxDelete(username, name), db, r);
    }

    // ---- mail -----------------------------------------------------------------------------------------------------

    /** Read id and uid_next, insert the message, increment uid_next: the three statements of every arrival. */
    method Arrive(username: string, name: string, column: Option<string>, data: Bytes) returns (r: Outcome)
      requires Valid()
      modifies this`db
      ensures (db, r) == Append(old(db), username, name, column, data)
    {
      hide Sound, BoxIds, UidTaken;
      var ids := BoxIds(db, username, name);
      if ids == {} { return Failed; }
      var mbID: Id :| mbID in ids;
      OneBox(db, username, name, mbID);
      var nextUID := db.boxes[mbID].uidNext;
      if UidTaken(db, mbID, nextUID, {}) { return Failed; }
      db := InsertMsg(db, mbID, nextUID, column, data);
      db := Increment(db, mbID);
      r := Done(nextUID);
    }

    method MailCreate(username: string, mailbox: string, data: Bytes) returns (r: Outcome)
      requires Valid()
      modifies this`db
      ensures Did(old(db), Op.MailCreate(username, mailbox, data), db, r)
    {
      hide Sound, View, Spec, Append;
      ghost var was := db;
      r := Arrive(username, mailbox, None, data);
      DoneAs(was, Op.MailCreate(username, mailbox, data), db, r);
    }

    method DeliverToUser(address: string, content: Bytes) returns (r: Outcome)
      requires Valid()
      modifies this`db
      ensures Did(old(db), Op.DeliverToUser(address, content), db, r)
    {
      hide Sound, View, Spec, Append;
      ghost var was := db;
      r := Arrive(address, INBOX, None, content);
      DoneAs(was, Op.DeliverToUser(address, content), db, r);
    }

    method DeliverToSent(address: string, content: Bytes) returns (r: Outcome)
      requires Valid()
      modifies this`db
      ensures Did(old(db), Op.DeliverToSent(address, content), db, r)
    {
      hide Sound, View, Spec, Append, EnsureBox;
      ghost var was := db;
      InsertIgnore(address, SENT);
      EnsureRefines(was, address, SENT);
      r := Arrive(address, SENT, Some(SEEN), content);
      DoneAs(was, Op.DeliverToSent(address, content), db, r);
    }

    method MailUpdateFlags(username: string, mailbox: string, id: int, seen: bool, answered: bool, flagged: bool,
                           deleted: bool)
      returns (r: Outcome)
      requires Valid()
      modifies this`db
      ensures Did(old(db), Op.MailUpdateFlags(username, mailbox, id, Flags(seen, answered, flagged, deleted)), db, r)
    {
      hide Sound, View, Spec, MsgIdsAt, Join;
      ghost var was := db;
      var flags: seq<string> := [];
      if seen { flags := flags + [SEEN]; }
      if answered { flags := flags + [ANSWERED]; }
      if flagged { flags := flags + [FLAGGED]; }
      if deleted { flags := flags + [DELETED]; }
      ghost var f := Flags(seen, answered, flagged, deleted);
      assert flags == Tokens(f);
      db := SetFlags(db, MsgIdsAt(db, username, mailbox, id), Some(Join(flags)));
      r := OK;
      DoneAs(was, Op.MailUpdateFlags(username, mailbox, id, f), db, r);
    }

    method MailDelete(username: string, mailbox: string, id: int) returns (r: Outcome)
      requires Valid()
      modifies this`db
      ensures Did(old(db), Op.MailDelete(username, mailbox, id), db, r)
    {
      hide Sound, View, Spec;
      ghost var was := db;
      db := DeleteMsgs(db, MsgIdsAt(db, username, mailbox, id));
      r := OK;
      DoneAs(was, Op.MailDelete(username, mailbox, id), db, r);
    }

    method MailExpunge(username: string, mailbox: string) returns (r: Outcome)
      requires Valid()
      modifies this`db
      ensures Did(old(db), Op.MailExpunge(username, mailbox), db, r)
    {
      hide Sound, View, Spec, Expungeable;
      ghost var was := db;
      db := DeleteMsgs(db, set m | m in MsgIds(db, username, mailbox) && Expungeable(db.msgs[m].flags));
      r := OK;
      DoneAs(was, Op.MailExpunge(username, mailbox), db, r);
    }

    method MailMove(username: string, mailbox: string, id: int, dest: string) returns (r: Outcome)
      requires Valid()
      modifies this`db
      ensures Did(old(db), Op.MailMove(username, mailbox, id, dest), db, r)
    {
      hide Sound, View, Spec, BoxIds, MsgIdsAt, UidTaken;
      ghost var was := db;
      var from, to := BoxIds(db, username, mailbox), BoxIds(db, username, dest);
      if from == {} || to == {} {
        r := Failed;
      } else {
        var destID: Id :| destID in to;
        OneBox(db, username, dest, destID);
        var nextUID := db.boxes[destID].uidNext;
        var ids := MsgIdsAt(db, username, mailbox, id);
        if ids != {} && UidTaken(db, destID, nextUID, ids) {
          r := Failed;
        } else {
          db := Relocate(db, ids, destID, nextUID);
          db := Increment(db, destID);
          r := OK;
        }
      }
      DoneAs(was, Op.MailMove(username, mailbox, id, dest), db, r);
    }

    // ---- accounts and aliases -------------------------------------------------------------------------------------

    method UserCreate(address: string) returns (r: Outcome)
      requires Valid()
      modifies this`db
      ensures Did(old(db), Op.UserCreate(address), db, r)
    {
      hide Sound, View, Spec, UserIds;
      ghost var was := db;
      if UserIds(db, address) != {} {
        r := Failed;
      } else {
        var userID := db.nextUser;
        db := InsertUser(db, address);
        db := InsertBox(db, userID, INBOX);
        r := OK;
      }
      DoneAs(was, Op.UserCreate(address), db, r);
    }

    method UserDelete(address: string) returns (r: Outcome)
      requires Valid()
      modifies this`db
      ensures Did(old(db), Op.UserDelete(address), db, r)
    {
      hide Sound, View, Spec, UserIds;
      ghost var was := db;
      var ids := UserIds(db, address);
      db := DeleteUsers(db, ids);
      var n := |ids|;
      r := if n == 0 then Failed else OK;
      if n == 0 { NothingDeleted(was); }
      DoneAs(was, Op.UserDelete(address), db, r);
    }

    method AddAlias(alias: string, targetAddress: string) returns (r: Outcome)
      requires Valid()
      modifies this`db
      ensures Did(old(db), Op.AddAlias(alias, targetAddress), db, r)
    {
      hide Sound, View, Spec, UserIds, AliasIds;
      ghost var was := db;
      r := OK;
      var ids := UserIds(db, targetAddress);
      if ids != {} {
        var i: Id :| i in ids;
        OneUser(db, targetAddress, i);
        if AliasIds(db, alias) != {} {
          r := Failed;
        } else {
          db := InsertAlias(db, alias, i, false);
        }
      }
      DoneAs(was, Op.AddAlias(alias, targetAddress), db, r);
    }

    method DeleteAlias(alias: string) returns (r: Outcome)
      requires Valid()
      modifies this`db
      ensures Did(old(db), Op.DeleteAlias(alias), db, r)
    {
      hide Sound, View, Spec, AliasIds;
      ghost var was := db;
      var ids := AliasIds(db, alias);
      db := DeleteAliases(db, ids);
      var n := |ids|;
      r := if n == 0 then Failed else OK;
      assert n == 0 ==> db == was;
      DoneAs(was, Op.DeleteAlias(alias), db, r);
    }

    method AssignYggmailAlias(address: string, yggAlias: string) returns (r: Outcome)
      requires Valid()
      modifies this`db
      ensures Did(old(db), AssignAlias(address, yggAlias), db, r)
    {
      hide Sound, View, Spec, UserIds, AliasIds;
      ghost var was := db;
      db := ClearNode(db);
      db := DeleteAliases(db, AliasIds(db, yggAlias));
      SameUserIds(was, db, address);
      var ids := UserIds(db, address);
      if ids != {} {
        var i: Id :| i in ids;
        OneUser(was, address, i);
        db := InsertAlias(db, yggAlias, i, true);
      }
      r := OK;
      DoneAs(was, AssignAlias(address, yggAlias), db, r);
    }

    // ---- queue ----------------------------------------------------------------------------------------------------

    method QueueInsertDestinationForID(dest: string, id: int, from: string, rcpt: string)
      requires nextRow !in queue
      modifies this`queue, this`nextRow
      ensures queue == old(queue)[old(nextRow) := Queued(dest, id, from, rcpt)] && nextRow == old(nextRow) + 1
    {
      queue := queue[nextRow := Queued(dest, id, from, rcpt)];
      nextRow := nextRow + 1;
    }

    method QueueDeleteDestinationForID(dest: string, id: int)
      modifies this`queue
      ensures queue == Cleared(old(queue), dest, [id])
      ensures forall k :: k in queue <==>
                k in old(queue) && !(old(queue)[k].destination == dest && old(queue)[k].id == id)
    {
      queue := map k | k in queue && !(queue[k].destination == dest && queue[k].id == id) :: queue[k];
    }

    /** The distinct destinations, in any order. */
    method QueueListDestinations() returns (dests: seq<string>)
      ensures Distinct(dests) && forall d :: d in dests <==> d in Destinations(queue)
      ensures forall d :: d in dests <==> exists k :: k in queue && queue[k].destination == d
    {
      dests := [];
      var rows := Destinations(queue);
      while rows != {}
        invariant Distinct(dests) && (forall d :: d in rows ==> d !in dests)
        invariant forall d :: d in dests || d in rows <==> d in Destinations(queue)
        decreases |rows|
      {
        var d :| d in rows;
        dests := dests + [d];
        rows := rows - {d};
      }
    }

    /** Each row of one destination once and no other, in any order. */
    method QueueMailIDsForDestination(dest: string) returns (mails: seq<Queued>)
      ensures exists keys :: Lists(keys, queue, dest) && mails == RowsOf(queue, keys)
    {
      mails := [];
      ghost var keys: seq<Id> := [];
      var rows := RowsFor(queue, dest);
      while rows != {}
        invariant rows <= RowsFor(queue, dest) && Distinct(keys)
        invariant forall i :: 0 <= i < |keys| ==> keys[i] in RowsFor(queue, dest) && keys[i] !in rows
        invariant forall k :: k in RowsFor(queue, dest) ==> k in keys || k in rows
        invariant |mails| == |keys| && forall i :: 0 <= i < |keys| ==> mails[i] == queue[keys[i]]
        decreases |rows|
      {
        var k: Id :| k in rows;
        mails := mails + [queue[k]];
        keys := keys + [k];
        rows := rows - {k};
      }
      assert Lists(keys, queue, dest) && mails == RowsOf(queue, keys);
    }

    /** The mailbox argument is not part of the query. */
    method QueueSelectIsMessagePendingSend(mailbox: string, id: int) returns (pending: bool)
      ensures pending == Pending(queue, id)
      ensures pending <==> exists k :: k in queue && queue[k].id == id
    {
      var rows := set k | k in queue && queue[k].id == id;
      var count := |rows|;
      pending := count > 0;
      if k :| k in queue && queue[k].id == id { assert k in rows; }
    }

    // ---- queries --------------------------------------------------------------------------------------------------

    method MailNextID(username: string, mailbox: string) returns (r: Result<nat>)
      requires Valid()
      ensures r == if Has(View(db), username, mailbox) then Result.Ok(View(db).accounts[username][mailbox].uidNext)
              else Err
    {
      hide Sound, View, MailOf;
      BoxFact(db, username, mailbox);
      var ids := BoxIds(db, username, mailbox);
      if ids == {} { return Err; }
      var b: Id :| b in ids;
      r := Result.Ok(db.boxes[b].uidNext);
    }

    /** ORDER BY m.uid LIMIT 1 OFFSET seq-1: the UID with that message sequence number. */
    method MailIDForSeq(username: string, mailbox: string, seqNum: int) returns (r: Result<nat>)
      requires Valid()
      ensures var list := Sorted(MailIn(View(db), username, mailbox).Keys);
              r == if 1 <= seqNum <= |list| then Result.Ok(list[seqNum - 1]) else Err
    {
      hide Sound, View, BoxIds, MailIn;
      FolderRows(db, username, mailbox);
      var rows := Sorted(UidsOf(db, MsgIds(db, username, mailbox)));
      r := if 0 <= seqNum - 1 < |rows| then Result.Ok(rows[seqNum - 1]) else Err;
    }

    method MailSearch(username: string, mailbox: string) returns (uids: seq<nat>)
      requires Valid()
      ensures uids == Sorted(MailIn(View(db), username, mailbox).Keys)
    {
      hide Sound, View, BoxIds, MailIn, Sorted, Min;
      FolderRows(db, username, mailbox);
      var rows := UidsOf(db, MsgIds(db, username, mailbox));
      ghost var all := rows;
      uids := [];
      while rows != {}
        invariant uids + Sorted(rows) == Sorted(all)
        decreases |rows|
      {
        var uid := Min(rows);
        NextUid(uids, rows);
        uids := uids + [uid];
        rows := rows - {uid};
      }
    }

    method MailCount(username: string, mailbox: string) returns (count: nat)
      requires Valid()
      ensures count == |MailIn(View(db), username, mailbox).Keys|
    {
      hide Sound, View, BoxIds, MailIn;
      FolderRows(db, username, mailbox);
      var rows := MsgIds(db, username, mailbox);
      CountsUids(db, rows);
      count := |rows|;
    }

    method MailUnseen(username: string, mailbox: string) returns (count: nat)
      requires Valid()
      ensures var mail := MailIn(View(db), username, mailbox);
              count == |set u | u in mail && !mail[u].flags.seen|
    {
      hide Sound, View, BoxIds, MailIn, Unseen;
      FolderRows(db, username, mailbox);
      UnseenRows(db, username, mailbox);
      var rows := set m | m in MsgIds(db, username, mailbox) && Unseen(db.msgs[m].flags);
      CountsUids(db, rows);
      count := |rows|;
    }

    /** The first result, which the IMAP server passes on as the sequence number, is the length of the body. */
    method MailSelect(username: string, mailbox: string, id: int) returns (r: Result<(nat, Message)>)
      requires Valid()
      ensures var mail := MailIn(View(db), username, mailbox);
              r == if id in mail then Result.Ok((|mail[id].body|, mail[id])) else Err
    {
      hide Sound, View, BoxIds, MailIn, Contains;
      FolderRows(db, username, mailbox);
      var rows := MsgIdsAt(db, username, mailbox, id);
      if rows == {} {
        NoRow(db, username, mailbox, id);
        return Err;
      }
      var m: Id :| m in rows;
      var body := db.msgs[m].body;
      var flags := if db.msgs[m].flags.Some? then db.msgs[m].flags.value else "";
      r := Result.Ok((|body|, Message(
        Flags(Contains(flags, SEEN), Contains(flags, ANSWERED), Contains(flags, FLAGGED), Contains(flags, DELETED)),
            body)));
    }

    method ResolveAlias(alias: string) returns (r: Result<string>)
      requires Valid()
      ensures r == if alias in View(db).aliases then Result.Ok(View(db).aliases[alias].address) else Err
    {
      hide Sound, AccountsOf, UniqueAliases;
      Keys(db);
      AliasFact(db, alias);
      var ids := set k | k in db.aliases && db.aliases[k].user in db.users && db.aliases[k].alias == alias;
      AliasOwners(db, alias);
      if ids == {} { return Err; }
      var k: Id :| k in ids;
      AliasFound(db.aliases, db.users, k);
      r := Result.Ok(db.users[db.aliases[k].user].address);
    }

    /** The used bytes: SUM(m.size) is the number of bytes of all bodies in the account. */
    method UserQuotaInfo(address: string) returns (r: Result<nat>)
      requires Valid()
      ensures r == if address in View(db).accounts then Result.Ok(AccountBytes(View(db).accounts[address])) else Err
    {
      hide Sound, View, AccountBytes, UserIds;
      UserFact(db, address);
      var ids := UserIds(db, address);
      if ids == {} { return Err; }
      var userID: Id :| userID in ids;
      QuotaIsBytes(db, address, userID);
      r := Result.Ok(Sum(SizesOwned(db, userID)));
    }
  }

  /** The list of the rest starts with its smallest. */
  lemma NextUid(uids: seq<nat>, rows: set<nat>)
    requires rows != {}
    ensures uids + Sorted(rows) == uids + [Min(rows)] + Sorted(rows - {Min(rows)})
  {
    assert Sorted(rows) == [Min(rows)] + Sorted(rows - {Min(rows)});
  }

  lemma NoRow(db: Db, user: string, name: string, uid: int)
    requires MsgIdsAt(db, user, name, uid) == {}
    ensures uid !in UidsOf(db, MsgIds(db, user, name))
  {
    forall m | m in MsgIds(db, user, name) ensures db.msgs[m].uid != uid {
      assert m !in MsgIdsAt(db, user, name, uid);
    }
  }

  /** The join of aliases with users loses no alias. */
  lemma AliasOwners(db: Db, alias: string)
    requires Sound(db)
    ensures AliasIds(db, alias) == set k | k in db.aliases && db.aliases[k].user in db.users &&
            db.aliases[k].alias == alias
  {}

  lemma NothingDeleted(db: Db)
    ensures DeleteUsers(db, {}) == db
  {
    assert BoxesOwned(db, {}) == {};
    assert (map m | m in db.msgs && db.msgs[m].box !in {} :: db.msgs[m]) == db.msgs;
  }

  lemma SameUserIds(a: Db, b: Db, address: string)
    requires a.users == b.users
    ensures UserIds(a, address) == UserIds(b, address)
  {}
}
