/** What an account holds, by message row: moving messages between its folders changes none of it. */
module Holdings {
  import opened Wrappers
  import opened Schema
  import opened Operations
  import opened Sums
  import opened StoreQueries

  datatype Holding = Holding(flags: Option<string>, size: nat, body: Bytes)

  /** The messages of user row i, in whatever folder and under whatever UID. */
  function Held(db: Db, i: Id): map<Id, Holding> {
    map m | m in db.msgs && db.msgs[m].box in db.boxes && db.boxes[db.msgs[m].box].owner == i
      :: Holding(db.msgs[m].flags, db.msgs[m].size, db.msgs[m].body)
  }

  /** A move keeps every message of every account, with its flags and body, in that account. */
  lemma MoveKeepsHoldings(db: Db, user: string, name: string, uid: int, dest: string, i: Id)
    requires Sound(db)
    ensures Held(Do(db, MailMove(user, name, uid, dest)).0, i) == Held(db, i)
  {
    hide MsgsOk, AliasesOk, BoxesOk, UidTaken;
    var r := Move(db, user, name, uid, dest);
    if r.1 == OK {
      MovedOwner(db, user, name, uid, dest);
      RelocatedHoldings(db, MsgIdsAt(db, user, name, uid), The(BoxIds(db, user, dest)), i);
    }
  }

  /** Every account holds the same messages in both. */
  ghost predicate SameHoldings(db: Db, db': Db) { forall i :: Held(db', i) == Held(db, i) }

  lemma MoveKeepsAll(db: Db, user: string, name: string, uid: int, dest: string)
    requires Sound(db)
    ensures SameHoldings(db, Do(db, MailMove(user, name, uid, dest)).0)
  {
    hide Held, Do, Sound;
    forall i ensures Held(Do(db, MailMove(user, name, uid, dest)).0, i) == Held(db, i) {
      MoveKeepsHoldings(db, user, name, uid, dest, i);
    }
  }

  lemma SameThroughout(a: Db, b: Db, c: Db)
    requires SameHoldings(a, b) && SameHoldings(b, c)
    ensures SameHoldings(a, c)
  {
    hide Held;
  }

  lemma SameToStart(a: Db)
    ensures SameHoldings(a, a)
  {}

  /** Both folders of a move belong to the same user row. */
  lemma MovedOwner(db: Db, user: string, name: string, uid: int, dest: string)
    requires Sound(db) && BoxIds(db, user, dest) != {}
    ensures var d := The(BoxIds(db, user, dest));
            && d in db.boxes
            && forall m :: m in MsgIdsAt(db, user, name, uid) ==>
                 m in db.msgs && db.msgs[m].box in db.boxes && db.boxes[db.msgs[m].box].owner == db.boxes[d].owner
  {
    hide MsgsOk, AliasesOk, BoxesOk;
  }

  lemma RelocatedHoldings(db: Db, ids: set<Id>, d: Id, i: Id)
    requires d in db.boxes
    requires forall m :: m in ids ==>
               m in db.msgs && db.msgs[m].box in db.boxes && db.boxes[db.msgs[m].box].owner == db.boxes[d].owner
    ensures Held(Increment(Relocate(db, ids, d, db.boxes[d].uidNext), d), i) == Held(db, i)
  {}

  /** So the used bytes, and the multiset of messages, stay the same too. */
  lemma SameHoldingsSameBytes(db: Db, db': Db, a: string, i: Id)
    requires Sound(db) && Sound(db') && i in UserIds(db, a) && i in UserIds(db', a) && Held(db', i) == Held(db, i)
    ensures a in View(db).accounts && a in View(db').accounts
    ensures AccountBytes(View(db').accounts[a]) == AccountBytes(View(db).accounts[a])
  {
    hide Sound, View, AccountBytes, UserIds, Sum;
    QuotaIsBytes(db, a, i);
    QuotaIsBytes(db', a, i);
    SizesHeld(db, i);
    SizesHeld(db', i);
  }

  lemma SizesHeld(db: Db, i: Id)
    ensures SizesOwned(db, i) == map m | m in Held(db, i) :: Held(db, i)[m].size
  {}
}
