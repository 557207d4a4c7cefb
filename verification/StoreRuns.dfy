/** What holds of the mail store after any sequence of operations, run one at a time from the initial rows. */
module StoreRuns {
  import opened Wrappers
  import opened Flags
  import opened Schema
  import opened Operations
  import opened Refinement
  import opened AccountRefinement

  ghost function Tables(ops: seq<Op>): Db {
    if ops == [] then INIT else Do(Tables(ops[..|ops| - 1]), ops[|ops| - 1]).0
  }

  const INIT_WORLD := World(map[SYSTEM := map[OUTBOX := Mailbox(1, map[]), SENT := Mailbox(1, map[])]], map[])

  function Meaning(ops: seq<Op>): World {
    if ops == [] then INIT_WORLD else Spec(Meaning(ops[..|ops| - 1]), ops[|ops| - 1]).0
  }

  lemma InitialSound()
    ensures Sound(INIT)
  {
    assert |OUTBOX| != |SENT|;
  }

  lemma InitialAccount()
    ensures AccountOf(INIT.boxes, INIT.msgs, 0) == INIT_WORLD.accounts[SYSTEM]
  {
    hide Read, AccountOf, MailOf;
    EmptyMail(INIT.msgs, 0);
    EmptyMail(INIT.msgs, 1);
    var boxes := INIT.boxes;
    assert boxes[0].name == OUTBOX && boxes[1].name == SENT && |OUTBOX| != |SENT|;
    AccountOfIs(boxes, INIT.msgs, 0, map[OUTBOX := Mailbox(1, map[]), SENT := Mailbox(1, map[])]);
  }

  lemma InitialView()
    ensures Sound(INIT) && View(INIT) == INIT_WORLD
  {
    InitialSound();
    InitialAccount();
    hide AccountOf;
    assert INIT.users[0].address == SYSTEM;
    AccountsOfIs(INIT.users, INIT.boxes, INIT.msgs, INIT_WORLD.accounts);
    assert AliasNames(INIT.aliases) == {};
  }

  /** In every reachable state all unique keys and foreign keys hold, and the tables mean what the specification
      says. */
  lemma {:induction false} Reachable(ops: seq<Op>)
    ensures Sound(Tables(ops)) && View(Tables(ops)) == Meaning(ops)
  {
    if ops == [] {
      InitialView();
    } else {
      Reachable(ops[..|ops| - 1]);
      hide Sound, View, Do, Spec;
      Refines(Tables(ops[..|ops| - 1]), ops[|ops| - 1]);
    }
  }

  // ---- UIDs are given out in ascending order, once ----------------------------------------------------------------

  /** The mailbox row and UID an operation gives out, if a message arrives. */
  ghost function Assigned(db: Db, op: Op): seq<(Id, nat)> {
    match op
    case MailCreate(u, n, _) => AppendedTo(db, u, n)
    case DeliverToUser(a, _) => AppendedTo(db, a, INBOX)
    case DeliverToSent(a, _) => AppendedTo(EnsureBox(db, a, SENT), a, SENT)
    case MailMove(u, n, uid, dest) => if MsgIdsAt(db, u, n, uid) == {} then [] else AppendedTo(db, u, dest)
    case _ => []
  }

  /** The next UID of the folder's row. */
  ghost function AppendedTo(db: Db, user: string, name: string): seq<(Id, nat)> {
    if BoxIds(db, user, name) == {} then []
    else [(The(BoxIds(db, user, name)), db.boxes[The(BoxIds(db, user, name))].uidNext)]
  }

  /** Counters only grow; a mailbox row that appears is a new one. */
  ghost predicate Grown(db: Db, db': Db) {
    && db.nextBox <= db'.nextBox
    && (forall b :: b in db.boxes && b in db'.boxes ==> db.boxes[b].uidNext <= db'.boxes[b].uidNext)
    && (forall b :: b in db'.boxes && b !in db.boxes ==> b >= db.nextBox)
  }

  lemma CountersGrow(db: Db, op: Op)
    requires Sound(db)
    ensures Grown(db, Do(db, op).0)
  {
    hide Sound, Grown, EnsureBox, Append, Move, Rename, BoxIds, UserIds, MsgIds, MsgIdsAt;
    match op {
      case UserCreate(a) => FewerRows(db, db); RowAdded(db, InsertUser(db, a), db.nextUser, INBOX);
      case MailboxCreate(u, n) => EnsureGrows(db, u, n);
      case MailboxRename(u, n, n') => RenameGrows(db, u, n, n');
      case MailCreate(u, n, body) => AppendGrows(db, u, n, None, body);
      case MailMove(u, n, uid, dest) => MoveGrows(db, u, n, uid, dest);
      case DeliverToUser(a, body) => AppendGrows(db, a, INBOX, None, body);
      case DeliverToSent(a, body) =>
        var db1 := EnsureBox(db, a, SENT);
        EnsureGrows(db, a, SENT);
        AppendGrows(db1, a, SENT, Some(SEEN), body);
        GrowthChains(db, db1, Do(db, op).0);
      case _ => FewerRows(db, Do(db, op).0);
    }
  }

  lemma FewerRows(db: Db, db': Db)
    requires db'.nextBox == db.nextBox && forall b :: b in db'.boxes ==> b in db.boxes && db'.boxes[b] == db.boxes[b]
    ensures Grown(db, db')
  {}

  lemma RowAdded(db: Db, db1: Db, i: Id, name: string)
    requires Sound(db) && db1.boxes == db.boxes && db1.nextBox == db.nextBox
    ensures Grown(db, InsertBox(db1, i, name))
  {
    hide MsgsOk, AliasesOk, UniqueAddresses, UniqueNames;
  }

  lemma GrowthChains(a: Db, b: Db, c: Db)
    requires Grown(a, b) && Grown(b, c) && a.boxes.Keys <= b.boxes.Keys
    ensures Grown(a, c)
  {}

  lemma AppendGrows(db: Db, user: string, name: string, column: Option<string>, body: Bytes)
    ensures Grown(db, Append(db, user, name, column, body).0)
  {
    hide UidTaken;
  }

  lemma MoveGrows(db: Db, user: string, name: string, uid: int, dest: string)
    ensures Grown(db, Move(db, user, name, uid, dest).0)
  {
    hide UidTaken, MsgIdsAt;
  }

  lemma RenameGrows(db: Db, user: string, name: string, newName: string)
    ensures Grown(db, Rename(db, user, name, newName).0)
  {
    hide NameTaken;
  }

  lemma EnsureGrows(db: Db, user: string, name: string)
    requires Sound(db)
    ensures Grown(db, EnsureBox(db, user, name)) && db.boxes.Keys <= EnsureBox(db, user, name).boxes.Keys
  {
    hide Sound, Grown, NameTaken, UserIds;
    if UserIds(db, user) != {} { RowAdded(db, db, The(UserIds(db, user)), name); }
    FewerRows(db, db);
  }

  /** `entry` is the row and UID given out in the step from `db` to `db'`: the row's counter, which is raised past
      it. */
  ghost predicate GivenOut(db: Db, db': Db, entry: (Id, nat)) {
    && (entry.0 in db.boxes ==> entry.1 == db.boxes[entry.0].uidNext)
    && (entry.0 !in db.boxes ==> entry.0 >= db.nextBox)
    && entry.0 < db'.nextBox && entry.0 in db'.boxes && entry.1 < db'.boxes[entry.0].uidNext
  }

  /** What an operation gives out is the old counter, and is below the new one. */
  lemma AssignedIsNext(db: Db, op: Op)
    requires Sound(db)
    ensures |Assigned(db, op)| <= 1
    ensures Assigned(db, op) != [] ==> GivenOut(db, Do(db, op).0, Assigned(db, op)[0])
  {
    hide Sound, BoxIds, MsgIdsAt, Append, Move, EnsureBox, GivenOut;
    match op {
      case MailCreate(u, n, body) => if BoxIds(db, u, n) != {} { AppendGivesNext(db, u, n, None, body); }
      case DeliverToUser(a, body) => if BoxIds(db, a, INBOX) != {} { AppendGivesNext(db, a, INBOX, None, body); }
      case DeliverToSent(a, body) => if BoxIds(EnsureBox(db, a, SENT), a, SENT) != {} { SentGivesNext(db, a, body); }
      case MailMove(u, n, uid, dest) =>
        if BoxIds(db, u, dest) != {} && MsgIdsAt(db, u, n, uid) != {} { MoveGivesNext(db, u, n, uid, dest); }
      case _ =>
    }
  }

  lemma SentGivesNext(db: Db, a: string, body: Bytes)
    requires Sound(db) && BoxIds(EnsureBox(db, a, SENT), a, SENT) != {}
    ensures GivenOut(db, Do(db, DeliverToSent(a, body)).0, AppendedTo(EnsureBox(db, a, SENT), a, SENT)[0])
  {
    hide Sound, BoxIds, Append, EnsureBox, View;
    EnsureRefines(db, a, SENT);
    EnsureGrows(db, a, SENT);
    AppendGivesNext(EnsureBox(db, a, SENT), a, SENT, Some(SEEN), body);
    EnsureNew(db, a, SENT);
  }

  /** A row made on the way to an append starts from a counter nothing was given out under. */
  lemma EnsureNew(db: Db, user: string, name: string)
    requires Sound(db)
    ensures forall b :: b in db.boxes ==>
              b in EnsureBox(db, user, name).boxes && EnsureBox(db, user, name).boxes[b] == db.boxes[b]
  {
    hide MsgsOk, AliasesOk, UniqueAddresses, UniqueNames;
  }

  lemma AppendGivesNext(db: Db, user: string, name: string, column: Option<string>, body: Bytes)
    requires Sound(db) && BoxIds(db, user, name) != {}
    ensures GivenOut(db, Append(db, user, name, column, body).0, AppendedTo(db, user, name)[0])
  {
    FreshUid(db, The(BoxIds(db, user, name)));
    hide MsgsOk, AliasesOk, UsersOk, UniqueNames;
  }

  lemma MoveGivesNext(db: Db, user: string, name: string, uid: int, dest: string)
    requires Sound(db) && BoxIds(db, user, dest) != {} && MsgIdsAt(db, user, name, uid) != {}
    ensures GivenOut(db, Move(db, user, name, uid, dest).0, AppendedTo(db, user, dest)[0])
  {
    FreshUid(db, The(BoxIds(db, user, dest)));
    hide MsgsOk, AliasesOk, UsersOk, UniqueNames;
    var m := The(MsgIdsAt(db, user, name, uid));
    assert db.msgs[m].box in BoxIds(db, user, name);
  }

  // ---- ... and given out is what arrives ----------------------------------------------------------------------------

  /** Message m arrives in the step from `db` to `db'`: it is new, or its mailbox or UID has changed. */
  predicate Arrives(db: Db, db': Db, m: Id) {
    m in db'.msgs && (m in db.msgs ==> PlaceOf(db.msgs[m]) != PlaceOf(db'.msgs[m]))
  }

  function PlaceOf(m: Msg): (Id, nat) { (m.box, m.uid) }

  /** The messages that arrive are those an operation gives a UID to, under that UID in that mailbox: none or one. */
  ghost predicate ArrivesAs(db: Db, db': Db, given: seq<(Id, nat)>) {
    && (forall m :: Arrives(db, db', m) ==> given != [] && PlaceOf(db'.msgs[m]) == given[0])
    && (forall m, n :: Arrives(db, db', m) && Arrives(db, db', n) ==> m == n)
    && (given != [] ==> exists m :: Arrives(db, db', m))
  }

  lemma NoneArrive(db: Db, db': Db)
    requires forall m :: m in db'.msgs ==> m in db.msgs && PlaceOf(db'.msgs[m]) == PlaceOf(db.msgs[m])
    ensures ArrivesAs(db, db', [])
  {}

  lemma AppendArrives(db: Db, user: string, name: string, column: Option<string>, body: Bytes)
    requires Sound(db)
    ensures ArrivesAs(db, Append(db, user, name, column, body).0, AppendedTo(db, user, name))
  {
    hide UsersOk, AliasesOk, UniqueNames, UniqueUids;
    if BoxIds(db, user, name) == {} {
      NoneArrive(db, db);
    } else {
      var b := The(BoxIds(db, user, name));
      FreshUid(db, b);
      assert !UidTaken(db, b, db.boxes[b].uidNext, {});
      NewArrives(db, Append(db, user, name, column, body).0, db.nextMsg, (b, db.boxes[b].uidNext));
    }
  }

  lemma NewArrives(db: Db, db': Db, id: Id, place: (Id, nat))
    requires id in db'.msgs && PlaceOf(db'.msgs[id]) == place && (id in db.msgs ==> PlaceOf(db.msgs[id]) != place)
    requires forall m :: m in db'.msgs && m != id ==> m in db.msgs && db'.msgs[m] == db.msgs[m]
    ensures ArrivesAs(db, db', [place])
  {
    assert Arrives(db, db', id);
  }

  lemma MoveArrives(db: Db, user: string, name: string, uid: int, dest: string)
    requires Sound(db)
    ensures ArrivesAs(db, Move(db, user, name, uid, dest).0,
                      if MsgIdsAt(db, user, name, uid) == {} then [] else AppendedTo(db, user, dest))
  {
    var db' := Move(db, user, name, uid, dest).0;
    var ids := MsgIdsAt(db, user, name, uid);
    MoveParties(db, user, name, uid, dest);
    hide Sound, BoxIds, MsgIdsAt, UidTaken;
    if ids == {} || BoxIds(db, user, dest) == {} {
      NoneArrive(db, db');
    } else {
      NewArrives(db, db', The(ids), (The(BoxIds(db, user, dest)), db.boxes[The(BoxIds(db, user, dest))].uidNext));
    }
  }

  /** What a move finds: at most one message, its folder, and a UID of the destination that is free. */
  lemma MoveParties(db: Db, user: string, name: string, uid: int, dest: string)
    requires Sound(db)
    ensures var ids, to := MsgIdsAt(db, user, name, uid), BoxIds(db, user, dest);
            && (ids != {} ==> BoxIds(db, user, name) != {} && ids == {The(ids)} && The(ids) in db.msgs)
            && (to != {} ==> The(to) in db.boxes)
            && (to != {} && ids != {} ==>
                  var d, next := The(to), db.boxes[The(to)].uidNext;
                  PlaceOf(db.msgs[The(ids)]) != (d, next) && !UidTaken(db, d, next, ids))
  {
    var ids, to := MsgIdsAt(db, user, name, uid), BoxIds(db, user, dest);
    Keys(db);
    if to != {} { FreshUid(db, The(to)); }
    hide MsgsOk, UsersOk, AliasesOk;
    if ids != {} {
      var m := The(ids);
      assert db.msgs[m].box in BoxIds(db, user, name);
      OneFolder(db, user, name, db.msgs[m].box);
      forall k | k in ids ensures k == m {
        OneFolder(db, user, name, db.msgs[k].box);
      }
      if to != {} { assert db.msgs[m].uid in Uids(db.msgs, db.msgs[m].box); }
    }
  }

  lemma OneFolder(db: Db, user: string, name: string, b: Id)
    requires Sound(db) && b in BoxIds(db, user, name)
    ensures BoxIds(db, user, name) == {b}
  {
    hide Sound, View;
    BoxFact(db, user, name);
  }

  lemma SentArrives(db: Db, a: string, body: Bytes)
    requires Sound(db)
    ensures ArrivesAs(db, Do(db, DeliverToSent(a, body)).0, AppendedTo(EnsureBox(db, a, SENT), a, SENT))
  {
    hide Sound, View, Append, AppendedTo, ArrivesAs, EnsureBox;
    EnsureRefines(db, a, SENT);
    AppendArrives(EnsureBox(db, a, SENT), a, SENT, Some(SEEN), body);
    FolderBringsNone(db, a);
    SameArrivals(EnsureBox(db, a, SENT), db, Do(db, DeliverToSent(a, body)).0,
                 AppendedTo(EnsureBox(db, a, SENT), a, SENT));
  }

  lemma FolderBringsNone(db: Db, a: string)
    ensures EnsureBox(db, a, SENT).msgs == db.msgs
  {}

  lemma SameArrivals(db1: Db, db: Db, db': Db, given: seq<(Id, nat)>)
    requires db1.msgs == db.msgs && ArrivesAs(db1, db', given)
    ensures ArrivesAs(db, db', given)
  {
    assert forall m :: Arrives(db, db', m) <==> Arrives(db1, db', m);
  }

  /** What an operation gives out is taken by exactly one message, which is new or moved; nothing else arrives. */
  lemma AssignedArrives(db: Db, op: Op)
    requires Sound(db)
    ensures ArrivesAs(db, Do(db, op).0, Assigned(db, op))
  {
    hide Sound, ArrivesAs, Append, Move, EnsureBox, AppendedTo, BoxIds, MsgIdsAt, UserIds, MsgIds;
    match op {
      case MailCreate(u, n, body) => AppendArrives(db, u, n, None, body);
      case DeliverToUser(a, body) => AppendArrives(db, a, INBOX, None, body);
      case DeliverToSent(a, body) => SentArrives(db, a, body);
      case MailMove(u, n, uid, dest) => MoveArrives(db, u, n, uid, dest);
      case _ => SamePlaces(db, op);
    }
  }

  lemma SamePlaces(db: Db, op: Op)
    requires !op.MailCreate? && !op.DeliverToUser? && !op.DeliverToSent? && !op.MailMove?
    ensures ArrivesAs(db, Do(db, op).0, [])
  {
    hide UserIds, BoxIds, MsgIdsAt, NameTaken;
    NoneArrive(db, Do(db, op).0);
  }

  // ---- over a run ---------------------------------------------------------------------------------------------------

  /** Step i of the run, from its state to the next. */
  ghost function StateAt(ops: seq<Op>, i: nat): Db
    requires i <= |ops|
  {
    Tables(ops[..i])
  }

  ghost predicate ArrivesIn(ops: seq<Op>, i: nat, m: Id)
    requires i < |ops|
  {
    Arrives(StateAt(ops, i), StateAt(ops, i + 1), m)
  }

  lemma StateStep(ops: seq<Op>, i: nat)
    requires i < |ops|
    ensures Sound(StateAt(ops, i)) && StateAt(ops, i + 1) == Do(StateAt(ops, i), ops[i]).0
  {
    Reachable(ops[..i]);
    assert ops[..i + 1][..i] == ops[..i] && ops[..i + 1][i] == ops[i];
  }

  /** The place is taken: its row's counter is above the UID, or the row is gone and its id will not come again. */
  ghost predicate Passed(db: Db, place: (Id, nat)) {
    place.0 < db.nextBox && (place.0 in db.boxes ==> place.1 < db.boxes[place.0].uidNext)
  }

  lemma GivenOutIsPassed(db: Db, db': Db, place: (Id, nat))
    requires GivenOut(db, db', place)
    ensures Passed(db', place)
  {}

  lemma PassedStays(db: Db, db': Db, place: (Id, nat))
    requires Grown(db, db') && Passed(db, place)
    ensures Passed(db', place)
  {}

  /** A UID given out later in the same row is larger. */
  lemma PassedIsBelow(db: Db, db': Db, place: (Id, nat), later: (Id, nat))
    requires Passed(db, place) && GivenOut(db, db', later) && later.0 == place.0
    ensures place.1 < later.1
  {}

  lemma ArrivalGivenOut(ops: seq<Op>, i: nat, m: Id)
    requires i < |ops| && ArrivesIn(ops, i, m)
    ensures m in StateAt(ops, i + 1).msgs
    ensures GivenOut(StateAt(ops, i), StateAt(ops, i + 1), PlaceOf(StateAt(ops, i + 1).msgs[m]))
  {
    hide Sound, Do, Assigned, GivenOut, Tables;
    StateStep(ops, i);
    AssignedIsNext(StateAt(ops, i), ops[i]);
    AssignedArrives(StateAt(ops, i), ops[i]);
  }

  lemma {:induction false} ArrivalPassed(ops: seq<Op>, i: nat, m: Id, j: nat)
    requires i < j <= |ops| && ArrivesIn(ops, i, m)
    ensures m in StateAt(ops, i + 1).msgs && Passed(StateAt(ops, j), PlaceOf(StateAt(ops, i + 1).msgs[m]))
    decreases j
  {
    hide Sound, Do, GivenOut, Passed, Grown, Tables, ArrivesIn;
    ArrivalGivenOut(ops, i, m);
    if j == i + 1 {
      GivenOutIsPassed(StateAt(ops, i), StateAt(ops, j), PlaceOf(StateAt(ops, j).msgs[m]));
    } else {
      ArrivalPassed(ops, i, m, j - 1);
      StateStep(ops, j - 1);
      CountersGrow(StateAt(ops, j - 1), ops[j - 1]);
      PassedStays(StateAt(ops, j - 1), StateAt(ops, j), PlaceOf(StateAt(ops, i + 1).msgs[m]));
    }
  }

  /** Of two messages that arrive one after the other in the same mailbox row, by append, delivery, copy or move, the
      later has the larger UID; so no row ever gives out a UID twice (RFC 3501, section 2.3.1.1). */
  lemma UidsAscend(ops: seq<Op>, i: nat, m: Id, j: nat, n: Id)
    requires i < j < |ops| && ArrivesIn(ops, i, m) && ArrivesIn(ops, j, n)
    ensures m in StateAt(ops, i + 1).msgs && n in StateAt(ops, j + 1).msgs
    ensures var first, second := StateAt(ops, i + 1).msgs[m], StateAt(ops, j + 1).msgs[n];
            first.box == second.box ==> first.uid < second.uid
  {
    hide Sound, Do, GivenOut, Passed, Tables, ArrivesIn, StateAt;
    ArrivalPassed(ops, i, m, j);
    ArrivalGivenOut(ops, j, n);
    var first, second := StateAt(ops, i + 1).msgs[m], StateAt(ops, j + 1).msgs[n];
    if first.box == second.box {
      PassedIsBelow(StateAt(ops, j), StateAt(ops, j + 1), PlaceOf(first), PlaceOf(second));
    }
  }

  /** In one step at most one message arrives. */
  lemma OneArrival(ops: seq<Op>, i: nat, m: Id, n: Id)
    requires i < |ops| && ArrivesIn(ops, i, m) && ArrivesIn(ops, i, n)
    ensures m == n
  {
    hide Sound, Do, Assigned, Tables, Arrives;
    StateStep(ops, i);
    AssignedArrives(StateAt(ops, i), ops[i]);
  }

  // ---- protected folders ------------------------------------------------------------------------------------------

  predicate Protected(name: string) { name == INBOX || name == OUTBOX || name == SENT }

  /** What the IMAP server lets through: it refuses to delete or rename the protected folders. */
  predicate Allowed(op: Op) {
    match op
    case MailboxDelete(_, n) => !Protected(n)
    case MailboxRename(_, n, _) => !Protected(n)
    case _ => true
  }

  predicate AllAllowed(ops: seq<Op>) { forall op :: op in ops ==> Allowed(op) }

  ghost predicate SameRow(db: Db, db': Db, b: Id)
    requires b in db.boxes
  {
    b in db'.boxes && db'.boxes[b].owner == db.boxes[b].owner && db'.boxes[b].name == db.boxes[b].name
  }

  lemma EnsureKeepsRow(db: Db, user: string, name: string, b: Id)
    requires Sound(db) && b in db.boxes
    ensures SameRow(db, EnsureBox(db, user, name), b)
  {
    hide SameRow;
    EnsureNew(db, user, name);
    assert SameRow(db, EnsureBox(db, user, name), b) by { SameRowHere(db, EnsureBox(db, user, name), b); }
  }

  lemma SameRowHere(db: Db, db': Db, b: Id)
    requires b in db.boxes && b in db'.boxes && db'.boxes[b] == db.boxes[b]
    ensures SameRow(db, db', b)
  {}

  lemma AppendKeepsRow(db: Db, user: string, name: string, column: Option<string>, body: Bytes, b: Id)
    requires b in db.boxes
    ensures SameRow(db, Append(db, user, name, column, body).0, b)
  {
    hide UidTaken;
  }

  lemma MoveKeepsRow(db: Db, user: string, name: string, uid: int, dest: string, b: Id)
    requires b in db.boxes
    ensures SameRow(db, Move(db, user, name, uid, dest).0, b)
  {
    hide UidTaken, MsgIdsAt;
  }

  lemma RenameKeepsRow(db: Db, user: string, name: string, newName: string, b: Id)
    requires b in db.boxes && db.boxes[b].name != name
    ensures SameRow(db, Rename(db, user, name, newName).0, b)
  {
    hide NameTaken;
  }

  lemma DeleteKeepsRow(db: Db, user: string, name: string, b: Id)
    requires b in db.boxes && db.boxes[b].name != name
    ensures SameRow(db, DeleteBoxes(db, BoxIds(db, user, name)), b)
  {}

  lemma UserKeepsRow(db: Db, op: Op, b: Id)
    requires Sound(db) && b in db.boxes && (op.UserCreate? || op.UserDelete?)
    ensures SameRow(db, Do(db, op).0, b) || op == UserDelete(db.users[db.boxes[b].owner].address)
  {
    hide MsgsOk, AliasesOk, UniqueAddresses, UniqueNames;
  }

  /** The row of a protected folder stays, under its name and owner, until its owner is deleted.  With UidsAscend:
      although UIDVALIDITY is a constant, such a folder never gives out a UID twice during its owner's life. */
  lemma ProtectedRowStays(db: Db, op: Op, b: Id)
    requires Sound(db) && Allowed(op) && b in db.boxes && db.boxes[b].name in ["INBOX", "Outbox", "Sent"]
    ensures SameRow(db, Do(db, op).0, b) || op == UserDelete(db.users[db.boxes[b].owner].address)
  {
    hide Sound, SameRow, EnsureBox, Append, Move, Rename, BoxIds, MsgIds, MsgIdsAt;
    match op {
      case UserCreate(_) => UserKeepsRow(db, op, b);
      case UserDelete(_) => UserKeepsRow(db, op, b);
      case MailboxCreate(u, n) => EnsureKeepsRow(db, u, n, b);
      case MailboxRename(u, n, n') => RenameKeepsRow(db, u, n, n', b);
      case MailboxDelete(u, n) => DeleteKeepsRow(db, u, n, b);
      case MailCreate(u, n, body) => AppendKeepsRow(db, u, n, None, body, b);
      case MailMove(u, n, uid, dest) => MoveKeepsRow(db, u, n, uid, dest, b);
      case DeliverToUser(a, body) => AppendKeepsRow(db, a, INBOX, None, body, b);
      case DeliverToSent(a, body) =>
        EnsureKeepsRow(db, a, SENT, b);
        SentKeepsRow(db, a, body, b);
      case _ => SameRowHere(db, Do(db, op).0, b);
    }
  }

  lemma SentKeepsRow(db: Db, a: string, body: Bytes, b: Id)
    requires b in db.boxes && SameRow(db, EnsureBox(db, a, SENT), b)
    ensures SameRow(db, Do(db, DeliverToSent(a, body)).0, b)
  {
    hide EnsureBox, Append;
    AppendKeepsRow(EnsureBox(db, a, SENT), a, SENT, Some(SEEN), body, b);
  }

  ghost predicate InboxPerUser(db: Db) {
    forall i :: i in db.users && db.users[i].address != SYSTEM ==> NameTaken(db, i, INBOX)
  }

  /** Only UserCreate adds a user, with an INBOX. */
  lemma NewUsers(db: Db, op: Op, i: Id)
    requires Sound(db) && i in Do(db, op).0.users && i !in db.users
    ensures NameTaken(Do(db, op).0, i, INBOX)
  {
    hide MsgsOk, AliasesOk, BoxesOk, EnsureBox, Append, Move, Rename, UniqueAddresses;
    if op.UserCreate? {
      assert Do(db, op).0.boxes[db.nextBox] == Box(i, INBOX, 1);
    } else {
      SameUsers(db, op);
    }
  }

  lemma SameUsers(db: Db, op: Op)
    requires !op.UserCreate?
    ensures forall i :: i in Do(db, op).0.users ==> i in db.users && Do(db, op).0.users[i] == db.users[i]
  {
    hide UidTaken, NameTaken, MsgIdsAt, MsgIds;
  }

  lemma InboxesStay(db: Db, op: Op)
    requires Sound(db) && Allowed(op) && InboxPerUser(db)
    ensures InboxPerUser(Do(db, op).0)
  {
    hide Do, Sound;
    var db' := Do(db, op).0;
    forall i | i in db'.users && db'.users[i].address != SYSTEM ensures NameTaken(db', i, INBOX) {
      if i in db.users {
        StillUser(db, op, i);
        var b :| b in db.boxes && db.boxes[b].owner == i && db.boxes[b].name == INBOX;
        ProtectedRowStays(db, op, b);
        assert db'.boxes[b].owner == i;
      } else {
        NewUsers(db, op, i);
      }
    }
  }

  /** A user keeps its address, and is not deleted under it while it lives. */
  lemma StillUser(db: Db, op: Op, i: Id)
    requires Sound(db) && i in db.users && i in Do(db, op).0.users
    ensures Do(db, op).0.users[i] == db.users[i] && op != UserDelete(db.users[i].address)
  {
    hide MsgsOk, AliasesOk, BoxesOk, EnsureBox, Append, Move, Rename, UniqueAddresses;
    if !op.UserCreate? { SameUsers(db, op); }
  }

  lemma {:induction false} InboxAlways(ops: seq<Op>)
    requires AllAllowed(ops)
    ensures InboxPerUser(Tables(ops))
  {
    if ops != [] {
      hide Do, Sound, InboxPerUser;
      InboxAlways(ops[..|ops| - 1]);
      Reachable(ops[..|ops| - 1]);
      InboxesStay(Tables(ops[..|ops| - 1]), ops[|ops| - 1]);
    }
  }

  /** After any operations the program lets through: every account but `system` has exactly one INBOX, every alias
      belongs to an existing user, and at most one alias is the node's. */
  lemma AccountsAlways(ops: seq<Op>)
    requires AllAllowed(ops)
    ensures var db := Tables(ops);
            && (forall i :: i in db.users && db.users[i].address != SYSTEM
                  ==> exists b :: BoxIds(db, db.users[i].address, INBOX) == {b})
            && (forall k :: k in db.aliases ==> db.aliases[k].user in db.users)
            && (forall k, l :: k in db.aliases && l in db.aliases && db.aliases[k].node && db.aliases[l].node ==>
                k == l)
  {
    Reachable(ops);
    InboxAlways(ops);
    var db := Tables(ops);
    OneInbox(db);
    AliasKeys(db);
  }

  lemma AliasKeys(db: Db)
    requires Sound(db)
    ensures forall k :: k in db.aliases ==> db.aliases[k].user in db.users
    ensures forall k, l :: k in db.aliases && l in db.aliases && db.aliases[k].node && db.aliases[l].node ==> k == l
  {}

  lemma OneInbox(db: Db)
    requires Sound(db) && InboxPerUser(db)
    ensures forall i :: i in db.users && db.users[i].address != SYSTEM ==>
              exists b :: BoxIds(db, db.users[i].address, INBOX) == {b}
  {
    hide Sound, View;
    forall i | i in db.users && db.users[i].address != SYSTEM
      ensures exists b :: BoxIds(db, db.users[i].address, INBOX) == {b} {
      var b :| b in db.boxes && db.boxes[b].owner == i && db.boxes[b].name == INBOX;
      BoxFact(db, db.users[i].address, INBOX);
      assert b in BoxIds(db, db.users[i].address, INBOX);
    }
  }
}
