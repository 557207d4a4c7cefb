/** The store's operations twice: as SQL statements on the tables (`Do`), and as what they mean for the nested view
    (`Spec`). */
module Operations {
  import opened Wrappers
  import opened Flags
  import opened Schema

  datatype Op =
    | UserCreate(address: string)
    | UserDelete(address: string)
    | MailboxCreate(user: string, name: string)
    | MailboxRename(user: string, name: string, newName: string)
    | MailboxDelete(user: string, name: string)
    | MailCreate(user: string, name: string, body: Bytes)
    | MailUpdateFlags(user: string, name: string, uid: int, flags: Flags)
    | MailDelete(user: string, name: string, uid: int)
    | MailExpunge(user: string, name: string)
    | MailMove(user: string, name: string, uid: int, dest: string)
    | DeliverToUser(address: string, body: Bytes)
    | DeliverToSent(address: string, body: Bytes)
    | AddAlias(alias: string, target: string)
    | DeleteAlias(alias: string)
    | AssignAlias(address: string, alias: string)

  /** What a call returns: nil (with the UID it gave out, if any), or an error. */
  datatype Outcome = Done(uid: nat) | Failed

  const OK := Done(0)

  // ---- statements -------------------------------------------------------------------------------------------------

  /** The mailbox rows found by joining mailboxes with users on an address and a folder name. */
  function BoxIds(db: Db, user: string, name: string): set<Id> {
    set b | b in db.boxes && db.boxes[b].name == name
            && db.boxes[b].owner in db.users && db.users[db.boxes[b].owner].address == user
  }

  /** The same join with messages. */
  function MsgIds(db: Db, user: string, name: string): set<Id> {
    set m | m in db.msgs && db.msgs[m].box in BoxIds(db, user, name)
  }

  /** ... `AND m.uid = ?` */
  function MsgIdsAt(db: Db, user: string, name: string, uid: int): set<Id> {
    set m | m in MsgIds(db, user, name) && db.msgs[m].uid == uid
  }

  function UserIds(db: Db, address: string): set<Id> { set i | i in db.users && db.users[i].address == address }

  /** (mailbox_id, uid) is in use by a row other than `except`. */
  predicate UidTaken(db: Db, b: Id, uid: nat, except: set<Id>) {
    exists m :: m in db.msgs && m !in except && db.msgs[m].box == b && db.msgs[m].uid == uid
  }

  /** (user_id, name) is in use. */
  predicate NameTaken(db: Db, i: Id, name: string) {
    exists b :: b in db.boxes && db.boxes[b].owner == i && db.boxes[b].name == name
  }

  function InsertMsg(db: Db, b: Id, uid: nat, flags: Option<string>, body: Bytes): Db {
    db.(msgs := db.msgs[db.nextMsg := Msg(b, uid, flags, |body|, body)], nextMsg := db.nextMsg + 1)
  }

  function Increment(db: Db, b: Id): Db
    requires b in db.boxes
  {
    db.(boxes := db.boxes[b := db.boxes[b].(uidNext := db.boxes[b].uidNext + 1)])
  }

  function DeleteMsgs(db: Db, ids: set<Id>): Db { db.(msgs := map m | m in db.msgs && m !in ids :: db.msgs[m]) }

  function SetFlags(db: Db, ids: set<Id>, column: Option<string>): Db {
    db.(msgs := map m | m in db.msgs :: if m in ids then db.msgs[m].(flags := column) else db.msgs[m])
  }

  function Relocate(db: Db, ids: set<Id>, b: Id, uid: nat): Db {
    db.(msgs := map m | m in db.msgs :: if m in ids then db.msgs[m].(box := b, uid := uid) else db.msgs[m])
  }

  function InsertBox(db: Db, i: Id, name: string): Db {
    db.(boxes := db.boxes[db.nextBox := Box(i, name, 1)], nextBox := db.nextBox + 1)
  }

  function RenameBox(db: Db, b: Id, name: string): Db
    requires b in db.boxes
  {
    db.(boxes := db.boxes[b := db.boxes[b].(name := name)])
  }

  /** Deleting mailboxes takes their messages with them (ON DELETE CASCADE). */
  function DeleteBoxes(db: Db, ids: set<Id>): Db {
    db.(boxes := map b | b in db.boxes && b !in ids :: db.boxes[b],
        msgs := map m | m in db.msgs && db.msgs[m].box !in ids :: db.msgs[m])
  }

  function BoxesOwned(db: Db, ids: set<Id>): set<Id> { set b | b in db.boxes && db.boxes[b].owner in ids }

  /** Deleting users takes their mailboxes, messages and aliases with them. */
  function DeleteUsers(db: Db, ids: set<Id>): Db {
    DeleteBoxes(db, BoxesOwned(db, ids))
    .(users := map i | i in db.users && i !in ids :: db.users[i],
      aliases := map k | k in db.aliases && db.aliases[k].user !in ids :: db.aliases[k])
  }

  function InsertUser(db: Db, address: string): Db {
    db.(users := db.users[db.nextUser := User(address)], nextUser := db.nextUser + 1)
  }

  function AliasIds(db: Db, alias: string): set<Id> { set k | k in db.aliases && db.aliases[k].alias == alias }

  function DeleteAliases(db: Db, ids: set<Id>): Db {
    db.(aliases := map k | k in db.aliases && k !in ids :: db.aliases[k])
  }

  function InsertAlias(db: Db, alias: string, i: Id, node: bool): Db {
    db.(aliases := db.aliases[db.nextAlias := Alias(alias, i, node)], nextAlias := db.nextAlias + 1)
  }

  /** No alias is the node's any more. */
  function ClearNode(db: Db): Db { db.(aliases := map k | k in db.aliases :: db.aliases[k].(node := false)) }

  // ---- operations on the tables -----------------------------------------------------------------------------------

  /** The row a query that can only match one returns. */
  ghost function The(ids: set<Id>): Id
    requires ids != {}
  {
    var x :| x in ids; x
  }

  ghost function Append(db: Db, user: string, name: string, column: Option<string>, body: Bytes): (Db, Outcome) {
    var ids := BoxIds(db, user, name);
    if ids == {} then (db, Failed)
    else
      var b := The(ids);
      var uid := db.boxes[b].uidNext;
      if UidTaken(db, b, uid, {}) then (db, Failed)
      else (Increment(InsertMsg(db, b, uid, column, body), b), Done(uid))
  }

  /** A folder is inserted for the user with that address, if there is one and it has none of that name (INSERT
      IGNORE). */
  ghost function EnsureBox(db: Db, user: string, name: string): Db {
    var ids := UserIds(db, user);
    if ids == {} || NameTaken(db, The(ids), name) then db else InsertBox(db, The(ids), name)
  }

  ghost function Move(db: Db, user: string, name: string, uid: int, dest: string): (Db, Outcome) {
    var from, to := BoxIds(db, user, name), BoxIds(db, user, dest);
    if from == {} || to == {} then (db, Failed)
    else
      var d := The(to);
      var next := db.boxes[d].uidNext;
      var ids := MsgIdsAt(db, user, name, uid);
      if ids != {} && UidTaken(db, d, next, ids) then (db, Failed)
      else (Increment(Relocate(db, ids, d, next), d), OK)
  }

  ghost function Rename(db: Db, user: string, name: string, newName: string): (Db, Outcome) {
    var ids := BoxIds(db, user, name);
    if ids == {} || name == newName then (db, OK)
    else if NameTaken(db, db.boxes[The(ids)].owner, newName) then (db, Failed)
    else (RenameBox(db, The(ids), newName), OK)
  }

  ghost function Assign(db: Db, address: string, alias: string): Db {
    var db1 := ClearNode(db);
    var db2 := DeleteAliases(db1, AliasIds(db1, alias));
    var ids := UserIds(db, address);
    if ids == {} then db2 else InsertAlias(db2, alias, The(ids), true)
  }

  ghost function Do(db: Db, op: Op): (Db, Outcome) {
    match op
    case UserCreate(a) =>
      if UserIds(db, a) != {} then (db, Failed) else (InsertBox(InsertUser(db, a), db.nextUser, INBOX), OK)
    case UserDelete(a) =>
      if UserIds(db, a) == {} then (db, Failed) else (DeleteUsers(db, UserIds(db, a)), OK)
    case MailboxCreate(u, n) => (EnsureBox(db, u, n), OK)
    case MailboxRename(u, n, n') => Rename(db, u, n, n')
    case MailboxDelete(u, n) => (DeleteBoxes(db, BoxIds(db, u, n)), OK)
    case MailCreate(u, n, body) => Append(db, u, n, None, body)
    case MailUpdateFlags(u, n, uid, f) => (SetFlags(db, MsgIdsAt(db, u, n, uid), Some(Encode(f))), OK)
    case MailDelete(u, n, uid) => (DeleteMsgs(db, MsgIdsAt(db, u, n, uid)), OK)
    case MailExpunge(u, n) =>
      (DeleteMsgs(db, set m | m in MsgIds(db, u, n) && Expungeable(db.msgs[m].flags)), OK)
    case MailMove(u, n, uid, dest) => Move(db, u, n, uid, dest)
    case DeliverToUser(a, body) => Append(db, a, INBOX, None, body)
    case DeliverToSent(a, body) => Append(EnsureBox(db, a, SENT), a, SENT, Some(SEEN), body)
    case AddAlias(l, a) =>
      if UserIds(db, a) == {} then (db, OK)
      else if AliasIds(db, l) != {} then (db, Failed)
      else (InsertAlias(db, l, The(UserIds(db, a)), false), OK)
    case DeleteAlias(l) =>
      if AliasIds(db, l) == {} then (db, Failed) else (DeleteAliases(db, AliasIds(db, l)), OK)
    case AssignAlias(a, l) => (Assign(db, a, l), OK)
  }

  // ---- operations on the view -------------------------------------------------------------------------------------

  predicate Has(w: World, user: string, name: string) { user in w.accounts && name in w.accounts[user] }

  function Put(w: World, user: string, name: string, mb: Mailbox): World
    requires user in w.accounts
  {
    w.(accounts := w.accounts[user := w.accounts[user][name := mb]])
  }

  /** An appended message gets the mailbox's next UID. */
  function Appended(mb: Mailbox, m: Message): Mailbox { Mailbox(mb.uidNext + 1, mb.mail[mb.uidNext := m]) }

  function SpecAppend(w: World, user: string, name: string, m: Message): (World, Outcome) {
    if Has(w, user, name) then
      var mb := w.accounts[user][name];
      (Put(w, user, name, Appended(mb, m)), Done(mb.uidNext))
    else (w, Failed)
  }

  function SpecEnsure(w: World, user: string, name: string): World {
    if user in w.accounts && name !in w.accounts[user] then Put(w, user, name, Mailbox(1, map[])) else w
  }

  function SpecMove(w: World, user: string, name: string, uid: int, dest: string): (World, Outcome) {
    if !Has(w, user, name) || !Has(w, user, dest) then (w, Failed)
    else
      var from := w.accounts[user][name];
      if uid !in from.mail then
        (Put(w, user, dest, w.accounts[user][dest].(uidNext := w.accounts[user][dest].uidNext + 1)), OK)
      else
        var w1 := Put(w, user, name, from.(mail := from.mail - {uid}));
        (Put(w1, user, dest, Appended(w1.accounts[user][dest], from.mail[uid])), OK)
  }

  function SpecRename(w: World, user: string, name: string, newName: string): (World, Outcome) {
    if !Has(w, user, name) || name == newName then (w, OK)
    else if newName in w.accounts[user] then (w, Failed)
    else (w.(accounts := w.accounts[user := (w.accounts[user] - {name})[newName := w.accounts[user][name]]]), OK)
  }

  function Kept(mb: Mailbox): Mailbox {
    mb.(mail := map u | u in mb.mail && !mb.mail[u].flags.deleted :: mb.mail[u])
  }

  function Spec(w: World, op: Op): (World, Outcome) {
    match op
    case UserCreate(a) =>
      if a in w.accounts then (w, Failed) else (w.(accounts := w.accounts[a := map[INBOX := Mailbox(1, map[])]]), OK)
    case UserDelete(a) =>
      if a !in w.accounts then (w, Failed)
      else (World(w.accounts - {a}, map l | l in w.aliases && w.aliases[l].address != a :: w.aliases[l]), OK)
    case MailboxCreate(u, n) => (SpecEnsure(w, u, n), OK)
    case MailboxRename(u, n, n') => SpecRename(w, u, n, n')
    case MailboxDelete(u, n) =>
      (if u in w.accounts then w.(accounts := w.accounts[u := w.accounts[u] - {n}]) else w, OK)
    case MailCreate(u, n, body) => SpecAppend(w, u, n, Message(NO_FLAGS, body))
    case MailUpdateFlags(u, n, uid, f) =>
      if Has(w, u, n) && uid in w.accounts[u][n].mail then
        var mb := w.accounts[u][n];
        (Put(w, u, n, mb.(mail := mb.mail[uid := mb.mail[uid].(flags := f)])), OK)
      else (w, OK)
    case MailDelete(u, n, uid) =>
      (if Has(w, u, n) then Put(w, u, n, w.accounts[u][n].(mail := w.accounts[u][n].mail - {uid})) else w, OK)
    case MailExpunge(u, n) => (if Has(w, u, n) then Put(w, u, n, Kept(w.accounts[u][n])) else w, OK)
    case MailMove(u, n, uid, dest) => SpecMove(w, u, n, uid, dest)
    case DeliverToUser(a, body) => SpecAppend(w, a, INBOX, Message(NO_FLAGS, body))
    case DeliverToSent(a, body) => SpecAppend(SpecEnsure(w, a, SENT), a, SENT, Message(NO_FLAGS.(seen := true), body))
    case AddAlias(l, a) =>
      if a !in w.accounts then (w, OK)
      else if l in w.aliases then (w, Failed)
      else (w.(aliases := w.aliases[l := Target(a, false)]), OK)
    case DeleteAlias(l) => if l !in w.aliases then (w, Failed) else (w.(aliases := w.aliases - {l}), OK)
    case AssignAlias(a, l) =>
      var cleared := map k | k in w.aliases && k != l :: w.aliases[k].(node := false);
      (w.(aliases := if a in w.accounts then cleared[l := Target(a, true)] else cleared), OK)
  }
}
