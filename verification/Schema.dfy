/** The tables of the mail store, what their keys guarantee, and the nested view they implement. */
module Schema {
  import opened Wrappers
  import opened Flags

  type Id = nat
  type Bytes = seq<bv8>

  datatype User = User(address: string)
  datatype Box = Box(owner: Id, name: string, uidNext: nat)
  datatype Msg = Msg(box: Id, uid: nat, flags: Option<string>, size: nat, body: Bytes)
  datatype Alias = Alias(alias: string, user: Id, node: bool)

  /** Each table by primary key, with the next value of its AUTO_INCREMENT column. */
  datatype Db = Db(
    users: map<Id, User>, nextUser: Id,
    boxes: map<Id, Box>, nextBox: Id,
    msgs: map<Id, Msg>, nextMsg: Id,
    aliases: map<Id, Alias>, nextAlias: Id)

  const SYSTEM := "system"
  const INBOX := "INBOX"
  const OUTBOX := "Outbox"
  const SENT := "Sent"

  /** The rows the schema starts with. */
  const INIT := Db(map[0 := User(SYSTEM)], 1, map[0 := Box(0, OUTBOX, 1), 1 := Box(0, SENT, 1)], 2, map[], 0, map[], 0)

  // ---- keys -------------------------------------------------------------------------------------------------------

  /** users.address is unique. */
  ghost predicate UsersOk(users: map<Id, User>, next: Id) {
    (forall i :: i in users ==> i < next) && UniqueAddresses(users)
  }

  /** mailboxes.user_id references users; (user_id, name) is unique. */
  ghost predicate BoxesOk(boxes: map<Id, Box>, next: Id, users: map<Id, User>) {
    && (forall b :: b in boxes ==> b < next && boxes[b].owner in users && 1 <= boxes[b].uidNext)
    && UniqueNames(boxes)
  }

  /** A row of `messages` on its own: its mailbox exists and its UID has been given out; size and flags are as
      written. */
  ghost predicate MsgOk(m: Msg, boxes: map<Id, Box>) {
    && m.box in boxes && 1 <= m.uid < boxes[m.box].uidNext && m.size == |m.body| && WellFormed(m.flags)
  }

  /** messages.mailbox_id references mailboxes; (mailbox_id, uid) is unique. */
  ghost predicate MsgsOk(msgs: map<Id, Msg>, next: Id, boxes: map<Id, Box>) {
    && (forall m :: m in msgs ==> m < next && MsgOk(msgs[m], boxes))
    && UniqueUids(msgs)
  }

  /** aliases.user_id references users; the alias is unique; at most one row is the node's alias. */
  ghost predicate AliasesOk(aliases: map<Id, Alias>, next: Id, users: map<Id, User>) {
    && (forall k :: k in aliases ==> k < next && aliases[k].user in users)
    && UniqueAliases(aliases)
    && (forall k, l :: k in aliases && l in aliases && aliases[k].node && aliases[l].node ==> k == l)
  }

  ghost predicate Sound(db: Db) {
    && UsersOk(db.users, db.nextUser)
    && BoxesOk(db.boxes, db.nextBox, db.users)
    && MsgsOk(db.msgs, db.nextMsg, db.boxes)
    && AliasesOk(db.aliases, db.nextAlias, db.users)
  }

  // ---- the nested view --------------------------------------------------------------------------------------------

  datatype Message = Message(flags: Flags, body: Bytes)
  datatype Mailbox = Mailbox(uidNext: nat, mail: map<nat, Message>)
  type Account = map<string, Mailbox>
  datatype Target = Target(address: string, node: bool)

  /** What the tables mean: by address, by folder name, by UID; and by alias. */
  datatype World = World(accounts: map<string, Account>, aliases: map<string, Target>)

  /** Every message is below its mailbox's counter. */
  ghost predicate Numbered(mb: Mailbox) { 1 <= mb.uidNext && forall u :: u in mb.mail ==> 1 <= u < mb.uidNext }

  function Read(m: Msg): Message { Message(Decode(m.flags), m.body) }

  function Uids(msgs: map<Id, Msg>, b: Id): set<nat> { set m | m in msgs && msgs[m].box == b :: msgs[m].uid }

  ghost function MsgAt(msgs: map<Id, Msg>, b: Id, u: nat): (m: Id)
    requires u in Uids(msgs, b)
    ensures m in msgs && msgs[m].box == b && msgs[m].uid == u
  {
    var m :| m in msgs && msgs[m].box == b && msgs[m].uid == u; m
  }

  ghost function MailOf(msgs: map<Id, Msg>, b: Id): map<nat, Message> {
    map u | u in Uids(msgs, b) :: Read(msgs[MsgAt(msgs, b, u)])
  }

  function Names(boxes: map<Id, Box>, i: Id): set<string> { set b | b in boxes && boxes[b].owner == i :: boxes[b].name }

  ghost function BoxAt(boxes: map<Id, Box>, i: Id, n: string): (b: Id)
    requires n in Names(boxes, i)
    ensures b in boxes && boxes[b].owner == i && boxes[b].name == n
  {
    var b :| b in boxes && boxes[b].owner == i && boxes[b].name == n; b
  }

  ghost function MailboxOf(boxes: map<Id, Box>, msgs: map<Id, Msg>, b: Id): Mailbox
    requires b in boxes
  {
    Mailbox(boxes[b].uidNext, MailOf(msgs, b))
  }

  ghost function AccountOf(boxes: map<Id, Box>, msgs: map<Id, Msg>, i: Id): Account {
    map n | n in Names(boxes, i) :: MailboxOf(boxes, msgs, BoxAt(boxes, i, n))
  }

  function Addresses(users: map<Id, User>): set<string> { set i | i in users :: users[i].address }

  ghost function UserAt(users: map<Id, User>, a: string): (i: Id)
    requires a in Addresses(users)
    ensures i in users && users[i].address == a
  {
    var i :| i in users && users[i].address == a; i
  }

  ghost function AccountsOf(users: map<Id, User>, boxes: map<Id, Box>, msgs: map<Id, Msg>): map<string, Account> {
    map a | a in Addresses(users) :: AccountOf(boxes, msgs, UserAt(users, a))
  }

  function AliasNames(aliases: map<Id, Alias>): set<string> { set k | k in aliases :: aliases[k].alias }

  ghost function AliasAt(aliases: map<Id, Alias>, l: string): (k: Id)
    requires l in AliasNames(aliases)
    ensures k in aliases && aliases[k].alias == l
  {
    var k :| k in aliases && aliases[k].alias == l; k
  }

  ghost function TargetOf(a: Alias, users: map<Id, User>): Target {
    Target(if a.user in users then users[a.user].address else "", a.node)
  }

  ghost function AliasesOf(aliases: map<Id, Alias>, users: map<Id, User>): map<string, Target> {
    map l | l in AliasNames(aliases) :: TargetOf(aliases[AliasAt(aliases, l)], users)
  }

  ghost function View(db: Db): World {
    World(AccountsOf(db.users, db.boxes, db.msgs), AliasesOf(db.aliases, db.users))
  }

  // ---- reading the view: what is found under a key is what the row with that key says -----------------------------

  ghost predicate UniqueUids(msgs: map<Id, Msg>) {
    forall m, n :: m in msgs && n in msgs && msgs[m].box == msgs[n].box && msgs[m].uid == msgs[n].uid ==> m == n
  }

  lemma MailOfIs(msgs: map<Id, Msg>, b: Id, r: map<nat, Message>)
    requires UniqueUids(msgs)
    requires r.Keys == Uids(msgs, b) && forall m :: m in msgs && msgs[m].box == b ==> r[msgs[m].uid] == Read(msgs[m])
    ensures MailOf(msgs, b) == r
  {}

  lemma MailAt(msgs: map<Id, Msg>, m: Id)
    requires UniqueUids(msgs) && m in msgs
    ensures msgs[m].uid in MailOf(msgs, msgs[m].box) && MailOf(msgs, msgs[m].box)[msgs[m].uid] == Read(msgs[m])
  {}

  lemma MailOfSame(msgs: map<Id, Msg>, msgs': map<Id, Msg>, b: Id)
    requires UniqueUids(msgs) && UniqueUids(msgs')
    requires forall m :: m in msgs && msgs[m].box == b ==> m in msgs' && msgs'[m] == msgs[m]
    requires forall m :: m in msgs' && msgs'[m].box == b ==> m in msgs && msgs'[m] == msgs[m]
    ensures MailOf(msgs', b) == MailOf(msgs, b)
  {
    hide Read;
    forall m | m in msgs' && msgs'[m].box == b
      ensures msgs'[m].uid in Uids(msgs, b) && MailOf(msgs, b)[msgs'[m].uid] == Read(msgs'[m])
    {
      MailAt(msgs, m);
    }
    assert Uids(msgs, b) == Uids(msgs', b);
    MailOfIs(msgs', b, MailOf(msgs, b));
  }

  ghost predicate UniqueNames(boxes: map<Id, Box>) {
    forall b, c :: b in boxes && c in boxes && boxes[b].owner == boxes[c].owner && boxes[b].name == boxes[c].name ==>
                  b == c
  }

  lemma AccountOfIs(boxes: map<Id, Box>, msgs: map<Id, Msg>, i: Id, r: Account)
    requires UniqueNames(boxes)
    requires r.Keys == Names(boxes, i)
    requires forall b :: b in boxes && boxes[b].owner == i ==> r[boxes[b].name] == MailboxOf(boxes, msgs, b)
    ensures AccountOf(boxes, msgs, i) == r
  {
    hide MailboxOf;
  }

  lemma FolderAt(boxes: map<Id, Box>, msgs: map<Id, Msg>, b: Id)
    requires UniqueNames(boxes) && b in boxes
    ensures boxes[b].name in AccountOf(boxes, msgs, boxes[b].owner)
    ensures AccountOf(boxes, msgs, boxes[b].owner)[boxes[b].name] == MailboxOf(boxes, msgs, b)
  {
    hide MailboxOf;
  }

  ghost predicate UniqueAddresses(users: map<Id, User>) {
    forall i, j :: i in users && j in users && users[i].address == users[j].address ==> i == j
  }

  lemma AccountsOfIs(users: map<Id, User>, boxes: map<Id, Box>, msgs: map<Id, Msg>, r: map<string, Account>)
    requires UniqueAddresses(users)
    requires r.Keys == Addresses(users)
    requires forall i :: i in users ==> r[users[i].address] == AccountOf(boxes, msgs, i)
    ensures AccountsOf(users, boxes, msgs) == r
  {
    hide AccountOf;
  }

  lemma AccountAt(users: map<Id, User>, boxes: map<Id, Box>, msgs: map<Id, Msg>, i: Id)
    requires UniqueAddresses(users) && i in users
    ensures users[i].address in AccountsOf(users, boxes, msgs)
    ensures AccountsOf(users, boxes, msgs)[users[i].address] == AccountOf(boxes, msgs, i)
  {
    hide AccountOf;
  }

  ghost predicate UniqueAliases(aliases: map<Id, Alias>) {
    forall k, l :: k in aliases && l in aliases && aliases[k].alias == aliases[l].alias ==> k == l
  }

  lemma AliasesOfIs(aliases: map<Id, Alias>, users: map<Id, User>, r: map<string, Target>)
    requires UniqueAliases(aliases)
    requires r.Keys == AliasNames(aliases)
    requires forall k :: k in aliases ==> r[aliases[k].alias] == TargetOf(aliases[k], users)
    ensures AliasesOf(aliases, users) == r
  {}

  lemma AliasFound(aliases: map<Id, Alias>, users: map<Id, User>, k: Id)
    requires UniqueAliases(aliases) && k in aliases
    ensures aliases[k].alias in AliasesOf(aliases, users)
    ensures AliasesOf(aliases, users)[aliases[k].alias] == TargetOf(aliases[k], users)
  {}

  // ---- tables that change in one row ------------------------------------------------------------------------------

  lemma InsertUnique(msgs: map<Id, Msg>, id: Id, row: Msg)
    requires UniqueUids(msgs) && row.uid !in Uids(msgs, row.box)
    ensures UniqueUids(msgs[id := row])
  {
    forall m | m in msgs && msgs[m].box == row.box ensures msgs[m].uid != row.uid {
      assert msgs[m].uid in Uids(msgs, row.box);
    }
  }

  lemma InsertUids(msgs: map<Id, Msg>, id: Id, row: Msg)
    requires id !in msgs
    ensures Uids(msgs[id := row], row.box) == Uids(msgs, row.box) + {row.uid}
  {
    var msgs' := msgs[id := row];
    forall u | u in Uids(msgs, row.box) ensures u in Uids(msgs', row.box) {
      var m :| m in msgs && msgs[m].box == row.box && msgs[m].uid == u;
      assert msgs'[m] == msgs[m];
    }
    assert msgs'[id] == row;
  }

  lemma MailInsert(msgs: map<Id, Msg>, id: Id, row: Msg)
    requires UniqueUids(msgs) && id !in msgs && row.uid !in Uids(msgs, row.box)
    ensures UniqueUids(msgs[id := row])
    ensures MailOf(msgs[id := row], row.box) == MailOf(msgs, row.box)[row.uid := Read(row)]
  {
    hide Read;
    InsertUnique(msgs, id, row);
    InsertUids(msgs, id, row);
    var r := MailOf(msgs, row.box)[row.uid := Read(row)];
    forall m | m in msgs && msgs[m].box == row.box ensures msgs[m].uid in r && r[msgs[m].uid] == Read(msgs[m]) {
      MailAt(msgs, m);
    }
    hide UniqueUids;
    MailOfIs(msgs[id := row], row.box, r);
  }

  /** Deleting rows deletes what they stand for. */
  lemma MailRemove(msgs: map<Id, Msg>, msgs': map<Id, Msg>, b: Id)
    requires UniqueUids(msgs) && (forall m :: m in msgs' ==> m in msgs && msgs'[m] == msgs[m])
    ensures UniqueUids(msgs')
    ensures forall u :: u in MailOf(msgs', b) <==> u in MailOf(msgs, b) && MsgAt(msgs, b, u) in msgs'
    ensures forall u :: u in MailOf(msgs', b) ==> MailOf(msgs', b)[u] == MailOf(msgs, b)[u]
  {
    hide Read;
    forall u | u in Uids(msgs', b) ensures u in Uids(msgs, b) && MsgAt(msgs, b, u) == MsgAt(msgs', b, u) {
      assert msgs[MsgAt(msgs', b, u)].uid == u;
    }
    forall u | u in Uids(msgs, b) && MsgAt(msgs, b, u) in msgs' ensures u in Uids(msgs', b) {
      assert msgs'[MsgAt(msgs, b, u)].uid == u;
    }
  }
}
