/** What the store's queries answer, in terms of the nested view. */
module StoreQueries {
  import opened Flags
  import opened Schema
  import opened Operations
  import opened Refinement
  import opened Ranks
  import opened Sums

  /** The mail of a folder; of a folder that does not exist, none. */
  function MailIn(w: World, user: string, name: string): map<nat, Message> {
    if Has(w, user, name) then w.accounts[user][name].mail else map[]
  }

  function UidsOf(db: Db, ids: set<Id>): set<nat>
    requires ids <= db.msgs.Keys
  {
    set m | m in ids :: db.msgs[m].uid
  }

  /** The rows of a folder are those of its one mailbox row. */
  lemma FolderRows(db: Db, user: string, name: string)
    requires Sound(db)
    ensures forall m, n ::
              m in MsgIds(db, user, name) && n in MsgIds(db, user, name) && db.msgs[m].uid == db.msgs[n].uid ==> m == n
    ensures forall m :: m in MsgIds(db, user, name) ==>
              var mail := MailIn(View(db), user, name);
                          db.msgs[m].uid in mail && mail[db.msgs[m].uid] == Read(db.msgs[m])
    ensures UidsOf(db, MsgIds(db, user, name)) == MailIn(View(db), user, name).Keys
  {
    hide Read, Sound, AccountsOf, AliasesOf;
    BoxFact(db, user, name);
    Keys(db);
    if b :| b in BoxIds(db, user, name) {
      assert forall m :: m in MsgIds(db, user, name) <==> m in db.msgs && db.msgs[m].box == b;
      FolderUids(db, user, name, b);
      forall m | m in MsgIds(db, user, name)
        ensures MailIn(View(db), user, name) == MailOf(db.msgs, b) && db.msgs[m].box == b {
        MailAt(db.msgs, m);
      }
    }
  }

  lemma FolderUids(db: Db, user: string, name: string, b: Id)
    requires forall m :: m in MsgIds(db, user, name) <==> m in db.msgs && db.msgs[m].box == b
    ensures UidsOf(db, MsgIds(db, user, name)) == Uids(db.msgs, b)
  {
    hide MsgIds;
  }

  /** The number of rows is the number of UIDs. */
  lemma {:induction false} CountsUids(db: Db, ids: set<Id>)
    requires ids <= db.msgs.Keys && forall m, n :: m in ids && n in ids && db.msgs[m].uid == db.msgs[n].uid ==> m == n
    ensures |UidsOf(db, ids)| == |ids|
  {
    if ids == {} {
      assert UidsOf(db, ids) == {};
    } else {
      var m := Member(ids);
      CountsUids(db, ids - {m});
      assert UidsOf(db, ids) == UidsOf(db, ids - {m}) + {db.msgs[m].uid};
    }
  }

  /** The NOT LIKE test finds the messages whose decoded flags lack Seen. */
  lemma UnseenRows(db: Db, user: string, name: string)
    requires Sound(db)
    ensures var mail := MailIn(View(db), user, name);
            UidsOf(db, set m | m in MsgIds(db, user, name) && Unseen(db.msgs[m].flags))
              == set u | u in mail && !mail[u].flags.seen
  {
    hide Unseen, Decode, Sound, View, MailIn, BoxIds;
    UnseenAgrees(db, user, name);
    FolderRows(db, user, name);
    var mail := MailIn(View(db), user, name);
    var ids := set m | m in MsgIds(db, user, name) && Unseen(db.msgs[m].flags);
    forall u | u in mail && !mail[u].flags.seen ensures u in UidsOf(db, ids) {
      assert u in UidsOf(db, MsgIds(db, user, name));
    }
  }

  lemma UnseenAgrees(db: Db, user: string, name: string)
    requires Sound(db)
    ensures forall m :: m in MsgIds(db, user, name) ==> (Unseen(db.msgs[m].flags) <==> !Decode(db.msgs[m].flags).seen)
  {
    hide Unseen, Decode, WellFormed, UsersOk, BoxesOk, AliasesOk, UniqueUids;
    forall m | m in MsgIds(db, user, name) ensures Unseen(db.msgs[m].flags) <==> !Decode(db.msgs[m].flags).seen {
      assert MsgOk(db.msgs[m], db.boxes);
      LikeAgrees(db.msgs[m].flags);
    }
  }

  /** Message sequence numbers (RFC 3501, section 2.3.1.2): EXPUNGE lowers the number of each message it leaves by the
      number of messages below it that were marked deleted. */
  lemma ExpungeRanks(w: World, user: string, name: string, u: nat)
    requires u in MailIn(w, user, name) && !MailIn(w, user, name)[u].flags.deleted
    ensures var mail, mail' := MailIn(w, user, name), MailIn(Spec(w, MailExpunge(user, name)).0, user, name);
            && u in mail' && mail'[u] == mail[u]
            && Rank(mail'.Keys, u) == Rank(mail.Keys, u) - |set v | v in mail && mail[v].flags.deleted && v < u|
  {
    var mail, mail' := MailIn(w, user, name), MailIn(Spec(w, MailExpunge(user, name)).0, user, name);
    var gone := set v | v in mail && mail[v].flags.deleted;
    RankAfterRemoval(mail.Keys, gone, u);
    assert mail'.Keys == mail.Keys - gone;
    assert Below(mail.Keys * gone, u) == set v | v in mail && mail[v].flags.deleted && v < u;
  }

  /** What the theorems about copies, moves and sequence sets ask of a folder holds of every folder of the store. */
  lemma FoldersAreNumbered(db: Db, user: string, name: string)
    requires Sound(db) && Has(View(db), user, name)
    ensures Numbered(View(db).accounts[user][name])
  {
    hide MailOf, View, Sound;
    BoxFact(db, user, name);
    var b :| b in BoxIds(db, user, name);
    BoxNumbered(db, b);
  }

  lemma BoxNumbered(db: Db, b: Id)
    requires Sound(db) && b in db.boxes
    ensures Numbered(MailboxOf(db.boxes, db.msgs, b))
  {
    hide Read, WellFormed, AliasesOk, UsersOk, UniqueUids, UniqueNames;
    forall u | u in MailOf(db.msgs, b) ensures 1 <= u < db.boxes[b].uidNext {
      assert MsgOk(db.msgs[MsgAt(db.msgs, b, u)], db.boxes);
    }
  }

  // ---- used bytes -------------------------------------------------------------------------------------------------

  ghost function BodySizes(mail: map<nat, Message>): map<nat, nat> { map u | u in mail :: |mail[u].body| }

  ghost function MailBytes(mail: map<nat, Message>): nat { Total(BodySizes(mail)) }

  ghost function FolderSizes(acc: Account): map<string, nat> { map n | n in acc :: MailBytes(acc[n].mail) }

  /** The bytes of all message bodies in an account. */
  ghost function AccountBytes(acc: Account): nat { Total(FolderSizes(acc)) }

  /** The size column of the messages of user row i. */
  function SizesOwned(db: Db, i: Id): map<Id, nat> {
    map m | m in db.msgs && db.msgs[m].box in db.boxes && db.boxes[db.msgs[m].box].owner == i :: db.msgs[m].size
  }

  function BoxOfMsg(db: Db): map<Id, Id> { map m | m in db.msgs :: db.msgs[m].box }

  ghost function UidOfMsg(msgs: map<Id, Msg>,
                          b: Id): map<Id, nat> { map m | m in msgs && msgs[m].box == b :: msgs[m].uid }

  ghost function SizesPerBox(db: Db, i: Id): map<Id, nat> {
    map b | b in db.boxes && db.boxes[b].owner == i :: Total(Group(SizesOwned(db, i), BoxOfMsg(db), b))
  }

  ghost function NameOfBox(db: Db, i: Id): map<Id, string> {
    map b | b in db.boxes && db.boxes[b].owner == i :: db.boxes[b].name
  }

  lemma RowSizes(db: Db)
    requires Sound(db)
    ensures forall m :: m in db.msgs ==> db.msgs[m].size == |db.msgs[m].body| && db.msgs[m].box in db.boxes
  {
    hide WellFormed, UsersOk, BoxesOk, AliasesOk, UniqueUids;
    forall m | m in db.msgs ensures db.msgs[m].size == |db.msgs[m].body| && db.msgs[m].box in db.boxes {
      assert MsgOk(db.msgs[m], db.boxes);
    }
  }

  function SizesIn(msgs: map<Id, Msg>, b: Id): map<Id, nat> { map m | m in msgs && msgs[m].box == b :: msgs[m].size }

  lemma GroupIsBox(db: Db, i: Id, b: Id)
    requires b in db.boxes && db.boxes[b].owner == i
    ensures Group(SizesOwned(db, i), BoxOfMsg(db), b) == SizesIn(db.msgs, b)
  {}

  /** Within one mailbox row, the size column adds up to the bytes of its mail. */
  lemma BoxBytes(msgs: map<Id, Msg>, b: Id)
    requires UniqueUids(msgs) && forall m :: m in msgs ==> msgs[m].size == |msgs[m].body|
    ensures Total(SizesIn(msgs, b)) == MailBytes(MailOf(msgs, b))
  {
    hide Total, Decode, MailOf, UniqueUids, Uids;
    var m, name, r := SizesIn(msgs, b), UidOfMsg(msgs, b), BodySizes(MailOf(msgs, b));
    forall x | x in m ensures name[x] in r && r[name[x]] == m[x] {
      MailAt(msgs, x);
    }
    forall y | y in r ensures exists x :: x in m && name[x] == y {
      MailUid(msgs, b, y);
      assert MsgAt(msgs, b, y) in m;
    }
    assert Injective(name) by { UidsInjective(msgs, b); }
    TotalRenamed(m, name, r);
  }

  lemma MailUid(msgs: map<Id, Msg>, b: Id, u: nat)
    requires u in MailOf(msgs, b)
    ensures u in Uids(msgs, b)
  {}

  lemma UidsInjective(msgs: map<Id, Msg>, b: Id)
    requires UniqueUids(msgs)
    ensures Injective(UidOfMsg(msgs, b))
  {}

  lemma BoxesBytes(db: Db, i: Id)
    requires Sound(db)
    ensures Total(SizesPerBox(db, i)) == AccountBytes(AccountOf(db.boxes, db.msgs, i))
  {
    hide Sound, Total, Group, SizesOwned, BoxOfMsg, MailOf, MailBytes, SizesIn, UniqueUids;
    Keys(db);
    RowSizes(db);
    var m, name, r := SizesPerBox(db, i), NameOfBox(db, i), FolderSizes(AccountOf(db.boxes, db.msgs, i));
    forall b | b in m ensures name[b] in r && r[name[b]] == m[b] {
      FolderAt(db.boxes, db.msgs, b);
      GroupIsBox(db, i, b);
      BoxBytes(db.msgs, b);
    }
    forall n | n in r ensures exists b :: b in m && name[b] == n {
      assert BoxAt(db.boxes, i, n) in m;
    }
    TotalRenamed(m, name, r);
  }

  /** SUM(m.size) over the rows of a user is the number of bytes of all bodies in the account. */
  lemma QuotaIsBytes(db: Db, a: string, i: Id)
    requires Sound(db) && i in UserIds(db, a)
    ensures a in View(db).accounts && Sum(SizesOwned(db, i)) == AccountBytes(View(db).accounts[a])
  {
    hide Sound, Total, Sum, View, AccountBytes, AccountOf;
    UserFact(db, a);
    ViewAccount(db, a, i);
    RowSizes(db);
    SumIsTotal(SizesOwned(db, i));
    TotalGrouped(SizesOwned(db, i), BoxOfMsg(db), SizesPerBox(db, i));
    BoxesBytes(db, i);
  }

  lemma ViewAccount(db: Db, a: string, i: Id)
    requires Sound(db) && i in UserIds(db, a)
    ensures a in View(db).accounts && View(db).accounts[a] == AccountOf(db.boxes, db.msgs, i)
  {
    hide Sound, AccountOf;
    UserFact(db, a);
  }
}
