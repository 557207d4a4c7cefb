/** Operations on folders, users and aliases commute with the view; with Refinement, all operations do. */
module AccountRefinement {
  import opened Wrappers
  import opened Flags
  import opened Schema
  import opened Operations
  import opened Refinement

  /** One user's account changes. */
  lemma AccountsChange(users: map<Id, User>, boxes: map<Id, Box>, msgs: map<Id, Msg>,
                       boxes': map<Id, Box>, msgs': map<Id, Msg>, i: Id)
    requires UniqueAddresses(users) && i in users
    requires forall j :: j in users && j != i ==> AccountOf(boxes', msgs', j) == AccountOf(boxes, msgs, j)
    ensures AccountsOf(users, boxes', msgs') ==
            AccountsOf(users, boxes, msgs)[users[i].address := AccountOf(boxes', msgs', i)]
  {
    hide AccountOf;
    var r := AccountsOf(users, boxes, msgs)[users[i].address := AccountOf(boxes', msgs', i)];
    forall j | j in users ensures users[j].address in r && r[users[j].address] == AccountOf(boxes', msgs', j) {
      AccountAt(users, boxes, msgs, j);
    }
    AccountsOfIs(users, boxes', msgs', r);
  }

  // ---- folders ----------------------------------------------------------------------------------------------------

  /** A new folder is empty and takes no other folder's mail. */
  lemma InsertedAccount(boxes: map<Id, Box>, msgs: map<Id, Msg>, id: Id, i: Id, name: string, j: Id)
    requires UniqueNames(boxes) && id !in boxes && name !in Names(boxes, i)
    requires forall m :: m in msgs ==> msgs[m].box != id
    ensures var boxes' := boxes[id := Box(i, name, 1)];
            && UniqueNames(boxes')
            && AccountOf(boxes', msgs, j)
               == if j == i then AccountOf(boxes, msgs, j)[name := Mailbox(1, map[])] else AccountOf(boxes, msgs, j)
  {
    hide MailOf;
    var boxes' := boxes[id := Box(i, name, 1)];
    InsertedNames(boxes, id, i, name, j);
    EmptyMail(msgs, id);
    var was := AccountOf(boxes, msgs, j);
    var r := if j == i then was[name := Mailbox(1, map[])] else was;
    forall b | b in boxes' && boxes'[b].owner == j
      ensures boxes'[b].name in r && r[boxes'[b].name] == MailboxOf(boxes', msgs, b)
    {
      if b != id { FolderAt(boxes, msgs, b); }
    }
    AccountOfIs(boxes', msgs, j, r);
  }

  lemma InsertedNames(boxes: map<Id, Box>, id: Id, i: Id, name: string, j: Id)
    requires UniqueNames(boxes) && id !in boxes && name !in Names(boxes, i)
    ensures var boxes' := boxes[id := Box(i, name, 1)];
            UniqueNames(boxes') && Names(boxes', j) == if j == i then Names(boxes, j) + {name} else Names(boxes, j)
    ensures forall b :: b in boxes && boxes[b].owner == i ==> boxes[b].name != name
  {
    forall b | b in boxes && boxes[b].owner == i ensures boxes[b].name != name {
      assert boxes[b].name in Names(boxes, i);
    }
    var boxes' := boxes[id := Box(i, name, 1)];
    forall n | n in Names(boxes, j) ensures n in Names(boxes', j) {
      assert boxes'[BoxAt(boxes, j, n)].name == n;
    }
    assert boxes'[id].name == name;
  }

  lemma EmptyMail(msgs: map<Id, Msg>, id: Id)
    requires forall m :: m in msgs ==> msgs[m].box != id
    ensures MailOf(msgs, id) == map[]
  {
    hide Read;
    assert Uids(msgs, id) == {};
  }

  lemma NoMailAhead(db: Db)
    requires Sound(db)
    ensures db.nextBox !in db.boxes && db.nextUser !in db.users && db.nextAlias !in db.aliases
    ensures forall m :: m in db.msgs ==> db.msgs[m].box in db.boxes
    ensures forall b :: b in db.boxes ==> db.boxes[b].owner in db.users
    ensures forall k :: k in db.aliases ==> db.aliases[k].user in db.users
  {
    forall m | m in db.msgs ensures db.msgs[m].box in db.boxes {
      assert MsgOk(db.msgs[m], db.boxes);
    }
  }

  lemma InsertBoxSound(db: Db, i: Id, name: string)
    requires Sound(db) && i in db.users && name !in Names(db.boxes, i)
    ensures Sound(InsertBox(db, i, name))
  {
    hide AliasesOk, UsersOk, UniqueUids, UniqueNames, WellFormed;
    InsertedNames(db.boxes, db.nextBox, i, name, i);
    forall m | m in db.msgs ensures MsgOk(db.msgs[m], InsertBox(db, i, name).boxes) {
      assert MsgOk(db.msgs[m], db.boxes);
    }
  }

  lemma InsertBoxView(db: Db, i: Id, name: string)
    requires Sound(db) && i in db.users && name !in Names(db.boxes, i)
    ensures var u := db.users[i].address;
            u in View(db).accounts && View(InsertBox(db, i, name)) == Put(View(db), u, name, Mailbox(1, map[]))
  {
    hide Sound, AccountOf, AccountsOf, AliasesOf;
    Keys(db);
    NoMailAhead(db);
    var db' := InsertBox(db, i, name);
    forall j ensures AccountOf(db'.boxes, db.msgs, j)
                  == if j == i then AccountOf(db.boxes, db.msgs, j)[name := Mailbox(1, map[])]
                     else AccountOf(db.boxes, db.msgs, j)
    {
      InsertedAccount(db.boxes, db.msgs, db.nextBox, i, name, j);
    }
    AccountAt(db.users, db.boxes, db.msgs, i);
    AccountsChange(db.users, db.boxes, db.msgs, db'.boxes, db.msgs, i);
  }

  lemma EnsureRefines(db: Db, user: string, name: string)
    requires Sound(db)
    ensures Sound(EnsureBox(db, user, name)) && View(EnsureBox(db, user, name)) == SpecEnsure(View(db), user, name)
  {
    hide Sound, AccountOf, AccountsOf, AliasesOf;
    UserFact(db, user);
    if i :| i in UserIds(db, user) {
      NameFact(db, i, name);
      assert NameTaken(db, i, name) <==> name in Names(db.boxes, i);
      if name !in Names(db.boxes, i) {
        InsertBoxSound(db, i, name);
        InsertBoxView(db, i, name);
      }
    }
  }

  lemma RenamedAccount(boxes: map<Id, Box>, msgs: map<Id, Msg>, b: Id, name: string, j: Id)
    requires UniqueNames(boxes) && b in boxes && name !in Names(boxes, boxes[b].owner)
    ensures var boxes' := boxes[b := boxes[b].(name := name)]; var was := AccountOf(boxes, msgs, j);
            && UniqueNames(boxes') && (j == boxes[b].owner ==> boxes[b].name in was)
            && AccountOf(boxes', msgs, j)
               == if j == boxes[b].owner then (was - {boxes[b].name})[name := was[boxes[b].name]] else was
  {
    hide MailOf;
    var boxes' := boxes[b := boxes[b].(name := name)];
    RenamedNames(boxes, b, name, j);
    FolderAt(boxes, msgs, b);
    var was := AccountOf(boxes, msgs, j);
    var r := if j == boxes[b].owner then (was - {boxes[b].name})[name := was[boxes[b].name]] else was;
    forall c | c in boxes' && boxes'[c].owner == j
      ensures boxes'[c].name in r && r[boxes'[c].name] == MailboxOf(boxes', msgs, c)
    {
      FolderAt(boxes, msgs, c);
    }
    AccountOfIs(boxes', msgs, j, r);
  }

  lemma RenamedNames(boxes: map<Id, Box>, b: Id, name: string, j: Id)
    requires UniqueNames(boxes) && b in boxes && name !in Names(boxes, boxes[b].owner)
    ensures var boxes' := boxes[b := boxes[b].(name := name)];
            && UniqueNames(boxes')
            && Names(boxes', j)
               == if j == boxes[b].owner then Names(boxes, j) - {boxes[b].name} + {name} else Names(boxes, j)
    ensures forall c :: c in boxes && boxes[c].owner == boxes[b].owner ==> boxes[c].name != name
  {
    var boxes' := boxes[b := boxes[b].(name := name)];
    forall c | c in boxes && boxes[c].owner == boxes[b].owner ensures boxes[c].name != name {
      assert boxes[c].name in Names(boxes, boxes[b].owner);
    }
    assert boxes'[b].name == name;
    forall n | n in Names(boxes, j) && (j == boxes[b].owner ==> n != boxes[b].name) ensures n in Names(boxes', j) {
      assert boxes'[BoxAt(boxes, j, n)].name == n;
    }
    forall n | n in Names(boxes', j) ensures n in Names(boxes, j) - {boxes[b].name} + {name} || j != boxes[b].owner {
      var c := BoxAt(boxes', j, n);
    }
  }

  lemma RenameRefines(db: Db, user: string, name: string, newName: string)
    requires Sound(db)
    ensures var r := Rename(db, user, name, newName);
            Sound(r.0) && (View(r.0), r.1) == SpecRename(View(db), user, name, newName)
  {
    hide Sound, AccountOf, AccountsOf, AliasesOf, MailboxOf;
    BoxFact(db, user, name);
    if b :| b in BoxIds(db, user, name) && name != newName {
      var i := db.boxes[b].owner;
      NameFact(db, i, newName);
      assert NameTaken(db, i, newName) <==> newName in Names(db.boxes, i);
      if newName !in Names(db.boxes, i) {
        RenamedView(db, b, newName);
      }
    }
  }

  lemma RenamedView(db: Db, b: Id, newName: string)
    requires Sound(db) && b in db.boxes && db.boxes[b].owner in db.users &&
             newName !in Names(db.boxes, db.boxes[b].owner)
    ensures var db' := RenameBox(db, b, newName); var w := View(db); var u := db.users[db.boxes[b].owner].address;
            var n := db.boxes[b].name;
            && Sound(db') && Has(w, u, n)
            && View(db') == w.(accounts := w.accounts[u := (w.accounts[u] - {n})[newName := w.accounts[u][n]]])
  {
    hide Sound, AccountOf, AccountsOf, AliasesOf, UniqueNames;
    Keys(db);
    var i := db.boxes[b].owner;
    var db' := RenameBox(db, b, newName);
    RenamedSound(db, b, newName);
    forall j | j != i ensures AccountOf(db'.boxes, db.msgs, j) == AccountOf(db.boxes, db.msgs, j) {
      RenamedAccount(db.boxes, db.msgs, b, newName, j);
    }
    RenamedAccount(db.boxes, db.msgs, b, newName, i);
    AccountAt(db.users, db.boxes, db.msgs, i);
    AccountsChange(db.users, db.boxes, db.msgs, db'.boxes, db.msgs, i);
  }

  lemma RenamedSound(db: Db, b: Id, newName: string)
    requires Sound(db) && b in db.boxes && newName !in Names(db.boxes, db.boxes[b].owner)
    ensures Sound(RenameBox(db, b, newName))
  {
    hide AliasesOk, UsersOk, UniqueUids, UniqueNames, WellFormed;
    RenamedNames(db.boxes, b, newName, db.boxes[b].owner);
    forall m | m in db.msgs ensures MsgOk(db.msgs[m], RenameBox(db, b, newName).boxes) {
      assert MsgOk(db.msgs[m], db.boxes);
    }
  }

  /** Deleting mailboxes deletes those folders with their mail; the others keep theirs. */
  lemma DroppedAccount(db: Db, ids: set<Id>, j: Id)
    requires UniqueNames(db.boxes) && UniqueUids(db.msgs)
    ensures var db' := DeleteBoxes(db, ids); var was := AccountOf(db.boxes, db.msgs, j);
            && UniqueNames(db'.boxes) && UniqueUids(db'.msgs)
            && AccountOf(db'.boxes, db'.msgs, j) == map n | n in was && BoxAt(db.boxes, j, n) !in ids :: was[n]
  {
    hide MailOf;
    var db' := DeleteBoxes(db, ids);
    var was := AccountOf(db.boxes, db.msgs, j);
    var r := map n | n in was && BoxAt(db.boxes, j, n) !in ids :: was[n];
    DroppedUnique(db, ids);
    forall b | b in db'.boxes && db'.boxes[b].owner == j
      ensures db'.boxes[b].name in r && r[db'.boxes[b].name] == MailboxOf(db'.boxes, db'.msgs, b)
    {
      FolderAt(db.boxes, db.msgs, b);
      MailOfSame(db.msgs, db'.msgs, b);
    }
    forall n | n in r ensures n in Names(db'.boxes, j) {
      assert db'.boxes[BoxAt(db.boxes, j, n)].name == n;
    }
    AccountOfIs(db'.boxes, db'.msgs, j, r);
  }

  lemma DroppedUnique(db: Db, ids: set<Id>)
    requires UniqueNames(db.boxes) && UniqueUids(db.msgs)
    ensures UniqueNames(DeleteBoxes(db, ids).boxes) && UniqueUids(DeleteBoxes(db, ids).msgs)
  {}

  lemma DroppedSound(db: Db, ids: set<Id>)
    requires Sound(db)
    ensures Sound(DeleteBoxes(db, ids))
  {
    hide AliasesOk, UsersOk, UniqueUids, UniqueNames, WellFormed;
    DroppedUnique(db, ids);
    forall m | m in DeleteBoxes(db, ids).msgs ensures MsgOk(db.msgs[m], DeleteBoxes(db, ids).boxes) {
      assert MsgOk(db.msgs[m], db.boxes);
    }
  }

  lemma MailboxDeleteRefines(db: Db, user: string, name: string)
    requires Sound(db)
    ensures var db' := DeleteBoxes(db, BoxIds(db, user, name));
            Sound(db') && View(db') == Spec(View(db), MailboxDelete(user, name)).0
  {
    hide Sound, AccountOf, AccountsOf, AliasesOf, MailboxOf;
    var ids := BoxIds(db, user, name);
    DroppedSound(db, ids);
    BoxFact(db, user, name);
    if b :| b in ids {
      DroppedOne(db, b);
    } else {
      var db' := DeleteBoxes(db, ids);
      assert db'.boxes == db.boxes && db'.msgs == db.msgs;
      if user in View(db).accounts { RemoveAbsent(View(db), user, name); }
    }
  }

  lemma RemoveAbsent(w: World, user: string, name: string)
    requires user in w.accounts && name !in w.accounts[user]
    ensures w.(accounts := w.accounts[user := w.accounts[user] - {name}]) == w
  {
    assert w.accounts[user] - {name} == w.accounts[user];
    assert w.accounts[user := w.accounts[user]] == w.accounts;
  }

  lemma DroppedOne(db: Db, b: Id)
    requires Sound(db) && b in db.boxes && db.boxes[b].owner in db.users
    ensures var db' := DeleteBoxes(db, {b}); var u := db.users[db.boxes[b].owner].address;
            && u in View(db).accounts
            && View(db') == View(db).(accounts := View(db).accounts[u := View(db).accounts[u] - {db.boxes[b].name}])
  {
    hide Sound, AccountOf, AccountsOf, AliasesOf;
    Keys(db);
    var i := db.boxes[b].owner;
    var db' := DeleteBoxes(db, {b});
    forall j ensures AccountOf(db'.boxes, db'.msgs, j)
                  == if j == i then AccountOf(db.boxes, db.msgs, j) - {db.boxes[b].name}
                     else AccountOf(db.boxes, db.msgs, j)
    {
      DroppedOneAccount(db, b, j);
    }
    AccountAt(db.users, db.boxes, db.msgs, i);
    AccountsChange(db.users, db.boxes, db.msgs, db'.boxes, db'.msgs, i);
  }

  lemma DroppedOneAccount(db: Db, b: Id, j: Id)
    requires UniqueNames(db.boxes) && UniqueUids(db.msgs) && b in db.boxes
    ensures var db' := DeleteBoxes(db, {b}); var was := AccountOf(db.boxes, db.msgs, j);
            AccountOf(db'.boxes, db'.msgs, j) == if j == db.boxes[b].owner then was - {db.boxes[b].name} else was
  {
    hide AccountOf, UniqueUids;
    DroppedAccount(db, {b}, j);
    AccountNames(db.boxes, db.msgs, j);
    var was := AccountOf(db.boxes, db.msgs, j);
    forall n | n in was ensures BoxAt(db.boxes, j, n) == b <==> j == db.boxes[b].owner && n == db.boxes[b].name {}
    assert (map n | n in was && BoxAt(db.boxes, j, n) !in {b} :: was[n])
        == if j == db.boxes[b].owner then was - {db.boxes[b].name} else was;
  }

  lemma AccountNames(boxes: map<Id, Box>, msgs: map<Id, Msg>, j: Id)
    ensures AccountOf(boxes, msgs, j).Keys == Names(boxes, j)
  {}

  // ---- users ------------------------------------------------------------------------------------------------------

  lemma UserCreateRefines(db: Db, a: string)
    requires Sound(db) && UserIds(db, a) == {}
    ensures var db' := Do(db, UserCreate(a)).0; Sound(db') && View(db') == Spec(View(db), UserCreate(a)).0
  {
    hide Sound, AccountOf, AccountsOf, AliasesOf;
    NoMailAhead(db);
    UserFact(db, a);
    UserInserted(db, a);
    var db1 := InsertUser(db, a);
    NoFolders(db1.boxes, db1.msgs, db.nextUser);
    InsertBoxSound(db1, db.nextUser, INBOX);
    InsertBoxView(db1, db.nextUser, INBOX);
    var m: Account := map[];
    assert m[INBOX := Mailbox(1, map[])] == map[INBOX := Mailbox(1, map[])];
  }

  lemma NoFolders(boxes: map<Id, Box>, msgs: map<Id, Msg>, i: Id)
    requires forall b :: b in boxes ==> boxes[b].owner != i
    ensures Names(boxes, i) == {} && AccountOf(boxes, msgs, i) == map[]
  {
    assert Names(boxes, i) == {};
  }

  lemma UserInserted(db: Db, a: string)
    requires Sound(db) && UserIds(db, a) == {}
    ensures var db' := InsertUser(db, a);
            && Sound(db') && (forall b :: b in db'.boxes ==> db'.boxes[b].owner != db.nextUser)
            && View(db') == View(db).(accounts := View(db).accounts[a := map[]])
  {
    hide Sound, AccountOf, AccountsOf, AliasesOf;
    NoMailAhead(db);
    Keys(db);
    UserInsertedSound(db, a);
    var db' := InsertUser(db, a);
    NoFolders(db.boxes, db.msgs, db.nextUser);
    NewAddress(db, a);
    AccountsInserted(db.users, db.boxes, db.msgs, db.nextUser, a);
    AliasesSame(db.aliases, db.users, db'.users);
  }

  lemma NewAddress(db: Db, a: string)
    requires UserIds(db, a) == {}
    ensures forall j :: j in db.users ==> db.users[j].address != a
  {
    forall j | j in db.users ensures db.users[j].address != a {
      assert j !in UserIds(db, a);
    }
  }

  lemma AccountsInserted(users: map<Id, User>, boxes: map<Id, Box>, msgs: map<Id, Msg>, id: Id, a: string)
    requires UniqueAddresses(users) && id !in users && (forall j :: j in users ==> users[j].address != a)
    requires AccountOf(boxes, msgs, id) == map[]
    ensures AccountsOf(users[id := User(a)], boxes, msgs) == AccountsOf(users, boxes, msgs)[a := map[]]
  {
    hide AccountOf, AccountsOf;
    var users' := users[id := User(a)];
    var r := AccountsOf(users, boxes, msgs)[a := map[]];
    UserInsertedKeys(users, boxes, msgs, id, a);
    forall j | j in users' ensures users'[j].address in r && r[users'[j].address] == AccountOf(boxes, msgs, j) {
      if j != id { AccountAt(users, boxes, msgs, j); }
    }
    AccountsOfIs(users', boxes, msgs, r);
  }

  lemma UserInsertedKeys(users: map<Id, User>, boxes: map<Id, Box>, msgs: map<Id, Msg>, id: Id, a: string)
    requires id !in users
    ensures Addresses(users[id := User(a)]) == AccountsOf(users, boxes, msgs).Keys + {a}
  {
    hide AccountOf;
    var users' := users[id := User(a)];
    forall x | x in Addresses(users) ensures x in Addresses(users') {
      assert users'[UserAt(users, x)].address == x;
    }
    assert users'[id].address == a;
  }

  lemma UserInsertedSound(db: Db, a: string)
    requires Sound(db) && UserIds(db, a) == {}
    ensures Sound(InsertUser(db, a)) && UniqueAddresses(InsertUser(db, a).users)
  {
    hide MsgsOk, UniqueNames;
    assert forall i :: i in db.users ==> i !in UserIds(db, a);
  }

  /** Aliases mean the same as long as the users they point to stay. */
  lemma AliasesSame(aliases: map<Id, Alias>, users: map<Id, User>, users': map<Id, User>)
    requires UniqueAliases(aliases)
    requires forall k :: k in aliases ==> aliases[k].user in users && aliases[k].user in users'
                                          && users'[aliases[k].user] == users[aliases[k].user]
    ensures AliasesOf(aliases, users') == AliasesOf(aliases, users)
  {
    forall k | k in aliases
      ensures aliases[k].alias in AliasesOf(aliases, users)
              && AliasesOf(aliases, users)[aliases[k].alias] == TargetOf(aliases[k], users')
    {
      AliasFound(aliases, users, k);
    }
    AliasesOfIs(aliases, users', AliasesOf(aliases, users));
  }

  lemma UserDeleteRefines(db: Db, a: string)
    requires Sound(db) && UserIds(db, a) != {}
    ensures var db' := DeleteUsers(db, UserIds(db, a)); Sound(db') && View(db') == Spec(View(db), UserDelete(a)).0
  {
    hide Sound, AccountOf, AccountsOf, AliasesOf;
    UserFact(db, a);
    var i :| i in UserIds(db, a);
    assert UserIds(db, a) == {i};
    UserDropped(db, i);
    UserDroppedSound(db, i);
    UserDroppedAliases(db, i);
  }

  lemma UserDroppedSound(db: Db, i: Id)
    requires Sound(db) && i in db.users
    ensures Sound(DeleteUsers(db, {i}))
  {
    hide MsgsOk, UniqueNames;
    DroppedSound(db, BoxesOwned(db, {i}));
  }

  lemma UserDropped(db: Db, i: Id)
    requires Sound(db) && i in db.users
    ensures var db' := DeleteUsers(db, {i});
            View(db').accounts == View(db).accounts - {db.users[i].address}
  {
    hide Sound, AccountOf, AccountsOf, AliasesOf;
    Keys(db);
    var db' := DeleteUsers(db, {i});
    var r := View(db).accounts - {db.users[i].address};
    forall j | j in db'.users ensures db'.users[j].address in r &&
        r[db'.users[j].address] == AccountOf(db'.boxes, db'.msgs, j) {
      AccountAt(db.users, db.boxes, db.msgs, j);
      OtherUserKeeps(db, i, j);
    }
    UserDroppedKeys(db.users, db.boxes, db.msgs, i, db'.users);
    AccountsOfIs(db'.users, db'.boxes, db'.msgs, r);
  }

  lemma OtherUserKeeps(db: Db, i: Id, j: Id)
    requires UniqueNames(db.boxes) && UniqueUids(db.msgs) && j != i
    ensures var db' := DeleteUsers(db, {i}); AccountOf(db'.boxes, db'.msgs, j) == AccountOf(db.boxes, db.msgs, j)
  {
    hide AccountOf, UniqueNames, UniqueUids;
    DroppedAccount(db, BoxesOwned(db, {i}), j);
    AccountNames(db.boxes, db.msgs, j);
    var was := AccountOf(db.boxes, db.msgs, j);
    assert was == map n | n in was && BoxAt(db.boxes, j, n) !in BoxesOwned(db, {i}) :: was[n];
  }

  lemma UserDroppedKeys(users: map<Id, User>, boxes: map<Id, Box>, msgs: map<Id, Msg>, i: Id, users': map<Id, User>)
    requires UniqueAddresses(users) && i in users && users' == map j | j in users && j !in {i} :: users[j]
    ensures UniqueAddresses(users')
    ensures Addresses(users') == AccountsOf(users, boxes, msgs).Keys - {users[i].address}
  {
    hide AccountOf;
    forall x | x in Addresses(users) && x != users[i].address ensures x in Addresses(users') {
      assert users'[UserAt(users, x)].address == x;
    }
  }

  lemma UserDroppedAliases(db: Db, i: Id)
    requires Sound(db) && i in db.users
    ensures var db' := DeleteUsers(db, {i}); var w := View(db);
            View(db').aliases == map l | l in w.aliases && w.aliases[l].address != db.users[i].address :: w.aliases[l]
  {
    hide AccountsOf, Sound, UniqueAliases, AliasesOf;
    var db' := DeleteUsers(db, {i});
    Keys(db);
    NoMailAhead(db);
    TargetsLeft(db, i);
    UserDroppedSound(db, i);
    Keys(db');
    AliasesLeft(db.aliases, db'.aliases, db.users, db'.users, db.users[i].address);
  }

  /** The aliases that are left are those that belong to others. */
  lemma AliasesLeft(aliases: map<Id, Alias>, aliases': map<Id, Alias>, users: map<Id, User>, users': map<Id, User>,
                    gone: string)
    requires UniqueAliases(aliases) && UniqueAliases(aliases')
    requires forall k :: k in aliases' <==> k in aliases && TargetOf(aliases[k], users).address != gone
    requires forall k :: k in aliases' ==>
               aliases'[k] == aliases[k] && TargetOf(aliases[k], users') == TargetOf(aliases[k], users)
    ensures var was := AliasesOf(aliases, users);
            AliasesOf(aliases', users') == map l | l in was && was[l].address != gone :: was[l]
  {
    hide TargetOf, UniqueAliases;
    var was := AliasesOf(aliases, users);
    var r := map l | l in was && was[l].address != gone :: was[l];
    forall k | k in aliases' ensures aliases'[k].alias in r && r[aliases'[k].alias] == TargetOf(aliases'[k], users') {
      AliasFound(aliases, users, k);
    }
    forall l | l in r ensures l in AliasNames(aliases') {
      assert aliases'[AliasAt(aliases, l)].alias == l;
    }
    AliasesOfIs(aliases', users', r);
  }

  lemma NamedAlias(aliases: map<Id, Alias>, users: map<Id, User>, l: string)
    requires l in AliasesOf(aliases, users)
    ensures l in AliasNames(aliases) && AliasesOf(aliases, users)[l] == TargetOf(aliases[AliasAt(aliases, l)], users)
  {}

  /** An alias points to the deleted user exactly when its target has that address; other targets stay. */
  lemma TargetsLeft(db: Db, i: Id)
    requires Sound(db) && i in db.users
    ensures forall k :: k in db.aliases ==>
              (TargetOf(db.aliases[k], db.users).address == db.users[i].address <==> db.aliases[k].user == i)
    ensures forall k :: k in DeleteUsers(db, {i}).aliases ==>
              TargetOf(db.aliases[k], DeleteUsers(db, {i}).users) == TargetOf(db.aliases[k], db.users)
  {
    hide MsgsOk, BoxesOk, UniqueAliases;
  }

  // ---- aliases ----------------------------------------------------------------------------------------------------

  lemma AliasFact(db: Db, alias: string)
    requires Sound(db)
    ensures AliasIds(db, alias) == {} <==> alias !in View(db).aliases
  {
    hide AccountsOf;
    forall k | k in AliasIds(db, alias) ensures alias in View(db).aliases {
      AliasFound(db.aliases, db.users, k);
    }
    if alias in View(db).aliases { assert AliasAt(db.aliases, alias) in AliasIds(db, alias); }
  }

  lemma AliasInserted(db: Db, alias: string, i: Id, node: bool)
    requires Sound(db) && i in db.users && AliasIds(db, alias) == {}
    requires node ==> forall k :: k in db.aliases ==> !db.aliases[k].node
    ensures var db' := InsertAlias(db, alias, i, node);
            Sound(db') && View(db') == View(db).(aliases :=
                                                 View(db).aliases[alias := Target(db.users[i].address, node)])
  {
    hide AccountsOf, Sound, UniqueAliases, AliasesOf;
    var db' := InsertAlias(db, alias, i, node);
    AliasInsertedSound(db, alias, i, node);
    Keys(db);
    Keys(db');
    NoMailAhead(db);
    var r := AliasesOf(db.aliases, db.users)[alias := Target(db.users[i].address, node)];
    forall k | k in db'.aliases
      ensures db'.aliases[k].alias in r && r[db'.aliases[k].alias] == TargetOf(db'.aliases[k], db.users)
    {
      if k != db.nextAlias {
        assert k !in AliasIds(db, alias);
        AliasFound(db.aliases, db.users, k);
      }
    }
    forall l | l in r ensures l in AliasNames(db'.aliases) {
      if l == alias {
        assert db'.aliases[db.nextAlias].alias == l;
      } else {
        NamedAlias(db.aliases, db.users, l);
        assert db'.aliases[AliasAt(db.aliases, l)].alias == l;
      }
    }
    AliasesOfIs(db'.aliases, db.users, r);
  }

  lemma AliasInsertedSound(db: Db, alias: string, i: Id, node: bool)
    requires Sound(db) && i in db.users && AliasIds(db, alias) == {}
    requires node ==> forall k :: k in db.aliases ==> !db.aliases[k].node
    ensures Sound(InsertAlias(db, alias, i, node))
  {
    hide MsgsOk, BoxesOk, UsersOk;
    assert forall k :: k in db.aliases ==> k !in AliasIds(db, alias);
  }

  lemma AliasDeletedSound(db: Db, alias: string)
    requires Sound(db)
    ensures var db' := DeleteAliases(db, AliasIds(db, alias)); Sound(db') && AliasIds(db', alias) == {}
  {
    hide MsgsOk, BoxesOk, UsersOk;
  }

  /** What deleting an alias does to the view, by names. */
  lemma AliasDeletedView(aliases: map<Id, Alias>, aliases': map<Id, Alias>, users: map<Id, User>, alias: string)
    requires UniqueAliases(aliases) && UniqueAliases(aliases')
    requires aliases' == map k | k in aliases && aliases[k].alias != alias :: aliases[k]
    ensures AliasesOf(aliases', users) == AliasesOf(aliases, users) - {alias}
  {
    hide TargetOf, UniqueAliases;
    var r := AliasesOf(aliases, users) - {alias};
    forall k | k in aliases' ensures aliases'[k].alias in r && r[aliases'[k].alias] == TargetOf(aliases'[k], users) {
      AliasFound(aliases, users, k);
    }
    forall l | l in r ensures l in AliasNames(aliases') {
      assert aliases'[AliasAt(aliases, l)].alias == l;
    }
    AliasesOfIs(aliases', users, r);
  }

  lemma AliasDeleted(db: Db, alias: string)
    requires Sound(db)
    ensures var db' := DeleteAliases(db, AliasIds(db, alias));
            && Sound(db') && AliasIds(db', alias) == {}
            && View(db') == View(db).(aliases := View(db).aliases - {alias})
  {
    hide AccountsOf, Sound, AliasesOf, UniqueAliases;
    var db' := DeleteAliases(db, AliasIds(db, alias));
    AliasDeletedSound(db, alias);
    Keys(db);
    Keys(db');
    AliasDeletedView(db.aliases, db'.aliases, db.users, alias);
  }

  lemma NodeClearedSound(db: Db)
    requires Sound(db)
    ensures Sound(ClearNode(db)) && forall k :: k in ClearNode(db).aliases ==> !ClearNode(db).aliases[k].node
  {
    hide MsgsOk, BoxesOk, UsersOk;
  }

  lemma NodeClearedView(aliases: map<Id, Alias>, aliases': map<Id, Alias>, users: map<Id, User>)
    requires UniqueAliases(aliases) && UniqueAliases(aliases')
    requires aliases' == map k | k in aliases :: aliases[k].(node := false)
    ensures AliasesOf(aliases', users) == map l | l in AliasesOf(aliases, users) ::
              AliasesOf(aliases, users)[l].(node := false)
  {
    hide UniqueAliases;
    var was := AliasesOf(aliases, users);
    var r := map l | l in was :: was[l].(node := false);
    forall k | k in aliases' ensures aliases'[k].alias in r && r[aliases'[k].alias] == TargetOf(aliases'[k], users) {
      AliasFound(aliases, users, k);
    }
    forall l | l in r ensures l in AliasNames(aliases') {
      assert aliases'[AliasAt(aliases, l)].alias == l;
    }
    AliasesOfIs(aliases', users, r);
  }

  lemma NodeCleared(db: Db)
    requires Sound(db)
    ensures var db' := ClearNode(db);
            && Sound(db') && (forall k :: k in db'.aliases ==> !db'.aliases[k].node)
            && View(db') == View(db).(aliases := map l | l in View(db).aliases :: View(db).aliases[l].(node := false))
  {
    hide AccountsOf, Sound, AliasesOf, UniqueAliases;
    NodeClearedSound(db);
    Keys(db);
    Keys(ClearNode(db));
    NodeClearedView(db.aliases, ClearNode(db).aliases, db.users);
  }

  lemma AddAliasRefines(db: Db, alias: string, target: string)
    requires Sound(db)
    ensures var r := Do(db, AddAlias(alias, target));
            Sound(r.0) && (View(r.0), r.1) == Spec(View(db), AddAlias(alias, target))
  {
    hide Sound, AccountsOf, AliasesOf;
    UserFact(db, target);
    AliasFact(db, alias);
    if i :| i in UserIds(db, target) && AliasIds(db, alias) == {} { AliasInserted(db, alias, i, false); }
  }

  lemma AssignRefines(db: Db, address: string, alias: string)
    requires Sound(db)
    ensures var db' := Assign(db, address, alias);
            Sound(db') && View(db') == Spec(View(db), AssignAlias(address, alias)).0
  {
    hide Sound, AccountsOf, AliasesOf;
    var db1 := ClearNode(db);
    NodeCleared(db);
    var db2 := DeleteAliases(db1, AliasIds(db1, alias));
    AliasDeleted(db1, alias);
    UserFact(db, address);
    var was := View(db).aliases;
    assert View(db2).aliases == map k | k in was && k != alias :: was[k].(node := false);
    if i :| i in UserIds(db, address) { AliasInserted(db2, alias, i, true); }
  }

  /** Assigning the node's alias leaves the node with an alias if and only if the address is a user's: for any other it
      succeeds all the same, and takes the alias away. */
  lemma AssignGivesNode(w: World, address: string, alias: string)
    ensures var aliases := Spec(w, AssignAlias(address, alias)).0.aliases;
            (exists k :: k in aliases && aliases[k].node) <==> address in w.accounts
    ensures Spec(w, AssignAlias(address, alias)).1 == OK
  {
    var aliases := Spec(w, AssignAlias(address, alias)).0.aliases;
    if address in w.accounts { assert alias in aliases && aliases[alias].node; }
  }

  /** Adding an alias that is free adds it if and only if the target is a user; for any other it succeeds all the
      same. */
  lemma AddAliasAdds(w: World, alias: string, target: string)
    requires alias !in w.aliases
    ensures var r := Spec(w, AddAlias(alias, target));
            r.1 == OK && (alias in r.0.aliases <==> target in w.accounts)
            && (target in w.accounts ==> r.0.aliases[alias] == Target(target, false))
  {}

  // ---- every operation --------------------------------------------------------------------------------------------

  lemma SeenColumn()
    ensures WellFormed(Some(SEEN)) && Decode(Some(SEEN)) == NO_FLAGS.(seen := true)
    ensures WellFormed(None) && Decode(None) == NO_FLAGS
  {
    var f := NO_FLAGS.(seen := true);
    assert Encode(f) == SEEN;
    RoundTrip(f);
  }

  /** Each operation on the tables keeps every key and foreign key, and does to the view what the specification says,
      with the specified outcome. */
  lemma Refines(db: Db, op: Op)
    requires Sound(db)
    ensures Sound(Do(db, op).0)
    ensures (View(Do(db, op).0), Do(db, op).1) == Spec(View(db), op)
  {
    hide Sound, AccountsOf, AliasesOf, Move, Rename, Append, Assign, SpecMove, SpecRename, SpecAppend, SpecEnsure,
        EnsureBox;
    match op {
      case UserCreate(a) => UserFact(db, a); if UserIds(db, a) == {} { UserCreateRefines(db, a); }
      case UserDelete(a) => UserFact(db, a); if UserIds(db, a) != {} { UserDeleteRefines(db, a); }
      case MailboxCreate(u, n) => EnsureRefines(db, u, n);
      case MailboxRename(u, n, n') => RenameRefines(db, u, n, n');
      case MailboxDelete(u, n) => MailboxDeleteRefines(db, u, n);
      case MailCreate(u, n, body) => SeenColumn(); AppendRefines(db, u, n, None, body);
      case MailUpdateFlags(u, n, uid, f) => FlagsRefine(db, u, n, uid, f);
      case MailDelete(u, n, uid) => DeleteRefines(db, u, n, uid);
      case MailExpunge(u, n) => ExpungeRefines(db, u, n);
      case MailMove(u, n, uid, dest) => MoveRefines(db, u, n, uid, dest);
      case DeliverToUser(a, body) => SeenColumn(); AppendRefines(db, a, INBOX, None, body);
      case DeliverToSent(a, body) =>
        SeenColumn();
        EnsureRefines(db, a, SENT);
        AppendRefines(EnsureBox(db, a, SENT), a, SENT, Some(SEEN), body);
      case AddAlias(l, a) => AddAliasRefines(db, l, a);
      case DeleteAlias(l) => AliasFact(db, l); AliasDeleted(db, l);
      case AssignAlias(a, l) => AssignRefines(db, a, l);
    }
  }
}
