/** What the fifteen operations leave alone, message by message and alias by alias, and what that comes to over runs. */
module StoreFrames {
  import opened Wrappers
  import opened Flags
  import opened Schema
  import opened Operations
  import opened StoreQueries
  import opened StoreRuns

  // ---- one operation ----------------------------------------------------------------------------------------------

  /** The folder a deletion or a renaming takes away. */
  predicate TakesFolder(w: World, op: Op, a: string, f: string) {
    || op == UserDelete(a) || op == MailboxDelete(a, f)
    || (op.MailboxRename? && op.user == a && op.name == f && op.newName != f && !Has(w, a, op.newName))
  }

  /** A message leaves: deleted, expunged as marked, or moved to a folder that is there. */
  predicate TakesMail(w: World, op: Op, a: string, f: string, u: nat)
    requires u in MailIn(w, a, f)
  {
    || op == MailDelete(a, f, u)
    || (op == MailExpunge(a, f) && MailIn(w, a, f)[u].flags.deleted)
    || (op.MailMove? && op.user == a && op.name == f && op.uid == u && Has(w, a, op.dest))
  }

  predicate SetsFlags(op: Op, a: string, f: string, u: nat) {
    op.MailUpdateFlags? && op.user == a && op.name == f && op.uid == u
  }

  /** Message u of a's folder f before and after: gone with its folder, gone from it, or there with its body, and with
      its flags unless they are set. */
  ghost predicate Lasts(w: World, op: Op, w': World, a: string, f: string, u: nat)
    requires u in MailIn(w, a, f)
  {
    if TakesFolder(w, op, a, f) then !Has(w', a, f)
    else if TakesMail(w, op, a, f, u) then Has(w', a, f) && u !in MailIn(w', a, f)
    else
      && u in MailIn(w', a, f)
      && MailIn(w', a, f)[u].body == MailIn(w, a, f)[u].body
      && MailIn(w', a, f)[u].flags == if SetsFlags(op, a, f, u) then op.flags else MailIn(w, a, f)[u].flags
  }

  predicate AppendsMail(op: Op) { op.MailCreate? || op.DeliverToUser? || op.DeliverToSent? }

  predicate OfFolder(op: Op) { op.MailboxCreate? || op.MailboxRename? || op.MailboxDelete? }

  predicate OfMail(op: Op) { op.MailUpdateFlags? || op.MailDelete? || op.MailExpunge? }

  /** A message stays with its folder, its UID and its body exactly unless an operation names it, or its folder, to be
      taken away. */
  lemma MailLasts(w: World, op: Op, a: string, f: string, u: nat)
    requires u in MailIn(w, a, f) && u < w.accounts[a][f].uidNext
    ensures Lasts(w, op, Spec(w, op).0, a, f, u)
  {
    if AppendsMail(op) { LastsAppend(w, op, a, f, u); }
    else if OfFolder(op) { LastsFolder(w, op, a, f, u); }
    else if OfMail(op) { LastsMail(w, op, a, f, u); }
    else if op.MailMove? { LastsMove(w, op, a, f, u); }
    else { LastsUser(w, op, a, f, u); }
  }

  lemma LastsAppend(w: World, op: Op, a: string, f: string, u: nat)
    requires AppendsMail(op) && u in MailIn(w, a, f) && u < w.accounts[a][f].uidNext
    ensures Lasts(w, op, Spec(w, op).0, a, f, u)
  {}

  lemma LastsFolder(w: World, op: Op, a: string, f: string, u: nat)
    requires OfFolder(op) && u in MailIn(w, a, f) && u < w.accounts[a][f].uidNext
    ensures Lasts(w, op, Spec(w, op).0, a, f, u)
  {}

  lemma LastsMail(w: World, op: Op, a: string, f: string, u: nat)
    requires OfMail(op) && u in MailIn(w, a, f) && u < w.accounts[a][f].uidNext
    ensures Lasts(w, op, Spec(w, op).0, a, f, u)
  {}

  lemma LastsMove(w: World, op: Op, a: string, f: string, u: nat)
    requires op.MailMove? && u in MailIn(w, a, f) && u < w.accounts[a][f].uidNext
    ensures Lasts(w, op, Spec(w, op).0, a, f, u)
  {}

  lemma LastsUser(w: World, op: Op, a: string, f: string, u: nat)
    requires !AppendsMail(op) && !OfFolder(op) && !OfMail(op) && !op.MailMove?
    requires u in MailIn(w, a, f) && u < w.accounts[a][f].uidNext
    ensures Lasts(w, op, Spec(w, op).0, a, f, u)
  {}

  /** Where a message that was not there comes from. */
  ghost predicate Comes(w: World, op: Op, w': World, a: string, f: string, u: nat)
    requires u in MailIn(w', a, f)
  {
    var m := MailIn(w', a, f)[u];
    || (op == MailCreate(a, f, m.body) && m.flags == NO_FLAGS)
    || (op == DeliverToUser(a, m.body) && f == INBOX && m.flags == NO_FLAGS)
    || (op == DeliverToSent(a, m.body) && f == SENT && m.flags == NO_FLAGS.(seen := true))
    || (op.MailMove? && op.user == a && op.dest == f
        && op.uid in MailIn(w, a, op.name) && MailIn(w, a, op.name)[op.uid] == m)
    || (op.MailboxRename? && op.user == a && op.newName == f
        && u in MailIn(w, a, op.name) && MailIn(w, a, op.name)[u] == m)
  }

  /** A message that was not there was brought by the call, or stood elsewhere in the account. */
  lemma MailComes(w: World, op: Op, a: string, f: string, u: nat)
    requires u in MailIn(Spec(w, op).0, a, f) && u !in MailIn(w, a, f)
    ensures Comes(w, op, Spec(w, op).0, a, f, u)
  {
    if AppendsMail(op) { ComesAppend(w, op, a, f, u); }
    else if OfFolder(op) { ComesFolder(w, op, a, f, u); }
    else if op.MailMove? { ComesMove(w, op, a, f, u); }
    else if OfMail(op) { NoneComeMail(w, op, a, f, u); }
    else { NoneComeUser(w, op, a, f, u); }
  }

  lemma ComesAppend(w: World, op: Op, a: string, f: string, u: nat)
    requires AppendsMail(op) && u in MailIn(Spec(w, op).0, a, f) && u !in MailIn(w, a, f)
    ensures Comes(w, op, Spec(w, op).0, a, f, u)
  {}

  lemma ComesFolder(w: World, op: Op, a: string, f: string, u: nat)
    requires OfFolder(op) && u in MailIn(Spec(w, op).0, a, f) && u !in MailIn(w, a, f)
    ensures Comes(w, op, Spec(w, op).0, a, f, u)
  {}

  lemma ComesMove(w: World, op: Op, a: string, f: string, u: nat)
    requires op.MailMove? && u in MailIn(Spec(w, op).0, a, f) && u !in MailIn(w, a, f)
    ensures Comes(w, op, Spec(w, op).0, a, f, u)
  {}

  lemma NoneComeMail(w: World, op: Op, a: string, f: string, u: nat)
    requires OfMail(op) && u in MailIn(Spec(w, op).0, a, f)
    ensures u in MailIn(w, a, f)
  {}

  lemma NoneComeUser(w: World, op: Op, a: string, f: string, u: nat)
    requires !AppendsMail(op) && !OfFolder(op) && !OfMail(op) && !op.MailMove? && u in MailIn(Spec(w, op).0, a, f)
    ensures u in MailIn(w, a, f)
  {}

  /** When a call returns an error. */
  predicate Refused(w: World, op: Op) {
    match op
    case UserCreate(a) => a in w.accounts
    case UserDelete(a) => a !in w.accounts
    case MailboxRename(a, f, f') => Has(w, a, f) && f != f' && Has(w, a, f')
    case MailCreate(a, f, _) => !Has(w, a, f)
    case DeliverToUser(a, _) => !Has(w, a, INBOX)
    case DeliverToSent(a, _) => a !in w.accounts
    case MailMove(a, f, _, d) => !Has(w, a, f) || !Has(w, a, d)
    case AddAlias(l, a) => a in w.accounts && l in w.aliases
    case DeleteAlias(l) => l !in w.aliases
    case _ => false
  }

  /** Errors are returned exactly then and change nothing; an append returns the UID under which its message is. */
  lemma FailsExactly(w: World, op: Op)
    ensures Spec(w, op).1.Failed? <==> Refused(w, op)
    ensures Refused(w, op) ==> Spec(w, op).0 == w
    ensures !Refused(w, op) ==>
              match op
              case MailCreate(a, f, body) => NewAt(w, Spec(w, op), a, f, Message(NO_FLAGS, body))
              case DeliverToUser(a, body) => NewAt(w, Spec(w, op), a, INBOX, Message(NO_FLAGS, body))
              case DeliverToSent(a, body) => NewAt(w, Spec(w, op), a, SENT, Message(NO_FLAGS.(seen := true), body))
              case _ => Spec(w, op).1 == OK
  {}

  /** The outcome is a UID that was the folder's next one, or 1 if there was none, and the message is there. */
  ghost predicate NewAt(w: World, r: (World, Outcome), a: string, f: string, m: Message) {
    && r.1.Done?
    && r.1.uid == (if Has(w, a, f) then w.accounts[a][f].uidNext else 1)
    && r.1.uid in MailIn(r.0, a, f) && MailIn(r.0, a, f)[r.1.uid] == m
  }

  /** A renamed folder keeps its messages and its counter. */
  lemma RenameCarries(w: World, a: string, f: string, f': string)
    requires Has(w, a, f) && !Has(w, a, f')
    ensures var w' := Spec(w, MailboxRename(a, f, f')).0; Has(w', a, f') && w'.accounts[a][f'] == w.accounts[a][f]
  {}

  /** What brings a folder that was not there; but for a renaming it comes empty, with its counter at 1. */
  predicate BringsFolder(w: World, op: Op, a: string, f: string) {
    || (op == MailboxCreate(a, f) && a in w.accounts)
    || (op.DeliverToSent? && op.address == a && f == SENT && a in w.accounts)
    || (op == UserCreate(a) && f == INBOX && a !in w.accounts)
    || Renames(w, op, a, f)
  }

  predicate Renames(w: World, op: Op, a: string, f: string) {
    op.MailboxRename? && op.user == a && op.newName == f && op.name != f && Has(w, a, op.name) && !Has(w, a, f)
  }

  /** The operation gives out a UID of a's folder f. */
  predicate GivesUid(w: World, op: Op, a: string, f: string) {
    || (op.MailCreate? && op.user == a && op.name == f)
    || (op.DeliverToUser? && op.address == a && f == INBOX)
    || (op.DeliverToSent? && op.address == a && f == SENT)
    || (op.MailMove? && op.user == a && op.dest == f && Has(w, a, op.name))
  }

  /** Folders come and go only so, and the counter of one that stays rises by one exactly when one of its UIDs is given
      out. */
  ghost predicate FolderLasts(w: World, op: Op, w': World, a: string, f: string) {
    && (Has(w', a, f) <==> (Has(w, a, f) && !TakesFolder(w, op, a, f)) || BringsFolder(w, op, a, f))
    && (Has(w', a, f) ==>
          w'.accounts[a][f].uidNext == (if GivesUid(w, op, a, f) then 1 else 0)
            + if Has(w, a, f) then w.accounts[a][f].uidNext
              else if Renames(w, op, a, f) then w.accounts[a][op.name].uidNext else 1)
  }

  lemma FoldersLast(w: World, op: Op, a: string, f: string)
    ensures FolderLasts(w, op, Spec(w, op).0, a, f)
  {
    if AppendsMail(op) { FoldersAppend(w, op, a, f); }
    else if OfFolder(op) { FoldersFolder(w, op, a, f); }
    else if OfMail(op) || op.MailMove? { FoldersMail(w, op, a, f); }
    else { FoldersUser(w, op, a, f); }
  }

  lemma FoldersAppend(w: World, op: Op, a: string, f: string)
    requires AppendsMail(op)
    ensures FolderLasts(w, op, Spec(w, op).0, a, f)
  {}

  lemma FoldersFolder(w: World, op: Op, a: string, f: string)
    requires OfFolder(op)
    ensures FolderLasts(w, op, Spec(w, op).0, a, f)
  {}

  lemma FoldersMail(w: World, op: Op, a: string, f: string)
    requires OfMail(op) || op.MailMove?
    ensures FolderLasts(w, op, Spec(w, op).0, a, f)
  {}

  lemma FoldersUser(w: World, op: Op, a: string, f: string)
    requires !AppendsMail(op) && !OfFolder(op) && !OfMail(op) && !op.MailMove?
    ensures FolderLasts(w, op, Spec(w, op).0, a, f)
  {}

  /** The target an operation gives alias l. */
  function NewTarget(w: World, op: Op, l: string): Option<Target> {
    if op.AddAlias? && op.alias == l && op.target in w.accounts && l !in w.aliases then Some(Target(op.target, false))
    else if op.AssignAlias? && op.alias == l && op.address in w.accounts then Some(Target(op.address, true))
    else None
  }

  /** The operation takes alias l away: deletes it, deletes its user, or assigns it to nobody. */
  predicate TakesAlias(w: World, op: Op, l: string)
    requires l in w.aliases
  {
    || op == DeleteAlias(l)
    || (op == UserDelete(w.aliases[l].address) && w.aliases[l].address in w.accounts)
    || (op.AssignAlias? && op.alias == l && op.address !in w.accounts)
  }

  /** An alias is what it was last made, until it is taken away; assigning another takes only the node's mark. */
  lemma AliasesLast(w: World, op: Op, l: string)
    ensures var w' := Spec(w, op).0;
            && (NewTarget(w, op, l).Some? ==> l in w'.aliases && w'.aliases[l] == NewTarget(w, op, l).value)
            && (NewTarget(w, op, l).None? ==>
                  && (l in w'.aliases <==> l in w.aliases && !TakesAlias(w, op, l))
                  && (l in w'.aliases ==>
                        w'.aliases[l] == w.aliases[l].(node := w.aliases[l].node && !op.AssignAlias?)))
  {}

  // ---- over runs --------------------------------------------------------------------------------------------------

  /** None of the operations in `more` takes message u of a's folder f, or the folder, away. */
  ghost predicate Spared(ops: seq<Op>, more: seq<Op>, a: string, f: string, u: nat) {
    more == []
    || var p, op, w := more[..|more| - 1], more[|more| - 1], Meaning(ops + more[..|more| - 1]);
       Spared(ops, p, a, f, u) && !TakesFolder(w, op, a, f) && (u in MailIn(w, a, f) ==> !TakesMail(w, op, a, f, u))
  }

  lemma MeaningSnoc(ops: seq<Op>, op: Op)
    ensures Meaning(ops + [op]) == Spec(Meaning(ops), op).0
  {
    assert (ops + [op])[..|ops|] == ops;
  }

  /** Once it has arrived a message stays under its UID with its body, in the tables too, for as long as nobody takes it
      or its folder away. */
  lemma {:induction false} MailStays(ops: seq<Op>, more: seq<Op>, a: string, f: string, u: nat)
    requires u in MailIn(View(Tables(ops)), a, f) && Spared(ops, more, a, f, u)
    ensures u in MailIn(View(Tables(ops + more)), a, f)
    ensures MailIn(View(Tables(ops + more)), a, f)[u].body == MailIn(View(Tables(ops)), a, f)[u].body
  {
    hide Spec, View, Tables, Do, Sound, MailIn, TakesMail, TakesFolder;
    Reachable(ops);
    Reachable(ops + more);
    if more == [] {
      assert ops + more == ops;
    } else {
      var p, op := more[..|more| - 1], more[|more| - 1];
      assert ops + more == (ops + p) + [op];
      MailStays(ops, p, a, f, u);
      Reachable(ops + p);
      MeaningSnoc(ops + p, op);
      StaysOnce(Tables(ops + p), op, a, f, u);
    }
  }

  lemma StaysOnce(db: Db, op: Op, a: string, f: string, u: nat)
    requires Sound(db) && u in MailIn(View(db), a, f)
    requires !TakesFolder(View(db), op, a, f) && !TakesMail(View(db), op, a, f, u)
    ensures var w' := Spec(View(db), op).0;
            u in MailIn(w', a, f) && MailIn(w', a, f)[u].body == MailIn(View(db), a, f)[u].body
  {
    hide Spec, View, Sound, TakesMail, TakesFolder;
    assert Has(View(db), a, f);
    FoldersAreNumbered(db, a, f);
    MailLasts(View(db), op, a, f, u);
  }

  /** The call appends a message with this body for user a. */
  predicate Brings(op: Op, a: string, body: Bytes) {
    || (op.MailCreate? && op.user == a && op.body == body)
    || (op.DeliverToUser? && op.address == a && op.body == body)
    || (op.DeliverToSent? && op.address == a && op.body == body)
  }

  /** No message is invented, changed, or put into another account: whatever is in a's folders came with this body in a
      call for a. */
  lemma {:induction false} NothingInvented(ops: seq<Op>, a: string, f: string, u: nat)
    requires u in MailIn(View(Tables(ops)), a, f)
    ensures exists op :: op in ops && Brings(op, a, MailIn(View(Tables(ops)), a, f)[u].body)
  {
    hide Spec, View, Tables, Do, Sound, TakesMail, TakesFolder, Brings;
    Reachable(ops);
    if ops != [] {
      var p, op := ops[..|ops| - 1], ops[|ops| - 1];
      assert ops == p + [op];
      Reachable(p);
      var w, m := Meaning(p), MailIn(Meaning(ops), a, f)[u];
      OriginOnce(Tables(p), op, a, f, u);
      if f', u' :| u' in MailIn(w, a, f') && MailIn(w, a, f')[u'].body == m.body {
        NothingInvented(p, a, f', u');
        var first :| first in p && Brings(first, a, m.body);
        assert first in ops;
      } else {
        assert op in ops;
      }
    }
  }

  lemma OriginOnce(db: Db, op: Op, a: string, f: string, u: nat)
    requires Sound(db) && u in MailIn(Spec(View(db), op).0, a, f)
    ensures var m := MailIn(Spec(View(db), op).0, a, f)[u];
            Brings(op, a, m.body)
            || exists f', u' :: u' in MailIn(View(db), a, f') && MailIn(View(db), a, f')[u'].body == m.body
  {
    hide Spec, View, Sound, MailIn, TakesMail, TakesFolder;
    if u in MailIn(View(db), a, f) {
      OldMail(db, op, a, f, u);
    } else {
      MailComes(View(db), op, a, f, u);
    }
  }

  lemma OldMail(db: Db, op: Op, a: string, f: string, u: nat)
    requires Sound(db) && u in MailIn(View(db), a, f) && u in MailIn(Spec(View(db), op).0, a, f)
    ensures MailIn(Spec(View(db), op).0, a, f)[u].body == MailIn(View(db), a, f)[u].body
  {
    hide Spec, View, Sound, TakesMail, TakesFolder;
    assert Has(View(db), a, f);
    FoldersAreNumbered(db, a, f);
    MailLasts(View(db), op, a, f, u);
  }
}
