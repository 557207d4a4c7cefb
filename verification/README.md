# Glasir-MTA, verified

A Dafny model of the mail transfer agent's outbound queue, of the mail store under it, of the IMAP loops over that
store, and of the proof-of-work stamp that links a sending node to a receiving one, with proofs of what they guarantee
and, where a guarantee fails, of exactly when.

`dafny verify dfyconfig.toml` checks the whole project.

## How it is laid out

**The outbound queue under concurrency** (`Routing`, `QueueProtocol`, `QueueHistory`, `QueueInvariant`, `QueueTheorems`,
`QueueService`, `QueueLimits`, `QueueSubmission`). `QueueFor`, `run` and `manager` are goroutines whose SQL statements
are not in transactions, so they are a state machine: one event is one statement, one network attempt or one atomic
operation, and any number of threads interleave, crash (losing all threads and flags, keeping the tables) and are
disturbed by IMAP's `MoveMessages` clearing rows under the key `Outbox`. `QueueHistory` adds history variables that
nothing in the protocol reads: every stored message gets a ticket of its own, because Outbox UIDs can be reused.
`QueueInvariant` proves the inductive invariant one event and one component at a time. A destination is the host of its
recipient, or what the table of keys (a parameter) makes of the key before `@yggmail`. `QueueService` says that every
row is served, `QueueLimits` where the guarantees stop, with runs that get there, and `QueueSubmission` what becomes of
each recipient of a `QueueFor` call.

**UID allocation under concurrency** (`UidAllocation`): the read, insert and increment statements of appends and
deliveries, and the snapshot read and commit of a move, interleaved with deletions and with mailboxes coming and going.

**The store** (`Schema`, `Operations`, `Refinement`, `AccountRefinement`, `StoreRuns`, `StoreQueries`, `StoreFrames`,
`Holdings`, `Sums`, `Ranks`, `Storage`). `Operations.Do` is each operation as statements on the tables users, mailboxes,
messages and aliases; `Operations.Spec` is the same operation on a nested map: address, folder name, UID, message.
`AccountRefinement.Refines` says that the one implements the other and keeps every key; `StoreFrames` says what each
operation leaves alone. `Storage.Store` is the database handle as a class; its methods run the statements and are proved
against both. Flags are stored as text (`TextSearch`, `Flags`): encoding, decoding by substring search, and MariaDB's
reading of the LIKE patterns.

**IMAP** (`SeqSets`, `ImapSpec`, `ImapMailbox`): expansion of sequence sets in 32-bit arithmetic, and STORE, COPY, MOVE,
EXPUNGE and APPEND as loops over the store, each proved equal to a function of the nested map whose properties are then
proved.

**Stamps, submission and acceptance** (`Calendar`, `Stamp`, `Postage`, `Delivery`, `Sender`, `Queues`, `SmtpServer`).
SHA-256 is any function from strings to 32 bytes; the Unicode tables and the MIME library are parameters with the laws
in `Postage.Lawful`. `Queues.Queues` is the sender as one thread runs it: submission, starting runners, the manager's
tick, and a runner's pass.

**FormatBytes**: the scaling loop, in 64-bit arithmetic.

## What the proofs found

- Mail for a recipient whose host is `Outbox` (`x@Outbox`) can be lost: `MoveMessages` out of any user's folder of that
  name deletes queue rows under exactly that key. Mail for any other recipient is never lost.
- When the process stops between a transmission and the delete of its row, the next one transmits the message again;
  within one life of the process nothing is transmitted twice.
- The LIKE patterns of MailExpunge and MailUnseen look for the bare words `Deleted` and `Seen`: the backslash only
  escapes the letter after it. They agree with the decoded flags exactly when the bare word occurs only where the flag
  does, as it does on every column the program writes.
- MOVE of a UID without a message succeeds and skips a UID of the destination.
- COPY to another folder makes copies without flags, so a copy equals its original exactly when that had none. The flags
  are written to the folder copied from, to the message that happens to have the copy's UID; that folder stays as it was
  exactly when each such message has those flags already. Within one folder COPY keeps flags.
- APPEND stores what its list of flags says exactly when every known flag in the list is its last entry.
- STORE with a set that contains a UID without a message stops there when adding or removing flags, with the messages
  before it changed; replacing flags skips such UIDs. As sequence numbers, `n:*` is accepted exactly when it is empty or
  no UID is missing.
- As UIDs, the loop over a range ends exactly when the range does not end at 4294967295.
- Concurrent appends can store a smaller UID after a larger one has been given out, because the read of `uid_next` is
  not part of the insert.
- The gate accepts a single recipient's stamp exactly until 48 hours after the midnight (UTC) before it was made, and
  never for a recipient that contains a semicolon.
- AssignYggmailAlias always succeeds, and leaves the node with an alias exactly when the address is a user's. AddAlias
  of a free alias likewise succeeds and adds it exactly when the target is a user.
- The header comment of stamp.go shows colons between a stamp's fields; the code, which the model follows, uses
  semicolons.

## Model

| member | source | states |
|---|---|---|
| QueueInvariant.Keep | internal/smtpsender/sender.go:98-249 | every statement of QueueFor, queueFor, manager and run, every crash and every foreign clear keeps the invariant |
| QueueInvariant.Always | internal/smtpsender/sender.go:85-249 | the invariant holds after every interleaving |
| QueueTheorems.RowsReferenceLiveMail | internal/smtpsender/sender.go:152-158 | every queue row references a live system/Outbox message; no two rows the same one |
| QueueTheorems.CleanerOwns | internal/smtpsender/sender.go:231-246 | a goroutine cleaning up a message owns it alone: it is there, no row or other goroutine refers to it, and it was transmitted |
| QueueTheorems.PurgeIsSafe | internal/smtpsender/sender.go:246 | run never deletes an Outbox message that a row or another goroutine still refers to |
| QueueTheorems.NoSkippedMail | internal/smtpsender/sender.go:201-206 | the branches for a listed message that is gone and for a message still pending are never taken |
| QueueTheorems.AcceptedByEnqueue | internal/smtpsender/sender.go:156-158 | exactly the row inserts accept a message: one new ticket each, with that call's destination, addresses and content |
| QueueSubmission.CallProgress | internal/smtpsender/sender.go:98-163 | whatever interleaves, a call takes up its recipients in order, and every one it routed so far has its own ticket for its own host, address and content, but for the one in hand |
| QueueSubmission.CallReturned | internal/smtpsender/sender.go:98-163 | when a call returns without an error every recipient had its turn, and its tickets are those of the recipients it routed, one each, in order |
| QueueSubmission.ReturnedIsCarried | internal/smtpsender/sender.go:98-163 | from then on each of those messages has been transmitted to its recipient's host or waits in the queue intact |
| QueueSubmission.CallEnds | internal/smtpsender/sender.go:153-163 | a call ends with all recipients handled, at an insert whose UID is taken, or with the process, and not otherwise |
| QueueSubmission.CallTerminates | internal/smtpsender/sender.go:98-163 | whatever interleaves, a call executes at most six statements for each recipient and one more |
| QueueSubmission.CallNeverStuck | internal/smtpsender/sender.go:98-163 | a call always has a statement to execute, and its next recipient can be skipped or, if it has a host, routed with any content |
| QueueSubmission.KickLeavesRunner | internal/smtpsender/sender.go:165-178 | after its row a call leaves a runner for the destination alive, a fresh one unless one was |
| QueueSubmission.KickServesRow | internal/smtpsender/sender.go:159 | if none was, the new one transmits the row's message or leaves the row after ten failed attempts |
| QueueTheorems.NothingLost | internal/smtpsender/sender.go:191-249 | at all times an accepted message has been transmitted as accepted or waits in the queue with its content intact |
| QueueLimits.SafeUnlessOutbox | internal/imapserver/mailbox.go:291-295 | a recipient's mail is never lost in any run if and only if its host is not `Outbox` |
| QueueLimits.OutboxKeyLosesMail | internal/imapserver/mailbox.go:279-298 | for every recipient at host `Outbox`, every sender and body, a run that loses the message |
| QueueLimits.HostedAlways | internal/smtpsender/sender.go:105-125 | in every run each call, message and accepted envelope goes to the host of its recipient, or to the address of its key |
| Routing.HostIsDestination | internal/smtpsender/sender.go:100-125 | the host after the first `@` is the destination, unless it is `yggmail` |
| Routing.KeyIsLookedUp | internal/smtpsender/sender.go:114-122 | the name before `@yggmail` is looked up as a key |
| Routing.NoHost | internal/smtpsender/sender.go:100-125 | there is no host exactly without an `@`, or for a name at yggmail that is not a key |
| QueueTheorems.NothingSentTwice | internal/smtpsender/sender.go:208-224 | only accepted messages are transmitted, as accepted, and none twice in the life of a process (at most once per crash epoch) |
| QueueLimits.CrashSendsTwice | internal/smtpsender/sender.go:216-236 | across a crash a message can be transmitted twice, whoever the recipient |
| QueueTheorems.RowLeavesOnlyAfterSend | internal/smtpsender/sender.go:234-236 | a row disappears only by run's delete, after its own message was transmitted to its own recipient |
| QueueTheorems.QuietBijection | internal/smtpsender/sender.go:152-158 | when nobody is mid-sequence, message_id is a bijection between queue rows and Outbox messages |
| QueueTheorems.QuietOrphans | internal/smtpsender/sender.go:152-158 | with crashes and clears too: a quiet system's message has a row exactly unless a crash or a clear orphaned it |
| QueueTheorems.ArchivedWasSent | internal/smtpsender/sender.go:242-244 | what run files in the Sent folder is what it has transmitted |
| QueueTheorems.SingleRunner | internal/smtpsender/sender.go:165-178 | at most one run per destination is alive, and exactly when its flag is set |
| QueueTheorems.TickLeavesRunner | internal/smtpsender/sender.go:85-93 | after the tick handles a destination, a runner for it is alive, a fresh one unless one was |
| QueueService.NoStrandedRow | internal/smtpsender/sender.go:191-249 | whatever interleaves, when a goroutine ends, every row its destination had at its snapshot is gone and was transmitted, or is left after exactly ten failed attempts |
| QueueService.TickServesRow | internal/smtpsender/sender.go:85-93 | a tick that finds no goroutine for a row's destination starts one that so settles the row |
| QueueService.TickHandlesEveryRow | internal/smtpsender/sender.go:85-93 | a tick handles the destination of every row there was when it looked |
| QueueService.AtMostTenAttempts | internal/smtpsender/sender.go:208-229 | between selecting a message and going back to its loop a goroutine makes at most ten attempts, at most one succeeds, and it is back only after a success or all ten |
| QueueTheorems.RunTerminates | internal/smtpsender/sender.go:201-248 | whatever interleaves, a goroutine with n references executes at most 15n+3 more statements |
| QueueTheorems.RunnerNeverStuck | internal/smtpsender/sender.go:191-249 | a goroutine always has a statement to execute, and an attempt can go either way |
| QueueTheorems.AnythingCanStart | internal/smtpsender/sender.go:85-98 | the runs are not restricted: in every state a call or a tick can start, rows can be cleared and the process can stop |
| QueueLimits.UidIsReused | internal/storage/mariadb/mariadb.go:160-177 | an Outbox UID really is used again, for mail to any remote recipient, and the two messages have different tickets |
| QueueLimits.StaleUidIsReused | internal/storage/mariadb/mariadb.go:160-177 | this happens from every state in which a message is about to be deleted and an insert with a stale uid_next is about to follow |
| UidAllocation.UidsUniqueAndBounded | internal/storage/mariadb/schema.sql:31 | under interleaving, live UIDs are distinct, at most uid_next, and below it once their creator has incremented |
| UidAllocation.UidNextMonotone | internal/storage/mariadb/mariadb.go:175 | uid_next never decreases |
| UidAllocation.UidNextCounts | internal/storage/mariadb/mariadb.go:272-308 | uid_next - 1 is the number of completed inserts plus committed moves into the mailbox |
| UidAllocation.MoveOfAbsentUidBumps | internal/storage/mariadb/mariadb.go:291-306 | a move that names no message still counts |
| UidAllocation.MoveLands | internal/storage/mariadb/mariadb.go:272-308 | whatever comes between, a move puts the message it names under the UID its read found next in the destination, unless that cannot take it, and moves no other |
| UidAllocation.CreateLands | internal/storage/mariadb/mariadb.go:160-177 | an append puts its message under the UID it read, unless that is in use or the mailbox gone |
| UidAllocation.MessagesStay | internal/storage/mariadb/mariadb.go:241-308 | a message leaves only by its own deletion or its mailbox's, and stays in place but for moves |
| UidAllocation.FreshInsertAscends | internal/storage/mariadb/mariadb.go:162-172 | an insert whose read is not stale gets a UID above all others of its mailbox |
| UidAllocation.StaleInsertDescends | internal/storage/mariadb/mariadb.go:162-172 | a run in which a stale read makes a later message get a smaller UID |
| StoreRuns.Reachable | internal/storage/mariadb/schema.sql:5-42 | after every sequence of operations all unique and foreign keys hold and the tables mean what the nested specification says |
| AccountRefinement.Refines | internal/storage/mariadb/mariadb.go:127-308 | every operation keeps the keys and commutes with the nested view, with the specified outcome |
| Refinement.BoxFact | internal/storage/mariadb/mariadb.go:75-82 | the join on address and folder name finds exactly the view's folder |
| Refinement.MoveRefines | internal/storage/mariadb/mariadb.go:272-308 | MailMove moves one message under the destination's next UID, or only skips that UID |
| AccountRefinement.UserDeleteRefines | internal/storage/mariadb/mariadb.go:568-578 | deleting a user takes its folders, mail and aliases, and nothing else |
| AccountRefinement.AssignRefines | internal/storage/mariadb/mariadb.go:434-462 | the node alias is taken from whoever has it and given to the user, if there is one |
| AccountRefinement.AssignGivesNode | internal/storage/mariadb/mariadb.go:434-462 | it always succeeds, and the node has an alias afterwards if and only if the address is a user's |
| AccountRefinement.AddAliasAdds | internal/storage/mariadb/mariadb.go:700-707 | a free alias is added if and only if the target is a user, with no error either way |
| StoreRuns.UidsAscend | internal/storage/mariadb/mariadb.go:160-177 | operations one at a time: of two messages that arrive in a mailbox row one after the other, by append, delivery, copy or move, the later has the larger UID (RFC 3501, section 2.3.1.1) |
| StoreRuns.AssignedArrives | internal/storage/mariadb/mariadb.go:160-177 | the UID an operation gives out is taken by exactly one message, new or moved, in that mailbox; no other message arrives |
| StoreRuns.ProtectedRowStays | internal/imapserver/user.go:69-90 | the row of INBOX, Outbox or Sent stays under its name and owner until the owner is deleted |
| StoreRuns.AccountsAlways | internal/imapserver/user.go:59-90 | every account but `system` has exactly one INBOX, every alias an existing user, and at most one alias is the node's |
| StoreFrames.MailLasts | internal/storage/mariadb/mariadb.go:127-308 | each operation leaves a message its folder, UID and body, and its flags unless it sets them, exactly unless it takes that message or folder away |
| StoreFrames.MailComes | internal/storage/mariadb/mariadb.go:160-308 | a message that was not there was brought by that call, or stood elsewhere in the same account with the same flags and body |
| StoreFrames.RenameCarries | internal/storage/mariadb/mariadb.go:134-140 | a renamed folder keeps its messages, their flags and its counter |
| StoreFrames.FailsExactly | internal/storage/mariadb/mariadb.go:127-462 | when each operation returns an error, that it then changes nothing, and the UID an append returns |
| StoreFrames.FoldersLast | internal/storage/mariadb/mariadb.go:127-148 | folders come and go only by their own operations, and a counter rises by one exactly when one of its UIDs is given out |
| StoreFrames.AliasesLast | internal/storage/mariadb/mariadb.go:434-462 | an alias is what it was last made until it, its user or its assignment is taken away |
| StoreFrames.MailStays | internal/storage/mariadb/mariadb.go:127-308 | over every run a message that has arrived stays in the tables, under its UID with its body, until it or its folder is taken away |
| StoreFrames.NothingInvented | internal/storage/mariadb/mariadb.go:160-177 | over every run, whatever is in an account came with that body in a call for that account |
| Storage.Store.MailboxCreate | internal/storage/mariadb/mariadb.go:127-132 | creates the folder unless the user has it or does not exist |
| Storage.Store.MailboxRename | internal/storage/mariadb/mariadb.go:134-140 | renames, fails on a taken name, ignores a missing folder |
| Storage.Store.MailboxDelete | internal/storage/mariadb/mariadb.go:142-148 | removes the folder with its mail |
| Storage.Store.MailCreate | internal/storage/mariadb/mariadb.go:160-177 | appends under the next UID, which it returns, or fails without a folder |
| Storage.Store.DeliverToUser | internal/storage/mariadb/mariadb.go:370-391 | appends to the INBOX of the address or fails |
| Storage.Store.DeliverToSent | internal/storage/mariadb/mariadb.go:393-418 | makes Sent if needed and appends to it, marked seen |
| Storage.Store.MailUpdateFlags | internal/storage/mariadb/mariadb.go:225-239 | sets exactly the four flags of one message |
| Storage.Store.MailDelete | internal/storage/mariadb/mariadb.go:241-249 | removes exactly that message |
| Storage.Store.MailExpunge | internal/storage/mariadb/mariadb.go:251-260 | removes exactly the messages whose decoded flags have Deleted |
| Storage.Store.MailMove | internal/storage/mariadb/mariadb.go:272-308 | the transaction, on rows and on the view |
| Storage.Store.UserCreate | internal/storage/mariadb/mariadb.go:541-565 | a new account with an empty INBOX, or an error for a taken address |
| Storage.Store.UserDelete | internal/storage/mariadb/mariadb.go:568-578 | the cascade, or an error for an unknown address |
| Storage.Store.AddAlias | internal/storage/mariadb/mariadb.go:700-707 | adds an alias, fails on a taken one, silently ignores an unknown target |
| Storage.Store.DeleteAlias | internal/storage/mariadb/mariadb.go:710-720 | removes the alias or fails |
| Storage.Store.AssignYggmailAlias | internal/storage/mariadb/mariadb.go:434-462 | the three statements, on rows and on the view |
| Storage.Store.QueueDeleteDestinationForID | internal/storage/mariadb/mariadb.go:355-360 | removes exactly the rows of that destination and message |
| Storage.Store.QueueListDestinations | internal/storage/mariadb/mariadb.go:311-326 | each destination with a row, once |
| Storage.Store.QueueMailIDsForDestination | internal/storage/mariadb/mariadb.go:328-345 | each row of the destination once and no other, in any order |
| Storage.Store.QueueSelectIsMessagePendingSend | internal/storage/mariadb/mariadb.go:362-367 | whether some row of any destination references the message |
| Storage.Store.MailNextID | internal/storage/mariadb/mariadb.go:75-82 | the folder's next UID in the view |
| Storage.Store.MailIDForSeq | internal/storage/mariadb/mariadb.go:84-93 | the i-th UID of the ascending list, an error outside 1..count |
| Storage.Store.MailSearch | internal/storage/mariadb/mariadb.go:203-223 | the folder's UIDs in ascending order |
| Storage.Store.MailCount | internal/storage/mariadb/mariadb.go:262-270 | the number of the folder's messages in the view |
| Storage.Store.MailUnseen | internal/storage/mariadb/mariadb.go:95-105 | the number of messages whose decoded flags lack Seen |
| Storage.Store.MailSelect | internal/storage/mariadb/mariadb.go:179-201 | the message with its decoded flags, and the length of its body |
| Storage.Store.ResolveAlias | internal/storage/mariadb/mariadb.go:421-431 | the address behind an alias |
| Storage.Store.UserQuotaInfo | internal/storage/mariadb/mariadb.go:625-643 | the sum over the size column is the number of bytes of all bodies in the account |
| StoreQueries.QuotaIsBytes | internal/storage/mariadb/mariadb.go:635-642 | summing rows by user equals summing bodies folder by folder, UID by UID |
| StoreQueries.ExpungeRanks | internal/storage/mariadb/mariadb.go:251-260 | EXPUNGE lowers each survivor's sequence number by the number of deleted messages below it (RFC 3501, section 2.3.1.2) |
| Ranks.RankIsPosition | internal/storage/mariadb/mariadb.go:84-93 | a UID's sequence number is its position in the ascending list |
| Ranks.PositionHasRank | internal/storage/mariadb/mariadb.go:203-223 | every position 1..count is the sequence number of a live UID |
| Flags.RoundTrip | internal/storage/mariadb/mariadb.go:179-239 | decoding inverts encoding for all sixteen flag sets; NULL is no flags |
| Flags.EncodeContains | internal/storage/mariadb/mariadb.go:192-200 | searching a stored column for a flag finds it exactly when it is set |
| Flags.LikeAgrees | internal/storage/mariadb/mariadb.go:251-260 | on every column written, the LIKE tests agree with the decoded Deleted and Seen bits |
| Flags.LikeAgreesExactly | internal/storage/mariadb/mariadb.go:95-105 | on any column, each test agrees with its bit if and only if the bare word occurs only where the flag does |
| TextSearch.ContainsInJoin | internal/storage/mariadb/mariadb.go:237 | a needle without a space is in a space-joined list exactly when it is in one of the tokens |
| TextSearch.LikeIsContains | internal/storage/mariadb/mariadb.go:258 | what the pattern with its doubled backslash means to MariaDB |
| SeqSets.LoopEnds | internal/imapserver/mailbox.go:43-53 | in uint32 arithmetic the loop ends exactly when the range does not end at 2^32-1 |
| SeqSets.ExpandParts | internal/imapserver/mailbox.go:33-56 | a set is an error exactly if one of its parts is, and otherwise what its parts stand for, one after the other |
| SeqSets.UidSet | internal/imapserver/mailbox.go:33-56 | as UIDs a set of any ranges stands for exactly the UIDs from the start to the stop of each |
| SeqSets.UidRange | internal/imapserver/mailbox.go:43-53 | as UIDs `i:j` is i, i+1, ..., j as int32 |
| SeqSets.SequenceSet | internal/imapserver/mailbox.go:33-56 | as sequence numbers a set of any ranges is accepted exactly when each is empty or within the mailbox, and stands for exactly the messages with those numbers |
| SeqSets.UidStarCovers | internal/imapserver/mailbox.go:36-53 | as UIDs `n:*` is n..uid_next-1 and covers every live UID from n on |
| SeqSets.SequenceSlice | internal/imapserver/mailbox.go:43-53 | as sequence numbers `i:j` is the messages with exactly those sequence numbers |
| SeqSets.SequenceOutside | internal/imapserver/mailbox.go:44-48 | sequence numbers 0 and past the end are refused, and only those |
| SeqSets.SequenceStar | internal/imapserver/mailbox.go:36-42 | as sequence numbers `n:*` is accepted exactly when it is empty or no UID is missing |
| ImapMailbox.Mailbox.GetIDsFromSeqSet | internal/imapserver/mailbox.go:33-56 | the two loops compute the expansion that the lemmas above describe, with its errors |
| ImapMailbox.Mailbox.UpdateMessagesFlags | internal/imapserver/mailbox.go:220-249 | each selected message has each flag by the rule of adding, removing or setting, with its body, and nothing else changes; on an error exactly the messages before it |
| ImapSpec.StoredExactly | internal/imapserver/mailbox.go:226-243 | after adding a flag is set iff it was or is named, after removing iff it was and is not, after setting iff named; bodies, UIDs, counters, other messages, folders and accounts stay |
| ImapSpec.MarkingIsIdempotent | internal/imapserver/mailbox.go:220-249 | doing it twice, or naming a message twice, is doing it once (RFC 3501, section 6.4.6) |
| ImapMailbox.Mailbox.CopyMessages | internal/imapserver/mailbox.go:251-273 | the loop is CopyAll on the view; Outbox is refused without a change |
| ImapSpec.CopyAllApart | internal/imapserver/mailbox.go:259-271 | copying to another folder gets as far as the first missing UID, and changes only the two folders |
| ImapSpec.CopiesAppend | internal/imapserver/mailbox.go:264 | copies get consecutive UIDs in set order; bodies, UIDs and the destination's messages stay |
| ImapSpec.CopiesTouch | internal/imapserver/mailbox.go:268 | in the folder copied from, the message whose UID is that of the k-th copy gets the flags of the k-th message of the set, and nothing else changes |
| ImapSpec.CopyLeavesSource | internal/imapserver/mailbox.go:268 | a copy leaves the folder copied from as it was if and only if each message under a copy's UID has the flags of that copy's original already |
| ImapSpec.CopyExample | internal/imapserver/mailbox.go:260-270 | a copy that flags another message and not the copy |
| ImapSpec.CopyDropsFlags | internal/imapserver/mailbox.go:268 | every copy equals its original if and only if no original had flags |
| ImapSpec.CopyAllWithin | internal/imapserver/mailbox.go:259-271 | within one folder, copies keep flags and bodies, up to the first UID without a message when its turn comes |
| ImapMailbox.Mailbox.MoveMessages | internal/imapserver/mailbox.go:279-298 | the loop is MoveAll on the view; every account holds the same messages with the same flags and bodies; which queue rows go |
| ImapSpec.MoveAllApart | internal/imapserver/mailbox.go:287-290 | a move between two folders changes only those, as MoveInto says |
| ImapSpec.MovedExactly | internal/imapserver/mailbox.go:287-290 | exactly the named messages leave, the k-th of the set arrives under the k-th new UID, everything else stays (RFC 6851) |
| ImapSpec.MoveAllWithin | internal/imapserver/mailbox.go:287-290 | a move within one folder changes only that folder, as MoveInside says |
| ImapSpec.MovedInside | internal/imapserver/mailbox.go:287-290 | it loses, doubles and changes no message: each is under the UID its moves gave it, and nothing else is there |
| ImapSpec.FollowStays | internal/imapserver/mailbox.go:287-290 | a message keeps its UID exactly if the set does not name it |
| ImapSpec.MoveAllOrNothing | internal/storage/mariadb/mariadb.go:280-288 | a move fails before anything is moved, exactly when a folder is missing, or not at all |
| Holdings.MoveKeepsHoldings | internal/storage/mariadb/mariadb.go:291-301 | a move keeps every account's messages, by row: flags, size and body |
| Holdings.SameHoldingsSameBytes | internal/storage/mariadb/mariadb.go:635-642 | so the used bytes stay the same |
| ImapMailbox.Mailbox.CreateMessage | internal/imapserver/mailbox.go:196-218 | the message is appended with only the last of the flags given |
| ImapMailbox.AppendKeepsFlags | internal/imapserver/mailbox.go:205-216 | what is stored is what the list of flags says if and only if every known flag in it is its last entry |
| ImapMailbox.Mailbox.Expunge | internal/imapserver/mailbox.go:275-277 | MailExpunge on the folder |
| ImapMailbox.User.CreateMailbox | internal/imapserver/user.go:59-67 | MailboxCreate for the user |
| ImapMailbox.User.DeleteMailbox | internal/imapserver/user.go:69-81 | refuses exactly the protected folders, with nothing changed |
| ImapMailbox.User.RenameMailbox | internal/imapserver/user.go:83-90 | refuses exactly the protected folders, with nothing changed |
| Stamp.PrefixIsZeroBits | internal/stamp/stamp.go:98-106 | the test on the hex text holds exactly when the first 4*(bits/4) bits of the digest are zero, for bits up to 256 |
| Stamp.Generate | internal/stamp/stamp.go:36-53 | the stamp for the recipient, date and nonce with the least counter that meets the target |
| Stamp.EachTokenDiffers | internal/stamp/stamp.go:47-52 | each step of the search hashes another token |
| Stamp.MadeFields | internal/stamp/stamp.go:57-76 | a stamp splits into its fields, also when the recipient contains the separator |
| Stamp.GeneratedReads | internal/stamp/stamp.go:36-53 | for a recipient without a semicolon a stamp reads `1;20;date;recipient;nonce;counter` |
| Stamp.MadeVerifies | internal/stamp/stamp.go:55-82 | a generated stamp verifies exactly until 48 hours after the midnight before it was made |
| Stamp.Validity | internal/stamp/stamp.go:55-82 | always within 24 hours, never after 48 |
| Stamp.VerifyMeans | internal/stamp/stamp.go:55-82 | a token passes exactly if the first 20 bits of its own digest are zero and it reads as version 1 with six fields and a date at most 48 hours old |
| Stamp.ParseMeans | internal/stamp/stamp.go:69-72 | the date is eight digits that number an existing day, and no other text is one |
| Calendar.StampIsMidnight | internal/stamp/stamp.go:37 | parsing a formatted time gives the midnight before it, for the years 0 to 9999 |
| Calendar.DayNumberInjective | internal/stamp/stamp.go:69 | different dates are different days |
| Calendar.YearsFormula | internal/stamp/stamp.go:69-75 | the Gregorian count of the days before a year |
| Calendar.Cycle | internal/stamp/stamp.go:69-75 | 400 years have 146097 days, and 1 January 1970 is day 719528 |
| Calendar.MonthsFormula | internal/stamp/stamp.go:69-75 | the days of a year before each month, in closed form |
| Postage.SetValues | internal/smtpsender/sender.go:142 | Set leaves exactly one field of its name and every other name as it was |
| Postage.ExactlyOneStamp | internal/smtpsender/sender.go:128-150 | stored content has exactly one stamp, whatever it came with, and is otherwise unchanged |
| Postage.MadePays | internal/smtpserver/session_ygg.go:107-122 | the gate takes a stamp for its recipient exactly while it verifies, and never if the recipient has a semicolon |
| Postage.MadePaysNoOther | internal/smtpserver/session_ygg.go:113-119 | a stamp made for one plain address pays for no other |
| Postage.MadePaysFor | internal/smtpserver/session_ygg.go:113-119 | a stamp pays for every spelling of its recipient and for nobody else, exactly while it verifies |
| Postage.PaysMeans | internal/smtpserver/session_ygg.go:107-122 | a header pays for a recipient exactly if the work was done for its trimmed token, the date is current, and the recipient it names is that one |
| Postage.AcceptsMeans | internal/smtpserver/session_ygg.go:107-134 | the gate opens exactly for messages with that work done for every recipient |
| Postage.TrimsExactly | internal/smtpserver/session_ygg.go:108 | trimming takes the white space at both ends and no more |
| Postage.CleanIgnores | internal/smtpserver/session_ygg.go:99-104 | comparison does not see white space around an address or brackets in it |
| Postage.CleanIgnoresCase | internal/smtpserver/session_ygg.go:99-104 | nor case |
| Postage.PostageAccepted | internal/smtpserver/session_ygg.go:94-134 | end to end: what the sender stores passes the gate for that recipient exactly then |
| Sender.SubmitAllCarries | internal/smtpsender/sender.go:98-163 | every row a submission adds has its own new message, the content stamped for the row's recipient; nothing that was there changes |
| Sender.SubmittedExactly | internal/smtpsender/sender.go:98-163 | without an error: consecutive rows and Outbox UIDs, in order, for exactly the recipients that have a host, no INBOX here and a stamped content; one more message per local occurrence; nothing else |
| Sender.OrdinaryIsQueued | internal/smtpsender/sender.go:123-160 | name@host without an INBOX here: one row for that host and the stamped content under the next Outbox UID, and nothing else |
| Sender.KeyIsQueued | internal/smtpsender/sender.go:114-122 | key@yggmail likewise, for the address of the key |
| Sender.SkippedExactly | internal/smtpsender/sender.go:100-150 | a recipient is passed over exactly without an `@`, or without an INBOX here if it has no key or no stamp |
| Sender.SucceedsExactly | internal/smtpsender/sender.go:153-158 | a submission succeeds exactly when the Outbox is there or no recipient is remote |
| Sender.StopsAtFirstRemote | internal/smtpsender/sender.go:153-158 | otherwise it ends at its first remote recipient, with those before it delivered and those after it not |
| Sender.QueuedIsPostpaid | internal/smtpsender/sender.go:128-158 | and the receiving gate takes that message for the row's recipient, from the time it was stamped for that recipient on |
| Queues.Queues.QueueFor | internal/smtpsender/sender.go:98-163 | the loop over recipients; without an error every remote recipient has its row and message, unless its stamp could not be made; every row is postpaid and its queue is running |
| Queues.Queues.StartQueue | internal/smtpsender/sender.go:165-178 | starts a runner exactly when none is active |
| Queues.Queues.Tick | internal/smtpsender/sender.go:85-93 | starts a runner for exactly the destinations with rows that have none |
| Queues.Queues.SendWithRetry | internal/smtpsender/sender.go:208-223 | succeeds exactly when one of ten attempts does, stops at the first, and gives up only after all ten |
| Queues.Queues.Run | internal/smtpsender/sender.go:191-249 | the pass over the snapshot, ending with the flag cleared |
| Sender.RunLeavesTheUnsent | internal/smtpsender/sender.go:191-249 | undisturbed, a pass leaves exactly the rows that did not get through and the messages of the rows left, in whatever order it takes the rows |
| Sender.RunRowMeans | internal/smtpsender/sender.go:202-246 | on any tables: a sent message loses its rows for this destination alone, and goes to its sender's Sent folder exactly when no other row needs it; an unsent one changes nothing |
| Sender.PassExpunges | internal/smtpsender/sender.go:199 | a pass ends without Outbox messages marked deleted, and only those go with it |
| Sender.RunFilesTheSent | internal/smtpsender/sender.go:242-244 | a pass files each message that got through once in its sender's Sent folder, in order, and nothing else there |
| SmtpServer.SessionYgg.Mail | internal/smtpserver/session_ygg.go:39-73 | a transaction starts, without recipients, exactly when the peer is identified |
| SmtpServer.SessionYgg.Rcpt | internal/smtpserver/session_ygg.go:75-83 | accepts exactly addresses with an `@` |
| SmtpServer.SessionYgg.Reset | internal/smtpserver/session_ygg.go:176-179 | forgets sender and recipients |
| SmtpServer.SessionYgg.Validate | internal/smtpserver/session_ygg.go:107-126 | the nested loops find exactly the recipients some stamp pays for |
| SmtpServer.SessionYgg.Data | internal/smtpserver/session_ygg.go:86-174 | unless the work was done for every recipient the store is unchanged; otherwise delivery in order up to the first recipient without an INBOX |
| SmtpServer.AdmittedMeans | internal/smtpserver/session_ygg.go:86-150 | a message is let in only with the work done for each recipient, and then delivered with two trace headers on top and nothing else changed |
| Delivery.DeliveredExactly | internal/smtpserver/session_ygg.go:152-171 | each occurrence of a recipient adds one message to its direct or alias-resolved INBOX, and nothing else changes |
| Delivery.Lands | internal/smtpserver/session_ygg.go:152-171 | a recipient's own INBOX comes first, an alias counts only without one, and with neither nothing happens |
| SmtpServer.SessionLocal.Mail | internal/smtpserver/session_local.go:31-35 | a new transaction |
| SmtpServer.SessionLocal.Rcpt | internal/smtpserver/session_local.go:37-40 | one more recipient |
| SmtpServer.SessionLocal.Reset | internal/smtpserver/session_local.go:92-95 | forgets sender and recipients |
| SmtpServer.SessionLocal.Data | internal/smtpserver/session_local.go:42-90 | one stamp per recipient with random bytes, in order; then submission of the prepared message; every remote recipient has its row and every row is postpaid |
| SmtpServer.StackedStamps | internal/smtpserver/session_local.go:51-58 | the session adds its stamps on top of those the message came with, and touches no other header |
| SmtpServer.PreparedKeeps | internal/smtpserver/session_local.go:51-80 | what is handed over has the body and every header it came with, the stamps and one Received on top, and a Date if there was none |
| SmtpServer.ArrivesIntact | internal/smtpserver/session_local.go:42-90 | from submission to the receiving INBOX the body and all headers but stamps and trace stay as the user wrote them, under one stamp in time |
| FormatBytes.FormatBytes | internal/storage/storage.go:38-49 | div = 1024^(exp+1), div <= b < 1024*div, exp <= 5, no 64-bit overflow |
| FormatBytes.UnitIsUnique | internal/storage/storage.go:38-49 | there is only one such unit |

## Left out

- Network, TLS, certificates and logging: a transmission is an event that succeeds or fails; the identity checks of SessionYgg.Mail are inputs. A transmission that was accepted by the peer but reported as failed counts as failed.
- SHA-256, bcrypt, MIME encoding, header folding, random numbers, clocks and Unicode tables are parameters; `Postage.Lawful` and `Stamp.Solvable` are what is assumed of them.
- Stamp.Generate: requires that some counter meets the target for every prefix, since the loop ends only then.
- ImapMailbox.Mailbox.GetIDsFromSeqSet: requires that no UID range ends at 2^32-1, where the loop does not end (SeqSets.LoopEnds), and fewer than 2^32-1 messages for sequence numbers.
- Calendar.StampIsMidnight: for the years 0 to 9999, all that the layout can express.
- SeqSets.UidStarCovers: for uid_next up to 2^32, the width of the column. UIDs from 2^31 on become negative by the cast to int32, here as in the program.
- Sender.RunLeavesTheUnsent: for a pass that nothing interrupts, from matched tables without Outbox messages marked deleted; the interleaved statement is QueueTheorems.
- QueueService.NoStrandedRow: for goroutines that get to their end; a crash ends them all, and rows of destination `Outbox` can be cleared from outside. After a crash the next tick serves the rows again (QueueService.TickServesRow).
- QueueSubmission.CallProgress: whether a recipient is skipped or routed is a free choice of the protocol, which sees neither INBOXes nor stamps; Sender.SkippedExactly says when one is skipped.
- QueueTheorems.QuietBijection: for runs without a crash and without rows cleared by MoveMessages, either of which leaves an Outbox message without a row.
- SQL collation (names are compared exactly), INT UNSIGNED overflow of uid_next, lost connections and failing statements other than by keys and missing rows; MailCreate ignores an error of its increment, which here does not occur.
- Passwords, quota limits, subscriptions, dates of arrival, and the text-index tables and trigger of the schema.
- IMAP access to the account `system`: the queue protocol lets no one mark Outbox messages as deleted.
- In the queue protocol the copy to Sent is a step without effect on the Outbox or the queue (QueueTheorems.ArchivedWasSent says what is copied); the Sent folder itself is part of the sequential model.
- The retry pause of two minutes and the one-minute timer are not timed: an attempt or a tick can happen at any moment.
- FETCH, SEARCH criteria, STATUS, LIST, the command line, configuration, notifications and SessionRemote: no invariants of their own.
- Printing of FormatBytes' quotient to one digit: floating point.
