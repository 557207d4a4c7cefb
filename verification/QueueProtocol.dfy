/** The outbound queue of smtpsender as a state machine.

    One event is one SQL statement, one network attempt or one atomic operation of Go code; any number of
    `QueueFor` calls, `run` goroutines and `manager` ticks interleave freely.  The state holds only what the program
    holds: the rows of system/Outbox, its uid_next, the queue table, the `running` flags, the threads with their
    locals, and the list of transmissions that succeeded (the outside world's view). */
module QueueProtocol {
  import opened Wrappers
  import opened Routing

  type Bytes = seq<bv8>
  type Tid = nat

  /** A row of system/Outbox: its body, and whether its flags column holds \Deleted. */
  datatype Mail = Mail(body: Bytes, deleted: bool)

  datatype Row = Row(dest: string, mid: nat, from: string, rcpt: string)

  /** What `QueueMailIDsForDestination` returns for a row (types.QueuedMail). */
  datatype Ref = Ref(mid: nat, from: string, rcpt: string)

  /** A transmission: what a remote node is handed, or what is meant to be handed to it. */
  datatype Delivery = Delivery(dest: string, from: string, rcpt: string, body: Bytes)

  /** Where a `QueueFor` call stands; `rcpt`, `dest` and `content` are the loop's locals. */
  datatype SubmitPc =
    | Routing
    | Reading(rcpt: string, dest: string, content: Bytes)
    | Inserting(rcpt: string, dest: string, content: Bytes, uid: nat)
    | Bumping(rcpt: string, dest: string, content: Bytes, uid: nat)
    | Enqueuing(rcpt: string, dest: string, content: Bytes, uid: nat)
    | Kicking(dest: string)

  /** Where a `run` goroutine stands; `refs` are the references its loop has not reached yet. */
  datatype RunPc =
    | Snapshotting
    | Looping(refs: seq<Ref>)
    | Sending(refs: seq<Ref>, ref: Ref, body: Bytes, attempt: nat)
    | Dequeuing(refs: seq<Ref>, ref: Ref, body: Bytes)
    | Checking(refs: seq<Ref>, ref: Ref, body: Bytes)
    | Archiving(refs: seq<Ref>, ref: Ref, body: Bytes)
    | Purging(refs: seq<Ref>, ref: Ref)
    | Expunging
    | Releasing

  datatype Thread =
    | Submission(from: string, rcpts: seq<string>, at: SubmitPc)
    | Runner(dest: string, pc: RunPc)
    | Manager(todo: seq<string>)

  /** `resolve` is the node's table of keys; it does not change. */
  datatype Sys = Sys(
    resolve: Resolver,
    outbox: map<nat, Mail>,
    uidNext: nat,
    queue: map<nat, Row>,
    nextRow: nat,
    running: set<string>,
    threads: map<Tid, Thread>,
    wire: seq<Delivery>)

  const MAX_RETRIES := 10

  /** The destination key under which IMAP's MoveMessages clears queue rows. */
  const OUTBOX_KEY := "Outbox"

  function Init(resolve: Resolver): Sys { Sys(resolve, map[], 1, map[], 0, {}, map[], []) }

  datatype Event =
    // QueueFor
    | Submit(t: Tid, from: string, rcpts: seq<string>)
    | SkipRcpt(t: Tid)                                   // invalid, delivered locally, or not resolvable
    | Route(t: Tid, dest: string, content: Bytes)        // remote: host resolved and message stamped
    | ReadUid(t: Tid)
    | Insert(t: Tid)
    | Bump(t: Tid)
    | Enqueue(t: Tid)
    | Kick(t: Tid, spawned: Tid)
    | Return(t: Tid)
    // manager
    | Tick(t: Tid, listed: seq<string>)
    | Restart(t: Tid, spawned: Tid)
    | Rearm(t: Tid)
    // run
    | Snapshot(t: Tid, rows: seq<nat>)
    | Select(t: Tid)
    | Attempt(t: Tid, ok: bool)
    | Dequeue(t: Tid)
    | Check(t: Tid)
    | Archive(t: Tid)
    | Purge(t: Tid)
    | EndLoop(t: Tid)
    | Expunge(t: Tid)
    | Release(t: Tid)
    // the environment
    | ForeignClear(mid: nat)                             // MoveMessages out of a user's own folder named Outbox
    | Crash                                              // the process stops; the database stays

  function RefOf(r: Row): Ref { Ref(r.mid, r.from, r.rcpt) }

  predicate NoDuplicates<T(==)>(s: seq<T>) {
    forall i, j :: 0 <= i < j < |s| ==> s[i] != s[j]
  }

  predicate IsSubmission(s: Sys, t: Tid) { t in s.threads && s.threads[t].Submission? }
  predicate IsRunner(s: Sys, t: Tid) { t in s.threads && s.threads[t].Runner? }

  /** Some row, of whatever destination, references the message (the query ignores its mailbox argument). */
  predicate Pending(s: Sys, mid: nat) { exists r :: r in s.queue && s.queue[r].mid == mid }

  /** The table without the rows of a destination that reference a message. */
  function Without(queue: map<nat, Row>, dest: string, mid: nat): map<nat, Row> {
    map r | r in queue && !(queue[r].dest == dest && queue[r].mid == mid) :: queue[r]
  }

  /** When an event can happen: the thread is at that statement, and choices the event names are possible ones. */
  ghost predicate Enabled(s: Sys, e: Event) {
    match e
    case Submit(t, _, _) => t !in s.threads
    case SkipRcpt(t) => IsSubmission(s, t) && s.threads[t].at.Routing? && s.threads[t].rcpts != []
    case Route(t, dest, _) =>
      IsSubmission(s, t) && s.threads[t].at.Routing? && s.threads[t].rcpts != []
      && HostOf(s.resolve, s.threads[t].rcpts[0]) == Some(dest)
    case ReadUid(t) => IsSubmission(s, t) && s.threads[t].at.Reading?
    case Insert(t) => IsSubmission(s, t) && s.threads[t].at.Inserting?
    case Bump(t) => IsSubmission(s, t) && s.threads[t].at.Bumping?
    case Enqueue(t) => IsSubmission(s, t) && s.threads[t].at.Enqueuing?
    case Kick(t, n) => IsSubmission(s, t) && s.threads[t].at.Kicking? && n !in s.threads
    case Return(t) => IsSubmission(s, t) && s.threads[t].at.Routing? && s.threads[t].rcpts == []
    case Tick(t, ds) =>
      t !in s.threads && NoDuplicates(ds)
      && forall d :: d in ds <==> exists r :: r in s.queue && s.queue[r].dest == d
    case Restart(t, n) => t in s.threads && s.threads[t].Manager? && s.threads[t].todo != [] && n !in s.threads
    case Rearm(t) => t in s.threads && s.threads[t].Manager? && s.threads[t].todo == []
    case Snapshot(t, rows) =>
      IsRunner(s, t) && s.threads[t].pc.Snapshotting? && NoDuplicates(rows)
      && forall r :: r in rows <==> r in s.queue && s.queue[r].dest == s.threads[t].dest
    case Select(t) => IsRunner(s, t) && s.threads[t].pc.Looping? && s.threads[t].pc.refs != []
    case Attempt(t, _) => IsRunner(s, t) && s.threads[t].pc.Sending?
    case Dequeue(t) => IsRunner(s, t) && s.threads[t].pc.Dequeuing?
    case Check(t) => IsRunner(s, t) && s.threads[t].pc.Checking?
    case Archive(t) => IsRunner(s, t) && s.threads[t].pc.Archiving?
    case Purge(t) => IsRunner(s, t) && s.threads[t].pc.Purging?
    case EndLoop(t) => IsRunner(s, t) && s.threads[t].pc.Looping? && s.threads[t].pc.refs == []
    case Expunge(t) => IsRunner(s, t) && s.threads[t].pc.Expunging?
    case Release(t) => IsRunner(s, t) && s.threads[t].pc.Releasing?
    case ForeignClear(_) => true
    case Crash => true
  }

  function SetAt(s: Sys, t: Tid, at: SubmitPc): Sys
    requires IsSubmission(s, t)
  {
    s.(threads := s.threads[t := s.threads[t].(at := at)])
  }

  function SetPc(s: Sys, t: Tid, pc: RunPc): Sys
    requires IsRunner(s, t)
  {
    s.(threads := s.threads[t := s.threads[t].(pc := pc)])
  }

  /** `queueFor`: LoadOrStore, then CompareAndSwap(false, true) on the flag; the winner starts a goroutine. */
  function StartIfIdle(s: Sys, dest: string, n: Tid): Sys {
    if dest in s.running then s
    else s.(running := s.running + {dest}, threads := s.threads[n := Runner(dest, Snapshotting)])
  }

  function ApplySubmission(s: Sys, e: Event): Sys
    requires Enabled(s, e)
    requires e.SkipRcpt? || e.Route? || e.ReadUid? || e.Insert? || e.Bump? || e.Enqueue? || e.Kick? || e.Return?
  {
    var th := s.threads[e.t];
    match e
    case SkipRcpt(t) => s.(threads := s.threads[t := th.(rcpts := th.rcpts[1..])])
    case Route(t, dest, content) =>
      s.(threads := s.threads[t := th.(rcpts := th.rcpts[1..], at := Reading(th.rcpts[0], dest, content))])
    case ReadUid(t) => SetAt(s, t, Inserting(th.at.rcpt, th.at.dest, th.at.content, s.uidNext))
    case Insert(t) =>
      if th.at.uid in s.outbox then
        s.(threads := s.threads - {t})                   // unique key (mailbox_id, uid): QueueFor returns the error
      else
        SetAt(s, t, Bumping(th.at.rcpt, th.at.dest, th.at.content, th.at.uid))
        .(outbox := s.outbox[th.at.uid := Mail(th.at.content, false)])
    case Bump(t) => SetAt(s, t, Enqueuing(th.at.rcpt, th.at.dest, th.at.content, th.at.uid)).(uidNext := s.uidNext + 1)
    case Enqueue(t) =>
      SetAt(s, t, Kicking(th.at.dest))
      .(queue := s.queue[s.nextRow := Row(th.at.dest, th.at.uid, th.from, th.at.rcpt)], nextRow := s.nextRow + 1)
    case Kick(t, n) => SetAt(StartIfIdle(s, th.at.dest, n), t, Routing)
    case Return(t) => s.(threads := s.threads - {t})
  }

  function ApplyRun(s: Sys, e: Event): Sys
    requires Enabled(s, e)
    requires e.Snapshot? || e.Select? || e.Attempt? || e.Dequeue? || e.Check? || e.Archive? || e.Purge?
          || e.EndLoop? || e.Expunge? || e.Release?
  {
    var th := s.threads[e.t];
    var pc := th.pc;
    match e
    case Snapshot(t, rows) => SetPc(s, t,
                                    Looping(seq(|rows|, i requires 0 <= i < |rows| => assert rows[i] in rows;
                                                RefOf(s.queue[rows[i]]))))
    case Select(t) =>
      if pc.refs[0].mid in s.outbox then
        SetPc(s, t, Sending(pc.refs[1..], pc.refs[0], s.outbox[pc.refs[0].mid].body, 1))
      else
        SetPc(s, t, Looping(pc.refs[1..]))
    case Attempt(t, ok) =>
      if ok then
        SetPc(s, t, Dequeuing(pc.refs, pc.ref, pc.body))
        .(wire := s.wire + [Delivery(th.dest, pc.ref.from, pc.ref.rcpt, pc.body)])
      else if pc.attempt < MAX_RETRIES then
        SetPc(s, t, pc.(attempt := pc.attempt + 1))
      else
        SetPc(s, t, Looping(pc.refs))
    case Dequeue(t) =>
      SetPc(s, t, Checking(pc.refs, pc.ref, pc.body)).(queue := Without(s.queue, th.dest, pc.ref.mid))
    case Check(t) =>
      if Pending(s, pc.ref.mid) then SetPc(s, t, Looping(pc.refs))
      else SetPc(s, t, Archiving(pc.refs, pc.ref, pc.body))
    case Archive(t) => SetPc(s, t, Purging(pc.refs, pc.ref))
    case Purge(t) => SetPc(s, t, Looping(pc.refs)).(outbox := s.outbox - {pc.ref.mid})
    case EndLoop(t) => SetPc(s, t, Expunging)
    case Expunge(t) => SetPc(s, t, Releasing).(outbox := map u | u in s.outbox && !s.outbox[u].deleted :: s.outbox[u])
    case Release(t) => s.(running := s.running - {th.dest}, threads := s.threads - {t})
  }

  /** The state after an enabled event. */
  function Apply(s: Sys, e: Event): Sys
    requires Enabled(s, e)
  {
    match e
    case Submit(t, from, rcpts) => s.(threads := s.threads[t := Submission(from, rcpts, Routing)])
    case Tick(t, ds) => s.(threads := s.threads[t := Manager(ds)])
    case Restart(t, n) =>
      var th := s.threads[t];
      var s' := StartIfIdle(s, th.todo[0], n);
      s'.(threads := s'.threads[t := Manager(th.todo[1..])])
    case Rearm(t) => s.(threads := s.threads - {t})
    case ForeignClear(mid) => s.(queue := Without(s.queue, OUTBOX_KEY, mid))
    case Crash => s.(threads := map[], running := {})
    case SkipRcpt(_) => ApplySubmission(s, e)
    case Route(_, _, _) => ApplySubmission(s, e)
    case ReadUid(_) => ApplySubmission(s, e)
    case Insert(_) => ApplySubmission(s, e)
    case Bump(_) => ApplySubmission(s, e)
    case Enqueue(_) => ApplySubmission(s, e)
    case Kick(_, _) => ApplySubmission(s, e)
    case Return(_) => ApplySubmission(s, e)
    case _ => ApplyRun(s, e)
  }

  /** `es` can happen one after the other, starting from the empty system. */
  ghost predicate Run(resolve: Resolver, es: seq<Event>)
    decreases |es|, 0
  {
    es == [] || (Run(resolve, es[..|es| - 1]) && Enabled(After(resolve, es[..|es| - 1]), es[|es| - 1]))
  }

  /** The state a run ends in. */
  ghost function After(resolve: Resolver, es: seq<Event>): Sys
    requires Run(resolve, es)
    decreases |es|, 1
  {
    if es == [] then Init(resolve) else Apply(After(resolve, es[..|es| - 1]), es[|es| - 1])
  }
}
