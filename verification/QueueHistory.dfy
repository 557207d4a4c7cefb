/** History variables for the queue protocol and the invariant that ties them to the program's state.

    `Record` watches the events of a run; nothing in `QueueProtocol` depends on it.  Every message inserted into the
    Outbox gets a ticket of its own, so two messages that use the same UID one after the other stay apart. */
module QueueHistory {
  import opened Routing
  import opened QueueProtocol

  /** Who is responsible for a message of the Outbox. */
  datatype Phase =
    | Submitting(t: Tid)       // a QueueFor call inserted it and has not inserted its row yet
    | Queued(row: nat)         // this row of the queue table references it
    | Cleaning(t: Tid)         // a run goroutine sent it and deleted its row
    | Orphaned                 // nobody: its owner crashed, or its row was cleared from outside

  datatype Entry = Entry(ticket: nat, env: Delivery, phase: Phase)

  datatype History = History(
    live: map<nat, Entry>,               // one entry for every Outbox UID in use
    uidOf: seq<nat>,                     // by ticket: the UID its message was inserted under
    accepted: map<nat, Delivery>,        // by ticket: what got a row in the queue table
    sends: seq<(nat, nat)>,              // for each transmission: its ticket and the number of crashes before it
    epoch: nat,                          // crashes so far
    runnerOf: map<string, Tid>)          // the goroutine that holds each `running` flag

  const START := History(map[], [], map[], [], 0, map[])

  function SetPhase(h: History, u: nat, p: Phase): History {
    if u in h.live then h.(live := h.live[u := h.live[u].(phase := p)]) else h
  }

  function Abandon(p: Phase): Phase {
    if p.Submitting? || p.Cleaning? then Orphaned else p
  }

  function Spawned(h: History, s: Sys, dest: string, n: Tid): History {
    if dest in s.running then h else h.(runnerOf := h.runnerOf[dest := n])
  }

  function Record(h: History, s: Sys, e: Event): History
    requires Enabled(s, e)
  {
    match e
    case Insert(t) =>
      var th := s.threads[t];
      var at := th.at;
      if at.uid in s.outbox then h
      else h.(live := h.live[at.uid :=
                             Entry(|h.uidOf|, Delivery(at.dest, th.from, at.rcpt, at.content), Submitting(t))],
              uidOf := h.uidOf + [at.uid])
    case Enqueue(t) =>
      var u := s.threads[t].at.uid;
      if u !in h.live then h
      else SetPhase(h, u, Queued(s.nextRow)).(accepted := h.accepted[h.live[u].ticket := h.live[u].env])
    case Kick(t, n) => Spawned(h, s, s.threads[t].at.dest, n)
    case Restart(t, n) => Spawned(h, s, s.threads[t].todo[0], n)
    case Attempt(t, ok) =>
      var u := s.threads[t].pc.ref.mid;
      if ok && u in h.live then h.(sends := h.sends + [(h.live[u].ticket, h.epoch)]) else h
    case Dequeue(t) => SetPhase(h, s.threads[t].pc.ref.mid, Cleaning(t))
    case Purge(t) => h.(live := h.live - {s.threads[t].pc.ref.mid})
    case Expunge(t) => h.(live := map u | u in h.live && u in Apply(s, e).outbox :: h.live[u])
    case Release(t) => h.(runnerOf := h.runnerOf - {s.threads[t].dest})
    case ForeignClear(mid) =>
      if mid in h.live && h.live[mid].phase.Queued? &&
          h.live[mid].env.dest == OUTBOX_KEY then SetPhase(h, mid, Orphaned)
      else h
    case Crash =>
      h.(live := map u | u in h.live ::
         h.live[u].(phase := Abandon(h.live[u].phase)), epoch := h.epoch + 1, runnerOf := map[])
    case _ => h
  }

  /** The history of a run. */
  ghost function HistoryOf(resolve: Resolver, es: seq<Event>): History
    requires Run(resolve, es)
  {
    if es == [] then START
    else Record(HistoryOf(resolve, es[..|es| - 1]), After(resolve, es[..|es| - 1]), es[|es| - 1])
  }

  predicate IsSent(h: History, ticket: nat) { exists i :: 0 <= i < |h.sends| && h.sends[i].0 == ticket }

  // ---- the invariant ----------------------------------------------------------------------------------------------

  /** The Outbox holds exactly the messages the history knows, unchanged, none marked \Deleted. */
  ghost predicate MailInv(outbox: map<nat, Mail>, live: map<nat, Entry>, uidOf: seq<nat>) {
    && live.Keys == outbox.Keys
    && forall u :: u in live ==>
         outbox[u] == Mail(live[u].env.body, false) && live[u].ticket < |uidOf| && uidOf[live[u].ticket] == u
  }

  /** Rows and messages in phase Queued match one to one, with the same addresses. */
  ghost predicate RowInv(queue: map<nat, Row>, nextRow: nat, live: map<nat, Entry>) {
    && (forall r :: r in queue ==>
          r < nextRow && queue[r].mid in live && live[queue[r].mid].phase == Queued(r)
          && var d := live[queue[r].mid].env; queue[r] == Row(d.dest, queue[r].mid, d.from, d.rcpt))
    && (forall u, r {:trigger live[u], Queued(r)} :: u in live && live[u].phase == Queued(r) ==>
          r in queue && queue[r].mid == u)
  }

  ghost predicate Inserted(at: SubmitPc) { at.Bumping? || at.Enqueuing? }

  ghost predicate Cleans(pc: RunPc) { pc.Checking? || pc.Archiving? || pc.Purging? }

  /** References a goroutine will still act on, the one it is sending first. */
  function Todo(pc: RunPc): seq<Ref> {
    match pc
    case Snapshotting => []
    case Looping(refs) => refs
    case Sending(refs, ref, _, _) => [ref] + refs
    case Dequeuing(refs, ref, _) => [ref] + refs
    case Checking(refs, _, _) => refs
    case Archiving(refs, _, _) => refs
    case Purging(refs, _) => refs
    case Expunging => []
    case Releasing => []
  }

  /** A message stays what the reference says until this goroutine deletes its row. */
  ghost predicate RefOk(ref: Ref, dest: string, h: History) {
    && ref.mid in h.live
    && var x := h.live[ref.mid];
       x.env.dest == dest && x.env.from == ref.from && x.env.rcpt == ref.rcpt
       && (x.phase.Queued? || (x.phase.Orphaned? && dest == OUTBOX_KEY))
       && x.ticket in h.accepted
  }

  ghost predicate SubmissionOk(th: Thread, t: Tid, h: History) {
    th.Submission? && Inserted(th.at) ==>
      && th.at.uid in h.live
      && var x := h.live[th.at.uid];
         x.phase == Submitting(t) && x.env == Delivery(th.at.dest, th.from, th.at.rcpt, th.at.content)
  }

  ghost predicate RunnerOk(th: Thread, t: Tid, h: History) {
    th.Runner? ==>
      && th.dest in h.runnerOf && h.runnerOf[th.dest] == t
      && (forall i :: 0 <= i < |Todo(th.pc)| ==> RefOk(Todo(th.pc)[i], th.dest, h))
      && (forall i, j :: 0 <= i < j < |Todo(th.pc)| ==> Todo(th.pc)[i].mid != Todo(th.pc)[j].mid)
      && (forall i :: 0 <= i < |Todo(th.pc)| && !(th.pc.Dequeuing? && i == 0) ==>
            (h.live[Todo(th.pc)[i].mid].ticket, h.epoch) !in h.sends)
      && (th.pc.Sending? || th.pc.Dequeuing? ==>
            th.pc.ref.mid in h.live && th.pc.body == h.live[th.pc.ref.mid].env.body)
      && (th.pc.Sending? ==> 1 <= th.pc.attempt <= MAX_RETRIES)
      && (th.pc.Dequeuing? ==> (h.live[th.pc.ref.mid].ticket, h.epoch) in h.sends)
      && (Cleans(th.pc) ==>
            && th.pc.ref.mid in h.live
            && var x := h.live[th.pc.ref.mid];
               x.phase == Cleaning(t) && x.env.dest == th.dest && x.env.from == th.pc.ref.from &&
                   x.env.rcpt == th.pc.ref.rcpt
               && (!th.pc.Purging? ==> x.env.body == th.pc.body))
  }

  ghost predicate ThreadOk(th: Thread, t: Tid, h: History) {
    SubmissionOk(th, t, h) && RunnerOk(th, t, h)
  }

  ghost predicate ThreadInv(threads: map<Tid, Thread>, h: History) {
    forall t :: t in threads ==> ThreadOk(threads[t], t, h)
  }

  ghost predicate Inserts(th: Thread, u: nat) { th.Submission? && Inserted(th.at) && th.at.uid == u }

  ghost predicate CleansUp(th: Thread, u: nat) { th.Runner? && Cleans(th.pc) && th.pc.ref.mid == u }

  ghost predicate HasSent(th: Thread, u: nat) { th.Runner? && th.pc.Dequeuing? && th.pc.ref.mid == u }

  /** Whoever a phase names really is at the statement that makes it responsible. */
  ghost predicate OwnerInv(threads: map<Tid, Thread>, live: map<nat, Entry>) {
    forall u :: u in live ==>
      && (live[u].phase.Submitting? ==> live[u].phase.t in threads && Inserts(threads[live[u].phase.t], u))
      && (live[u].phase.Cleaning? ==> live[u].phase.t in threads && CleansUp(threads[live[u].phase.t], u))
  }

  /** A `running` flag is set exactly while a goroutine for that destination is alive. */
  ghost predicate FlagInv(threads: map<Tid, Thread>, running: set<string>, runnerOf: map<string, Tid>) {
    && runnerOf.Keys == running
    && forall d :: d in runnerOf ==>
         runnerOf[d] in threads && threads[runnerOf[d]].Runner? && threads[runnerOf[d]].dest == d
  }

  /** A message sent in this epoch whose row is still there is about to lose it. */
  ghost predicate DueInv(threads: map<Tid, Thread>, h: History) {
    forall u :: u in h.live && h.live[u].phase.Queued? && (h.live[u].ticket, h.epoch) in h.sends ==>
      && h.live[u].env.dest in h.runnerOf && h.runnerOf[h.live[u].env.dest] in threads
      && HasSent(threads[h.runnerOf[h.live[u].env.dest]], u)
  }

  /** No ticket is sent twice between crashes, and every transmission is one of an accepted envelope. */
  ghost predicate LogInv(wire: seq<Delivery>, accepted: map<nat, Delivery>, sends: seq<(nat, nat)>, epoch: nat) {
    && NoDuplicates(sends)
    && |wire| == |sends|
    && forall i :: 0 <= i < |sends| ==>
         sends[i].0 in accepted && sends[i].1 <= epoch && wire[i] == accepted[sends[i].0]
  }

  /** An accepted envelope waits in the queue or has been sent. */
  ghost predicate AcceptInv(h: History) {
    && (forall k :: k in h.accepted ==> k < |h.uidOf|)
    && (forall k :: k in h.accepted && h.accepted[k].dest != OUTBOX_KEY ==> IsSent(h, k) || Waiting(h, k))
    && (forall u :: u in h.live ==> EntryOk(h.live[u], h))
  }

  ghost predicate EntryOk(x: Entry, h: History) {
    && (x.ticket in h.accepted ==> h.accepted[x.ticket] == x.env)
    && (x.phase.Submitting? ==> x.ticket !in h.accepted)
    && (x.phase.Queued? ==> x.ticket in h.accepted)
    && (x.phase.Cleaning? ==> IsSent(h, x.ticket))
  }

  ghost predicate Waiting(h: History, k: nat) {
    k < |h.uidOf| && var u := h.uidOf[k]; u in h.live && h.live[u].ticket == k && h.live[u].phase.Queued?
  }

  ghost predicate Inv(s: Sys, h: History) {
    && MailInv(s.outbox, h.live, h.uidOf)
    && RowInv(s.queue, s.nextRow, h.live)
    && ThreadInv(s.threads, h)
    && OwnerInv(s.threads, h.live)
    && FlagInv(s.threads, s.running, h.runnerOf)
    && DueInv(s.threads, h)
    && LogInv(s.wire, h.accepted, h.sends, h.epoch)
    && AcceptInv(h)
  }
}
