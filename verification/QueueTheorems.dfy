/** What the outbound queue guarantees over every run, and where its guarantees stop. */
module QueueTheorems {
  import opened Routing
  import opened QueueProtocol
  import opened QueueHistory
  import opened QueueInvariant

  lemma Snoc(resolve: Resolver, es: seq<Event>, e: Event)
    ensures Run(resolve, es + [e]) <==> Run(resolve, es) && Enabled(After(resolve, es), e)
    ensures Run(resolve, es + [e]) ==> After(resolve, es + [e]) == Apply(After(resolve, es), e)
    ensures Run(resolve, es + [e]) ==>
              HistoryOf(resolve, es + [e]) == Record(HistoryOf(resolve, es), After(resolve, es), e)
  {
    assert (es + [e])[..|es + [e]| - 1] == es;
  }

  // ---- rows and messages ------------------------------------------------------------------------------------------

  /** Every row references a live Outbox message, and no two rows reference the same one. */
  lemma RowsReferenceLiveMail(resolve: Resolver, es: seq<Event>)
    requires Run(resolve, es)
    ensures var s := After(resolve, es);
            && (forall r :: r in s.queue ==> s.queue[r].mid in s.outbox)
            && (forall q, r :: q in s.queue && r in s.queue && s.queue[q].mid == s.queue[r].mid ==> q == r)
  {
    Always(resolve, es);
  }

  ghost predicate Transmitted(s: Sys, dest: string, ref: Ref, body: Bytes) {
    Delivery(dest, ref.from, ref.rcpt, body) in s.wire
  }

  /** What is on record as sent was transmitted as accepted. */
  lemma SentIsOnWire(s: Sys, h: History, k: nat)
    requires Inv(s, h) && IsSent(h, k)
    ensures k in h.accepted && h.accepted[k] in s.wire
  {
    var i :| 0 <= i < |h.sends| && h.sends[i].0 == k;
    hide MailInv, RowInv, ThreadInv, OwnerInv, FlagInv, DueInv, AcceptInv;
    assert s.wire[i] == h.accepted[k];
  }

  /** A goroutine that cleans up a message owns it alone: the message is there, no row references it, no other goroutine
      holds a reference to it, and it went over the wire with this reference's addresses. */
  lemma CleanerOwns(s: Sys, h: History, t: Tid)
    requires Inv(s, h) && IsRunner(s, t) && Cleans(s.threads[t].pc)
    ensures var th := s.threads[t]; var u := th.pc.ref.mid;
            && u in s.outbox && !Pending(s, u) && Transmitted(s, th.dest, th.pc.ref, s.outbox[u].body)
            && (forall x :: x != t && IsRunner(s, x) ==>
                  forall i :: 0 <= i < |Todo(s.threads[x].pc)| ==> Todo(s.threads[x].pc)[i].mid != u)
  {
    NothingPending(s, h, t);
    CleanerSent(s, h, t);
    ThreadFact(s.threads, t, h);
    hide MailInv, RowInv, ThreadInv, OwnerInv, FlagInv, DueInv, LogInv, AcceptInv, Pending, Transmitted;
    var u := s.threads[t].pc.ref.mid;
    forall x | x != t && IsRunner(s, x)
      ensures forall i :: 0 <= i < |Todo(s.threads[x].pc)| ==> Todo(s.threads[x].pc)[i].mid != u
    {
      NotTheirs(s.threads, t, u, h, x);
    }
  }

  lemma CleanerSent(s: Sys, h: History, t: Tid)
    requires Inv(s, h) && IsRunner(s, t) && Cleans(s.threads[t].pc)
    ensures var th := s.threads[t];
            th.pc.ref.mid in s.outbox && Transmitted(s, th.dest, th.pc.ref, s.outbox[th.pc.ref.mid].body)
  {
    ThreadFact(s.threads, t, h);
    hide RowInv, ThreadInv, OwnerInv, FlagInv, DueInv;
    var x := h.live[s.threads[t].pc.ref.mid];
    assert EntryOk(x, h);
    SentIsOnWire(s, h, x.ticket);
  }

  /** MailDelete in `run` never removes a message that some row or some other goroutine still refers to. */
  lemma PurgeIsSafe(resolve: Resolver, es: seq<Event>, t: Tid)
    requires Run(resolve, es + [Purge(t)])
    ensures var s := After(resolve, es); var th := s.threads[t]; var u := th.pc.ref.mid;
            && u in s.outbox && !Pending(s, u) && Transmitted(s, th.dest, th.pc.ref, s.outbox[u].body)
            && (forall x :: x != t && IsRunner(s, x) ==>
                  forall i :: 0 <= i < |Todo(s.threads[x].pc)| ==> Todo(s.threads[x].pc)[i].mid != u)
  {
    Snoc(resolve, es, Purge(t));
    Always(resolve, es);
    CleanerOwns(After(resolve, es), HistoryOf(resolve, es), t);
  }

  /** What run files in the sender's Sent folder is what it has transmitted. */
  lemma ArchivedWasSent(resolve: Resolver, es: seq<Event>, t: Tid)
    requires Run(resolve, es + [Archive(t)])
    ensures var th := After(resolve, es).threads[t];
            Delivery(th.dest, th.pc.ref.from, th.pc.ref.rcpt, th.pc.body) in After(resolve, es).wire
  {
    Snoc(resolve, es, Archive(t));
    Always(resolve, es);
    ArchivedBody(After(resolve, es), HistoryOf(resolve, es), t);
  }

  lemma ArchivedBody(s: Sys, h: History, t: Tid)
    requires Inv(s, h) && IsRunner(s, t) && s.threads[t].pc.Archiving?
    ensures var th := s.threads[t]; Delivery(th.dest, th.pc.ref.from, th.pc.ref.rcpt, th.pc.body) in s.wire
  {
    ThreadFact(s.threads, t, h);
    SentTicket(s, h, s.threads[t].pc.ref.mid);
    hide MailInv, RowInv, ThreadInv, OwnerInv, FlagInv, DueInv, LogInv, AcceptInv;
  }

  /** A message that is being cleaned up went over the wire. */
  lemma SentTicket(s: Sys, h: History, u: nat)
    requires Inv(s, h) && u in h.live && h.live[u].phase.Cleaning?
    ensures h.live[u].env in s.wire
  {
    hide MailInv, RowInv, ThreadInv, OwnerInv, FlagInv, DueInv, LogInv;
    assert EntryOk(h.live[u], h);
    SentIsOnWire(s, h, h.live[u].ticket);
  }

  /** Two branches of `run` are never taken: a listed message is always found, and none is pending for another row
      after its own was deleted. */
  lemma NoSkippedMail(resolve: Resolver, es: seq<Event>, t: Tid)
    requires Run(resolve, es) && IsRunner(After(resolve, es), t)
    ensures var s := After(resolve, es); var pc := s.threads[t].pc;
            && (pc.Looping? ==> forall i :: 0 <= i < |pc.refs| ==> pc.refs[i].mid in s.outbox)
            && (pc.Checking? ==> !Pending(s, pc.ref.mid))
  {
    var s, h := After(resolve, es), HistoryOf(resolve, es);
    Always(resolve, es);
    if s.threads[t].pc.Checking? { NothingPending(s, h, t); }
    if s.threads[t].pc.Looping? { ListedMailIsThere(s, h, t); }
  }

  lemma ListedMailIsThere(s: Sys, h: History, t: Tid)
    requires Inv(s, h) && IsRunner(s, t) && s.threads[t].pc.Looping?
    ensures forall i :: 0 <= i < |s.threads[t].pc.refs| ==> s.threads[t].pc.refs[i].mid in s.outbox
  {
    ThreadFact(s.threads, t, h);
    hide RowInv, ThreadInv, OwnerInv, FlagInv, DueInv, LogInv, AcceptInv;
    var refs := s.threads[t].pc.refs;
    assert Todo(s.threads[t].pc) == refs;
    forall i | 0 <= i < |refs| ensures refs[i].mid in s.outbox {
      assert RefOk(refs[i], s.threads[t].dest, h);
    }
  }

  // ---- nothing lost, nothing sent twice ---------------------------------------------------------------------------

  /** Some row of the queue table carries this envelope, and its message is still in the Outbox, unchanged. */
  ghost predicate InQueue(s: Sys, d: Delivery) {
    exists r :: r in s.queue && Carries(s, r, d)
  }

  ghost predicate Carries(s: Sys, r: nat, d: Delivery)
    requires r in s.queue
  {
    && s.queue[r] == Row(d.dest, s.queue[r].mid, d.from, d.rcpt)
    && s.queue[r].mid in s.outbox && s.outbox[s.queue[r].mid].body == d.body
  }

  /** Tickets are accepted by the queue insert of QueueFor, one new ticket each, with that call's own data. */
  lemma AcceptedByEnqueue(resolve: Resolver, es: seq<Event>, e: Event)
    requires Run(resolve, es + [e])
    ensures var s := After(resolve, es); var h := HistoryOf(resolve, es); var h' := HistoryOf(resolve, es + [e]);
            if e.Enqueue? then
              var th := s.threads[e.t];
              var d := Delivery(th.at.dest, th.from, th.at.rcpt, th.at.content);
              th.at.uid in h.live && h.live[th.at.uid].ticket !in h.accepted
              && h'.accepted == h.accepted[h.live[th.at.uid].ticket := d]
            else
              h'.accepted == h.accepted
  {
    Snoc(resolve, es, e);
    Always(resolve, es);
    hide Inv, Enabled;
    if e.Enqueue? {
      EnqueuesNew(After(resolve, es), HistoryOf(resolve, es), e.t);
    }
  }

  lemma EnqueuesNew(s: Sys, h: History, t: Tid)
    requires Inv(s, h) && Enabled(s, Enqueue(t))
    ensures var th := s.threads[t];
            && th.at.uid in h.live && h.live[th.at.uid].ticket !in h.accepted
            && h.live[th.at.uid].env == Delivery(th.at.dest, th.from, th.at.rcpt, th.at.content)
  {
    ThreadFact(s.threads, t, h);
    hide MailInv, RowInv, ThreadInv, OwnerInv, FlagInv, DueInv, LogInv;
    assert EntryOk(h.live[s.threads[t].at.uid], h);
  }

  /** No loss: what the queue accepted was transmitted just so, or waits with its message intact, at every moment of
      every run, crashes included.  Destination "Outbox" is the exception (see `OutboxKeyLosesMail`). */
  lemma NothingLost(resolve: Resolver, es: seq<Event>, k: nat)
    requires Run(resolve, es) && k in HistoryOf(resolve, es).accepted &&
             HistoryOf(resolve, es).accepted[k].dest != OUTBOX_KEY
    ensures var d := HistoryOf(resolve, es).accepted[k];
            (IsSent(HistoryOf(resolve, es), k) && d in After(resolve, es).wire) || InQueue(After(resolve, es), d)
  {
    var s, h := After(resolve, es), HistoryOf(resolve, es);
    Always(resolve, es);
    if IsSent(h, k) {
      SentIsOnWire(s, h, k);
    } else {
      hide ThreadInv, OwnerInv, FlagInv, DueInv, LogInv;
      assert Waiting(h, k);
      var x := h.live[h.uidOf[k]];
      assert EntryOk(x, h);
      assert x.phase == Queued(x.phase.row);
      assert Carries(s, x.phase.row, h.accepted[k]);
    }
  }

  function Crashes(es: seq<Event>): nat {
    if es == [] then 0 else Crashes(es[..|es| - 1]) + (if es[|es| - 1].Crash? then 1 else 0)
  }

  lemma {:induction false} EpochCountsCrashes(resolve: Resolver, es: seq<Event>)
    requires Run(resolve, es)
    ensures HistoryOf(resolve, es).epoch == Crashes(es)
  {
    if es != [] {
      EpochCountsCrashes(resolve, es[..|es| - 1]);
      EpochStep(HistoryOf(resolve, es[..|es| - 1]), After(resolve, es[..|es| - 1]), es[|es| - 1]);
    }
  }

  lemma EpochStep(h: History, s: Sys, e: Event)
    requires Enabled(s, e)
    ensures Record(h, s, e).epoch == h.epoch + if e.Crash? then 1 else 0
  {}

  /** No duplicate: a ticket is transmitted at most once in the life of a process; only what was accepted is
      transmitted, and it is transmitted as accepted. */
  lemma NothingSentTwice(resolve: Resolver, es: seq<Event>)
    requires Run(resolve, es)
    ensures var s := After(resolve, es); var h := HistoryOf(resolve, es);
            && |s.wire| == |h.sends|
            && (forall i :: 0 <= i < |s.wire| ==>
                  h.sends[i].0 in h.accepted && s.wire[i] == h.accepted[h.sends[i].0] && h.sends[i].1 <= Crashes(es))
            && (forall i, j :: 0 <= i < j < |s.wire| && h.sends[i].0 == h.sends[j].0 ==> h.sends[i].1 != h.sends[j].1)
    ensures Crashes(es) == 0 ==>
              forall i, j :: 0 <= i < j < |After(resolve, es).wire| ==>
                            HistoryOf(resolve, es).sends[i].0 != HistoryOf(resolve, es).sends[j].0
  {
    var h := HistoryOf(resolve, es);
    Always(resolve, es);
    EpochCountsCrashes(resolve, es);
    hide MailInv, RowInv, ThreadInv, OwnerInv, FlagInv, DueInv, AcceptInv;
    forall i, j | 0 <= i < j < |h.sends| && h.sends[i].0 == h.sends[j].0 ensures h.sends[i].1 != h.sends[j].1 {
      assert h.sends[i] != h.sends[j];
    }
  }

  /** A row (for any destination but "Outbox") leaves the table only by `run` deleting it, right after transmitting the
      very message it references to the very recipient it names. */
  lemma RowLeavesOnlyAfterSend(resolve: Resolver, es: seq<Event>, e: Event, r: nat)
    requires Run(resolve, es + [e]) && r in After(resolve, es).queue && r !in After(resolve, es + [e]).queue &&
             After(resolve, es).queue[r].dest != OUTBOX_KEY
    ensures var s := After(resolve, es); var row := s.queue[r];
            && e.Dequeue? && IsRunner(s, e.t) && s.threads[e.t].dest == row.dest
            && row.mid in s.outbox && Delivery(row.dest, row.from, row.rcpt, s.outbox[row.mid].body) in s.wire
  {
    Snoc(resolve, es, e);
    Always(resolve, es);
    hide Inv, Apply, Enabled, Record;
    OnlyDequeueRemoves(After(resolve, es), e, r);
    DequeuedRowWasSent(After(resolve, es), HistoryOf(resolve, es), e.t, r);
  }

  lemma OnlyDequeueRemoves(s: Sys, e: Event, r: nat)
    requires Enabled(s, e) && r in s.queue && r !in Apply(s, e).queue
    requires s.queue[r].dest != OUTBOX_KEY || !e.ForeignClear?
    ensures e.Dequeue? && IsRunner(s, e.t) && s.threads[e.t].pc.Dequeuing?
    ensures s.queue[r].dest == s.threads[e.t].dest && s.queue[r].mid == s.threads[e.t].pc.ref.mid
  {}

  lemma DequeuedRowWasSent(s: Sys, h: History, t: Tid, r: nat)
    requires Inv(s, h) && IsRunner(s, t) && s.threads[t].pc.Dequeuing? && r in s.queue
    requires s.queue[r].dest == s.threads[t].dest && s.queue[r].mid == s.threads[t].pc.ref.mid
    ensures var row := s.queue[r];
            row.mid in s.outbox && Delivery(row.dest, row.from, row.rcpt, s.outbox[row.mid].body) in s.wire
  {
    ThreadFact(s.threads, t, h);
    CurrentRef(s.threads[t], t, h);
    SentEntry(s, h, s.queue[r].mid);
    hide ThreadInv, OwnerInv, FlagInv, DueInv, LogInv, AcceptInv;
  }

  /** A message whose ticket is on record as sent went over the wire with its own envelope. */
  lemma SentEntry(s: Sys, h: History, u: nat)
    requires Inv(s, h) && u in h.live
    ensures IsSent(h, h.live[u].ticket) ==> h.live[u].env in s.wire
  {
    hide MailInv, RowInv, ThreadInv, OwnerInv, FlagInv, DueInv, LogInv;
    assert EntryOk(h.live[u], h);
    if IsSent(h, h.live[u].ticket) { SentIsOnWire(s, h, h.live[u].ticket); }
  }

  // ---- quiescence -------------------------------------------------------------------------------------------------

  /** No call is between its message insert and its row insert, no goroutine between its row delete and its
      MailDelete. */
  ghost predicate Quiet(s: Sys) {
    forall t :: t in s.threads ==>
      && (s.threads[t].Submission? ==> !Inserted(s.threads[t].at))
      && (s.threads[t].Runner? ==> !Cleans(s.threads[t].pc))
  }

  ghost predicate Undisturbed(es: seq<Event>) {
    forall i :: 0 <= i < |es| ==> !es[i].Crash? && !es[i].ForeignClear?
  }

  lemma {:induction false} NoOrphans(resolve: Resolver, es: seq<Event>)
    requires Run(resolve, es) && Undisturbed(es)
    ensures forall u :: u in HistoryOf(resolve, es).live ==> !HistoryOf(resolve, es).live[u].phase.Orphaned?
  {
    if es != [] {
      var p := es[..|es| - 1];
      assert forall i :: 0 <= i < |p| ==> p[i] == es[i];
      NoOrphans(resolve, p);
      assert !es[|es| - 1].Crash? && !es[|es| - 1].ForeignClear?;
      hide Undisturbed;
      NoNewOrphans(HistoryOf(resolve, p), After(resolve, p), es[|es| - 1]);
    }
  }

  lemma NoNewOrphans(h: History, s: Sys, e: Event)
    requires Enabled(s, e) && !e.Crash? && !e.ForeignClear? && forall u :: u in h.live ==> !h.live[u].phase.Orphaned?
    ensures forall u :: u in Record(h, s, e).live ==> !Record(h, s, e).live[u].phase.Orphaned?
  {}

  /** Without a crash and without a foreign clear, message_id is a bijection between queue rows and Outbox messages
      whenever the system is quiet. */
  lemma QuietBijection(resolve: Resolver, es: seq<Event>)
    requires Run(resolve, es) && Undisturbed(es) && Quiet(After(resolve, es))
    ensures var s := After(resolve, es);
            && (forall r :: r in s.queue ==> s.queue[r].mid in s.outbox)
            && (forall q, r :: q in s.queue && r in s.queue && s.queue[q].mid == s.queue[r].mid ==> q == r)
            && (forall u :: u in s.outbox ==> exists r :: r in s.queue && s.queue[r].mid == u)
  {
    RowsReferenceLiveMail(resolve, es);
    Always(resolve, es);
    NoOrphans(resolve, es);
    var s, h := After(resolve, es), HistoryOf(resolve, es);
    hide ThreadInv, FlagInv, DueInv, LogInv, AcceptInv;
    forall u | u in s.outbox ensures exists r :: r in s.queue && s.queue[r].mid == u {
      assert h.live[u].phase.Queued?;
      assert h.live[u].phase == Queued(h.live[u].phase.row);
    }
  }

  /** With crashes and clears too: a quiet system's message has a row exactly unless it was orphaned, by the crash of
      the thread responsible for it or by a clear of its row. */
  lemma QuietOrphans(resolve: Resolver, es: seq<Event>)
    requires Run(resolve, es) && Quiet(After(resolve, es))
    ensures forall u :: u in After(resolve, es).outbox ==>
              u in HistoryOf(resolve, es).live &&
                  (Pending(After(resolve, es), u) <==> !HistoryOf(resolve, es).live[u].phase.Orphaned?)
  {
    Always(resolve, es);
    QuietPhases(After(resolve, es), HistoryOf(resolve, es));
  }

  lemma QuietPhases(s: Sys, h: History)
    requires Inv(s, h) && Quiet(s)
    ensures forall u :: u in s.outbox ==> u in h.live && (Pending(s, u) <==> !h.live[u].phase.Orphaned?)
  {
    hide ThreadInv, FlagInv, DueInv, LogInv, AcceptInv;
    forall u | u in s.outbox ensures u in h.live && (Pending(s, u) <==> !h.live[u].phase.Orphaned?) {
      var p := h.live[u].phase;
      if p.Queued? { assert h.live[u].phase == Queued(p.row) && s.queue[p.row].mid == u; }
    }
  }

  // ---- one goroutine a destination --------------------------------------------------------------------------------

  /** At most one `run` per destination is alive, and one is exactly when the destination's flag is set. */
  lemma SingleRunner(resolve: Resolver, es: seq<Event>)
    requires Run(resolve, es)
    ensures var s := After(resolve, es);
            && (forall x, y :: IsRunner(s, x) && IsRunner(s, y) && s.threads[x].dest == s.threads[y].dest ==> x == y)
            && (forall d :: d in s.running <==> exists x :: IsRunner(s, x) && s.threads[x].dest == d)
  {
    var s, h := After(resolve, es), HistoryOf(resolve, es);
    Always(resolve, es);
    hide MailInv, RowInv, OwnerInv, DueInv, LogInv, AcceptInv;
    forall x | IsRunner(s, x) ensures s.threads[x].dest in h.runnerOf && h.runnerOf[s.threads[x].dest] == x {
      ThreadFact(s.threads, x, h);
    }
    forall d | d in s.running ensures exists x :: IsRunner(s, x) && s.threads[x].dest == d {
      assert IsRunner(s, h.runnerOf[d]);
    }
  }

  /** The tick's handling of a destination leaves a goroutine for it alive, a new one at its snapshot unless one was
      running. */
  lemma TickLeavesRunner(resolve: Resolver, es: seq<Event>, t: Tid, n: Tid)
    requires Run(resolve, es + [Restart(t, n)])
    ensures var s := After(resolve, es); var s' := After(resolve, es + [Restart(t, n)]); var d := s.threads[t].todo[0];
            && d in s'.running && (exists x :: IsRunner(s', x) && s'.threads[x].dest == d)
            && (d !in s.running ==> s'.threads[n] == Runner(d, Snapshotting))
  {
    SingleRunner(resolve, es + [Restart(t, n)]);
    Snoc(resolve, es, Restart(t, n));
  }

  // ---- run terminates ---------------------------------------------------------------------------------------------

  /** Statements of one pass of the loop, at most: a MailSelect, ten attempts and the four clean-up statements. */
  const PER_REF := MAX_RETRIES + 5

  /** How many statements a goroutine that has its snapshot can still execute. */
  function Budget(pc: RunPc): nat
    requires !pc.Snapshotting?
  {
    match pc
    case Looping(refs) => PER_REF * |refs| + 3
    case Sending(refs, _, _, a) => PER_REF * |refs| + 3 + 4 + (if a <= MAX_RETRIES then MAX_RETRIES + 1 - a else 1)
    case Dequeuing(refs, _, _) => PER_REF * |refs| + 3 + 4
    case Checking(refs, _, _) => PER_REF * |refs| + 3 + 3
    case Archiving(refs, _, _) => PER_REF * |refs| + 3 + 2
    case Purging(refs, _) => PER_REF * |refs| + 3 + 1
    case Expunging => 2
    case Releasing => 1
  }

  ghost predicate Past(s: Sys, t: Tid) { IsRunner(s, t) && !s.threads[t].pc.Snapshotting? }

  /** The thread that executes an event, if any. */
  function By(e: Event): set<Tid> { if e.ForeignClear? || e.Crash? then {} else {e.t} }

  function OwnEvents(t: Tid, es: seq<Event>): nat {
    if es == [] then 0 else OwnEvents(t, es[..|es| - 1]) + (if t in By(es[|es| - 1]) then 1 else 0)
  }

  lemma BudgetFalls(s: Sys, t: Tid, e: Event)
    requires Enabled(s, e) && Past(s, t) && !e.Crash? && e != Release(t)
    ensures Past(Apply(s, e), t)
    ensures Budget(Apply(s, e).threads[t].pc) + (if t in By(e) then 1 else 0) <= Budget(s.threads[t].pc)
  {
    if t in By(e) { OwnStep(s, t, e); }
  }

  lemma OwnStep(s: Sys, t: Tid, e: Event)
    requires Enabled(s, e) && Past(s, t) && e != Release(t) && t in By(e)
    ensures Past(Apply(s, e), t) && Budget(Apply(s, e).threads[t].pc) < Budget(s.threads[t].pc)
  {
    var pc := s.threads[t].pc;
    if pc.Looping? && pc.refs != [] {
      assert PER_REF * |pc.refs| == PER_REF * |pc.refs[1..]| + PER_REF;
    }
  }

  /** `run` terminates: whatever else happens, a goroutine with n references executes at most 15 n + 3 statements. */
  lemma {:induction false} RunTerminates(resolve: Resolver, es: seq<Event>, more: seq<Event>, t: Tid)
    requires Run(resolve, es + more) && Run(resolve, es) && Past(After(resolve, es), t)
    requires forall i :: 0 <= i < |more| ==> !more[i].Crash? && more[i] != Release(t)
    ensures Past(After(resolve, es + more), t)
    ensures OwnEvents(t, more) +
            Budget(After(resolve, es + more).threads[t].pc) <= Budget(After(resolve, es).threads[t].pc)
  {
    if more == [] {
      assert es + more == es;
    } else {
      var p, e := more[..|more| - 1], more[|more| - 1];
      assert es + more == (es + p) + [e];
      Snoc(resolve, es + p, e);
      assert forall i :: 0 <= i < |p| ==> p[i] == more[i];
      RunTerminates(resolve, es, p, t);
      BudgetFalls(After(resolve, es + p), t, e);
    }
  }

  /** The members of a set, each once. */
  lemma Listed<T>(s: set<T>) returns (r: seq<T>)
    ensures NoDuplicates(r) && forall x :: x in r <==> x in s
  {
    r := [];
    if s != {} {
      var x :| x in s;
      var rest := Listed(s - {x});
      r := [x] + rest;
    }
  }

  /** A goroutine is never stuck: it always has a statement to execute, and an attempt can succeed or fail. */
  lemma RunnerNeverStuck(s: Sys, t: Tid)
    requires IsRunner(s, t)
    ensures exists e :: Enabled(s, e) && t in By(e)
    ensures s.threads[t].pc.Sending? ==> Enabled(s, Attempt(t, true)) && Enabled(s, Attempt(t, false))
  {
    var rows := Listed(set r | r in s.queue && s.queue[r].dest == s.threads[t].dest);
    var e := match s.threads[t].pc {
      case Looping(refs) => if refs == [] then EndLoop(t) else Select(t)
      case Sending(_, _, _, _) => Attempt(t, true)
      case Dequeuing(_, _, _) => Dequeue(t)
      case Checking(_, _, _) => Check(t)
      case Archiving(_, _, _) => Archive(t)
      case Purging(_, _) => Purge(t)
      case Expunging => Expunge(t)
      case Releasing => Release(t)
      case Snapshotting => Snapshot(t, rows)
    };
    assert Enabled(s, e) && t in By(e);
  }

  /** A new tick or call can start at any time, and nothing keeps rows from being cleared or the process from
      stopping. */
  lemma AnythingCanStart(s: Sys, t: Tid, from: string, rcpts: seq<string>, mid: nat)
    requires t !in s.threads
    ensures exists ds :: Enabled(s, Tick(t, ds))
    ensures Enabled(s, Submit(t, from, rcpts)) && Enabled(s, ForeignClear(mid)) && Enabled(s, Crash)
  {
    var ds := Listed(set r | r in s.queue :: s.queue[r].dest);
    assert Enabled(s, Tick(t, ds));
  }
}
