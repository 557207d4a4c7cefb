/** Every event keeps the invariant of QueueHistory.  One section an event; each lemma is about one conjunct. */
module QueueInvariant {
  import opened Routing
  import opened QueueProtocol
  import opened QueueHistory

  type Threads = map<Tid, Thread>
  type Live = map<nat, Entry>

  // ---- events that change one thread only -------------------------------------------------------------------------

  ghost predicate Others(ts: Threads, ts': Threads, t: Tid) {
    forall x :: x != t ==> (x in ts' <==> x in ts) && (x in ts ==> ts'[x] == ts[x])
  }

  /** Thread `t` is responsible for the same message, and holds the same flag, in `ts` and `ts'`. */
  ghost predicate SameDuties(ts: Threads, ts': Threads, t: Tid) {
    && Others(ts, ts', t)
    && (t in ts && ts[t].Submission? && Inserted(ts[t].at) ==> t in ts' && Inserts(ts'[t], ts[t].at.uid))
    && (t in ts && ts[t].Runner? ==>
          && t in ts' && ts'[t].Runner? && ts'[t].dest == ts[t].dest
          && (Cleans(ts[t].pc) ==> CleansUp(ts'[t], ts[t].pc.ref.mid))
          && (ts[t].pc.Dequeuing? ==> HasSent(ts'[t], ts[t].pc.ref.mid)))
  }

  lemma LocalDuties(ts: Threads, ts': Threads, t: Tid, h: History, running: set<string>)
    requires OwnerInv(ts, h.live) && FlagInv(ts, running, h.runnerOf) && DueInv(ts, h) && SameDuties(ts, ts', t)
    ensures OwnerInv(ts', h.live) && FlagInv(ts', running, h.runnerOf) && DueInv(ts', h)
  {}

  lemma LocalThreads(ts: Threads, ts': Threads, t: Tid, h: History)
    requires ThreadInv(ts, h) && Others(ts, ts', t) && (t in ts' ==> ThreadOk(ts'[t], t, h))
    ensures ThreadInv(ts', h)
  {}

  lemma KeepLocal(s: Sys, h: History, s': Sys, t: Tid)
    requires Inv(s, h) && s' == s.(threads := s'.threads, uidNext := s'.uidNext)
    requires SameDuties(s.threads, s'.threads, t) && (t in s'.threads ==> ThreadOk(s'.threads[t], t, h))
    ensures Inv(s', h)
  {
    hide MailInv, RowInv, ThreadInv, OwnerInv, FlagInv, DueInv, LogInv, AcceptInv, ThreadOk;
    LocalThreads(s.threads, s'.threads, t, h);
    LocalDuties(s.threads, s'.threads, t, h, s.running);
  }

  lemma ThreadFact(ts: Threads, t: Tid, h: History)
    requires ThreadInv(ts, h) && t in ts
    ensures ThreadOk(ts[t], t, h)
  {}

  lemma KeepSubmit(s: Sys, h: History, e: Event)
    requires Inv(s, h) && Enabled(s, e) && e.Submit?
    ensures Inv(Apply(s, e), Record(h, s, e))
  {
    hide MailInv, RowInv, ThreadInv, OwnerInv, FlagInv, DueInv, LogInv, AcceptInv;
    KeepLocal(s, h, Apply(s, e), e.t);
  }

  lemma KeepSubmissionStep(s: Sys, h: History, e: Event)
    requires Inv(s, h) && Enabled(s, e) && (e.SkipRcpt? || e.Route? || e.ReadUid? || e.Bump? || e.Return?)
    ensures Inv(Apply(s, e), Record(h, s, e))
  {
    hide MailInv, RowInv, ThreadInv, OwnerInv, FlagInv, DueInv, LogInv, AcceptInv;
    ThreadFact(s.threads, e.t, h);
    KeepLocal(s, h, Apply(s, e), e.t);
  }

  lemma KeepManagerStep(s: Sys, h: History, e: Event)
    requires Inv(s, h) && Enabled(s, e) && (e.Tick? || e.Rearm?)
    ensures Inv(Apply(s, e), Record(h, s, e))
  {
    hide MailInv, RowInv, ThreadInv, OwnerInv, FlagInv, DueInv, LogInv, AcceptInv;
    KeepLocal(s, h, Apply(s, e), e.t);
  }

  /** A goroutine that moves on with the same references keeps its obligations. */
  lemma StepOk(th: Thread, t: Tid, h: History, th': Thread)
    requires th.Runner? && ThreadOk(th, t, h) && th'.Runner? && th'.dest == th.dest && Todo(th'.pc) == Todo(th.pc)
    requires !th.pc.Dequeuing? && !th'.pc.Dequeuing?
    requires th'.pc.Sending? ==>
               th'.pc.ref.mid in h.live && th'.pc.body == h.live[th'.pc.ref.mid].env.body &&
                   1 <= th'.pc.attempt <= MAX_RETRIES
    requires Cleans(th'.pc) ==> Cleans(th.pc) && th'.pc.ref == th.pc.ref
    requires Cleans(th'.pc) && !th'.pc.Purging? ==> !th.pc.Purging? && th'.pc.body == th.pc.body
    ensures ThreadOk(th', t, h)
  {}

  lemma KeepForward(s: Sys, h: History, e: Event)
    requires Inv(s, h) && Enabled(s, e) && (e.EndLoop? || e.Archive?)
    ensures Inv(Apply(s, e), Record(h, s, e))
  {
    hide MailInv, RowInv, ThreadInv, OwnerInv, FlagInv, DueInv, LogInv, AcceptInv, ThreadOk;
    ThreadFact(s.threads, e.t, h);
    StepOk(s.threads[e.t], e.t, h, Apply(s, e).threads[e.t]);
    KeepLocal(s, h, Apply(s, e), e.t);
  }

  /** MailExpunge finds nothing marked \Deleted in the Outbox. */
  lemma ExpungeKeeps(s: Sys, h: History, e: Event)
    requires MailInv(s.outbox, h.live, h.uidOf) && Enabled(s, e) && e.Expunge?
    ensures Apply(s, e) == SetPc(s, e.t, Releasing) && Record(h, s, e) == h
  {
    assert forall u :: u in s.outbox ==> u in h.live && !s.outbox[u].deleted;
    assert Apply(s, e).outbox == s.outbox;
    assert Record(h, s, e).live == h.live;
  }

  lemma KeepExpunge(s: Sys, h: History, e: Event)
    requires Inv(s, h) && Enabled(s, e) && e.Expunge?
    ensures Inv(Apply(s, e), Record(h, s, e))
  {
    ExpungeKeeps(s, h, e);
    hide MailInv, RowInv, ThreadInv, OwnerInv, FlagInv, DueInv, LogInv, AcceptInv, ThreadOk, Apply, Record;
    ThreadFact(s.threads, e.t, h);
    StepOk(s.threads[e.t], e.t, h, s.threads[e.t].(pc := Releasing));
    KeepLocal(s, h, SetPc(s, e.t, Releasing), e.t);
  }

  /** MailSelect always finds the message of a reference. */
  lemma SelectFinds(s: Sys, h: History, t: Tid)
    requires Inv(s, h) && Enabled(s, Select(t))
    ensures s.threads[t].pc.refs[0].mid in s.outbox
  {
    ThreadFact(s.threads, t, h);
    hide RowInv, ThreadInv, OwnerInv, FlagInv, DueInv, LogInv, AcceptInv;
    assert RefOk(Todo(s.threads[t].pc)[0], s.threads[t].dest, h);
  }

  lemma KeepSelect(s: Sys, h: History, e: Event)
    requires Inv(s, h) && Enabled(s, e) && e.Select?
    ensures Inv(Apply(s, e), Record(h, s, e))
  {
    hide RowInv, ThreadInv, OwnerInv, FlagInv, DueInv, LogInv, AcceptInv, ThreadOk;
    ThreadFact(s.threads, e.t, h);
    SelectFinds(s, h, e.t);
    var refs := s.threads[e.t].pc.refs;
    assert [refs[0]] + refs[1..] == refs;
    StepOk(s.threads[e.t], e.t, h, Apply(s, e).threads[e.t]);
    KeepLocal(s, h, Apply(s, e), e.t);
  }

  /** Once the goroutine has deleted the row it sent, no other row references the message. */
  lemma NothingPending(s: Sys, h: History, t: Tid)
    requires Inv(s, h) && IsRunner(s, t) && Cleans(s.threads[t].pc)
    ensures !Pending(s, s.threads[t].pc.ref.mid)
  {
    ThreadFact(s.threads, t, h);
    hide MailInv, ThreadInv, OwnerInv, FlagInv, DueInv, LogInv, AcceptInv;
  }

  lemma KeepCheck(s: Sys, h: History, e: Event)
    requires Inv(s, h) && Enabled(s, e) && e.Check?
    ensures Inv(Apply(s, e), Record(h, s, e))
  {
    hide MailInv, RowInv, ThreadInv, OwnerInv, FlagInv, DueInv, LogInv, AcceptInv, ThreadOk, Pending;
    ThreadFact(s.threads, e.t, h);
    NothingPending(s, h, e.t);
    StepOk(s.threads[e.t], e.t, h, Apply(s, e).threads[e.t]);
    KeepLocal(s, h, Apply(s, e), e.t);
  }

  /** A snapshot lists each row of the destination once, so its references are to distinct, unsent messages. */
  lemma SnapshotOk(s: Sys, h: History, t: Tid, rows: seq<nat>, th': Thread)
    requires Inv(s, h) && Enabled(s, Snapshot(t, rows)) && ThreadOk(s.threads[t], t, h)
    requires th'.Runner? && th'.dest == s.threads[t].dest && th'.pc.Looping? && |th'.pc.refs| == |rows|
    requires forall i :: 0 <= i < |rows| ==> rows[i] in s.queue && th'.pc.refs[i] == RefOf(s.queue[rows[i]])
    ensures ThreadOk(th', t, h)
  {
    hide MailInv, ThreadInv, OwnerInv, FlagInv, LogInv;
    var refs := Todo(th'.pc);
    forall i | 0 <= i < |refs|
      ensures RefOk(refs[i], th'.dest, h) && (h.live[refs[i].mid].ticket, h.epoch) !in h.sends
    {
      assert rows[i] in rows;
      assert EntryOk(h.live[refs[i].mid], h);
    }
    forall i, j | 0 <= i < j < |refs| ensures refs[i].mid != refs[j].mid {
      assert rows[i] != rows[j];
    }
  }

  lemma KeepSnapshot(s: Sys, h: History, e: Event)
    requires Inv(s, h) && Enabled(s, e) && e.Snapshot?
    ensures Inv(Apply(s, e), Record(h, s, e))
  {
    hide MailInv, RowInv, ThreadInv, OwnerInv, FlagInv, DueInv, LogInv, AcceptInv, ThreadOk;
    ThreadFact(s.threads, e.t, h);
    SnapshotOk(s, h, e.t, e.rows, Apply(s, e).threads[e.t]);
    KeepLocal(s, h, Apply(s, e), e.t);
  }

  // ---- changes of the history -------------------------------------------------------------------------------------

  /** From `h` to `h'`, nothing changes that thread `th` relies on. */
  ghost predicate Unharmed(th: Thread, h: History, h': History) {
    && h'.epoch == h.epoch
    && (th.Submission? && Inserted(th.at) && th.at.uid in h.live ==>
          th.at.uid in h'.live && h'.live[th.at.uid] == h.live[th.at.uid])
    && (th.Runner? && th.dest in h.runnerOf ==> th.dest in h'.runnerOf && h'.runnerOf[th.dest] == h.runnerOf[th.dest])
    && (th.Runner? && Cleans(th.pc) && th.pc.ref.mid in h.live ==>
          th.pc.ref.mid in h'.live && h'.live[th.pc.ref.mid] == h.live[th.pc.ref.mid])
    && (th.Runner? ==> forall i :: 0 <= i < |Todo(th.pc)| && Todo(th.pc)[i].mid in h.live ==>
          SameEntry(Todo(th.pc)[i].mid, h, h'))
  }

  /** Message `u` keeps its entry (or loses its row to a foreign clear) and its ticket is not sent once more. */
  ghost predicate SameEntry(u: nat, h: History, h': History)
    requires u in h.live
  {
    var k := h.live[u].ticket;
    && u in h'.live && h'.live[u].ticket == k && h'.live[u].env == h.live[u].env
    && (h'.live[u].phase == h.live[u].phase || (h'.live[u].phase.Orphaned? && h.live[u].env.dest == OUTBOX_KEY))
    && (k in h.accepted ==> k in h'.accepted)
    && ((k, h.epoch) in h'.sends <==> (k, h.epoch) in h.sends)
  }

  lemma UnharmedOk(th: Thread, x: Tid, h: History, h': History)
    requires ThreadOk(th, x, h) && Unharmed(th, h, h')
    ensures ThreadOk(th, x, h')
  {
    if th.Runner? {
      forall i | 0 <= i < |Todo(th.pc)| ensures RefOk(Todo(th.pc)[i], th.dest, h') {
        assert RefOk(Todo(th.pc)[i], th.dest, h) && SameEntry(Todo(th.pc)[i].mid, h, h');
      }
      assert th.pc.Sending? || th.pc.Dequeuing? ==> Todo(th.pc)[0] == th.pc.ref;
    }
  }

  lemma KeepThreads(ts: Threads, ts': Threads, t: Tid, h: History, h': History)
    requires ThreadInv(ts, h) && Others(ts, ts', t)
    requires forall x :: x != t && x in ts ==> Unharmed(ts[x], h, h')
    requires t in ts' ==> ThreadOk(ts'[t], t, h')
    ensures ThreadInv(ts', h')
  {
    hide ThreadOk, Unharmed;
    forall x | x in ts' ensures ThreadOk(ts'[x], x, h') {
      if x != t { UnharmedOk(ts[x], x, h, h'); }
    }
  }

  /** A message no other thread inserted, refers to or cleans up can change phase, leave or be sent without harming
      them. */
  lemma OthersUnharmed(ts: Threads, t: Tid, u: nat, h: History, h': History)
    requires ThreadInv(ts, h) && u in h.live && t in ts && ts[t].Runner?
    requires h.live[u].phase == Cleaning(t) || (exists i :: 0 <= i < |Todo(ts[t].pc)| && Todo(ts[t].pc)[i].mid == u)
    requires h'.epoch == h.epoch && h'.runnerOf == h.runnerOf && h'.accepted == h.accepted
    requires forall v :: v in h.live && v != u ==>
               && v in h'.live && h'.live[v] == h.live[v]
               && ((h.live[v].ticket, h.epoch) in h'.sends <==> (h.live[v].ticket, h.epoch) in h.sends)
    ensures forall x :: x != t && x in ts ==> Unharmed(ts[x], h, h')
  {
    forall x | x != t && x in ts ensures Unharmed(ts[x], h, h') {
      NotTheirs(ts, t, u, h, x);
    }
  }

  lemma NotTheirs(ts: Threads, t: Tid, u: nat, h: History, x: Tid)
    requires ThreadInv(ts, h) && u in h.live && t in ts && ts[t].Runner? && x in ts && x != t
    requires h.live[u].phase == Cleaning(t) || (exists i :: 0 <= i < |Todo(ts[t].pc)| && Todo(ts[t].pc)[i].mid == u)
    ensures ts[x].Submission? && Inserted(ts[x].at) ==> ts[x].at.uid != u
    ensures ts[x].Runner? && Cleans(ts[x].pc) ==> ts[x].pc.ref.mid != u
    ensures ts[x].Runner? ==> forall j :: 0 <= j < |Todo(ts[x].pc)| ==> Todo(ts[x].pc)[j].mid != u
  {
    ThreadFact(ts, t, h);
    ThreadFact(ts, x, h);
    hide ThreadInv;
    if h.live[u].phase != Cleaning(t) {
      var i :| 0 <= i < |Todo(ts[t].pc)| && Todo(ts[t].pc)[i].mid == u;
      assert RefOk(Todo(ts[t].pc)[i], ts[t].dest, h);
    }
    if ts[x].Runner? {
      forall j | 0 <= j < |Todo(ts[x].pc)| ensures Todo(ts[x].pc)[j].mid != u {
        assert RefOk(Todo(ts[x].pc)[j], ts[x].dest, h);
      }
    }
  }

  /** Tickets, envelopes and UIDs stay; only phases change. */
  ghost predicate OnlyPhases(live: Live, live': Live) {
    && live'.Keys == live.Keys
    && forall u :: u in live ==> live'[u].ticket == live[u].ticket && live'[u].env == live[u].env
  }

  lemma PhasesMail(outbox: map<nat, Mail>, live: Live, live': Live, uidOf: seq<nat>)
    requires MailInv(outbox, live, uidOf) && OnlyPhases(live, live')
    ensures MailInv(outbox, live', uidOf)
  {}

  // ---- QueueFor stores a message ----------------------------------------------------------------------------------

  /** What `Insert` does when the UID is free. */
  ghost predicate Stores(s: Sys, h: History, t: Tid, s': Sys, h': History) {
    && IsSubmission(s, t) && s.threads[t].at.Inserting? && s.threads[t].at.uid !in s.outbox
    && var th := s.threads[t]; var at := th.at;
       && s' == s.(threads := s.threads[t := th.(at := Bumping(at.rcpt, at.dest, at.content, at.uid))],
                   outbox := s.outbox[at.uid := Mail(at.content, false)])
       && h' == h.(live := h.live[at.uid :=
                                  Entry(|h.uidOf|, Delivery(at.dest, th.from, at.rcpt, at.content), Submitting(t))],
                   uidOf := h.uidOf + [at.uid])
  }

  lemma KeepInsert(s: Sys, h: History, e: Event)
    requires Inv(s, h) && Enabled(s, e) && e.Insert?
    ensures Inv(Apply(s, e), Record(h, s, e))
  {
    hide MailInv, RowInv, ThreadInv, OwnerInv, FlagInv, DueInv, LogInv, AcceptInv;
    if s.threads[e.t].at.uid in s.outbox {
      KeepLocal(s, h, Apply(s, e), e.t);
    } else {
      KeepStored(s, h, e.t, Apply(s, e), Record(h, s, e));
    }
  }

  lemma KeepStored(s: Sys, h: History, t: Tid, s': Sys, h': History)
    requires Inv(s, h) && Stores(s, h, t, s', h')
    ensures Inv(s', h')
  {
    hide MailInv, RowInv, ThreadInv, OwnerInv, FlagInv, DueInv, LogInv, AcceptInv;
    StoredMail(s, h, t, s', h');
    StoredRows(s, h, t, s', h');
    StoredThreads(s, h, t, s', h');
    StoredDuties(s, h, t, s', h');
    StoredAccepted(s, h, t, s', h');
  }

  lemma StoredMail(s: Sys, h: History, t: Tid, s': Sys, h': History)
    requires MailInv(s.outbox, h.live, h.uidOf) && Stores(s, h, t, s', h')
    ensures MailInv(s'.outbox, h'.live, h'.uidOf)
  {}

  lemma StoredRows(s: Sys, h: History, t: Tid, s': Sys, h': History)
    requires MailInv(s.outbox, h.live, h.uidOf) && RowInv(s.queue, s.nextRow, h.live) && Stores(s, h, t, s', h')
    ensures RowInv(s'.queue, s'.nextRow, h'.live)
  {}

  lemma StoredThreads(s: Sys, h: History, t: Tid, s': Sys, h': History)
    requires MailInv(s.outbox, h.live, h.uidOf) && ThreadInv(s.threads, h) && Stores(s, h, t, s', h')
    ensures ThreadInv(s'.threads, h')
  {
    forall x | x != t && x in s.threads ensures Unharmed(s.threads[x], h, h') {
      ThreadFact(s.threads, x, h);
      NewMailHarmsNone(s.threads[x], s.threads[t].at.uid, h, h');
    }
    hide ThreadInv, Unharmed;
    KeepThreads(s.threads, s'.threads, t, h, h');
  }

  lemma NewMailHarmsNone(th: Thread, u: nat, h: History, h': History)
    requires u !in h.live && u in h'.live && h'.live == h.live[u := h'.live[u]]
    requires h'.epoch == h.epoch && h'.runnerOf == h.runnerOf && h'.accepted == h.accepted && h'.sends == h.sends
    ensures Unharmed(th, h, h')
  {}

  lemma StoredDuties(s: Sys, h: History, t: Tid, s': Sys, h': History)
    requires MailInv(s.outbox, h.live, h.uidOf) && OwnerInv(s.threads, h.live) && Stores(s, h, t, s', h')
    requires FlagInv(s.threads, s.running, h.runnerOf) && DueInv(s.threads, h)
    ensures OwnerInv(s'.threads, h'.live) && FlagInv(s'.threads, s'.running, h'.runnerOf) && DueInv(s'.threads, h')
  {}

  lemma StoredAccepted(s: Sys, h: History, t: Tid, s': Sys, h': History)
    requires MailInv(s.outbox, h.live, h.uidOf) && AcceptInv(h) && Stores(s, h, t, s', h')
    ensures AcceptInv(h')
  {
    assert forall k :: IsSent(h', k) <==> IsSent(h, k);
    forall k | k in h.accepted && Waiting(h, k) ensures Waiting(h', k) {}
    forall u | u in h'.live ensures EntryOk(h'.live[u], h') {
      assert u in h.live && u != s.threads[t].at.uid ==> EntryOk(h.live[u], h);
    }
  }

  // ---- QueueFor inserts the row -----------------------------------------------------------------------------------

  ghost predicate Enqueues(s: Sys, h: History, t: Tid, s': Sys, h': History) {
    && IsSubmission(s, t) && s.threads[t].at.Enqueuing? && s.threads[t].at.uid in h.live
    && var th := s.threads[t]; var at := th.at; var x := h.live[at.uid];
       && x.phase == Submitting(t) && x.env == Delivery(at.dest, th.from, at.rcpt, at.content)
       && s' == s.(threads := s.threads[t := th.(at := Kicking(at.dest))],
                   queue := s.queue[s.nextRow := Row(at.dest, at.uid, th.from, at.rcpt)], nextRow := s.nextRow + 1)
       && h' == h.(live := h.live[at.uid := x.(phase := Queued(s.nextRow))], accepted := h.accepted[x.ticket := x.env])
  }

  lemma KeepEnqueue(s: Sys, h: History, e: Event)
    requires Inv(s, h) && Enabled(s, e) && e.Enqueue?
    ensures Inv(Apply(s, e), Record(h, s, e))
  {
    hide MailInv, RowInv, ThreadInv, OwnerInv, FlagInv, DueInv, LogInv, AcceptInv;
    ThreadFact(s.threads, e.t, h);
    KeepEnqueued(s, h, e.t, Apply(s, e), Record(h, s, e));
  }

  lemma KeepEnqueued(s: Sys, h: History, t: Tid, s': Sys, h': History)
    requires Inv(s, h) && Enqueues(s, h, t, s', h')
    ensures Inv(s', h')
  {
    hide MailInv, RowInv, ThreadInv, OwnerInv, FlagInv, DueInv, LogInv, AcceptInv;
    PhasesMail(s.outbox, h.live, h'.live, h.uidOf);
    EnqueuedRows(s, h, t, s', h');
    EnqueuedThreads(s, h, t, s', h');
    EnqueuedDuties(s, h, t, s', h');
    EnqueuedSends(s, h, t, s', h');
    EnqueuedAccepted(s, h, t, s', h');
  }

  lemma EnqueuedRows(s: Sys, h: History, t: Tid, s': Sys, h': History)
    requires RowInv(s.queue, s.nextRow, h.live) && Enqueues(s, h, t, s', h')
    ensures RowInv(s'.queue, s'.nextRow, h'.live)
  {
    var u := s.threads[t].at.uid;
    forall r | r in s.queue ensures s.queue[r].mid != u {
      assert h.live[s.queue[r].mid].phase == Queued(r);
    }
  }

  lemma EnqueuedThreads(s: Sys, h: History, t: Tid, s': Sys, h': History)
    requires ThreadInv(s.threads, h) && Enqueues(s, h, t, s', h')
    ensures ThreadInv(s'.threads, h')
  {
    forall x | x != t && x in s.threads ensures Unharmed(s.threads[x], h, h') {
      ThreadFact(s.threads, x, h);
    }
    hide ThreadInv, Unharmed;
    KeepThreads(s.threads, s'.threads, t, h, h');
  }

  lemma EnqueuedDuties(s: Sys, h: History, t: Tid, s': Sys, h': History)
    requires OwnerInv(s.threads, h.live) && FlagInv(s.threads, s.running, h.runnerOf) && Enqueues(s, h, t, s', h')
    ensures OwnerInv(s'.threads, h'.live) && FlagInv(s'.threads, s'.running, h'.runnerOf)
  {}

  /** The new row's ticket has never been sent: only accepted tickets have. */
  lemma EnqueuedSends(s: Sys, h: History, t: Tid, s': Sys, h': History)
    requires AcceptInv(h) && LogInv(s.wire, h.accepted, h.sends, h.epoch) && DueInv(s.threads, h)
    requires Enqueues(s, h, t, s', h')
    ensures DueInv(s'.threads, h') && LogInv(s'.wire, h'.accepted, h'.sends, h'.epoch)
  {
    assert EntryOk(h.live[s.threads[t].at.uid], h);
    hide AcceptInv;
  }

  lemma EnqueuedAccepted(s: Sys, h: History, t: Tid, s': Sys, h': History)
    requires MailInv(s.outbox, h.live, h.uidOf) && AcceptInv(h) && Enqueues(s, h, t, s', h')
    ensures AcceptInv(h')
  {
    assert forall k :: IsSent(h', k) <==> IsSent(h, k);
    forall k | Waiting(h, k) ensures Waiting(h', k) {}
    forall u | u in h'.live ensures EntryOk(h'.live[u], h') {
      assert EntryOk(h.live[u], h);
    }
  }

  // ---- queueFor starts a goroutine --------------------------------------------------------------------------------

  lemma KeepSpawn(s: Sys, h: History, dest: string, n: Tid)
    requires Inv(s, h) && n !in s.threads
    ensures Inv(StartIfIdle(s, dest, n), Spawned(h, s, dest, n))
  {
    hide MailInv, RowInv, ThreadInv, OwnerInv, FlagInv, DueInv, LogInv, AcceptInv;
    if dest !in s.running {
      var s', h' := StartIfIdle(s, dest, n), Spawned(h, s, dest, n);
      SpawnedThreads(s.threads, h, dest, n, s.running, h');
      SpawnedDuties(s.threads, h, dest, n, s.running, h');
      SameAccepted(h, h');
    }
  }

  lemma SpawnedThreads(ts: Threads, h: History, dest: string, n: Tid, running: set<string>, h': History)
    requires ThreadInv(ts, h) && FlagInv(ts, running, h.runnerOf) && n !in ts && dest !in running
    requires h' == h.(runnerOf := h.runnerOf[dest := n])
    ensures ThreadInv(ts[n := Runner(dest, Snapshotting)], h')
  {
    KeepThreads(ts, ts[n := Runner(dest, Snapshotting)], n, h, h');
  }

  lemma SpawnedDuties(ts: Threads, h: History, dest: string, n: Tid, running: set<string>, h': History)
    requires OwnerInv(ts, h.live) && FlagInv(ts, running, h.runnerOf) && DueInv(ts, h) && n !in ts && dest !in running
    requires h' == h.(runnerOf := h.runnerOf[dest := n])
    ensures var ts' := ts[n := Runner(dest, Snapshotting)];
            OwnerInv(ts', h.live) && FlagInv(ts', running + {dest}, h'.runnerOf) && DueInv(ts', h')
  {}

  /** The accounting of tickets does not look at flags, and survives more transmissions. */
  lemma SameAccepted(h: History, h': History)
    requires AcceptInv(h) && h.sends <= h'.sends && h' == h.(runnerOf := h'.runnerOf, sends := h'.sends)
    ensures AcceptInv(h')
  {
    forall k | IsSent(h, k) ensures IsSent(h', k) {
      var i :| 0 <= i < |h.sends| && h.sends[i].0 == k;
      assert h'.sends[i].0 == k;
    }
    assert forall k :: Waiting(h', k) == Waiting(h, k);
    forall u | u in h'.live ensures EntryOk(h'.live[u], h') {
      assert EntryOk(h.live[u], h);
    }
  }

  lemma KeepKick(s: Sys, h: History, e: Event)
    requires Inv(s, h) && Enabled(s, e) && e.Kick?
    ensures Inv(Apply(s, e), Record(h, s, e))
  {
    hide Inv;
    KeepSpawn(s, h, s.threads[e.t].at.dest, e.spawned);
    KeepLocal(StartIfIdle(s, s.threads[e.t].at.dest, e.spawned), Record(h, s, e), Apply(s, e), e.t);
  }

  lemma KeepRestart(s: Sys, h: History, e: Event)
    requires Inv(s, h) && Enabled(s, e) && e.Restart?
    ensures Inv(Apply(s, e), Record(h, s, e))
  {
    hide Inv;
    KeepSpawn(s, h, s.threads[e.t].todo[0], e.spawned);
    KeepLocal(StartIfIdle(s, s.threads[e.t].todo[0], e.spawned), Record(h, s, e), Apply(s, e), e.t);
  }

  // ---- run: a transmission ----------------------------------------------------------------------------------------

  ghost predicate Transmits(s: Sys, h: History, t: Tid, s': Sys, h': History) {
    && IsRunner(s, t) && s.threads[t].pc.Sending? && s.threads[t].pc.ref.mid in h.live
    && var th := s.threads[t]; var pc := th.pc;
       && s' == s.(threads := s.threads[t := th.(pc := Dequeuing(pc.refs, pc.ref, pc.body))],
                   wire := s.wire + [Delivery(th.dest, pc.ref.from, pc.ref.rcpt, pc.body)])
       && h' == h.(sends := h.sends + [(h.live[pc.ref.mid].ticket, h.epoch)])
  }

  lemma KeepAttempt(s: Sys, h: History, e: Event)
    requires Inv(s, h) && Enabled(s, e) && e.Attempt?
    ensures Inv(Apply(s, e), Record(h, s, e))
  {
    hide MailInv, RowInv, ThreadInv, OwnerInv, FlagInv, DueInv, LogInv, AcceptInv, ThreadOk;
    ThreadFact(s.threads, e.t, h);
    CurrentRef(s.threads[e.t], e.t, h);
    if e.ok {
      KeepTransmitted(s, h, e.t, Apply(s, e), Record(h, s, e));
    } else {
      AttemptFails(s.threads[e.t], e.t, h, Apply(s, e).threads[e.t]);
      KeepLocal(s, h, Apply(s, e), e.t);
    }
  }

  /** What a goroutine that sends, or has just sent, knows about its message. */
  lemma CurrentRef(th: Thread, t: Tid, h: History)
    requires ThreadOk(th, t, h) && th.Runner? && (th.pc.Sending? || th.pc.Dequeuing?)
    ensures Todo(th.pc)[0] == th.pc.ref && RefOk(th.pc.ref, th.dest, h) && h.live[th.pc.ref.mid].env.body == th.pc.body
    ensures th.pc.Dequeuing? <==> (h.live[th.pc.ref.mid].ticket, h.epoch) in h.sends
    ensures th.pc.Dequeuing? ==> IsSent(h, h.live[th.pc.ref.mid].ticket)
  {
    assert RefOk(Todo(th.pc)[0], th.dest, h);
    if th.pc.Dequeuing? {
      var i :| 0 <= i < |h.sends| && h.sends[i] == (h.live[th.pc.ref.mid].ticket, h.epoch);
      assert h.sends[i].0 == h.live[th.pc.ref.mid].ticket;
    }
  }

  lemma AttemptFails(th: Thread, t: Tid, h: History, th': Thread)
    requires th.Runner? && th.pc.Sending? && ThreadOk(th, t, h)
    requires th' == th.(pc := if th.pc.attempt < MAX_RETRIES then th.pc.(attempt := th.pc.attempt + 1)
                        else Looping(th.pc.refs))
    ensures ThreadOk(th', t, h)
  {
    if th'.pc.Looping? {
      assert forall i :: 0 <= i < |Todo(th'.pc)| ==> Todo(th'.pc)[i] == Todo(th.pc)[i + 1];
    } else {
      assert Todo(th'.pc) == Todo(th.pc);
    }
  }

  lemma KeepTransmitted(s: Sys, h: History, t: Tid, s': Sys, h': History)
    requires Inv(s, h) && Transmits(s, h, t, s', h')
    ensures Inv(s', h')
  {
    hide MailInv, RowInv, ThreadInv, OwnerInv, FlagInv, DueInv, LogInv, AcceptInv;
    TransmittedThreads(s, h, t, s', h');
    TransmittedDuties(s, h, t, s', h');
    TransmittedLog(s, h, t, s', h');
    SameAccepted(h, h');
  }

  lemma TransmittedThreads(s: Sys, h: History, t: Tid, s': Sys, h': History)
    requires ThreadInv(s.threads, h) && Transmits(s, h, t, s', h') && MailInv(s.outbox, h.live, h.uidOf)
    ensures ThreadInv(s'.threads, h')
  {
    ThreadFact(s.threads, t, h);
    CurrentRef(s.threads[t], t, h);
    OthersUnharmed(s.threads, t, s.threads[t].pc.ref.mid, h, h');
    TransmitterOk(s, h, t, s', h');
    hide ThreadInv, ThreadOk, Unharmed;
    KeepThreads(s.threads, s'.threads, t, h, h');
  }

  lemma TransmitterOk(s: Sys, h: History, t: Tid, s': Sys, h': History)
    requires IsRunner(s, t) && ThreadOk(s.threads[t], t, h) && Transmits(s, h, t, s', h')
    requires MailInv(s.outbox, h.live, h.uidOf)
    ensures ThreadOk(s'.threads[t], t, h')
  {
    var todo := Todo(s.threads[t].pc);
    assert Todo(s'.threads[t].pc) == todo;
    forall i | 0 <= i < |todo|
      ensures RefOk(todo[i], s.threads[t].dest, h') && (0 < i ==> (h.live[todo[i].mid].ticket, h.epoch) !in h'.sends)
    {
      assert RefOk(todo[i], s.threads[t].dest, h);
      assert 0 < i ==> todo[0].mid != todo[i].mid;
    }
    assert h'.sends[|h.sends|] == (h.live[todo[0].mid].ticket, h.epoch);
  }

  lemma TransmittedDuties(s: Sys, h: History, t: Tid, s': Sys, h': History)
    requires OwnerInv(s.threads, h.live) && FlagInv(s.threads, s.running, h.runnerOf) && DueInv(s.threads, h)
    requires ThreadInv(s.threads, h) && MailInv(s.outbox, h.live, h.uidOf) && Transmits(s, h, t, s', h')
    ensures OwnerInv(s'.threads, h'.live) && FlagInv(s'.threads, s'.running, h'.runnerOf) && DueInv(s'.threads, h')
  {
    ThreadFact(s.threads, t, h);
    CurrentRef(s.threads[t], t, h);
    hide ThreadInv;
  }

  lemma TransmittedLog(s: Sys, h: History, t: Tid, s': Sys, h': History)
    requires ThreadInv(s.threads, h) && LogInv(s.wire, h.accepted, h.sends, h.epoch) && AcceptInv(h)
    requires Transmits(s, h, t, s', h')
    ensures LogInv(s'.wire, h'.accepted, h'.sends, h'.epoch)
  {
    ThreadFact(s.threads, t, h);
    CurrentRef(s.threads[t], t, h);
    assert EntryOk(h.live[s.threads[t].pc.ref.mid], h);
  }

  // ---- run: the row is deleted ------------------------------------------------------------------------------------

  ghost predicate Dequeues(s: Sys, h: History, t: Tid, s': Sys, h': History) {
    && IsRunner(s, t) && s.threads[t].pc.Dequeuing?
    && var th := s.threads[t]; var pc := th.pc;
       && RefOk(pc.ref, th.dest, h) && h.live[pc.ref.mid].env.body == pc.body && IsSent(h, h.live[pc.ref.mid].ticket)
       && s' == s.(threads := s.threads[t := th.(pc := Checking(pc.refs, pc.ref, pc.body))],
                   queue := Without(s.queue, th.dest, pc.ref.mid))
       && h' == h.(live := h.live[pc.ref.mid := h.live[pc.ref.mid].(phase := Cleaning(t))])
  }

  lemma KeepDequeue(s: Sys, h: History, e: Event)
    requires Inv(s, h) && Enabled(s, e) && e.Dequeue?
    ensures Inv(Apply(s, e), Record(h, s, e))
  {
    hide MailInv, RowInv, ThreadInv, OwnerInv, FlagInv, DueInv, LogInv, AcceptInv, ThreadOk;
    ThreadFact(s.threads, e.t, h);
    CurrentRef(s.threads[e.t], e.t, h);
    KeepDequeued(s, h, e.t, Apply(s, e), Record(h, s, e));
  }

  lemma KeepDequeued(s: Sys, h: History, t: Tid, s': Sys, h': History)
    requires Inv(s, h) && Dequeues(s, h, t, s', h')
    ensures Inv(s', h')
  {
    hide MailInv, RowInv, ThreadInv, OwnerInv, FlagInv, DueInv, LogInv, AcceptInv;
    PhasesMail(s.outbox, h.live, h'.live, h.uidOf);
    DequeuedRows(s, h, t, s', h');
    DequeuedThreads(s, h, t, s', h');
    DequeuedDuties(s, h, t, s', h');
    DequeuedAccepted(s, h, t, s', h');
  }

  lemma DequeuedRows(s: Sys, h: History, t: Tid, s': Sys, h': History)
    requires RowInv(s.queue, s.nextRow, h.live) && Dequeues(s, h, t, s', h')
    ensures RowInv(s'.queue, s'.nextRow, h'.live)
  {}

  lemma DequeuedThreads(s: Sys, h: History, t: Tid, s': Sys, h': History)
    requires ThreadInv(s.threads, h) && Dequeues(s, h, t, s', h')
    ensures ThreadInv(s'.threads, h')
  {
    ThreadFact(s.threads, t, h);
    CurrentRef(s.threads[t], t, h);
    OthersUnharmed(s.threads, t, s.threads[t].pc.ref.mid, h, h');
    DequeuerOk(s, h, t, s', h');
    hide ThreadInv, ThreadOk, Unharmed;
    KeepThreads(s.threads, s'.threads, t, h, h');
  }

  lemma DequeuerOk(s: Sys, h: History, t: Tid, s': Sys, h': History)
    requires IsRunner(s, t) && ThreadOk(s.threads[t], t, h) && Dequeues(s, h, t, s', h')
    ensures ThreadOk(s'.threads[t], t, h')
  {
    var todo, todo' := Todo(s.threads[t].pc), Todo(s'.threads[t].pc);
    assert todo == [s.threads[t].pc.ref] + todo';
    forall i | 0 <= i < |todo'|
      ensures RefOk(todo'[i], s.threads[t].dest, h') && (h'.live[todo'[i].mid].ticket, h.epoch) !in h.sends
    {
      assert todo'[i] == todo[i + 1];
      assert RefOk(todo[i + 1], s.threads[t].dest, h);
      assert todo[0].mid != todo[i + 1].mid;
    }
    forall i, j | 0 <= i < j < |todo'| ensures todo'[i].mid != todo'[j].mid {
      assert todo'[i] == todo[i + 1] && todo'[j] == todo[j + 1];
    }
  }

  lemma DequeuedDuties(s: Sys, h: History, t: Tid, s': Sys, h': History)
    requires OwnerInv(s.threads, h.live) && FlagInv(s.threads, s.running, h.runnerOf) && DueInv(s.threads, h)
    requires Dequeues(s, h, t, s', h')
    ensures OwnerInv(s'.threads, h'.live) && FlagInv(s'.threads, s'.running, h'.runnerOf) && DueInv(s'.threads, h')
  {}

  lemma DequeuedAccepted(s: Sys, h: History, t: Tid, s': Sys, h': History)
    requires MailInv(s.outbox, h.live, h.uidOf) && AcceptInv(h) && Dequeues(s, h, t, s', h')
    ensures AcceptInv(h')
  {
    assert forall k :: IsSent(h', k) <==> IsSent(h, k);
    var u := s.threads[t].pc.ref.mid;
    forall k | Waiting(h, k) && k != h.live[u].ticket ensures Waiting(h', k) {}
    forall v | v in h'.live ensures EntryOk(h'.live[v], h') {
      assert EntryOk(h.live[v], h);
    }
  }

  // ---- run: the message is deleted --------------------------------------------------------------------------------

  ghost predicate Purges(s: Sys, h: History, t: Tid, s': Sys, h': History) {
    && IsRunner(s, t) && s.threads[t].pc.Purging?
    && var th := s.threads[t]; var u := th.pc.ref.mid;
       && u in h.live && h.live[u].phase == Cleaning(t)
       && s' == s.(threads := s.threads[t := th.(pc := Looping(th.pc.refs))], outbox := s.outbox - {u})
       && h' == h.(live := h.live - {u})
  }

  lemma KeepPurge(s: Sys, h: History, e: Event)
    requires Inv(s, h) && Enabled(s, e) && e.Purge?
    ensures Inv(Apply(s, e), Record(h, s, e))
  {
    hide MailInv, RowInv, ThreadInv, OwnerInv, FlagInv, DueInv, LogInv, AcceptInv;
    ThreadFact(s.threads, e.t, h);
    KeepPurged(s, h, e.t, Apply(s, e), Record(h, s, e));
  }

  lemma KeepPurged(s: Sys, h: History, t: Tid, s': Sys, h': History)
    requires Inv(s, h) && Purges(s, h, t, s', h')
    ensures Inv(s', h')
  {
    hide MailInv, RowInv, ThreadInv, OwnerInv, FlagInv, DueInv, LogInv, AcceptInv;
    PurgedMail(s, h, t, s', h');
    PurgedRows(s, h, t, s', h');
    PurgedThreads(s, h, t, s', h');
    PurgedDuties(s, h, t, s', h');
    PurgedAccepted(s, h, t, s', h');
  }

  lemma PurgedRows(s: Sys, h: History, t: Tid, s': Sys, h': History)
    requires RowInv(s.queue, s.nextRow, h.live) && Purges(s, h, t, s', h')
    ensures RowInv(s'.queue, s'.nextRow, h'.live)
  {}

  lemma PurgedMail(s: Sys, h: History, t: Tid, s': Sys, h': History)
    requires MailInv(s.outbox, h.live, h.uidOf) && Purges(s, h, t, s', h')
    ensures MailInv(s'.outbox, h'.live, h'.uidOf)
  {}

  lemma PurgedThreads(s: Sys, h: History, t: Tid, s': Sys, h': History)
    requires ThreadInv(s.threads, h) && Purges(s, h, t, s', h')
    ensures ThreadInv(s'.threads, h')
  {
    ThreadFact(s.threads, t, h);
    OthersUnharmed(s.threads, t, s.threads[t].pc.ref.mid, h, h');
    PurgerOk(s, h, t, s', h');
    hide ThreadInv, ThreadOk, Unharmed;
    KeepThreads(s.threads, s'.threads, t, h, h');
  }

  lemma PurgerOk(s: Sys, h: History, t: Tid, s': Sys, h': History)
    requires Purges(s, h, t, s', h') && ThreadOk(s.threads[t], t, h)
    ensures ThreadOk(s'.threads[t], t, h')
  {
    var todo := Todo(s.threads[t].pc);
    assert Todo(s'.threads[t].pc) == todo;
    assert forall i :: 0 <= i < |todo| ==> RefOk(todo[i], s.threads[t].dest, h);
  }

  lemma PurgedDuties(s: Sys, h: History, t: Tid, s': Sys, h': History)
    requires OwnerInv(s.threads, h.live) && FlagInv(s.threads, s.running, h.runnerOf) && DueInv(s.threads, h)
    requires Purges(s, h, t, s', h')
    ensures OwnerInv(s'.threads, h'.live) && FlagInv(s'.threads, s'.running, h'.runnerOf) && DueInv(s'.threads, h')
  {}

  lemma PurgedAccepted(s: Sys, h: History, t: Tid, s': Sys, h': History)
    requires AcceptInv(h) && Purges(s, h, t, s', h')
    ensures AcceptInv(h')
  {
    assert forall k :: IsSent(h', k) <==> IsSent(h, k);
    forall k | Waiting(h, k) ensures Waiting(h', k) {}
    forall v | v in h'.live ensures EntryOk(h'.live[v], h') {
      assert EntryOk(h.live[v], h);
    }
  }

  // ---- run ends ---------------------------------------------------------------------------------------------------

  lemma KeepRelease(s: Sys, h: History, e: Event)
    requires Inv(s, h) && Enabled(s, e) && e.Release?
    ensures Inv(Apply(s, e), Record(h, s, e))
  {
    hide MailInv, RowInv, ThreadInv, OwnerInv, FlagInv, DueInv, LogInv, AcceptInv;
    ThreadFact(s.threads, e.t, h);
    var h' := Record(h, s, e);
    ReleasedThreads(s.threads, e.t, h, h');
    ReleasedDuties(s.threads, e.t, h, h', s.running);
    SameAccepted(h, h');
  }

  lemma ReleasedThreads(ts: Threads, t: Tid, h: History, h': History)
    requires ThreadInv(ts, h) && t in ts && ts[t].Runner?
    requires h' == h.(runnerOf := h.runnerOf - {ts[t].dest})
    ensures ThreadInv(ts - {t}, h')
  {
    ThreadFact(ts, t, h);
    forall x | x != t && x in ts ensures Unharmed(ts[x], h, h') {
      ThreadFact(ts, x, h);
    }
    hide ThreadInv, Unharmed;
    KeepThreads(ts, ts - {t}, t, h, h');
  }

  lemma ReleasedDuties(ts: Threads, t: Tid, h: History, h': History, running: set<string>)
    requires OwnerInv(ts, h.live) && FlagInv(ts, running, h.runnerOf) && DueInv(ts, h)
    requires t in ts && ts[t].Runner? && ts[t].pc.Releasing? && ThreadOk(ts[t], t, h)
    requires h' == h.(runnerOf := h.runnerOf - {ts[t].dest})
    ensures OwnerInv(ts - {t}, h'.live) && FlagInv(ts - {t}, running - {ts[t].dest}, h'.runnerOf) &&
            DueInv(ts - {t}, h')
  {}

  // ---- the environment --------------------------------------------------------------------------------------------

  ghost predicate Clears(s: Sys, h: History, u: nat, s': Sys, h': History) {
    && s' == s.(queue := Without(s.queue, OUTBOX_KEY, u))
    && h' == if u in h.live && h.live[u].phase.Queued? && h.live[u].env.dest == OUTBOX_KEY
             then h.(live := h.live[u := h.live[u].(phase := Orphaned)]) else h
  }

  lemma KeepForeignClear(s: Sys, h: History, e: Event)
    requires Inv(s, h) && Enabled(s, e) && e.ForeignClear?
    ensures Inv(Apply(s, e), Record(h, s, e))
  {
    hide MailInv, RowInv, ThreadInv, OwnerInv, FlagInv, DueInv, LogInv, AcceptInv;
    var s', h' := Apply(s, e), Record(h, s, e);
    PhasesMail(s.outbox, h.live, h'.live, h.uidOf);
    ClearedRows(s, h, e.mid, s', h');
    ClearedThreads(s, h, e.mid, s', h');
    ClearedAccepted(s, h, e.mid, s', h');
  }

  lemma ClearedRows(s: Sys, h: History, u: nat, s': Sys, h': History)
    requires RowInv(s.queue, s.nextRow, h.live) && Clears(s, h, u, s', h')
    ensures RowInv(s'.queue, s'.nextRow, h'.live)
  {
    ClearedLive(s, h, u, s', h');
    hide Clears;
    forall r | r in s'.queue ensures r in s.queue && s'.queue[r] == s.queue[r] &&
        h'.live[s.queue[r].mid] == h.live[s.queue[r].mid] {}
  }

  lemma ClearedLive(s: Sys, h: History, u: nat, s': Sys, h': History)
    requires RowInv(s.queue, s.nextRow, h.live) && Clears(s, h, u, s', h')
    ensures s'.nextRow == s.nextRow && h'.live.Keys == h.live.Keys
    ensures forall r :: r in s'.queue ==>
              r in s.queue && s'.queue[r] == s.queue[r] && s.queue[r].mid in h.live &&
                  h'.live[s.queue[r].mid] == h.live[s.queue[r].mid]
    ensures forall v :: v in h'.live && h'.live[v].phase.Queued? ==>
              h'.live[v] == h.live[v] && h.live[v].phase.row in s'.queue
  {
    assert u in h.live && h.live[u].phase.Queued? ==> h.live[u].phase == Queued(h.live[u].phase.row);
    forall v | v in h'.live && h'.live[v].phase.Queued?
      ensures h'.live[v] == h.live[v] && h.live[v].phase.row in s'.queue {
      assert h.live[v].phase == Queued(h.live[v].phase.row);
    }
  }

  lemma ClearedThreads(s: Sys, h: History, u: nat, s': Sys, h': History)
    requires ThreadInv(s.threads, h) && OwnerInv(s.threads, h.live) && DueInv(s.threads, h) && Clears(s, h, u, s', h')
    ensures ThreadInv(s'.threads, h') && OwnerInv(s'.threads, h'.live) && DueInv(s'.threads, h')
  {
    forall x | x in s.threads ensures ThreadOk(s.threads[x], x, h') {
      ThreadFact(s.threads, x, h);
      UnharmedOk(s.threads[x], x, h, h');
    }
  }

  lemma ClearedAccepted(s: Sys, h: History, u: nat, s': Sys, h': History)
    requires AcceptInv(h) && MailInv(s.outbox, h.live, h.uidOf) && Clears(s, h, u, s', h')
    ensures AcceptInv(h')
  {
    assert forall k :: IsSent(h', k) <==> IsSent(h, k);
    forall v | v in h'.live ensures EntryOk(h'.live[v], h') {
      assert EntryOk(h.live[v], h);
    }
    forall k | k in h.accepted && h.accepted[k].dest != OUTBOX_KEY && Waiting(h, k) ensures Waiting(h', k) {
      assert EntryOk(h.live[h.uidOf[k]], h);
    }
  }

  ghost predicate Crashes(h: History, h': History) {
    h' == h.(live := map u | u in h.live :: h.live[u].(phase := Abandon(h.live[u].phase)),
             epoch := h.epoch + 1, runnerOf := map[])
  }

  lemma KeepCrash(s: Sys, h: History, e: Event)
    requires Inv(s, h) && Enabled(s, e) && e.Crash?
    ensures Inv(Apply(s, e), Record(h, s, e))
  {
    hide MailInv, RowInv, ThreadInv, OwnerInv, FlagInv, DueInv, LogInv, AcceptInv;
    var h' := Record(h, s, e);
    PhasesMail(s.outbox, h.live, h'.live, h.uidOf);
    CrashedRows(s.queue, s.nextRow, h, h');
    CrashedThreads(s.wire, h, h');
    CrashedAccepted(h, h');
  }

  lemma CrashedRows(queue: map<nat, Row>, nextRow: nat, h: History, h': History)
    requires RowInv(queue, nextRow, h.live) && Crashes(h, h')
    ensures RowInv(queue, nextRow, h'.live)
  {}

  lemma CrashedThreads(wire: seq<Delivery>, h: History, h': History)
    requires LogInv(wire, h.accepted, h.sends, h.epoch) && Crashes(h, h')
    ensures LogInv(wire, h'.accepted, h'.sends, h'.epoch)
    ensures ThreadInv(map[], h') && OwnerInv(map[], h'.live) && FlagInv(map[], {}, h'.runnerOf) && DueInv(map[], h')
  {}

  lemma CrashedAccepted(h: History, h': History)
    requires AcceptInv(h) && Crashes(h, h')
    ensures AcceptInv(h')
  {
    assert forall k :: IsSent(h', k) <==> IsSent(h, k);
    forall k | Waiting(h, k) ensures Waiting(h', k) {}
    forall v | v in h'.live ensures EntryOk(h'.live[v], h') {
      assert EntryOk(h.live[v], h);
    }
  }

  // ---- all events -------------------------------------------------------------------------------------------------

  /** Every event keeps the invariant. */
  lemma Keep(s: Sys, h: History, e: Event)
    requires Inv(s, h) && Enabled(s, e)
    ensures Inv(Apply(s, e), Record(h, s, e))
  {
    hide Inv, Enabled, Apply, Record;
    match e {
      case Submit(_, _, _) => KeepSubmit(s, h, e);
      case SkipRcpt(_) => KeepSubmissionStep(s, h, e);
      case Route(_, _, _) => KeepSubmissionStep(s, h, e);
      case ReadUid(_) => KeepSubmissionStep(s, h, e);
      case Insert(_) => KeepInsert(s, h, e);
      case Bump(_) => KeepSubmissionStep(s, h, e);
      case Enqueue(_) => KeepEnqueue(s, h, e);
      case Kick(_, _) => KeepKick(s, h, e);
      case Return(_) => KeepSubmissionStep(s, h, e);
      case Tick(_, _) => KeepManagerStep(s, h, e);
      case Restart(_, _) => KeepRestart(s, h, e);
      case Rearm(_) => KeepManagerStep(s, h, e);
      case Snapshot(_, _) => KeepSnapshot(s, h, e);
      case Select(_) => KeepSelect(s, h, e);
      case Attempt(_, _) => KeepAttempt(s, h, e);
      case Dequeue(_) => KeepDequeue(s, h, e);
      case Check(_) => KeepCheck(s, h, e);
      case Archive(_) => KeepForward(s, h, e);
      case Purge(_) => KeepPurge(s, h, e);
      case EndLoop(_) => KeepForward(s, h, e);
      case Expunge(_) => KeepExpunge(s, h, e);
      case Release(_) => KeepRelease(s, h, e);
      case ForeignClear(_) => KeepForeignClear(s, h, e);
      case Crash => KeepCrash(s, h, e);
    }
  }

  /** The invariant holds after every run. */
  lemma {:induction false} Always(resolve: Resolver, es: seq<Event>)
    requires Run(resolve, es)
    ensures Inv(After(resolve, es), HistoryOf(resolve, es))
  {
    if es != [] {
      var p := es[..|es| - 1];
      Always(resolve, p);
      Keep(After(resolve, p), HistoryOf(resolve, p), es[|es| - 1]);
    }
  }
}
