/** No row is stranded: a goroutine serves every row of its destination, with at most ten attempts for each. */
module QueueService {
  import opened Routing
  import opened QueueProtocol
  import opened QueueHistory
  import opened QueueInvariant
  import opened QueueTheorems

  // ---- attempts ---------------------------------------------------------------------------------------------------

  /** Thread t is between selecting a message and going back to its loop. */
  predicate Engaged(s: Sys, t: Tid) {
    IsRunner(s, t) && !s.threads[t].pc.Snapshotting? && !s.threads[t].pc.Looping?
    && !s.threads[t].pc.Expunging? && !s.threads[t].pc.Releasing?
  }

  /** Thread t is engaged before each of the events of `more`. */
  ghost predicate Busy(resolve: Resolver, es: seq<Event>, t: Tid, more: seq<Event>) {
    more == []
    || var p := more[..|more| - 1];
       Busy(resolve, es, t, p) && Run(resolve, es + p) && Engaged(After(resolve, es + p), t)
  }

  predicate IsAttempt(e: Event, t: Tid) { e.Attempt? && e.t == t }

  function Attempts(t: Tid, es: seq<Event>): nat {
    if es == [] then 0 else Attempts(t, es[..|es| - 1]) + if IsAttempt(es[|es| - 1], t) then 1 else 0
  }

  function Successes(t: Tid, es: seq<Event>): nat {
    if es == [] then 0
    else Successes(t, es[..|es| - 1]) + if IsAttempt(es[|es| - 1], t) && es[|es| - 1].ok then 1 else 0
  }

  /** What a goroutine's position says about the attempts it has made for the message it selected. */
  predicate Counted(pc: RunPc, attempts: nat, successes: nat) {
    match pc
    case Sending(_, _, _, a) => a <= MAX_RETRIES && attempts == a - 1 && successes == 0
    case Looping(_) => attempts <= MAX_RETRIES && (successes == 1 || (successes == 0 && attempts == MAX_RETRIES))
    case _ => attempts <= MAX_RETRIES && successes == 1
  }

  lemma CountStep(s: Sys, t: Tid, e: Event, attempts: nat, successes: nat)
    requires Enabled(s, e) && !e.Crash? && Engaged(s, t) && Counted(s.threads[t].pc, attempts, successes)
    ensures var own := IsAttempt(e, t);
            && IsRunner(Apply(s, e), t)
            && Counted(Apply(s, e).threads[t].pc, attempts + (if own then 1 else 0),
                       successes + if own && e.ok then 1 else 0)
  {
    if t !in By(e) { OthersStep(s, t, e); }
  }

  /** Nobody else moves a thread. */
  lemma OthersStep(s: Sys, t: Tid, e: Event)
    requires Enabled(s, e) && !e.Crash? && IsRunner(s, t) && t !in By(e)
    ensures IsRunner(Apply(s, e), t) && Apply(s, e).threads[t] == s.threads[t]
  {}

  lemma {:induction false} CountedAlong(resolve: Resolver, es: seq<Event>, t: Tid, more: seq<Event>)
    requires Run(resolve, es) && Run(resolve, es + more) && Busy(resolve, es, t, more)
    requires IsRunner(After(resolve, es), t) && Counted(After(resolve, es).threads[t].pc, 0, 0)
    ensures Attempts(t, more) <= MAX_RETRIES && Successes(t, more) <= 1
    ensures IsRunner(After(resolve, es + more), t) ==>
              (more != [] && more[|more| - 1].Crash?)
              || Counted(After(resolve, es + more).threads[t].pc, Attempts(t, more), Successes(t, more))
  {
    if more == [] {
      assert es + more == es;
    } else {
      var p, e := more[..|more| - 1], more[|more| - 1];
      assert es + more == (es + p) + [e];
      Snoc(resolve, es + p, e);
      CountedAlong(resolve, es, t, p);
      var s := After(resolve, es + p);
      assert p != [] ==> !p[|p| - 1].Crash? by { if p != [] { NotCrashed(resolve, es, t, p); } }
      if !e.Crash? { CountStep(s, t, e, Attempts(t, p), Successes(t, p)); }
    }
  }

  /** A crash ends all threads. */
  lemma NotCrashed(resolve: Resolver, es: seq<Event>, t: Tid, p: seq<Event>)
    requires p != [] && Run(resolve, es + p) && IsRunner(After(resolve, es + p), t)
    ensures !p[|p| - 1].Crash?
  {
    hide Enabled, Apply, Run, After;
    LastOfMore(es, p);
    Snoc(resolve, es + p[..|p| - 1], p[|p| - 1]);
    if p[|p| - 1].Crash? { NobodyAfterCrash(After(resolve, es + p[..|p| - 1]), t); }
  }

  lemma LastOfMore(es: seq<Event>, p: seq<Event>)
    requires p != []
    ensures es + p == es + p[..|p| - 1] + [p[|p| - 1]]
  {}

  lemma NobodyAfterCrash(s: Sys, t: Tid)
    ensures !IsRunner(Apply(s, Crash), t)
  {}

  /** From selecting a message until it is back at its loop, whatever else happens, a goroutine makes at most ten
      attempts and at most one of them succeeds.  When it is back, either one has succeeded or it has made all ten. */
  lemma AtMostTenAttempts(resolve: Resolver, es: seq<Event>, t: Tid, more: seq<Event>)
    requires Run(resolve, es + [Select(t)]) && Run(resolve, es + [Select(t)] + more)
    requires Busy(resolve, es + [Select(t)], t, more)
    ensures Attempts(t, more) <= 10 && Successes(t, more) <= 1
    ensures var s := After(resolve, es + [Select(t)] + more);
            more != [] && !more[|more| - 1].Crash? ==>
              IsRunner(s, t)
              && (s.threads[t].pc.Looping? ==> Successes(t, more) == 1 || Attempts(t, more) == 10)
  {
    hide Enabled, Apply, Engaged, Busy, Run, After;
    var start := es + [Select(t)];
    Snoc(resolve, es, Select(t));
    if more != [] {
      BusyFromStart(resolve, start, t, more);
      SelectCounts(After(resolve, es), t);
      CountedAlong(resolve, start, t, more);
      StillThere(resolve, start, t, more);
    }
  }

  /** A goroutine that has found its message has made no attempt for it. */
  lemma SelectCounts(s: Sys, t: Tid)
    requires Enabled(s, Select(t)) && Engaged(Apply(s, Select(t)), t)
    ensures IsRunner(Apply(s, Select(t)), t) && Counted(Apply(s, Select(t)).threads[t].pc, 0, 0)
  {}

  lemma {:induction false} BusyFromStart(resolve: Resolver, es: seq<Event>, t: Tid, more: seq<Event>)
    requires more != [] && Run(resolve, es) && Busy(resolve, es, t, more)
    ensures Engaged(After(resolve, es), t)
  {
    var p := more[..|more| - 1];
    if p == [] { assert es + p == es; } else { BusyFromStart(resolve, es, t, p); }
  }

  lemma StillThere(resolve: Resolver, es: seq<Event>, t: Tid, more: seq<Event>)
    requires more != [] && Run(resolve, es + more) && Busy(resolve, es, t, more)
    ensures !more[|more| - 1].Crash? ==> IsRunner(After(resolve, es + more), t)
  {
    var p, e := more[..|more| - 1], more[|more| - 1];
    assert es + more == (es + p) + [e];
    Snoc(resolve, es + p, e);
    if !e.Crash? { StaysRunner(After(resolve, es + p), t, e); }
  }

  lemma StaysRunner(s: Sys, t: Tid, e: Event)
    requires Enabled(s, e) && !e.Crash? && Engaged(s, t)
    ensures IsRunner(Apply(s, e), t)
  {
    if t !in By(e) { OthersStep(s, t, e); }
  }

  // ---- rows -------------------------------------------------------------------------------------------------------

  /** A row in the table keeps its content, and its message stays as it is, as long as the row is there. */
  lemma RowStays(s: Sys, h: History, e: Event, r: nat)
    requires Inv(s, h) && Enabled(s, e) && r in s.queue && r in Apply(s, e).queue
    ensures Apply(s, e).queue[r] == s.queue[r]
    ensures s.queue[r].mid in s.outbox && s.queue[r].mid in Apply(s, e).outbox
    ensures Apply(s, e).outbox[s.queue[r].mid] == s.outbox[s.queue[r].mid]
  {
    Keep(s, h, e);
    RowHasMail(s, h, r);
    QueueSteps(s, e, r);
    RowHasMail(Apply(s, e), Record(h, s, e), r);
    hide Inv, Record;
    OutboxOnly(s, e, s.queue[r].mid);
  }

  lemma RowHasMail(s: Sys, h: History, r: nat)
    requires Inv(s, h) && r in s.queue
    ensures s.queue[r].mid in s.outbox && r < s.nextRow
  {
    hide ThreadInv, OwnerInv, FlagInv, DueInv, LogInv, AcceptInv;
  }

  predicate OfSubmission(e: Event) {
    e.SkipRcpt? || e.Route? || e.ReadUid? || e.Insert? || e.Bump? || e.Enqueue? || e.Kick? || e.Return?
  }

  predicate OfRun(e: Event) {
    e.Snapshot? || e.Select? || e.Attempt? || e.Dequeue? || e.Check? || e.Archive? || e.Purge?
    || e.EndLoop? || e.Expunge? || e.Release?
  }

  /** Rows do not change, and a row that is gone does not come back. */
  lemma QueueSteps(s: Sys, e: Event, r: nat)
    requires Enabled(s, e) && r < s.nextRow
    ensures r < Apply(s, e).nextRow
    ensures r in Apply(s, e).queue ==> r in s.queue && Apply(s, e).queue[r] == s.queue[r]
  {
    if OfSubmission(e) { QueueSubmissionSteps(s, e, r); }
    if OfRun(e) { QueueRunSteps(s, e, r); }
    hide Enabled, ApplySubmission, ApplyRun;
  }

  lemma QueueSubmissionSteps(s: Sys, e: Event, r: nat)
    requires OfSubmission(e) && Enabled(s, e) && r < s.nextRow
    ensures var s' := ApplySubmission(s, e);
            r < s'.nextRow && (r in s'.queue ==> r in s.queue && s'.queue[r] == s.queue[r])
  {}

  lemma QueueRunSteps(s: Sys, e: Event, r: nat)
    requires OfRun(e) && Enabled(s, e) && r < s.nextRow
    ensures var s' := ApplyRun(s, e);
            r < s'.nextRow && (r in s'.queue ==> r in s.queue && s'.queue[r] == s.queue[r])
  {}

  lemma OutboxOnly(s: Sys, e: Event, u: nat)
    requires Enabled(s, e) && u in s.outbox && u in Apply(s, e).outbox
    ensures Apply(s, e).outbox[u] == s.outbox[u]
  {}

  /** What has been transmitted stays on record. */
  lemma WireGrows(s: Sys, e: Event, d: Delivery)
    requires Enabled(s, e) && d in s.wire
    ensures d in Apply(s, e).wire
  {}

  // ---- one row and the goroutine that has it in its snapshot ------------------------------------------------------

  predicate NoneFor(refs: seq<Ref>, mid: nat) { forall i :: 0 <= i < |refs| ==> refs[i].mid != mid }

  /** The reference is still to come and has not been tried, or has been tried in vain ten times and does not come
      again. */
  predicate Ahead(refs: seq<Ref>, ref: Ref, failed: nat) {
    (ref in refs && failed == 0) || (NoneFor(refs, ref.mid) && failed == MAX_RETRIES)
  }

  /** Where goroutine n stands with a row that is still in the table, after `failed` attempts for it. */
  predicate Serves(pc: RunPc, ref: Ref, failed: nat) {
    match pc
    case Snapshotting => failed == 0
    case Looping(refs) => Ahead(refs, ref, failed)
    case Sending(refs, current, _, a) =>
      if current.mid == ref.mid then failed == a - 1 && a <= MAX_RETRIES && NoneFor(refs, ref.mid)
      else Ahead(refs, ref, failed)
    case Dequeuing(refs, current, _) => current.mid == ref.mid || Ahead(refs, ref, failed)
    case Checking(refs, _, _) => Ahead(refs, ref, failed)
    case Archiving(refs, _, _) => Ahead(refs, ref, failed)
    case Purging(refs, _) => Ahead(refs, ref, failed)
    case Expunging => failed == MAX_RETRIES
    case Releasing => failed == MAX_RETRIES
  }

  /** The event is a failed attempt of n for message `mid`. */
  predicate Fails(s: Sys, e: Event, n: Tid, mid: nat) {
    IsAttempt(e, n) && !e.ok && IsRunner(s, n) && s.threads[n].pc.Sending? && s.threads[n].pc.ref.mid == mid
  }

  /** The failed attempts of n for message `mid` in `more`. */
  ghost function Failures(resolve: Resolver, es: seq<Event>, n: Tid, mid: nat, more: seq<Event>): nat {
    if more == [] then 0
    else
      var p, e := more[..|more| - 1], more[|more| - 1];
      Failures(resolve, es, n, mid, p)
      + if Run(resolve, es + p) && Fails(After(resolve, es + p), e, n, mid) then 1 else 0
  }

  lemma SnapshotHasRow(s: Sys, n: Tid, rows: seq<nat>, r: nat)
    requires Enabled(s, Snapshot(n, rows)) && r in s.queue && s.queue[r].dest == s.threads[n].dest
    ensures var pc := Apply(s, Snapshot(n, rows)).threads[n].pc; pc.Looping? && RefOf(s.queue[r]) in pc.refs
  {
    assert r in rows;
    var i :| 0 <= i < |rows| && rows[i] == r;
    assert Apply(s, Snapshot(n, rows)).threads[n].pc.refs[i] == RefOf(s.queue[r]);
  }

  /** The references of a goroutine name different messages. */
  lemma DifferentMail(s: Sys, h: History, n: Tid)
    requires Inv(s, h) && IsRunner(s, n)
    ensures var todo := Todo(s.threads[n].pc); forall i, j :: 0 <= i < j < |todo| ==> todo[i].mid != todo[j].mid
  {
    ThreadFact(s.threads, n, h);
    hide MailInv, RowInv, ThreadInv, OwnerInv, FlagInv, DueInv, LogInv, AcceptInv;
  }

  lemma SelectServes(s: Sys, h: History, n: Tid, ref: Ref, failed: nat)
    requires Inv(s, h) && Enabled(s, Select(n)) && Serves(s.threads[n].pc, ref, failed)
    ensures Serves(Apply(s, Select(n)).threads[n].pc, ref, failed)
  {
    DifferentMail(s, h, n);
    SelectFinds(s, h, n);
    hide Inv;
    var refs := s.threads[n].pc.refs;
    assert Todo(s.threads[n].pc) == refs;
    if refs[0].mid == ref.mid {
      assert ref in refs ==> refs[0] == ref;
      assert NoneFor(refs[1..], ref.mid);
    } else {
      assert ref in refs ==> ref in refs[1..];
    }
  }

  lemma AttemptServes(s: Sys, h: History, n: Tid, ok: bool, ref: Ref, failed: nat)
    requires Inv(s, h) && Enabled(s, Attempt(n, ok)) && Serves(s.threads[n].pc, ref, failed)
    ensures Serves(Apply(s, Attempt(n, ok)).threads[n].pc, ref, failed + if Fails(s, Attempt(n, ok), n, ref.mid) then 1
                   else 0)
  {
    ThreadFact(s.threads, n, h);
    hide MailInv, RowInv, ThreadInv, OwnerInv, FlagInv, DueInv, LogInv, AcceptInv;
  }

  /** Every statement of the goroutine itself, except the delete of the row, leaves it serving the row. */
  lemma OwnServes(s: Sys, h: History, n: Tid, e: Event, r: nat, failed: nat)
    requires Inv(s, h) && Enabled(s, e) && n in By(e) && e != Release(n) && IsRunner(s, n)
    requires r in s.queue && r in Apply(s, e).queue && s.queue[r].dest == s.threads[n].dest
    requires Serves(s.threads[n].pc, RefOf(s.queue[r]), failed)
    ensures IsRunner(Apply(s, e), n) && Apply(s, e).threads[n].dest == s.threads[n].dest
    ensures Serves(Apply(s, e).threads[n].pc, RefOf(s.queue[r]), failed + if Fails(s, e, n, s.queue[r].mid) then 1
                   else 0)
  {
    hide Inv, Enabled, Apply, Serves, Fails;
    OwnDest(s, n, e);
    if e.Snapshot? {
      SnapshotServes(s, n, e.rows, r, failed);
    } else if e.Select? {
      SelectServes(s, h, n, RefOf(s.queue[r]), failed);
      NoFailure(s, e, n, s.queue[r].mid);
    } else if e.Attempt? {
      AttemptServes(s, h, n, e.ok, RefOf(s.queue[r]), failed);
    } else {
      OtherServes(s, n, e, r, failed);
      NoFailure(s, e, n, s.queue[r].mid);
    }
  }

  lemma NoFailure(s: Sys, e: Event, n: Tid, mid: nat)
    requires !e.Attempt?
    ensures !Fails(s, e, n, mid)
  {}

  lemma OwnDest(s: Sys, n: Tid, e: Event)
    requires Enabled(s, e) && n in By(e) && e != Release(n) && IsRunner(s, n)
    ensures e.t == n && IsRunner(Apply(s, e), n) && Apply(s, e).threads[n].dest == s.threads[n].dest
  {}

  lemma SnapshotServes(s: Sys, n: Tid, rows: seq<nat>, r: nat, failed: nat)
    requires Enabled(s, Snapshot(n, rows)) && r in s.queue && s.queue[r].dest == s.threads[n].dest
    requires Serves(s.threads[n].pc, RefOf(s.queue[r]), failed)
    ensures Serves(Apply(s, Snapshot(n, rows)).threads[n].pc, RefOf(s.queue[r]), failed)
    ensures !Fails(s, Snapshot(n, rows), n, s.queue[r].mid)
  {
    SnapshotHasRow(s, n, rows, r);
    hide Apply;
  }

  lemma OtherServes(s: Sys, n: Tid, e: Event, r: nat, failed: nat)
    requires Enabled(s, e) && n in By(e) && e != Release(n) && IsRunner(s, n)
    requires !e.Snapshot? && !e.Select? && !e.Attempt?
    requires r in s.queue && r in Apply(s, e).queue && s.queue[r].dest == s.threads[n].dest
    requires Serves(s.threads[n].pc, RefOf(s.queue[r]), failed)
    ensures IsRunner(Apply(s, e), n) && Apply(s, e).threads[n].dest == s.threads[n].dest
    ensures Serves(Apply(s, e).threads[n].pc, RefOf(s.queue[r]), failed)
  {}

  /** Row r is still there, with its message, and goroutine n is serving it; or it is gone and was transmitted. */
  ghost predicate InHand(s: Sys, n: Tid, r: nat, row: Row, body: Bytes, failed: nat) {
    && r < s.nextRow && IsRunner(s, n) && s.threads[n].dest == row.dest
    && if r in s.queue then StillQueued(s, r, row, body) && Serves(s.threads[n].pc, RefOf(row), failed)
       else DeliveryOf(row, body) in s.wire
  }

  ghost predicate StillQueued(s: Sys, r: nat, row: Row, body: Bytes) {
    r in s.queue && s.queue[r] == row && row.mid in s.outbox && s.outbox[row.mid].body == body
  }

  function DeliveryOf(row: Row, body: Bytes): Delivery { Delivery(row.dest, row.from, row.rcpt, body) }

  /** Nothing ends the goroutine or takes its row from outside. */
  predicate Calm(e: Event, n: Tid, dest: string) {
    !e.Crash? && e != Release(n) && (dest == OUTBOX_KEY ==> !e.ForeignClear?)
  }

  lemma ServiceStep(s: Sys, h: History, e: Event, n: Tid, r: nat, row: Row, body: Bytes, failed: nat)
    requires Inv(s, h) && Enabled(s, e) && Calm(e, n, row.dest) && InHand(s, n, r, row, body, failed)
    ensures InHand(Apply(s, e), n, r, row, body, failed + if Fails(s, e, n, row.mid) then 1 else 0)
  {
    QueueSteps(s, e, r);
    RunnerStays(s, e, n);
    hide Inv, Apply, Enabled, Serves, Fails;
    if r !in s.queue {
      WireGrows(s, e, DeliveryOf(row, body));
    } else if r !in Apply(s, e).queue {
      RowRemoved(s, h, e, r, row, body);
    } else {
      RowStays(s, h, e, r);
      if n in By(e) {
        OwnServes(s, h, n, e, r, failed);
      } else {
        OthersStep(s, n, e);
        NotMyFailure(s, e, n, row.mid);
      }
    }
  }

  lemma NotMyFailure(s: Sys, e: Event, n: Tid, mid: nat)
    requires n !in By(e)
    ensures !Fails(s, e, n, mid)
  {}

  lemma RunnerStays(s: Sys, e: Event, n: Tid)
    requires Enabled(s, e) && !e.Crash? && e != Release(n) && IsRunner(s, n)
    ensures IsRunner(Apply(s, e), n) && Apply(s, e).threads[n].dest == s.threads[n].dest
  {
    if n in By(e) { OwnDest(s, n, e); } else { OthersStep(s, n, e); }
  }

  lemma RowRemoved(s: Sys, h: History, e: Event, r: nat, row: Row, body: Bytes)
    requires Inv(s, h) && Enabled(s, e) && StillQueued(s, r, row, body) && r !in Apply(s, e).queue
    requires row.dest == OUTBOX_KEY ==> !e.ForeignClear?
    ensures DeliveryOf(row, body) in Apply(s, e).wire
  {
    hide Inv, Apply, Enabled;
    OnlyDequeueRemoves(s, e, r);
    DequeuedRowWasSent(s, h, e.t, r);
    WireGrows(s, e, DeliveryOf(row, body));
  }

  lemma {:induction false} ServedAlong(resolve: Resolver, es: seq<Event>, n: Tid, r: nat, row: Row, body: Bytes,
                                       more: seq<Event>)
    requires Run(resolve, es) && Run(resolve, es + more) && InHand(After(resolve, es), n, r, row, body, 0)
    requires forall i :: 0 <= i < |more| ==> Calm(more[i], n, row.dest)
    ensures InHand(After(resolve, es + more), n, r, row, body, Failures(resolve, es, n, row.mid, more))
  {
    hide InHand, Calm, Fails, Enabled, Apply;
    if more == [] {
      assert es + more == es;
    } else {
      var p, e := more[..|more| - 1], more[|more| - 1];
      assert es + more == (es + p) + [e];
      Snoc(resolve, es + p, e);
      assert forall i :: 0 <= i < |p| ==> p[i] == more[i];
      ServedAlong(resolve, es, n, r, row, body, p);
      Always(resolve, es + p);
      hide Inv;
      ServiceStep(After(resolve, es + p), HistoryOf(resolve, es + p), e, n, r, row, body,
                  Failures(resolve, es, n, row.mid, p));
    }
  }

  /** Row r was served: it is gone and its message was transmitted, or it is left after ten failed attempts. */
  ghost predicate Settled(s: Sys, r: nat, row: Row, body: Bytes, failures: nat) {
    if r in s.queue then StillQueued(s, r, row, body) && failures == 10 else DeliveryOf(row, body) in s.wire
  }

  /** No row is stranded: whatever interleaves, when a goroutine ends, every row its destination had when it took its
      snapshot has been transmitted and is gone, or has been tried ten times in vain and is left. */
  lemma NoStrandedRow(resolve: Resolver, es: seq<Event>, n: Tid, r: nat, more: seq<Event>)
    requires Run(resolve, es) && IsRunner(After(resolve, es), n) && After(resolve, es).threads[n].pc.Snapshotting?
    requires r in After(resolve, es).queue && After(resolve, es).queue[r].dest == After(resolve, es).threads[n].dest
    requires forall i :: 0 <= i < |more| ==> Calm(more[i], n, After(resolve, es).threads[n].dest)
    requires Run(resolve, es + more + [Release(n)])
    ensures var row := After(resolve, es).queue[r];
            && row.mid in After(resolve, es).outbox
            && Settled(After(resolve, es + more + [Release(n)]), r, row, After(resolve, es).outbox[row.mid].body,
                       Failures(resolve, es, n, row.mid, more))
  {
    hide Inv, Enabled, Apply, InHand, Settled, Run, After, HistoryOf, Calm;
    var s := After(resolve, es);
    var row := s.queue[r];
    Always(resolve, es);
    StartsInHand(s, HistoryOf(resolve, es), n, r);
    Snoc(resolve, es + more, Release(n));
    ServedAlong(resolve, es, n, r, row, s.outbox[row.mid].body, more);
    AtRelease(After(resolve, es + more), n, r, row, s.outbox[row.mid].body, Failures(resolve, es, n, row.mid, more));
  }

  lemma StartsInHand(s: Sys, h: History, n: Tid, r: nat)
    requires Inv(s, h) && IsRunner(s, n) && s.threads[n].pc.Snapshotting?
    requires r in s.queue && s.queue[r].dest == s.threads[n].dest
    ensures s.queue[r].mid in s.outbox && InHand(s, n, r, s.queue[r], s.outbox[s.queue[r].mid].body, 0)
  {
    RowHasMail(s, h, r);
    hide Inv;
  }

  lemma AtRelease(s: Sys, n: Tid, r: nat, row: Row, body: Bytes, failures: nat)
    requires Enabled(s, Release(n)) && InHand(s, n, r, row, body, failures)
    ensures Settled(Apply(s, Release(n)), r, row, body, failures)
  {}

  // ---- the manager's tick -----------------------------------------------------------------------------------------

  /** In particular, a tick that finds no goroutine for a row's destination starts one that settles the row. */
  lemma TickServesRow(resolve: Resolver, es: seq<Event>, t: Tid, n: Tid, r: nat, more: seq<Event>)
    requires Run(resolve, es + [Restart(t, n)] + more + [Release(n)]) && Run(resolve, es + [Restart(t, n)])
    requires r in After(resolve, es).queue && After(resolve, es).queue[r].dest == After(resolve, es).threads[t].todo[0]
    requires After(resolve, es).threads[t].todo[0] !in After(resolve, es).running
    requires forall i :: 0 <= i < |more| ==> Calm(more[i], n, After(resolve, es).threads[t].todo[0])
    ensures var row := After(resolve, es).queue[r];
            && row.mid in After(resolve, es).outbox
            && Settled(After(resolve, es + [Restart(t, n)] + more + [Release(n)]), r, row,
                       After(resolve, es).outbox[row.mid].body,
                       Failures(resolve, es + [Restart(t, n)], n, row.mid, more))
  {
    hide Enabled, Apply, Settled, Run, After, Calm;
    Snoc(resolve, es, Restart(t, n));
    RestartStarts(After(resolve, es), t, n);
    NoStrandedRow(resolve, es + [Restart(t, n)], n, r, more);
  }

  lemma RestartStarts(s: Sys, t: Tid, n: Tid)
    requires Enabled(s, Restart(t, n)) && s.threads[t].todo[0] !in s.running
    ensures var s' := Apply(s, Restart(t, n));
            && s'.queue == s.queue && s'.outbox == s.outbox
            && n in s'.threads && s'.threads[n] == Runner(s.threads[t].todo[0], Snapshotting)
  {}

  /** Thread t, a manager, has handled destination d during `more`. */
  ghost predicate Handled(resolve: Resolver, es: seq<Event>, t: Tid, d: string, more: seq<Event>) {
    more != []
    && var p, e := more[..|more| - 1], more[|more| - 1];
       Handled(resolve, es, t, d, p)
       || (e.Restart? && e.t == t && Run(resolve, es + p) && IsManager(After(resolve, es + p), t)
           && After(resolve, es + p).threads[t].todo != [] && After(resolve, es + p).threads[t].todo[0] == d)
  }

  predicate IsManager(s: Sys, t: Tid) { t in s.threads && s.threads[t].Manager? }

  lemma TickListsRow(s: Sys, t: Tid, ds: seq<string>, r: nat)
    requires Enabled(s, Tick(t, ds)) && r in s.queue
    ensures IsManager(Apply(s, Tick(t, ds)), t) && s.queue[r].dest in Apply(s, Tick(t, ds)).threads[t].todo
  {}

  lemma ManagerStep(s: Sys, t: Tid, e: Event)
    requires Enabled(s, e) && !e.Crash? && e != Rearm(t) && IsManager(s, t)
    ensures IsManager(Apply(s, e), t)
    ensures Apply(s, e).threads[t].todo
         == if e.Restart? && e.t == t then s.threads[t].todo[1..] else s.threads[t].todo
  {
    if OfSubmission(e) { ManagerAside(s, t, e); }
    if OfRun(e) { ManagerAsideRun(s, t, e); }
    hide ApplySubmission, ApplyRun;
  }

  lemma ManagerAside(s: Sys, t: Tid, e: Event)
    requires OfSubmission(e) && Enabled(s, e) && IsManager(s, t)
    ensures IsManager(ApplySubmission(s, e), t) && ApplySubmission(s, e).threads[t] == s.threads[t]
  {}

  lemma ManagerAsideRun(s: Sys, t: Tid, e: Event)
    requires OfRun(e) && Enabled(s, e) && IsManager(s, t)
    ensures IsManager(ApplyRun(s, e), t) && ApplyRun(s, e).threads[t] == s.threads[t]
  {}

  /** A tick handles the destination of every row there was when it looked: while it goes on, each is still on its list
      or has been handled; when the list is empty, all have. */
  lemma {:induction false} TickHandlesEveryRow(resolve: Resolver, es: seq<Event>, t: Tid, ds: seq<string>, r: nat,
                                               more: seq<Event>)
    requires Run(resolve, es + [Tick(t, ds)]) && Run(resolve, es + [Tick(t, ds)] + more) &&
             r in After(resolve, es).queue
    requires forall i :: 0 <= i < |more| ==> !more[i].Crash? && more[i] != Rearm(t)
    ensures var s, d := After(resolve, es + [Tick(t, ds)] + more), After(resolve, es).queue[r].dest;
            IsManager(s, t) && (d in s.threads[t].todo || Handled(resolve, es + [Tick(t, ds)], t, d, more))
  {
    hide Apply, Enabled, Run, After;
    var start := es + [Tick(t, ds)];
    Snoc(resolve, es, Tick(t, ds));
    if more == [] {
      TickListsRow(After(resolve, es), t, ds, r);
      assert start + more == start;
    } else {
      var p, e := more[..|more| - 1], more[|more| - 1];
      assert start + more == (start + p) + [e];
      Snoc(resolve, start + p, e);
      assert forall i :: 0 <= i < |p| ==> p[i] == more[i];
      TickHandlesEveryRow(resolve, es, t, ds, r, p);
      ManagerStep(After(resolve, start + p), t, e);
    }
  }
}
