/** What becomes of each recipient of a `QueueFor` call, whatever interleaves with it. */
module QueueSubmission {
  import opened Wrappers
  import opened Routing
  import opened QueueProtocol
  import opened QueueHistory
  import opened QueueTheorems
  import opened QueueService
  import opened QueueLimits

  // ---- what a call has done so far --------------------------------------------------------------------------------

  /** The events by which call t took up a recipient, in order: it skipped it, or routed it. */
  function Turns(t: Tid, es: seq<Event>): seq<Event> {
    if es == [] then [] else Turns(t, es[..|es| - 1]) + Turn(t, es[|es| - 1])
  }

  function Turn(t: Tid, e: Event): seq<Event> { if (e.SkipRcpt? || e.Route?) && e.t == t then [e] else [] }

  /** What was meant to be sent by the end of these turns: one delivery for each Route, with the recipient whose turn it
      was. */
  function Wanted(from: string, rcpts: seq<string>, turns: seq<Event>): seq<Delivery>
    requires |turns| <= |rcpts|
  {
    if turns == [] then []
    else
      var i := |turns| - 1;
      Wanted(from, rcpts, turns[..i])
      + if turns[i].Route? then [Delivery(turns[i].dest, from, rcpts[i], turns[i].content)] else []
  }

  /** The ticket that is accepted after an event and was not before, if there is one. */
  ghost function NewTicket(accepted: map<nat, Delivery>, accepted': map<nat, Delivery>): seq<nat> {
    if k: nat :| k in accepted' && k !in accepted then [k] else []
  }

  /** The tickets accepted by the events of thread t among `more`, in order. */
  ghost function Tickets(resolve: Resolver, es: seq<Event>, t: Tid, more: seq<Event>): seq<nat>
    requires Run(resolve, es + more)
  {
    if more == [] then []
    else
      var p, e := more[..|more| - 1], more[|more| - 1];
      assert more == p + [e];
      Before(resolve, es, p, e);
      Tickets(resolve, es, t, p)
      + if t in By(e) then NewTicket(HistoryOf(resolve, es + p).accepted, HistoryOf(resolve, es + more).accepted)
        else []
  }

  lemma Before(resolve: Resolver, es: seq<Event>, p: seq<Event>, e: Event)
    requires Run(resolve, es + (p + [e]))
    ensures es + (p + [e]) == (es + p) + [e] && Run(resolve, es + p)
  {
    assert es + (p + [e]) == (es + p) + [e];
    Snoc(resolve, es + p, e);
  }

  /** Different tickets, and the i-th is for the i-th delivery. */
  ghost predicate TicketsFor(tickets: seq<nat>, accepted: map<nat, Delivery>, ds: seq<Delivery>) {
    && |tickets| <= |ds| && NoDuplicates(tickets)
    && forall i :: 0 <= i < |tickets| ==> tickets[i] in accepted && accepted[tickets[i]] == ds[i]
  }

  /** Each routed recipient goes to its own host. */
  ghost predicate ToHosts(resolve: Resolver, rcpts: seq<string>, turns: seq<Event>)
    requires |turns| <= |rcpts|
  {
    forall i :: 0 <= i < |turns| && turns[i].Route? ==> HostOf(resolve, rcpts[i]) == Some(turns[i].dest)
  }

  /** The recipients had their turns in order and the rest is still to come; every delivery wanted so far has a ticket,
      or is the one in hand. */
  ghost predicate Advanced(resolve: Resolver, th: Thread, from: string, rcpts: seq<string>, turns: seq<Event>,
                           tickets: seq<nat>, accepted: map<nat, Delivery>)
  {
    && th.Submission? && th.from == from
    && |turns| <= |rcpts| && th.rcpts == rcpts[|turns|..] && ToHosts(resolve, rcpts, turns)
    && var ds := Wanted(from, rcpts, turns);
       TicketsFor(tickets, accepted, ds)
       && if th.at.Routing? || th.at.Kicking? then |tickets| == |ds|
          else |ds| == |tickets| + 1 && ds[|tickets|] == Delivery(th.at.dest, from, th.at.rcpt, th.at.content)
  }

  // ---- one event --------------------------------------------------------------------------------------------------

  predicate Starts(e: Event, t: Tid) { e.Submit? && e.t == t }

  /** A call that is there was there before, unless the event is its start; nobody else moves it. */
  lemma CallStep(s: Sys, e: Event, t: Tid)
    requires Enabled(s, e) && !Starts(e, t) && IsSubmission(Apply(s, e), t)
    ensures IsSubmission(s, t)
    ensures if t in By(e) then OfSubmission(e) else Apply(s, e).threads[t] == s.threads[t]
  {
    if OfSubmission(e) { CallStepSubmission(s, e, t); }
    if OfRun(e) { CallStepRun(s, e, t); }
    hide ApplySubmission, ApplyRun;
  }

  lemma CallStepSubmission(s: Sys, e: Event, t: Tid)
    requires OfSubmission(e) && Enabled(s, e) && IsSubmission(ApplySubmission(s, e), t)
    ensures IsSubmission(s, t) && (t !in By(e) ==> ApplySubmission(s, e).threads[t] == s.threads[t])
  {}

  lemma CallStepRun(s: Sys, e: Event, t: Tid)
    requires OfRun(e) && Enabled(s, e) && IsSubmission(ApplyRun(s, e), t)
    ensures IsSubmission(s, t) && t !in By(e) && ApplyRun(s, e).threads[t] == s.threads[t]
  {}

  /** One of its own events moves the call on by a turn, a ticket, or nothing anyone sees. */
  lemma OwnProgress(s: Sys, e: Event, t: Tid, from: string, rcpts: seq<string>, turns: seq<Event>, tickets: seq<nat>,
                    accepted: map<nat, Delivery>)
    requires Enabled(s, e) && OfSubmission(e) && e.t == t && !e.Enqueue? && IsSubmission(ApplySubmission(s, e), t)
    requires Advanced(s.resolve, s.threads[t], from, rcpts, turns, tickets, accepted)
    ensures Advanced(s.resolve, ApplySubmission(s, e).threads[t], from, rcpts, turns + Turn(t, e), tickets, accepted)
  {
    if e.SkipRcpt? || e.Route? { assert (turns + [e])[..|turns|] == turns; } else { assert turns + [] == turns; }
  }

  /** The insert of the row turns the delivery in hand into a ticket. */
  lemma EnqueueProgress(s: Sys, h: History, t: Tid, from: string, rcpts: seq<string>, turns: seq<Event>,
                        tickets: seq<nat>, accepted': map<nat, Delivery>)
    requires Enabled(s, Enqueue(t)) && s.threads[t].at.uid in h.live
    requires var th, k := s.threads[t], h.live[s.threads[t].at.uid].ticket;
             k !in h.accepted
             && accepted' == h.accepted[k := Delivery(th.at.dest, th.from, th.at.rcpt, th.at.content)]
    requires Advanced(s.resolve, s.threads[t], from, rcpts, turns, tickets, h.accepted)
    ensures Advanced(s.resolve, ApplySubmission(s, Enqueue(t)).threads[t], from, rcpts, turns,
                     tickets + NewTicket(h.accepted, accepted'), accepted')
  {
    hide ToHosts;
    TheNewTicket(h.accepted, h.live[s.threads[t].at.uid].ticket, accepted'[h.live[s.threads[t].at.uid].ticket]);
  }

  lemma AcceptedMore(resolve: Resolver, th: Thread, from: string, rcpts: seq<string>, turns: seq<Event>,
                     tickets: seq<nat>, accepted: map<nat, Delivery>, accepted': map<nat, Delivery>)
    requires Advanced(resolve, th, from, rcpts, turns, tickets, accepted)
    requires forall k :: k in accepted ==> k in accepted' && accepted'[k] == accepted[k]
    ensures Advanced(resolve, th, from, rcpts, turns, tickets, accepted')
  {
    hide Wanted, ToHosts;
  }

  lemma TheNewTicket(accepted: map<nat, Delivery>, k: nat, d: Delivery)
    requires k !in accepted
    ensures NewTicket(accepted, accepted[k := d]) == [k]
  {}

  /** One event of the run, whoever's it is. */
  lemma ProgressStep(resolve: Resolver, es: seq<Event>, e: Event, t: Tid, from: string, rcpts: seq<string>,
                     turns: seq<Event>, tickets: seq<nat>)
    requires Run(resolve, es + [e]) && Run(resolve, es) && !Starts(e, t) && IsSubmission(After(resolve, es + [e]), t)
    requires IsSubmission(After(resolve, es), t) ==>
               Advanced(resolve, After(resolve, es).threads[t], from, rcpts, turns, tickets,
                        HistoryOf(resolve, es).accepted)
    ensures var accepted, accepted' := HistoryOf(resolve, es).accepted, HistoryOf(resolve, es + [e]).accepted;
            && IsSubmission(After(resolve, es), t)
            && Advanced(resolve, After(resolve, es + [e]).threads[t], from, rcpts, turns + Turn(t, e),
                        tickets + (if t in By(e) then NewTicket(accepted, accepted') else []), accepted')
  {
    hide Run, After, HistoryOf, Enabled, ApplySubmission, Advanced, Record;
    Snoc(resolve, es, e);
    HostedAlways(resolve, es);
    AcceptedByEnqueue(resolve, es, e);
    var s := After(resolve, es);
    var accepted, accepted' := HistoryOf(resolve, es).accepted, HistoryOf(resolve, es + [e]).accepted;
    CallStep(s, e, t);
    if e == Enqueue(t) {
      EnqueueProgress(s, HistoryOf(resolve, es), t, from, rcpts, turns, tickets, accepted');
      assert turns + Turn(t, e) == turns;
    } else if t in By(e) {
      OwnProgress(s, e, t, from, rcpts, turns, tickets, accepted);
      assert tickets + NewTicket(accepted, accepted') == tickets;
    } else {
      AcceptedMore(resolve, s.threads[t], from, rcpts, turns, tickets, accepted, accepted');
      assert turns + Turn(t, e) == turns && tickets + [] == tickets;
    }
  }

  // ---- over runs --------------------------------------------------------------------------------------------------

  lemma CallStarts(resolve: Resolver, s: Sys, t: Tid, from: string, rcpts: seq<string>, accepted: map<nat, Delivery>)
    requires Enabled(s, Submit(t, from, rcpts))
    ensures Advanced(resolve, Apply(s, Submit(t, from, rcpts)).threads[t], from, rcpts, [], [], accepted)
  {
    assert rcpts[0..] == rcpts;
  }

  /** While a call goes on, whatever interleaves, its recipients have had their turns in order and the rest is still to
      come, and every one it routed has a ticket of its own for its own delivery, but for the one in hand. */
  lemma {:induction false} CallProgress(resolve: Resolver, es: seq<Event>, t: Tid, from: string, rcpts: seq<string>,
                                        more: seq<Event>)
    requires Run(resolve, es + [Submit(t, from, rcpts)]) && Run(resolve, es + [Submit(t, from, rcpts)] + more)
    requires forall i :: 0 <= i < |more| ==> !Starts(more[i], t)
    requires IsSubmission(After(resolve, es + [Submit(t, from, rcpts)] + more), t)
    ensures var start := es + [Submit(t, from, rcpts)];
            Advanced(resolve, After(resolve, start + more).threads[t], from, rcpts, Turns(t, more),
                     Tickets(resolve, start, t, more), HistoryOf(resolve, start + more).accepted)
  {
    hide Run, After, HistoryOf, Enabled, Apply, Record, Advanced;
    var start := es + [Submit(t, from, rcpts)];
    if more == [] {
      assert start + more == start;
      Snoc(resolve, es, Submit(t, from, rcpts));
      CallStarts(resolve, After(resolve, es), t, from, rcpts, HistoryOf(resolve, start).accepted);
    } else {
      var p, e := more[..|more| - 1], more[|more| - 1];
      assert more == p + [e];
      Before(resolve, start, p, e);
      assert forall i :: 0 <= i < |p| ==> p[i] == more[i];
      if IsSubmission(After(resolve, start + p), t) { CallProgress(resolve, es, t, from, rcpts, p); }
      ProgressStep(resolve, start + p, e, t, from, rcpts, Turns(t, p), Tickets(resolve, start, t, p));
    }
  }

  /** When a call returns without an error, every recipient had its turn, and the call's tickets are those of the
      recipients it routed, one each, in order. */
  lemma CallReturned(resolve: Resolver, es: seq<Event>, t: Tid, from: string, rcpts: seq<string>, more: seq<Event>)
    requires Run(resolve, es + [Submit(t, from, rcpts)]) && Run(resolve, es + [Submit(t, from, rcpts)] + more)
    requires Run(resolve, es + [Submit(t, from, rcpts)] + more + [Return(t)])
    requires forall i :: 0 <= i < |more| ==> !Starts(more[i], t)
    ensures var start, turns := es + [Submit(t, from, rcpts)], Turns(t, more);
            var tickets := Tickets(resolve, start, t, more);
            && |turns| == |rcpts| && ToHosts(resolve, rcpts, turns)
            && |tickets| == |Wanted(from, rcpts, turns)|
            && TicketsFor(tickets, HistoryOf(resolve, start + more).accepted, Wanted(from, rcpts, turns))
  {
    hide Run, After, HistoryOf, Tickets, Turns, Apply;
    Snoc(resolve, es + [Submit(t, from, rcpts)] + more, Return(t));
    CallProgress(resolve, es, t, from, rcpts, more);
  }

  lemma {:induction false} WantedHas(from: string, rcpts: seq<string>, turns: seq<Event>, i: nat)
    requires |turns| <= |rcpts| && i < |turns| && turns[i].Route?
    ensures Delivery(turns[i].dest, from, rcpts[i], turns[i].content) in Wanted(from, rcpts, turns)
  {
    if i < |turns| - 1 { WantedHas(from, rcpts, turns[..|turns| - 1], i); }
  }

  lemma {:induction false} AcceptedStays(resolve: Resolver, es: seq<Event>, more: seq<Event>, k: nat)
    requires Run(resolve, es) && Run(resolve, es + more) && k in HistoryOf(resolve, es).accepted
    ensures k in HistoryOf(resolve, es + more).accepted
    ensures HistoryOf(resolve, es + more).accepted[k] == HistoryOf(resolve, es).accepted[k]
  {
    hide Run, After, HistoryOf, Enabled, Record;
    if more == [] {
      assert es + more == es;
    } else {
      var p, e := more[..|more| - 1], more[|more| - 1];
      assert more == p + [e];
      Before(resolve, es, p, e);
      AcceptedStays(resolve, es, p, k);
      AcceptedByEnqueue(resolve, es + p, e);
    }
  }

  /** From then on, at every moment, the message of each recipient it routed has been transmitted to the recipient's
      host as it was stamped, or waits in the queue intact. */
  lemma ReturnedIsCarried(resolve: Resolver, es: seq<Event>, t: Tid, from: string, rcpts: seq<string>,
                          more: seq<Event>, later: seq<Event>, i: nat)
    requires Run(resolve, es + [Submit(t, from, rcpts)]) && Run(resolve, es + [Submit(t, from, rcpts)] + more)
    requires Run(resolve, es + [Submit(t, from, rcpts)] + more + [Return(t)])
    requires Run(resolve, es + [Submit(t, from, rcpts)] + more + later)
    requires forall i :: 0 <= i < |more| ==> !Starts(more[i], t)
    requires i < |rcpts| && HostOf(resolve, rcpts[i]) != Some(OUTBOX_KEY)
    ensures var turns, s := Turns(t, more), After(resolve, es + [Submit(t, from, rcpts)] + more + later);
            && |turns| == |rcpts|
            && (turns[i].Route? ==>
                  && HostOf(resolve, rcpts[i]) == Some(turns[i].dest)
                  && var d := Delivery(turns[i].dest, from, rcpts[i], turns[i].content);
                     d in s.wire || InQueue(s, d))
  {
    hide Run, After, HistoryOf, Tickets, Turns, HostOf, InQueue, Wanted;
    CallReturned(resolve, es, t, from, rcpts, more);
    var run, turns := es + [Submit(t, from, rcpts)] + more, Turns(t, more);
    if turns[i].Route? {
      var d := Delivery(turns[i].dest, from, rcpts[i], turns[i].content);
      WantedHas(from, rcpts, turns, i);
      var j :| 0 <= j < |Wanted(from, rcpts, turns)| && Wanted(from, rcpts, turns)[j] == d;
      var k := Tickets(resolve, es + [Submit(t, from, rcpts)], t, more)[j];
      AcceptedStays(resolve, run, later, k);
      NothingLost(resolve, run + later, k);
    }
  }

  // ---- how a call ends --------------------------------------------------------------------------------------------

  /** A call ends with all its recipients handled, or at a message insert whose UID is taken, or with the process. */
  lemma CallEnds(s: Sys, e: Event, t: Tid)
    requires Enabled(s, e) && IsSubmission(s, t) && !IsSubmission(Apply(s, e), t)
    ensures var th := s.threads[t];
            || (e == Return(t) && th.at.Routing? && th.rcpts == [])
            || (e == Insert(t) && th.at.Inserting? && th.at.uid in s.outbox)
            || e.Crash?
  {
    if OfSubmission(e) { CallEndsItself(s, e, t); }
    if OfRun(e) { RunEndsNoCall(s, e, t); }
    hide ApplySubmission, ApplyRun;
  }

  lemma CallEndsItself(s: Sys, e: Event, t: Tid)
    requires OfSubmission(e) && Enabled(s, e) && IsSubmission(s, t) && !IsSubmission(ApplySubmission(s, e), t)
    ensures var th := s.threads[t];
            || (e == Return(t) && th.at.Routing? && th.rcpts == [])
            || (e == Insert(t) && th.at.Inserting? && th.at.uid in s.outbox)
  {}

  lemma RunEndsNoCall(s: Sys, e: Event, t: Tid)
    requires OfRun(e) && Enabled(s, e) && IsSubmission(s, t)
    ensures IsSubmission(ApplyRun(s, e), t)
  {}

  /** How many statements a call can still execute: six for each recipient to come, and the return. */
  function CallBudget(th: Thread): nat
    requires th.Submission?
  {
    6 * |th.rcpts| + 1 +
    match th.at
    case Routing => 0
    case Reading(_, _, _) => 5
    case Inserting(_, _, _, _) => 4
    case Bumping(_, _, _, _) => 3
    case Enqueuing(_, _, _, _) => 2
    case Kicking(_) => 1
  }

  lemma CallBudgetFalls(s: Sys, e: Event, t: Tid)
    requires OfSubmission(e) && e.t == t && Enabled(s, e) && IsSubmission(ApplySubmission(s, e), t)
    ensures CallBudget(ApplySubmission(s, e).threads[t]) < CallBudget(s.threads[t])
  {}

  /** A call terminates: whatever else happens, it executes at most 6 statements for each recipient and one more. */
  lemma {:induction false} CallTerminates(resolve: Resolver, es: seq<Event>, more: seq<Event>, t: Tid)
    requires Run(resolve, es) && Run(resolve, es + more) && IsSubmission(After(resolve, es + more), t)
    requires forall i :: 0 <= i < |more| ==> !Starts(more[i], t)
    ensures IsSubmission(After(resolve, es), t)
    ensures OwnEvents(t, more) + CallBudget(After(resolve, es + more).threads[t])
         <= CallBudget(After(resolve, es).threads[t])
  {
    hide Run, After, Enabled, ApplySubmission, CallBudget;
    if more == [] {
      assert es + more == es;
    } else {
      var p, e := more[..|more| - 1], more[|more| - 1];
      assert more == p + [e];
      Before(resolve, es, p, e);
      Snoc(resolve, es + p, e);
      assert forall i :: 0 <= i < |p| ==> p[i] == more[i];
      CallStep(After(resolve, es + p), e, t);
      CallTerminates(resolve, es, p, t);
      if t in By(e) { CallBudgetFalls(After(resolve, es + p), e, t); }
    }
  }

  lemma SomeFreshTid(used: set<Tid>) returns (n: Tid)
    ensures forall t :: t in used ==> t < n
  {
    n := 0;
    if used != {} {
      var t: Tid :| t in used;
      n := SomeFreshTid(used - {t});
      assert forall x :: x in used ==> x == t || x in used - {t};
      if n <= t { n := t + 1; }
    }
  }

  /** A call is never stuck: it always has a statement to execute, and the next recipient can be skipped or, if it has a
      host, routed with any content. */
  lemma CallNeverStuck(s: Sys, t: Tid)
    requires IsSubmission(s, t)
    ensures exists e :: Enabled(s, e) && t in By(e)
    ensures s.threads[t].at.Routing? && s.threads[t].rcpts != [] ==>
              && Enabled(s, SkipRcpt(t))
              && forall dest, content :: HostOf(s.resolve, s.threads[t].rcpts[0]) == Some(dest) ==>
                   Enabled(s, Route(t, dest, content))
  {
    var n := SomeFreshTid(s.threads.Keys);
    var th := s.threads[t];
    var e := match th.at {
      case Routing => if th.rcpts == [] then Return(t) else SkipRcpt(t)
      case Reading(_, _, _) => ReadUid(t)
      case Inserting(_, _, _, _) => Insert(t)
      case Bumping(_, _, _, _) => Bump(t)
      case Enqueuing(_, _, _, _) => Enqueue(t)
      case Kicking(_) => Kick(t, n)
    };
    assert Enabled(s, e) && t in By(e);
  }

  // ---- the goroutine a call leaves behind -------------------------------------------------------------------------

  /** After its row, a call leaves a goroutine for the destination alive, a new one at its snapshot unless one was
      running. */
  lemma KickLeavesRunner(resolve: Resolver, es: seq<Event>, t: Tid, n: Tid)
    requires Run(resolve, es + [Kick(t, n)])
    ensures var s, s' := After(resolve, es), After(resolve, es + [Kick(t, n)]);
            IsSubmission(s, t) && s.threads[t].at.Kicking?
            && var d := s.threads[t].at.dest;
               && d in s'.running && (exists x :: IsRunner(s', x) && s'.threads[x].dest == d)
               && (d !in s.running ==> n in s'.threads && s'.threads[n] == Runner(d, Snapshotting))
  {
    SingleRunner(resolve, es + [Kick(t, n)]);
    Snoc(resolve, es, Kick(t, n));
  }

  /** If none was running, the new one settles the call's row, and every other the destination had then. */
  lemma KickServesRow(resolve: Resolver, es: seq<Event>, t: Tid, n: Tid, r: nat, more: seq<Event>)
    requires Run(resolve, es + [Kick(t, n)]) && Run(resolve, es + [Kick(t, n)] + more + [Release(n)])
    requires r in After(resolve, es).queue && IsSubmission(After(resolve, es), t)
    requires After(resolve, es).threads[t].at == Kicking(After(resolve, es).queue[r].dest)
    requires After(resolve, es).queue[r].dest !in After(resolve, es).running
    requires forall i :: 0 <= i < |more| ==> Calm(more[i], n, After(resolve, es).queue[r].dest)
    ensures var row := After(resolve, es).queue[r];
            && row.mid in After(resolve, es).outbox
            && Settled(After(resolve, es + [Kick(t, n)] + more + [Release(n)]), r, row,
                       After(resolve, es).outbox[row.mid].body, Failures(resolve, es + [Kick(t, n)], n, row.mid, more))
  {
    hide Enabled, Apply, Settled, Run, After, Calm;
    Snoc(resolve, es, Kick(t, n));
    KickStarts(After(resolve, es), t, n);
    NoStrandedRow(resolve, es + [Kick(t, n)], n, r, more);
  }

  lemma KickStarts(s: Sys, t: Tid, n: Tid)
    requires Enabled(s, Kick(t, n)) && s.threads[t].at.dest !in s.running
    ensures var s' := Apply(s, Kick(t, n));
            && s'.queue == s.queue && s'.outbox == s.outbox
            && n in s'.threads && s'.threads[n] == Runner(s.threads[t].at.dest, Snapshotting)
  {}

  /** The row is there when the call comes to start the goroutine: it inserted it just before, for that destination. */
  lemma RowThenKick(s: Sys, t: Tid)
    requires Enabled(s, Enqueue(t))
    ensures var s' := Apply(s, Enqueue(t));
            && s.nextRow in s'.queue && IsSubmission(s', t)
            && s'.threads[t].at == Kicking(s'.queue[s.nextRow].dest)
  {}
}
