/** Where the queue's guarantees stop, and runs that get there. */
module QueueLimits {
  import opened Wrappers
  import opened Routing
  import opened QueueProtocol
  import opened QueueHistory
  import opened QueueInvariant
  import opened QueueTheorems
  import opened QueueService

  // ---- reachable states -------------------------------------------------------------------------------------------

  /** `es` is a run that ends in `s` with history `h`. */
  ghost predicate Reaches(resolve: Resolver, es: seq<Event>, s: Sys, h: History) {
    Run(resolve, es) && After(resolve, es) == s && HistoryOf(resolve, es) == h
  }

  ghost predicate Reachable(resolve: Resolver, s: Sys, h: History) { exists es :: Reaches(resolve, es, s, h) }

  lemma ReachStart(resolve: Resolver)
    ensures Reachable(resolve, Init(resolve), START)
  {
    assert Reaches(resolve, [], Init(resolve), START);
  }

  lemma Reach(resolve: Resolver, s: Sys, h: History, e: Event)
    requires Reachable(resolve, s, h) && Enabled(s, e)
    ensures Reachable(resolve, Apply(s, e), Record(h, s, e))
  {
    var es :| Reaches(resolve, es, s, h);
    Snoc(resolve, es, e);
    hide Enabled, Apply, Record, Run, After, HistoryOf;
    assert Reaches(resolve, es + [e], Apply(s, e), Record(h, s, e));
  }

  // ---- destinations come from recipients --------------------------------------------------------------------------

  /** Every call in progress, every message and every accepted envelope goes to the host of its recipient. */
  ghost predicate Hosted(s: Sys, h: History) {
    && (forall t :: t in s.threads ==> CallHosted(s, t))
    && (forall u :: u in h.live ==> ToHost(s.resolve, h.live[u].env))
    && (forall k :: k in h.accepted ==> ToHost(s.resolve, h.accepted[k]))
  }

  predicate AtHost(resolve: Resolver, at: SubmitPc) {
    at.Routing? || at.Kicking? || HostOf(resolve, at.rcpt) == Some(at.dest)
  }

  predicate ToHost(resolve: Resolver, d: Delivery) { HostOf(resolve, d.rcpt) == Some(d.dest) }

  predicate CallHosted(s: Sys, t: Tid) {
    t in s.threads && s.threads[t].Submission? ==> AtHost(s.resolve, s.threads[t].at)
  }

  lemma CallStays(s: Sys, e: Event, t: Tid)
    requires Enabled(s, e) && CallHosted(s, t)
    ensures Apply(s, e).resolve == s.resolve && CallHosted(Apply(s, e), t)
  {
    if OfSubmission(e) { CallGoesOn(s, e, t); }
    if OfRun(e) { CallAside(s, e, t); }
    hide ApplySubmission, ApplyRun, HostOf;
  }

  lemma CallGoesOn(s: Sys, e: Event, t: Tid)
    requires OfSubmission(e) && Enabled(s, e) && CallHosted(s, t)
    ensures ApplySubmission(s, e).resolve == s.resolve && CallHosted(ApplySubmission(s, e), t)
  {
    hide HostOf;
  }

  lemma CallAside(s: Sys, e: Event, t: Tid)
    requires OfRun(e) && Enabled(s, e) && CallHosted(s, t)
    ensures ApplyRun(s, e).resolve == s.resolve && CallHosted(ApplyRun(s, e), t)
  {
    hide HostOf;
  }

  lemma HostedStep(s: Sys, h: History, e: Event)
    requires Enabled(s, e) && Hosted(s, h)
    ensures Hosted(Apply(s, e), Record(h, s, e)) && Apply(s, e).resolve == s.resolve
  {
    HostedRecord(s, h, e);
    hide Enabled, Apply, Record, AtHost, ToHost, HostOf;
    CallStays(s, e, 0);
    forall t | t in Apply(s, e).threads ensures CallHosted(Apply(s, e), t) {
      CallStays(s, e, t);
    }
  }

  lemma HostedRecord(s: Sys, h: History, e: Event)
    requires Enabled(s, e) && Hosted(s, h)
    ensures forall u :: u in Record(h, s, e).live ==> ToHost(s.resolve, Record(h, s, e).live[u].env)
    ensures forall k :: k in Record(h, s, e).accepted ==> ToHost(s.resolve, Record(h, s, e).accepted[k])
  {
    hide HostOf;
  }

  lemma {:induction false} HostedAlways(resolve: Resolver, es: seq<Event>)
    requires Run(resolve, es)
    ensures After(resolve, es).resolve == resolve && Hosted(After(resolve, es), HistoryOf(resolve, es))
  {
    hide Enabled, Apply, Record, AtHost, ToHost;
    if es != [] {
      var p, e := es[..|es| - 1], es[|es| - 1];
      HostedAlways(resolve, p);
      hide Hosted;
      HostedStep(After(resolve, p), HistoryOf(resolve, p), e);
    }
  }

  // ---- one submission ---------------------------------------------------------------------------------------------

  /** The history when the first message has its row. */
  function FirstHistory(d: Delivery): History {
    History(map[1 := Entry(0, d, Queued(0))], [1], map[0 := d], [], 0, map[])
  }

  function Routed(resolve: Resolver, d: Delivery): Sys {
    Init(resolve).(threads := map[0 := Submission(d.from, [], Inserting(d.rcpt, d.dest, d.body, 1))])
  }

  lemma FirstRouting(resolve: Resolver, d: Delivery)
    requires ToHost(resolve, d)
    ensures Reachable(resolve, Routed(resolve, d), START)
  {
    hide Reachable, HostOf;
    var s0 := Init(resolve);
    var s1 := s0.(threads := map[0 := Submission(d.from, [d.rcpt], Routing)]);
    var s2 := s0.(threads := map[0 := Submission(d.from, [], Reading(d.rcpt, d.dest, d.body))]);
    ReachStart(resolve);
    Reach(resolve, s0, START, Submit(0, d.from, [d.rcpt]));
    assert Apply(s0, Submit(0, d.from, [d.rcpt])) == s1;
    Reach(resolve, s1, START, Route(0, d.dest, d.body));
    assert [d.rcpt][1..] == [];
    assert Apply(s1, Route(0, d.dest, d.body)) == s2;
    Reach(resolve, s2, START, ReadUid(0));
    assert Apply(s2, ReadUid(0)) == Routed(resolve, d);
  }

  type Threads = map<Tid, Thread>

  /** Thread 0's insert, with any other threads about. */
  lemma FirstInsert(resolve: Resolver, d: Delivery, ts: Threads)
    requires 0 in ts && ts[0] == Submission(d.from, [], Inserting(d.rcpt, d.dest, d.body, 1))
    requires Reachable(resolve, Init(resolve).(threads := ts), START)
    ensures Reachable(resolve, Inserted1(resolve, d, ts),
                      History(map[1 := Entry(0, d, Submitting(0))], [1], map[], [], 0, map[]))
  {
    hide Reachable;
    var s := Init(resolve).(threads := ts);
    Reach(resolve, s, START, Insert(0));
    assert Apply(s, Insert(0)) == Inserted1(resolve, d, ts);
    assert Record(START, s, Insert(0)) == History(map[1 := Entry(0, d, Submitting(0))], [1], map[], [], 0, map[]);
  }

  function Inserted1(resolve: Resolver, d: Delivery, ts: Threads): Sys {
    Sys(resolve, map[1 := Mail(d.body, false)], 1, map[], 0, {},
        ts[0 := Submission(d.from, [], Bumping(d.rcpt, d.dest, d.body, 1))], [])
  }

  /** Its increment and the insert of its row. */
  lemma FirstRow(resolve: Resolver, d: Delivery, ts: Threads)
    requires Reachable(resolve, Inserted1(resolve, d, ts),
                       History(map[1 := Entry(0, d, Submitting(0))], [1], map[], [], 0, map[]))
    ensures Reachable(resolve, Queued1(resolve, d, ts), FirstHistory(d))
  {
    hide Reachable;
    var s, h := Inserted1(resolve, d, ts), History(map[1 := Entry(0, d, Submitting(0))], [1], map[], [], 0, map[]);
    var s1 := s.(uidNext := 2, threads := ts[0 := Submission(d.from, [], Enqueuing(d.rcpt, d.dest, d.body, 1))]);
    Reach(resolve, s, h, Bump(0));
    assert Apply(s, Bump(0)).threads == s1.threads;
    Reach(resolve, s1, h, Enqueue(0));
    assert Apply(s1, Enqueue(0)).threads == Queued1(resolve, d, ts).threads;
    assert Record(h, s1, Enqueue(0)) == FirstHistory(d);
  }

  function Queued1(resolve: Resolver, d: Delivery, ts: Threads): Sys {
    Sys(resolve, map[1 := Mail(d.body, false)], 2, map[0 := Row(d.dest, 1, d.from, d.rcpt)], 1, {},
        ts[0 := Submission(d.from, [], Kicking(d.dest))], [])
  }

  lemma FirstSubmission(resolve: Resolver, d: Delivery)
    requires ToHost(resolve, d)
    ensures Reachable(resolve, Queued1(resolve, d, map[]), FirstHistory(d))
  {
    hide Reachable, ToHost;
    var ts := map[0 := Submission(d.from, [], Inserting(d.rcpt, d.dest, d.body, 1))];
    FirstRouting(resolve, d);
    FirstInsert(resolve, d, ts);
    FirstRow(resolve, d, ts);
    assert Queued1(resolve, d, ts).threads == Queued1(resolve, d, map[]).threads;
  }

  // ---- loss -------------------------------------------------------------------------------------------------------

  /** The message that was accepted in history h is neither sent nor queued in s. */
  ghost predicate Lost(s: Sys, h: History, d: Delivery) {
    0 in h.accepted && h.accepted[0] == d && !IsSent(h, 0) && !InQueue(s, d)
  }

  /** No-loss fails for destination "Outbox", the key under which MoveMessages deletes queue rows: for every recipient
      at host `Outbox`, every sender and every body there is a run in which the accepted message is neither transmitted
      nor in the queue any more. */
  lemma OutboxKeyLosesMail(resolve: Resolver, from: string, rcpt: string, body: Bytes)
    requires HostOf(resolve, rcpt) == Some(OUTBOX_KEY)
    ensures exists s, h :: Reachable(resolve, s, h) && Lost(s, h, Delivery(OUTBOX_KEY, from, rcpt, body))
  {
    hide Reachable, HostOf;
    var d := Delivery(OUTBOX_KEY, from, rcpt, body);
    FirstSubmission(resolve, d);
    var s, h := Queued1(resolve, d, map[]), FirstHistory(d);
    Reach(resolve, s, h, ForeignClear(1));
    assert Apply(s, ForeignClear(1)).queue == map[];
    assert Lost(Apply(s, ForeignClear(1)), Record(h, s, ForeignClear(1)), d);
  }

  /** There are such recipients, whatever the keys. */
  lemma OutboxRecipient(resolve: Resolver, name: string)
    requires '@' !in name
    ensures HostOf(resolve, name + "@Outbox") == Some(OUTBOX_KEY)
  {
    assert |"Outbox"| != |YGGMAIL|;
    HostIsDestination(resolve, name, "Outbox");
    assert name + "@Outbox" == name + "@" + "Outbox";
  }

  /** In no run is a message accepted for this recipient both unsent and out of the queue. */
  ghost predicate NeverLost(resolve: Resolver, rcpt: string) {
    forall es, k ::
      Run(resolve, es) && k in HistoryOf(resolve, es).accepted && HistoryOf(resolve, es).accepted[k].rcpt == rcpt ==>
      IsSent(HistoryOf(resolve, es), k) || InQueue(After(resolve, es), HistoryOf(resolve, es).accepted[k])
  }

  /** A recipient's mail is safe in every run exactly when its host is not `Outbox`. */
  lemma SafeUnlessOutbox(resolve: Resolver, rcpt: string)
    ensures NeverLost(resolve, rcpt) <==> HostOf(resolve, rcpt) != Some(OUTBOX_KEY)
  {
    hide HostOf, Run, After, HistoryOf;
    if HostOf(resolve, rcpt) == Some(OUTBOX_KEY) {
      OutboxKeyLosesMail(resolve, "", rcpt, []);
      var s, h :| Reachable(resolve, s, h) && Lost(s, h, Delivery(OUTBOX_KEY, "", rcpt, []));
      var es :| Reaches(resolve, es, s, h);
      assert 0 in HistoryOf(resolve, es).accepted && HistoryOf(resolve, es).accepted[0].rcpt == rcpt;
    } else {
      forall es, k | Run(resolve, es) && k in HistoryOf(resolve, es).accepted &&
          HistoryOf(resolve, es).accepted[k].rcpt == rcpt
        ensures IsSent(HistoryOf(resolve, es), k) || InQueue(After(resolve, es), HistoryOf(resolve, es).accepted[k])
      {
        HostedAlways(resolve, es);
        assert ToHost(resolve, HistoryOf(resolve, es).accepted[k]);
        NothingLost(resolve, es, k);
      }
    }
  }

  // ---- a transmission, and then ... ---------------------------------------------------------------------------------

  /** The first message is queued, and its destination's flag is set. */
  function Sending1(resolve: Resolver, d: Delivery, ts: Threads, wire: seq<Delivery>): Sys {
    Sys(resolve, map[1 := Mail(d.body, false)], 2, map[0 := Row(d.dest, 1, d.from, d.rcpt)], 1, {d.dest}, ts, wire)
  }

  function SendingHistory(d: Delivery, sends: seq<(nat, nat)>, epoch: nat, n: Tid): History {
    History(map[1 := Entry(0, d, Queued(0))], [1], map[0 := d], sends, epoch, map[d.dest := n])
  }

  function RefOf1(d: Delivery): Ref { Ref(1, d.from, d.rcpt) }

  /** A goroutine takes its snapshot and selects the message. */
  lemma Selects1(resolve: Resolver, d: Delivery, ts: Threads, n: Tid, wire: seq<Delivery>, h: History)
    requires n in ts && ts[n] == Runner(d.dest, Snapshotting)
    requires Reachable(resolve, Sending1(resolve, d, ts, wire), h)
    ensures Reachable(resolve, Sending1(resolve, d, ts[n := Runner(d.dest, Sending([], RefOf1(d), d.body, 1))], wire),
                      h)
  {
    hide Reachable;
    var s0 := Sending1(resolve, d, ts, wire);
    var s1 := Sending1(resolve, d, ts[n := Runner(d.dest, Looping([RefOf1(d)]))], wire);
    Reach(resolve, s0, h, Snapshot(n, [0]));
    SnapshotOfOne(s0, n, RefOf1(d));
    assert Apply(s0, Snapshot(n, [0])) == s1;
    Reach(resolve, s1, h, Select(n));
    assert [RefOf1(d)][1..] == [];
    assert Apply(s1, Select(n)).threads == ts[n := Runner(d.dest, Sending([], RefOf1(d), d.body, 1))];
  }

  lemma SnapshotOfOne(s: Sys, n: Tid, ref: Ref)
    requires Enabled(s, Snapshot(n, [0])) && 0 in s.queue && RefOf(s.queue[0]) == ref
    ensures Apply(s, Snapshot(n, [0])) == SetPc(s, n, Looping([ref]))
  {
    var refs := Apply(s, Snapshot(n, [0])).threads[n].pc.refs;
    assert |refs| == 1 && refs[0] == ref;
    assert refs == [ref];
  }

  /** ... and transmits it. */
  lemma Transmits1(resolve: Resolver, d: Delivery, ts: Threads, n: Tid, wire: seq<Delivery>, sends: seq<(nat, nat)>,
                   epoch: nat)
    requires n in ts && ts[n] == Runner(d.dest, Snapshotting)
    requires Reachable(resolve, Sending1(resolve, d, ts, wire), SendingHistory(d, sends, epoch, n))
    ensures Reachable(resolve, Sending1(resolve, d, ts[n := Runner(d.dest, Dequeuing([], RefOf1(d), d.body))], wire +
                                        [d]),
                      SendingHistory(d, sends + [(0, epoch)], epoch, n))
  {
    hide Reachable;
    var h := SendingHistory(d, sends, epoch, n);
    Selects1(resolve, d, ts, n, wire, h);
    var s2 := Sending1(resolve, d, ts[n := Runner(d.dest, Sending([], RefOf1(d), d.body, 1))], wire);
    Reach(resolve, s2, h, Attempt(n, true));
    assert Apply(s2, Attempt(n, true)).threads == ts[n := Runner(d.dest, Dequeuing([], RefOf1(d), d.body))];
  }

  lemma Kicks1(resolve: Resolver, d: Delivery, ts: Threads)
    requires Reachable(resolve, Queued1(resolve, d, ts), FirstHistory(d)) && 1 !in ts
    ensures Reachable(resolve, Sending1(resolve, d, Kicked(d, ts), []), SendingHistory(d, [], 0, 1))
  {
    hide Reachable;
    var s := Queued1(resolve, d, ts);
    Reach(resolve, s, FirstHistory(d), Kick(0, 1));
    assert Apply(s, Kick(0, 1)).threads == Kicked(d, ts);
    assert Apply(s, Kick(0, 1)).running == {d.dest};
    assert Record(FirstHistory(d), s, Kick(0, 1)).runnerOf == map[d.dest := 1];
  }

  function Kicked(d: Delivery, ts: Threads): Threads {
    ts[0 := Submission(d.from, [], Routing)][1 := Runner(d.dest, Snapshotting)]
  }

  // ---- ... a crash: sent twice --------------------------------------------------------------------------------------

  /** The restriction of NothingSentTwice to one life of the process is needed: when the process stops between a
      transmission and the delete of its row, the next one transmits the message again.  This happens to every
      recipient outside the node. */
  lemma CrashSendsTwice(resolve: Resolver, d: Delivery)
    requires ToHost(resolve, d)
    ensures exists s, h ::
              Reachable(resolve, s, h) && s.wire == [d, d] && h.sends == [(0, 0), (0, 1)] && h.accepted == map[0 := d]
  {
    hide Reachable, ToHost;
    FirstSubmission(resolve, d);
    Kicks1(resolve, d, map[]);
    Transmits1(resolve, d, Kicked(d, map[]), 1, [], [], 0);
    var ts := Kicked(d, map[])[1 := Runner(d.dest, Dequeuing([], RefOf1(d), d.body))];
    assert [] + [d] == [d] && [] + [(0, 0)] == [(0, 0)];
    Restarts(resolve, d, ts);
    Transmits1(resolve, d, Restarted(d), 3, [d], [(0, 0)], 1);
    assert [d] + [d] == [d, d] && [(0, 0)] + [(0, 1)] == [(0, 0), (0, 1)];
  }

  function Restarted(d: Delivery): Threads { map[2 := Manager([]), 3 := Runner(d.dest, Snapshotting)] }

  lemma Restarts(resolve: Resolver, d: Delivery, ts: Threads)
    requires Reachable(resolve, Sending1(resolve, d, ts, [d]), SendingHistory(d, [(0, 0)], 0, 1))
    ensures Reachable(resolve, Sending1(resolve, d, Restarted(d), [d]), SendingHistory(d, [(0, 0)], 1, 3))
  {
    hide Reachable;
    var s, h := Sending1(resolve, d, ts, [d]), SendingHistory(d, [(0, 0)], 0, 1);
    var h1 := FirstHistory(d).(sends := [(0, 0)], epoch := 1);
    Reach(resolve, s, h, Crash);
    assert Record(h, s, Crash).live == h1.live;
    Ticks1(resolve, d, h1);
  }

  /** After a crash, a tick starts the queue again. */
  lemma Ticks1(resolve: Resolver, d: Delivery, h: History)
    requires h.runnerOf == map[]
    requires Reachable(resolve, Sending1(resolve, d, map[], [d]).(running := {}), h)
    ensures Reachable(resolve, Sending1(resolve, d, Restarted(d), [d]), h.(runnerOf := map[d.dest := 3]))
  {
    hide Reachable;
    var s1 := Sending1(resolve, d, map[], [d]).(running := {});
    var s2 := s1.(threads := map[2 := Manager([d.dest])]);
    OnlyDestination(s1, d);
    Reach(resolve, s1, h, Tick(2, [d.dest]));
    Reach(resolve, s2, h, Restart(2, 3));
    assert [d.dest][1..] == [];
    assert Apply(s2, Restart(2, 3)).threads == Restarted(d);
    assert Apply(s2, Restart(2, 3)).running == {d.dest};
    assert Record(h, s2, Restart(2, 3)).runnerOf == map[d.dest := 3];
  }

  lemma OnlyDestination(s: Sys, d: Delivery)
    requires s.queue == map[0 := Row(d.dest, 1, d.from, d.rcpt)] && 2 !in s.threads
    ensures Enabled(s, Tick(2, [d.dest]))
  {
    assert s.queue[0].dest == d.dest;
  }

  // ---- ... or its clean-up and a late insert: an Outbox UID used again ----------------------------------------------

  /** The delete of the row after the transmission. */
  lemma Dequeues1(resolve: Resolver, d: Delivery, ts: Threads)
    requires Reachable(resolve, Sending1(resolve, d, ts[1 := Runner(d.dest, Dequeuing([], RefOf1(d), d.body))], [d]),
                       SendingHistory(d, [(0, 0)], 0, 1))
    ensures Reachable(resolve, Sent1(resolve, d, ts, Checking([], RefOf1(d), d.body)), SentHistory(d))
  {
    hide Reachable;
    var s, h := Sending1(resolve, d, ts[1 := Runner(d.dest, Dequeuing([], RefOf1(d), d.body))], [d]),
                SendingHistory(d, [(0, 0)], 0, 1);
    Reach(resolve, s, h, Dequeue(1));
    assert Apply(s, Dequeue(1)).queue == map[];
    assert Apply(s, Dequeue(1)).threads == Sent1(resolve, d, ts, Checking([], RefOf1(d), d.body)).threads;
    assert Record(h, s, Dequeue(1)).live == SentHistory(d).live;
  }

  /** Cleaning up, as far as the MailDelete. */
  lemma CleansUp1(resolve: Resolver, d: Delivery, ts: Threads)
    requires Reachable(resolve, Sent1(resolve, d, ts, Checking([], RefOf1(d), d.body)), SentHistory(d))
    ensures Reachable(resolve, Sent1(resolve, d, ts, Purging([], RefOf1(d))), SentHistory(d))
  {
    hide Reachable;
    var s1, s2 := Sent1(resolve, d, ts, Checking([], RefOf1(d), d.body)),
                  Sent1(resolve, d, ts, Archiving([], RefOf1(d), d.body));
    Reach(resolve, s1, SentHistory(d), Check(1));
    assert Apply(s1, Check(1)).threads == s2.threads;
    Reach(resolve, s2, SentHistory(d), Archive(1));
    assert Apply(s2, Archive(1)).threads == Sent1(resolve, d, ts, Purging([], RefOf1(d))).threads;
  }

  function Sent1(resolve: Resolver, d: Delivery, ts: Threads, pc: RunPc): Sys {
    Sys(resolve, map[1 := Mail(d.body, false)], 2, map[], 1, {d.dest}, ts[1 := Runner(d.dest, pc)], [d])
  }

  function SentHistory(d: Delivery): History {
    History(map[1 := Entry(0, d, Cleaning(1))], [1], map[0 := d], [(0, 0)], 0, map[d.dest := 1])
  }

  /** Another submission reads uid_next before the first inserts. */
  lemma SecondReads(resolve: Resolver, d: Delivery, c: Bytes)
    requires ToHost(resolve, d)
    ensures Reachable(resolve, Init(resolve).(threads := BothInserting(d, c)), START)
  {
    hide Reachable, HostOf;
    FirstRouting(resolve, d);
    var ts := Routed(resolve, d).threads;
    var s0 := Routed(resolve, d);
    var s1 := s0.(threads := ts[9 := Submission(d.from, [d.rcpt], Routing)]);
    var s2 := s0.(threads := ts[9 := Submission(d.from, [], Reading(d.rcpt, d.dest, c))]);
    Reach(resolve, s0, START, Submit(9, d.from, [d.rcpt]));
    Reach(resolve, s1, START, Route(9, d.dest, c));
    assert [d.rcpt][1..] == [];
    assert Apply(s1, Route(9, d.dest, c)).threads == s2.threads;
    Reach(resolve, s2, START, ReadUid(9));
    assert Apply(s2, ReadUid(9)).threads == BothInserting(d, c);
  }

  function BothInserting(d: Delivery, c: Bytes): Threads {
    map[0 := Submission(d.from, [], Inserting(d.rcpt, d.dest, d.body, 1)), 9 :=
        Submission(d.from, [], Inserting(d.rcpt, d.dest, c, 1))]
  }

  /** A goroutine is about to delete message u, and a submission that read uid_next before is about to insert under
      u. */
  ghost predicate Stale(s: Sys, t: Tid, x: Tid) {
    && IsRunner(s, t) && s.threads[t].pc.Purging?
    && IsSubmission(s, x) && s.threads[x].at.Inserting? && s.threads[x].at.uid == s.threads[t].pc.ref.mid
  }

  lemma StaleReached(resolve: Resolver, d: Delivery, c: Bytes)
    requires ToHost(resolve, d)
    ensures exists s, h :: Reachable(resolve, s, h) && Stale(s, 1, 9) && s.threads[9].at.content == c
  {
    hide Reachable, ToHost, HostOf;
    SecondReads(resolve, d, c);
    var ts := BothInserting(d, c);
    FirstInsert(resolve, d, ts);
    FirstRow(resolve, d, ts);
    Kicks1(resolve, d, ts);
    Transmits1(resolve, d, Kicked(d, ts), 1, [], [], 0);
    assert [] + [d] == [d] && [] + [(0, 0)] == [(0, 0)];
    Dequeues1(resolve, d, Kicked(d, ts));
    CleansUp1(resolve, d, Kicked(d, ts));
    assert Stale(Sent1(resolve, d, Kicked(d, ts), Purging([], RefOf1(d))), 1, 9);
  }

  /** Ticket k's message was stored under u and has been sent; the message now under u, with body c, is another, not
      yet sent. */
  ghost predicate Reused(s: Sys, h: History, u: nat, k: nat, c: Bytes) {
    && u in s.outbox && s.outbox[u].body == c && u in h.live
    && IsSent(h, k) && !IsSent(h, h.live[u].ticket) && k < |h.uidOf| && h.uidOf[k] == u
  }

  /** From every such state the UID is used again, and the two messages stay apart: each has its own ticket. */
  lemma StaleUidIsReused(resolve: Resolver, s: Sys, h: History, t: Tid, x: Tid)
    requires Reachable(resolve, s, h) && Stale(s, t, x)
    ensures var u := s.threads[x].at.uid;
            && u in h.live
            && exists s', h' ::
                 Reachable(resolve, s', h') && Reused(s', h', u, h.live[u].ticket, s.threads[x].at.content)
  {
    var es :| Reaches(resolve, es, s, h);
    Always(resolve, es);
    StaleTickets(s, h, t, x);
    hide Inv, Enabled, Apply, Record, Reused, Reachable;
    Reach(resolve, s, h, Purge(t));
    Reach(resolve, Apply(s, Purge(t)), Record(h, s, Purge(t)), Insert(x));
  }

  lemma StaleTickets(s: Sys, h: History, t: Tid, x: Tid)
    requires Inv(s, h) && Stale(s, t, x)
    ensures Enabled(s, Purge(t))
    ensures var u := s.threads[x].at.uid; var s1 := Apply(s, Purge(t)); var h1 := Record(h, s, Purge(t));
            && Enabled(s1, Insert(x)) && u in h.live
            && Reused(Apply(s1, Insert(x)), Record(h1, s1, Insert(x)), u, h.live[u].ticket, s.threads[x].at.content)
  {
    StalePrecedes(s, h, t);
    StalePurge(s, h, t, x);
    hide Inv, IsSent;
    StaleInsert(Apply(s, Purge(t)), Record(h, s, Purge(t)), x);
    SameSends(h, Record(Record(h, s, Purge(t)), Apply(s, Purge(t)), Insert(x)));
  }

  lemma SameSends(h: History, h': History)
    requires h'.sends == h.sends
    ensures forall k :: IsSent(h', k) <==> IsSent(h, k)
  {}

  lemma StalePurge(s: Sys, h: History, t: Tid, x: Tid)
    requires Stale(s, t, x)
    ensures var s1, h1 := Apply(s, Purge(t)), Record(h, s, Purge(t));
            && x in s1.threads && s1.threads[x] == s.threads[x] && s.threads[x].at.uid !in s1.outbox
            && h1 == h.(live := h.live - {s.threads[x].at.uid})
  {}

  lemma StaleInsert(s: Sys, h: History, x: Tid)
    requires IsSubmission(s, x) && s.threads[x].at.Inserting? && s.threads[x].at.uid !in s.outbox
    ensures var u, s', h' := s.threads[x].at.uid, Apply(s, Insert(x)), Record(h, s, Insert(x));
            && u in s'.outbox && s'.outbox[u] == Mail(s.threads[x].at.content, false)
            && u in h'.live && h'.live[u].ticket == |h.uidOf| && h'.sends == h.sends && h'.uidOf == h.uidOf + [u]
  {}

  lemma StalePrecedes(s: Sys, h: History, t: Tid)
    requires Inv(s, h) && IsRunner(s, t) && Cleans(s.threads[t].pc)
    ensures var u := s.threads[t].pc.ref.mid;
            && u in h.live && IsSent(h, h.live[u].ticket) && !IsSent(h, |h.uidOf|)
            && h.live[u].ticket < |h.uidOf| && h.uidOf[h.live[u].ticket] == u
  {
    ThreadFact(s.threads, t, h);
    hide RowInv, ThreadInv, OwnerInv, FlagInv, DueInv;
    assert EntryOk(h.live[s.threads[t].pc.ref.mid], h);
    if IsSent(h, |h.uidOf|) { SentIsOnWire(s, h, |h.uidOf|); }
  }

  /** It does happen, to mail for every recipient outside the node. */
  lemma UidIsReused(resolve: Resolver, d: Delivery, c: Bytes)
    requires ToHost(resolve, d)
    ensures exists s, h, u, k :: Reachable(resolve, s, h) && Reused(s, h, u, k, c)
  {
    hide Reachable, ToHost, Reused;
    StaleReached(resolve, d, c);
    var s, h :| Reachable(resolve, s, h) && Stale(s, 1, 9) && s.threads[9].at.content == c;
    StaleUidIsReused(resolve, s, h, 1, 9);
  }
}
