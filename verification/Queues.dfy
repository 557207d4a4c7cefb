/** The sender's objects: submission, starting runners, the manager's tick, and a runner's pass over its destination. */
module Queues {
  import opened Wrappers
  import opened Schema
  import opened Operations
  import opened StoreQueries
  import opened Storage
  import opened Stamp
  import opened Calendar
  import opened TextSearch
  import opened Routing
  import opened Postage
  import opened Sender

  /** What can be different from one recipient to the next: the clock, and the nonce (None: no random bytes). */
  datatype Moment = Moment(time: int, random: Option<seq<byte>>)

  function TimesOf(ms: seq<Moment>): (ts: seq<int>)
    ensures |ts| == |ms| && forall i :: 0 <= i < |ms| ==> ts[i] == ms[i].time
  {
    seq(|ms|, i requires 0 <= i < |ms| => ms[i].time)
  }

  function RandomOf(ms: seq<Moment>): (bs: seq<bool>)
    ensures |bs| == |ms| && forall i :: 0 <= i < |ms| ==> bs[i] == ms[i].random.Some?
  {
    seq(|ms|, i requires 0 <= i < |ms| => ms[i].random.Some?)
  }

  class Queues {
    const store: Store
    const lib: Library
    const resolve: Resolver

    /** The queues that have been asked for, with their `running` flags. */
    var running: map<string, bool>

    constructor (store: Store, lib: Library, resolve: Resolver)
      ensures this.store == store && this.lib == lib && this.resolve == resolve && running == map[]
    {
      this.store, this.lib, this.resolve, running := store, lib, resolve, map[];
    }

    ghost function State(): Node
      reads store
    {
      Node(View(store.db), store.queue, store.nextRow)
    }

    ghost predicate Valid()
      reads store
    {
      store.Valid() && forall k :: k in store.queue ==> k < store.nextRow
    }

    /** LoadOrStore, then compare-and-swap: a runner is started exactly when none is active, and is active
        afterwards. */
    method StartQueue(destination: string) returns (started: bool)
      modifies this`running
      ensures running == old(running)[destination := true]
      ensures started <==> !(destination in old(running) && old(running)[destination])
    {
      if destination !in running {
        running := running[destination := false];
      }
      if running[destination] {
        started := false;
      } else {
        running := running[destination := true];
        started := true;
      }
    }

    /** The stamped content, if everything it takes succeeds. */
    method Post(rcpt: string, content: Bytes, m: Moment) returns (posted: Option<Bytes>)
      requires Printable(m.time) && Solvable(lib.sha)
      ensures posted.Some? ==> exists token ::
                MadeFor(lib.sha, token, rcpt, m.time) && posted == Stamped(lib, content, token)
      ensures posted.None? ==> Unstampable(lib, content, rcpt, m.time, m.random.Some?)
    {
      hide MadeFor, MadeFrom, Solvable, Printable, Set;
      var msg := lib.read(content);
      if msg.None? || m.random.None? { return None; }
      var powStamp := Generate(lib.sha, rcpt, m.time, m.random.value);
      posted := lib.write(msg.value.(header := Set(msg.value.header, HEADER, powStamp)));
    }

    /** One recipient. */
    method Submit(from: string, rcpt: string, content: Bytes, m: Moment) returns (r: Outcome, posted: Option<Bytes>)
      requires Valid() && Printable(m.time) && Solvable(lib.sha)
      modifies store, this`running
      ensures Valid()
      ensures posted.Some? ==> exists token ::
                MadeFor(lib.sha, token, rcpt, m.time) && posted == Stamped(lib, content, token)
      ensures '@' in rcpt && !Has(old(State()).w, rcpt, INBOX) && HostOf(resolve, rcpt).Some? ==>
                posted.Some? || Unstampable(lib, content, rcpt, m.time, m.random.Some?)
      ensures (State(), r) == SubmitOne(old(State()), resolve, from, rcpt, content, posted)
      ensures RouteOf(old(State()).w, resolve, rcpt, posted).Remote? && r == OK ==>
                running == old(running)[RouteOf(old(State()).w, resolve, rcpt, posted).destination := true]
      ensures !(RouteOf(old(State()).w, resolve, rcpt, posted).Remote? && r == OK) ==> running == old(running)
    {
      hide Sound, View, Do, MadeFor, Stamped, SplitN, Solvable, Printable, Unstampable;
      NoHost(resolve, rcpt);
      posted := None;
      r := OK;
      var parts := SplitN(rcpt, '@', 2);
      if |parts| != 2 { return; }
      var host := parts[1];
      ghost var w := View(store.db);
      var local := store.DeliverToUser(rcpt, content);
      if local.Done? { return; }
      assert View(store.db) == w;
      var destIPv6 := host;
      if host == YGGMAIL {
        var ipv6 := resolve(parts[0]);
        if ipv6.None? { return; }
        destIPv6 := ipv6.value;
      }
      posted := Post(rcpt, content, m);
      if posted.None? { return; }
      var pid := store.MailCreate(SYSTEM, OUTBOX, posted.value);
      if pid.Failed? { return Failed, posted; }
      store.QueueInsertDestinationForID(destIPv6, pid.uid, from, rcpt);
      var _ := StartQueue(destIPv6);
    }

    /** Submission: every recipient in turn, up to the first error.  Without one, every recipient with a host and no
        INBOX here has its row and its message, unless its stamp could not be made.  Every row belongs to a queue that
        is running, and its message is one the receiving gate takes for the row's recipient. */
    method QueueFor(from: string, rcpts: seq<string>, content: Bytes, ms: seq<Moment>)
      returns (r: Outcome, ghost posted: seq<Option<Bytes>>)
      requires Valid() && Solvable(lib.sha)
      requires |ms| == |rcpts| && forall i :: 0 <= i < |ms| ==> Printable(ms[i].time)
      modifies store, this`running
      ensures Valid()
      ensures |posted| == |rcpts| && StampedFor(lib, content, rcpts, TimesOf(ms), posted)
      ensures (State(), r) == SubmitAll(old(State()), resolve, from, rcpts, content, posted)
      ensures r == OK ==>
                StampedAll(lib, old(State()).w, resolve, content, rcpts, TimesOf(ms), RandomOf(ms), posted)
      ensures r == OK ==>
                var ps := Postings(old(State()).w, resolve, rcpts, posted);
                PostedTo(old(State()), State(), from, ps) && StoredTo(old(State()).w, State().w, ps)
      ensures forall k :: k in store.queue && k !in old(store.queue) ==> Runs(running, store.queue[k].destination)
      ensures forall d :: Runs(old(running), d) ==> Runs(running, d)
      ensures Lawful(lib) ==> forall k :: k in store.queue && k !in old(store.queue) ==>
                PostpaidRow(lib, View(store.db), store.queue[k], rcpts, TimesOf(ms))
    {
      r, posted := SubmitEach(from, rcpts, content, ms);
      StateFresh(old(store.db), old(store.queue), old(store.nextRow));
      hide PostedTo, StoredTo, Postings, StampedAll, Lawful, StampedFor, SubmitAll, PostpaidRow, Sound, View, Fresh;
      if r == OK { SubmittedExactly(old(State()), resolve, from, rcpts, content, posted); }
      if Lawful(lib) {
        QueuedIsPostpaid(lib, old(State()), resolve, from, rcpts, content, TimesOf(ms), posted);
      }
    }

    method SubmitEach(from: string, rcpts: seq<string>, content: Bytes, ms: seq<Moment>)
      returns (r: Outcome, ghost posted: seq<Option<Bytes>>)
      requires Valid() && Solvable(lib.sha)
      requires |ms| == |rcpts| && forall i :: 0 <= i < |ms| ==> Printable(ms[i].time)
      modifies store, this`running
      ensures Valid()
      ensures |posted| == |rcpts| && StampedFor(lib, content, rcpts, TimesOf(ms), posted)
      ensures (State(), r) == SubmitAll(old(State()), resolve, from, rcpts, content, posted)
      ensures r == OK ==>
                StampedAll(lib, old(State()).w, resolve, content, rcpts, TimesOf(ms), RandomOf(ms), posted)
      ensures forall k :: k in store.queue && k !in old(store.queue) ==> Runs(running, store.queue[k].destination)
      ensures forall d :: Runs(old(running), d) ==> Runs(running, d)
    {
      hide Sound, View, SubmitOne, MadeFor, Stamped, Solvable, Printable, StampedFor, RouteOf,
          StampedAll, SameInboxes, Unstampable;
      posted := [];
      assert rcpts[..0] == [] && TimesOf(ms)[..0] == [] && RandomOf(ms)[..0] == [];
      NoneStamped(lib, old(State()).w, resolve, content);
      for i := 0 to |rcpts|
        invariant Valid() && |posted| == i
        invariant (State(), OK) == SubmitAll(old(State()), resolve, from, rcpts[..i], content, posted)
        invariant StampedFor(lib, content, rcpts[..i], TimesOf(ms)[..i], posted)
        invariant SameInboxes(old(State()).w, State().w)
        invariant StampedAll(lib, old(State()).w, resolve, content, rcpts[..i], TimesOf(ms)[..i], RandomOf(ms)[..i],
                             posted)
        invariant forall k :: k in store.queue && k !in old(store.queue) ==> Runs(running, store.queue[k].destination)
        invariant forall d :: Runs(old(running), d) ==> Runs(running, d)
      {
        ghost var one;
        label before:
        r, one := Submit(from, rcpts[i], content, ms[i]);
        OneSubmitted(old@before(State()), resolve, from, rcpts[i], content, one);
        OneInboxes(old@before(State()), resolve, from, rcpts[i], content, one);
        SameInboxesTwice(old(State()).w, old@before(State()).w, State().w);
        StampedAllMore(lib, old(State()).w, old@before(State()).w, resolve, content, rcpts, TimesOf(ms), RandomOf(ms),
                       i, posted, one);
        StampedMore(lib, content, rcpts, TimesOf(ms), i, posted, one);
        SubmitMore(old(State()), resolve, from, rcpts[..i + 1], content, posted + [one], posted);
        assert rcpts[..i + 1][..i] == rcpts[..i];
        posted := posted + [one];
        if r.Failed? {
          ghost var all := posted + seq(|rcpts| - i - 1, _ => None);
          SubmitStops(old(State()), resolve, from, rcpts, content, posted, all, i + 1);
          StampedRest(lib, content, rcpts, TimesOf(ms), i + 1, posted, all);
          posted := all;
          return;
        }
      }
      assert rcpts[..|rcpts|] == rcpts && TimesOf(ms)[..|rcpts|] == TimesOf(ms);
      assert RandomOf(ms)[..|rcpts|] == RandomOf(ms);
      r := OK;
    }

    /** The manager's tick: afterwards every destination with a row has an active runner, started now or before. */
    method Tick() returns (started: seq<string>)
      modifies this`running
      ensures forall d :: d in Destinations(store.queue) ==> Runs(running, d)
      ensures forall d :: d !in Destinations(store.queue) ==> (d in running <==> d in old(running))
      ensures forall d :: d !in Destinations(store.queue) && d in running ==> running[d] == old(running)[d]
      ensures forall d :: d in started <==> d in Destinations(store.queue) && !Runs(old(running), d)
    {
      var dests := store.QueueListDestinations();
      started := [];
      for i := 0 to |dests|
        invariant forall d :: d in dests[..i] ==> Runs(running, d)
        invariant forall d :: d !in dests[..i] ==> (d in running <==> d in old(running))
        invariant forall d :: d !in dests[..i] && d in running ==> running[d] == old(running)[d]
        invariant forall d :: d in started <==> d in dests[..i] && !Runs(old(running), d)
      {
        assert dests[..i + 1] == dests[..i] + [dests[i]];
        assert dests[i] !in dests[..i];
        var spawned := StartQueue(dests[i]);
        if spawned { started := started + [dests[i]]; }
      }
      assert dests[..|dests|] == dests;
    }

    // ---- a runner -------------------------------------------------------------------------------------------------

    /** At most ten attempts, none after a success. */
    method SendWithRetry(ref: Queued, body: Bytes, send: (Queued, Bytes, nat) -> bool)
      returns (sent: bool, attempts: nat)
      ensures sent == Sends(send, ref, body)
      ensures 1 <= attempts <= 10 && forall a :: 1 <= a < attempts ==> !send(ref, body, a)
      ensures sent ==> send(ref, body, attempts)
      ensures !sent ==> forall a :: 1 <= a <= 10 ==> !send(ref, body, a)
    {
      sent := false;
      attempts := 0;
      while attempts < MAX_RETRIES && !sent
        invariant attempts <= MAX_RETRIES && (sent ==> attempts >= 1 && send(ref, body, attempts))
        invariant forall a :: 1 <= a < attempts ==> !send(ref, body, a)
        invariant !sent && attempts >= 1 ==> !send(ref, body, attempts)
        decreases MAX_RETRIES - attempts, !sent
      {
        attempts := attempts + 1;
        if send(ref, body, attempts) { sent := true; }
      }
    }

    /** One row of the pass. */
    method RunOne(destination: string, ref: Queued, send: (Queued, Bytes, nat) -> bool)
      requires Valid()
      modifies store
      ensures Valid() && State() == RunRow(old(State()), destination, ref, send)
    {
      hide Sound, View, Do, MailIn, Sends, Pending, Spec;
      var mail := store.MailSelect(SYSTEM, OUTBOX, ref.id);
      if mail.Err? { return; }
      var body := mail.value.1.body;
      var sent, _ := SendWithRetry(ref, body, send);
      if !sent { return; }
      store.QueueDeleteDestinationForID(destination, ref.id);
      var pending := store.QueueSelectIsMessagePendingSend(SYSTEM, ref.id);
      if !pending {
        var _ := store.DeliverToSent(ref.from, body);
        var _ := store.MailDelete(SYSTEM, OUTBOX, ref.id);
      }
    }

    /** A runner's pass over its destination, from the flag set to the flag cleared. */
    method Run(destination: string, send: (Queued, Bytes, nat) -> bool) returns (ghost keys: seq<Id>)
      requires Valid() && Runs(running, destination)
      modifies store, this`running
      ensures Lists(keys, old(store.queue), destination)
      ensures Valid() && State() == RunAll(old(State()), destination, keys, send)
      ensures running == old(running)[destination := false]
    {
      hide Sound, View, Do, MailIn, RunRow, Spec;
      var refs := store.QueueMailIDsForDestination(destination);
      keys :| Lists(keys, store.queue, destination) && refs == RowsOf(store.queue, keys);
      for i := 0 to |refs|
        invariant Valid() && State() == RunRows(old(State()), destination, refs[..i], send)
        invariant running == old(running)
      {
        assert refs[..i + 1][..i] == refs[..i];
        RunOne(destination, refs[i], send);
      }
      assert refs[..|refs|] == refs;
      var _ := store.MailExpunge(SYSTEM, OUTBOX);
      running := running[destination := false];
    }
  }

  predicate Runs(running: map<string, bool>, d: string) { d in running && running[d] }

  /** What QueueFor needs of the state holds of any store. */
  lemma StateFresh(db: Db, queue: map<Id, Queued>, nextRow: Id)
    requires Sound(db) && forall k :: k in queue ==> k < nextRow
    ensures Fresh(Node(View(db), queue, nextRow))
  {
    hide View, Sound;
    if Has(View(db), SYSTEM, OUTBOX) { FoldersAreNumbered(db, SYSTEM, OUTBOX); }
  }

  /** One recipient ends without an error or with one; a new row is a remote one. */
  lemma OneSubmitted(n: Node, resolve: Resolver, from: string, rcpt: string, content: Bytes,
                     posted: Option<Bytes>)
    ensures var (n', r) := SubmitOne(n, resolve, from, rcpt, content, posted);
            var route := RouteOf(n.w, resolve, rcpt, posted);
            && r in {OK, Failed}
            && (n'.queue != n.queue ==> r == OK && route.Remote?)
            && (forall k :: k in n'.queue && k !in n.queue ==>
                route.Remote? && n'.queue[k].destination == route.destination)
            && (r.Failed? ==> n' == n)
            && (forall k :: k in n.queue && k != n.nextRow ==> k in n'.queue && n'.queue[k] == n.queue[k])
  {
    hide SplitN;
  }

  lemma NoneStamped(lib: Library, w: World, resolve: Resolver, content: Bytes)
    ensures StampedFor(lib, content, [], [], []) && StampedAll(lib, w, resolve, content, [], [], [], [])
    ensures SameInboxes(w, w)
  {}

  lemma SameInboxesTwice(w: World, w1: World, w2: World)
    requires SameInboxes(w, w1) && SameInboxes(w1, w2)
    ensures SameInboxes(w, w2)
  {}

  lemma StampedAllMore(lib: Library, w: World, w1: World, resolve: Resolver, content: Bytes, rcpts: seq<string>,
                       times: seq<int>, random: seq<bool>, i: nat, posted: seq<Option<Bytes>>, one: Option<Bytes>)
    requires |times| == |rcpts| == |random| && |posted| == i < |rcpts| && SameInboxes(w, w1)
    requires StampedAll(lib, w, resolve, content, rcpts[..i], times[..i], random[..i], posted)
    requires '@' in rcpts[i] && !Has(w1, rcpts[i], INBOX) && HostOf(resolve, rcpts[i]).Some? ==>
               one.Some? || Unstampable(lib, content, rcpts[i], times[i], random[i])
    ensures StampedAll(lib, w, resolve, content, rcpts[..i + 1], times[..i + 1], random[..i + 1], posted + [one])
  {
    hide Unstampable, Has;
    forall j | 0 <= j < i && '@' in rcpts[j] && !Has(w, rcpts[j], INBOX) && HostOf(resolve, rcpts[j]).Some?
      ensures posted[j].Some? || Unstampable(lib, content, rcpts[j], times[j], random[j])
    {
      assert rcpts[..i][j] == rcpts[j] && times[..i][j] == times[j] && random[..i][j] == random[j];
    }
  }

  lemma StampedMore(lib: Library, content: Bytes, rcpts: seq<string>, times: seq<int>, i: nat,
                    posted: seq<Option<Bytes>>,
                    one: Option<Bytes>)
    requires |times| == |rcpts| && |posted| == i < |rcpts| && StampedFor(lib, content, rcpts[..i], times[..i], posted)
    requires one.Some? ==> exists token ::
               MadeFor(lib.sha, token, rcpts[i], times[i]) && one == Stamped(lib, content, token)
    ensures StampedFor(lib, content, rcpts[..i + 1], times[..i + 1], posted + [one])
  {
    hide MadeFor, Stamped;
    forall j | 0 <= j < i && posted[j].Some?
      ensures exists token :: MadeFor(lib.sha, token, rcpts[j], times[j]) && posted[j] == Stamped(lib, content, token)
    {
      assert rcpts[..i][j] == rcpts[j] && times[..i][j] == times[j];
    }
  }

  lemma StampedRest(lib: Library, content: Bytes, rcpts: seq<string>, times: seq<int>, i: nat,
                    posted: seq<Option<Bytes>>,
                    all: seq<Option<Bytes>>)
    requires |times| == |rcpts| == |all| && |posted| == i <= |rcpts| &&
             StampedFor(lib, content, rcpts[..i], times[..i], posted)
    requires all[..i] == posted && forall j :: i <= j < |all| ==> all[j].None?
    ensures StampedFor(lib, content, rcpts, times, all)
  {
    hide MadeFor, Stamped;
    forall j | 0 <= j < |rcpts| && all[j].Some?
      ensures exists token :: MadeFor(lib.sha, token, rcpts[j], times[j]) && all[j] == Stamped(lib, content, token)
    {
      assert rcpts[..i][j] == rcpts[j] && times[..i][j] == times[j] && all[j] == posted[j];
    }
  }

  /** Only the contents for the recipients handled so far matter. */
  lemma {:induction false} SubmitMore(n: Node, resolve: Resolver, from: string, rcpts: seq<string>,
                                      content: Bytes,
                                      more: seq<Option<Bytes>>, posted: seq<Option<Bytes>>)
    requires |rcpts| > 0 && |more| >= |rcpts| && |posted| >= |rcpts| - 1 && more[..|rcpts| - 1] == posted[..|rcpts| - 1]
    ensures SubmitAll(n, resolve, from, rcpts[..|rcpts| - 1], content, more) ==
            SubmitAll(n, resolve, from, rcpts[..|rcpts| - 1], content, posted)
  {
    SubmitPrefix(n, resolve, from, rcpts[..|rcpts| - 1], content, more, posted);
  }

  lemma {:induction false} SubmitPrefix(n: Node, resolve: Resolver, from: string, rcpts: seq<string>,
                                        content: Bytes,
                                        a: seq<Option<Bytes>>, b: seq<Option<Bytes>>)
    requires |a| >= |rcpts| && |b| >= |rcpts| && a[..|rcpts|] == b[..|rcpts|]
    ensures SubmitAll(n, resolve, from, rcpts, content, a) == SubmitAll(n, resolve, from, rcpts, content, b)
  {
    if rcpts != [] {
      hide SubmitOne;
      var last := |rcpts| - 1;
      assert a[last] == a[..|rcpts|][last] == b[last];
      assert a[..last] == a[..|rcpts|][..last] == b[..last];
      SubmitPrefix(n, resolve, from, rcpts[..last], content, a, b);
    }
  }

  /** After an error nothing more is submitted. */
  lemma {:induction false} SubmitStops(n: Node, resolve: Resolver, from: string, rcpts: seq<string>,
                                       content: Bytes,
                                       posted: seq<Option<Bytes>>, all: seq<Option<Bytes>>, i: nat)
    requires i <= |rcpts| && |posted| == i && |all| >= |rcpts| && all[..i] == posted
    requires SubmitAll(n, resolve, from, rcpts[..i], content, posted).1.Failed?
    ensures SubmitAll(n, resolve, from, rcpts, content, all) == SubmitAll(n, resolve, from, rcpts[..i], content, posted)
  {
    hide SubmitOne;
    if i == |rcpts| {
      assert rcpts[..i] == rcpts;
      SubmitPrefix(n, resolve, from, rcpts, content, posted, all);
    } else {
      var last := |rcpts| - 1;
      assert rcpts[..last][..i] == rcpts[..i];
      SubmitStops(n, resolve, from, rcpts[..last], content, posted, all, i);
    }
  }
}
