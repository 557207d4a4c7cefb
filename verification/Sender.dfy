/** Submission and sending as one thread runs them, on the store: which messages and queue rows they make and remove.
    (What interleaving threads can do to each other is the subject of QueueProtocol.) */
module Sender {
  import opened Wrappers
  import opened Flags
  import opened Schema
  import opened Operations
  import opened StoreQueries
  import opened Storage
  import opened Calendar
  import opened TextSearch
  import opened Routing
  import opened Stamp
  import opened Postage
  import opened Delivery

  /** Accounts and queue of one node. */
  datatype Node = Node(w: World, queue: map<Id, Queued>, nextRow: Id)

  const MAX_RETRIES: nat := 10

  // ---- QueueFor: what one recipient comes to ----------------------------------------------------------------------

  datatype Route = Skip | Local | Remote(destination: string, content: Bytes)

  /** `posted` is the content with its stamp, if it could be made. */
  function RouteOf(w: World, resolve: Resolver, rcpt: string, posted: Option<Bytes>): Route {
    if |SplitN(rcpt, '@', 2)| != 2 then Skip
    else if Has(w, rcpt, INBOX) then Local
    else if HostOf(resolve, rcpt).None? || posted.None? then Skip
    else Remote(HostOf(resolve, rcpt).value, posted.value)
  }

  function SubmitOne(n: Node, resolve: Resolver, from: string, rcpt: string, content: Bytes,
                     posted: Option<Bytes>)
    : (Node, Outcome)
  {
    match RouteOf(n.w, resolve, rcpt, posted)
    case Skip => (n, OK)
    case Local => (n.(w := SpecAppend(n.w, rcpt, INBOX, Message(NO_FLAGS, content)).0), OK)
    case Remote(destination, stamped) =>
      var (w', r) := SpecAppend(n.w, SYSTEM, OUTBOX, Message(NO_FLAGS, stamped));
      if r.Failed? then (n, Failed)
      else (Node(w', n.queue[n.nextRow := Queued(destination, r.uid, from, rcpt)], n.nextRow + 1), OK)
  }

  /** One recipient after the other, up to the first error. */
  function SubmitAll(n: Node, resolve: Resolver, from: string, rcpts: seq<string>, content: Bytes,
                     posted: seq<Option<Bytes>>): (Node, Outcome)
    requires |posted| >= |rcpts|
  {
    if rcpts == [] then (n, OK)
    else
      var last := |rcpts| - 1;
      var before := SubmitAll(n, resolve, from, rcpts[..last], content, posted);
      if before.1.Failed? then before else SubmitOne(before.0, resolve, from, rcpts[last], content, posted[last])
  }

  /** A row and its message: one of the recipients, with the content stamped for it. */
  ghost predicate Carries(w: World, row: Queued, from: string, rcpts: seq<string>, posted: seq<Option<Bytes>>)
    requires |posted| >= |rcpts|
  {
    && row.from == from
    && row.id in MailIn(w, SYSTEM, OUTBOX)
    && exists i :: 0 <= i < |rcpts| && rcpts[i] == row.rcpt && posted[i] == Some(MailIn(w, SYSTEM, OUTBOX)[row.id].body)
  }

  /** Mail arrives in INBOXes and in the Outbox, and rows in the queue; nothing goes. */
  ghost predicate Extends(n: Node, n': Node) {
    && n.nextRow <= n'.nextRow
    && (forall k :: k in n.queue ==> k in n'.queue && n'.queue[k] == n.queue[k])
    && (forall k :: k in n'.queue && k !in n.queue ==> n.nextRow <= k < n'.nextRow)
    && (forall u :: u in MailIn(n.w, SYSTEM, OUTBOX) ==>
          u in MailIn(n'.w, SYSTEM, OUTBOX) && MailIn(n'.w, SYSTEM, OUTBOX)[u] == MailIn(n.w, SYSTEM, OUTBOX)[u])
    && Has(n'.w, SYSTEM, OUTBOX) == Has(n.w, SYSTEM, OUTBOX)
    && OutboxNext(n.w) <= OutboxNext(n'.w)
    && (forall u :: u in MailIn(n'.w, SYSTEM, OUTBOX) && u !in MailIn(n.w, SYSTEM, OUTBOX) ==>
        OutboxNext(n.w) <= u < OutboxNext(n'.w))
  }

  function OutboxNext(w: World): nat { if Has(w, SYSTEM, OUTBOX) then w.accounts[SYSTEM][OUTBOX].uidNext else 0 }

  /** Outbox UIDs are below the counter, row ids below theirs. */
  ghost predicate Fresh(n: Node) {
    && (forall k :: k in n.queue ==> k < n.nextRow)
    && (forall u :: u in MailIn(n.w, SYSTEM, OUTBOX) ==> u < OutboxNext(n.w))
  }

  lemma SubmitOneExtends(n: Node, resolve: Resolver, from: string, rcpt: string, content: Bytes,
                         posted: Option<Bytes>)
    requires Fresh(n)
    ensures var n' := SubmitOne(n, resolve, from, rcpt, content, posted).0;
            Extends(n, n') && Fresh(n')
  {
    hide SplitN, HostOf;
    assert INBOX != OUTBOX;
  }

  /** The new row, if there is one, carries the stamped content. */
  lemma SubmitOneCarries(n: Node, resolve: Resolver, from: string, rcpt: string, content: Bytes,
                         posted: Option<Bytes>)
    requires Fresh(n)
    ensures var n' := SubmitOne(n, resolve, from, rcpt, content, posted).0;
            forall k :: k in n'.queue && k !in n.queue ==>
              && n'.queue[k].rcpt == rcpt && n'.queue[k].from == from && n'.queue[k].id == OutboxNext(n.w)
              && n'.queue[k].id in MailIn(n'.w, SYSTEM, OUTBOX)
              && posted == Some(MailIn(n'.w, SYSTEM, OUTBOX)[n'.queue[k].id].body)
  {
    hide SplitN, HostOf;
  }

  /** Whatever is submitted, every new row has its own message, and that is the content stamped for the row's
      recipient. */
  lemma {:induction false} SubmitAllCarries(n: Node, resolve: Resolver, from: string, rcpts: seq<string>,
                                            content: Bytes, posted: seq<Option<Bytes>>)
    requires Fresh(n) && |posted| >= |rcpts|
    ensures var n' := SubmitAll(n, resolve, from, rcpts, content, posted).0;
            && Extends(n, n') && Fresh(n')
            && (forall k :: k in n'.queue && k !in n.queue ==>
                  Carries(n'.w, n'.queue[k], from, rcpts, posted) && n'.queue[k].id >= OutboxNext(n.w))
            && (forall k, l ::
                  k in n'.queue && l in n'.queue && k !in n.queue && l !in n.queue && n'.queue[k].id == n'.queue[l].id
                  ==> k == l)
  {
    if rcpts != [] {
      var last := |rcpts| - 1;
      SubmitAllCarries(n, resolve, from, rcpts[..last], content, posted);
      var before := SubmitAll(n, resolve, from, rcpts[..last], content, posted);
      if before.1.Failed? {
        CarriesMore(n, before.0, before.0, from, rcpts, posted);
      } else {
        SubmitOneExtends(before.0, resolve, from, rcpts[last], content, posted[last]);
        SubmitOneCarries(before.0, resolve, from, rcpts[last], content, posted[last]);
        hide SubmitOne;
        CarriesMore(n, before.0, SubmitOne(before.0, resolve, from, rcpts[last], content, posted[last]).0, from, rcpts,
                    posted);
      }
    }
  }

  /** Rows and messages that were there stay as they were, while recipients and rows are added. */
  lemma CarriesMore(n: Node, n1: Node, n': Node, from: string, rcpts: seq<string>, posted: seq<Option<Bytes>>)
    requires Extends(n, n1) && Extends(n1, n') && rcpts != [] && |posted| >= |rcpts|
    requires forall k :: k in n1.queue && k !in n.queue ==>
               Carries(n1.w, n1.queue[k], from, rcpts[..|rcpts| - 1], posted)
    ensures Extends(n, n')
    ensures forall k :: k in n1.queue && k !in n.queue ==> Carries(n'.w, n'.queue[k], from, rcpts, posted)
  {
    forall k | k in n1.queue && k !in n.queue ensures Carries(n'.w, n'.queue[k], from, rcpts, posted) {
      assert Carries(n1.w, n1.queue[k], from, rcpts[..|rcpts| - 1], posted);
      hide MailIn;
      var i :| 0 <= i < |rcpts| - 1 && rcpts[..|rcpts| - 1][i] == n1.queue[k].rcpt
               && posted[i] == Some(MailIn(n1.w, SYSTEM, OUTBOX)[n1.queue[k].id].body);
      assert rcpts[i] == n'.queue[k].rcpt;
    }
  }

  // ---- QueueFor, in closed form -----------------------------------------------------------------------------------

  /** A remote recipient: where its row goes, and the stamped content. */
  datatype Posting = Posting(rcpt: string, destination: string, content: Bytes)

  /** A recipient with a host and no INBOX here is remote, if its content could be stamped. */
  function PostingOf(w: World, resolve: Resolver, rcpt: string, posted: Option<Bytes>): (ps: seq<Posting>)
    ensures |ps| <= 1
  {
    if '@' in rcpt && !Has(w, rcpt, INBOX) && HostOf(resolve, rcpt).Some? && posted.Some?
    then [Posting(rcpt, HostOf(resolve, rcpt).value, posted.value)] else []
  }

  /** The remote ones among the recipients, in order. */
  function Postings(w: World, resolve: Resolver, rcpts: seq<string>,
                    posted: seq<Option<Bytes>>): seq<Posting>
    requires |posted| >= |rcpts|
  {
    if rcpts == [] then []
    else
      var last := |rcpts| - 1;
      Postings(w, resolve, rcpts[..last], posted) + PostingOf(w, resolve, rcpts[last], posted[last])
  }

  /** How many of the recipients are the local account `a`. */
  function LocalCount(w: World, rcpts: seq<string>, a: string): nat {
    if rcpts == [] then 0
    else
      var r := rcpts[|rcpts| - 1];
      LocalCount(w, rcpts[..|rcpts| - 1], a) + if r == a && '@' in r then 1 else 0
  }

  lemma RouteMeans(w: World, resolve: Resolver, rcpt: string, posted: Option<Bytes>)
    ensures var route := RouteOf(w, resolve, rcpt, posted);
            && PostingOf(w, resolve, rcpt, posted)
               == (if route.Remote? then [Posting(rcpt, route.destination, route.content)] else [])
            && (route.Local? <==> '@' in rcpt && Has(w, rcpt, INBOX))
  {
    hide SplitN, HostOf;
    NoHost(resolve, rcpt);
  }

  /** `n'` is `n` with one row and one Outbox message for each posting, in order. */
  ghost predicate PostedTo(n: Node, n': Node, from: string, ps: seq<Posting>) {
    && n'.nextRow == n.nextRow + |ps| && OutboxNext(n'.w) == OutboxNext(n.w) + |ps|
    && (forall k :: k in n'.queue <==> k in n.queue || n.nextRow <= k < n'.nextRow)
    && (forall k :: k in n.queue ==> n'.queue[k] == n.queue[k])
    && (forall j :: 0 <= j < |ps| ==>
          n'.queue[n.nextRow + j] == Queued(ps[j].destination, OutboxNext(n.w) + j, from, ps[j].rcpt))
  }

  ghost predicate StoredTo(w: World, w': World, ps: seq<Posting>) {
    && (forall u :: u in MailIn(w', SYSTEM, OUTBOX) <==>
        u in MailIn(w, SYSTEM, OUTBOX) || OutboxNext(w) <= u < OutboxNext(w) + |ps|)
    && (forall u :: u in MailIn(w, SYSTEM, OUTBOX) ==> MailIn(w', SYSTEM, OUTBOX)[u] == MailIn(w, SYSTEM, OUTBOX)[u])
    && (forall j :: 0 <= j < |ps| ==> MailIn(w', SYSTEM, OUTBOX)[OutboxNext(w) + j] == Message(NO_FLAGS, ps[j].content))
  }

  ghost predicate InboxGrown(w: World, w': World, a: string, n: nat, content: Bytes) {
    Has(w, a, INBOX) ==>
      Has(w', a, INBOX)
      && GrownBy(w.accounts[a][INBOX], w'.accounts[a][INBOX], n, Message(NO_FLAGS, content))
  }

  ghost predicate SameInboxes(w: World, w': World) { forall a :: Has(w', a, INBOX) <==> Has(w, a, INBOX) }

  lemma PostingStays(w: World, w': World, resolve: Resolver, rcpt: string, posted: Option<Bytes>)
    requires SameInboxes(w, w')
    ensures PostingOf(w', resolve, rcpt, posted) == PostingOf(w, resolve, rcpt, posted)
  {
    hide HostOf;
  }

  lemma OneInboxes(n: Node, resolve: Resolver, from: string, rcpt: string, content: Bytes,
                   posted: Option<Bytes>)
    ensures SameInboxes(n.w, SubmitOne(n, resolve, from, rcpt, content, posted).0.w)
  {
    hide SplitN, HostOf;
    assert INBOX != OUTBOX;
  }

  /** One recipient: its row and message if it is remote. */
  lemma OnePosting(n: Node, resolve: Resolver, from: string, rcpt: string, content: Bytes,
                   posted: Option<Bytes>)
    requires Fresh(n) && SubmitOne(n, resolve, from, rcpt, content, posted).1 == OK
    ensures var n' := SubmitOne(n, resolve, from, rcpt, content, posted).0;
            var ps := PostingOf(n.w, resolve, rcpt, posted);
            PostedTo(n, n', from, ps) && StoredTo(n.w, n'.w, ps)
  {
    RouteMeans(n.w, resolve, rcpt, posted);
    hide RouteOf, PostingOf;
    assert INBOX != OUTBOX;
  }

  /** One recipient: one more message in its INBOX if it is local. */
  lemma OneLocal(n: Node, resolve: Resolver, from: string, rcpt: string, content: Bytes,
                 posted: Option<Bytes>, a: string)
    ensures var w' := SubmitOne(n, resolve, from, rcpt, content, posted).0.w;
            InboxGrown(n.w, w', a, if rcpt == a && '@' in rcpt then 1 else 0, content)
  {
    RouteMeans(n.w, resolve, rcpt, posted);
    hide RouteOf, PostingOf;
    assert INBOX != OUTBOX;
  }

  lemma GrownTwice(w: World, w1: World, w': World, a: string, m: nat, n: nat, content: Bytes)
    requires InboxGrown(w, w1, a, m, content) && InboxGrown(w1, w', a, n, content)
    ensures InboxGrown(w, w', a, m + n, content)
  {}

  lemma PostedTwice(n: Node, n1: Node, n': Node, from: string, ps: seq<Posting>, qs: seq<Posting>)
    requires PostedTo(n, n1, from, ps) && StoredTo(n.w, n1.w, ps) && PostedTo(n1, n', from, qs) &&
             StoredTo(n1.w, n'.w, qs)
    requires Fresh(n) && |qs| <= 1
    ensures PostedTo(n, n', from, ps + qs) && StoredTo(n.w, n'.w, ps + qs)
  {
    hide MailIn, OutboxNext;
  }

  lemma {:induction false} SubmitOutcome(n: Node, resolve: Resolver, from: string, rcpts: seq<string>,
                                         content: Bytes, posted: seq<Option<Bytes>>)
    requires |posted| >= |rcpts|
    ensures SubmitAll(n, resolve, from, rcpts, content, posted).1 in {OK, Failed}
  {
    hide RouteOf;
    if rcpts != [] { SubmitOutcome(n, resolve, from, rcpts[..|rcpts| - 1], content, posted); }
  }

  /** A submission without an error: the remote recipients get, in order, consecutive rows that reference consecutive
      Outbox UIDs holding their stamped contents; each occurrence of a local recipient puts the content into its
      INBOX. */
  lemma {:induction false} SubmittedExactly(n: Node, resolve: Resolver, from: string, rcpts: seq<string>,
                                            content: Bytes, posted: seq<Option<Bytes>>)
    requires Fresh(n) && |posted| >= |rcpts| && SubmitAll(n, resolve, from, rcpts, content, posted).1 == OK
    ensures var n' := SubmitAll(n, resolve, from, rcpts, content, posted).0;
            var ps := Postings(n.w, resolve, rcpts, posted);
            && PostedTo(n, n', from, ps) && StoredTo(n.w, n'.w, ps) && SameInboxes(n.w, n'.w)
            && forall a :: InboxGrown(n.w, n'.w, a, LocalCount(n.w, rcpts, a), content)
  {
    hide PostingOf, InboxGrown, PostedTo, StoredTo, Fresh, SubmitOne;
    if rcpts == [] {
      NothingSubmitted(n, from, content);
    } else {
      var last := |rcpts| - 1;
      SubmitOutcome(n, resolve, from, rcpts[..last], content, posted);
      SubmittedExactly(n, resolve, from, rcpts[..last], content, posted);
      SubmitAllCarries(n, resolve, from, rcpts[..last], content, posted);
      var n1 := SubmitAll(n, resolve, from, rcpts[..last], content, posted).0;
      var n' := SubmitOne(n1, resolve, from, rcpts[last], content, posted[last]).0;
      var ps := Postings(n.w, resolve, rcpts[..last], posted);
      var qs := PostingOf(n.w, resolve, rcpts[last], posted[last]);
      PostingStays(n.w, n1.w, resolve, rcpts[last], posted[last]);
      OneInboxes(n1, resolve, from, rcpts[last], content, posted[last]);
      OnePosting(n1, resolve, from, rcpts[last], content, posted[last]);
      PostedTwice(n, n1, n', from, ps, qs);
      forall a ensures InboxGrown(n.w, n'.w, a, LocalCount(n.w, rcpts, a), content) {
        OneLocal(n1, resolve, from, rcpts[last], content, posted[last], a);
        GrownTwice(n.w, n1.w, n'.w, a, LocalCount(n.w, rcpts[..last], a),
                   if rcpts[last] == a && '@' in rcpts[last] then 1 else 0, content);
      }
    }
  }

  lemma {:induction false} PostingsHave(w: World, resolve: Resolver, rcpts: seq<string>, posted: seq<Option<Bytes>>,
                                        i: nat)
    requires |posted| >= |rcpts| && i < |rcpts|
    ensures forall p :: p in PostingOf(w, resolve, rcpts[i], posted[i]) ==> p in Postings(w, resolve, rcpts, posted)
  {
    hide PostingOf;
    if i < |rcpts| - 1 { PostingsHave(w, resolve, rcpts[..|rcpts| - 1], posted, i); }
  }

  // ---- QueueFor, by kinds of recipients ---------------------------------------------------------------------------

  /** From `w` to `w'` one message has come into the Outbox, and nothing else changed. */
  ghost predicate OnlyOutboxGrows(w: World, w': World, content: Bytes) {
    && MailIn(w', SYSTEM, OUTBOX) == MailIn(w, SYSTEM, OUTBOX)[OutboxNext(w) := Message(NO_FLAGS, content)]
    && OutboxNext(w') == OutboxNext(w) + 1
    && w'.aliases == w.aliases && w'.accounts.Keys == w.accounts.Keys
    && (forall a :: a in w.accounts ==> w'.accounts[a].Keys == w.accounts[a].Keys)
    && (forall a, f :: a in w.accounts && f in w.accounts[a] && (a != SYSTEM || f != OUTBOX) ==>
          w'.accounts[a][f] == w.accounts[a][f])
  }

  /** `r` is `n` with one row for this destination and recipient, and its message in the Outbox. */
  ghost predicate Queues(n: Node, r: (Node, Outcome), destination: string, from: string, rcpt: string, content: Bytes) {
    && r.1 == OK && r.0.nextRow == n.nextRow + 1
    && r.0.queue == n.queue[n.nextRow := Queued(destination, OutboxNext(n.w), from, rcpt)]
    && OnlyOutboxGrows(n.w, r.0.w, content)
  }

  lemma RemoteIsQueued(n: Node, resolve: Resolver, from: string, rcpt: string, content: Bytes, stamped: Bytes)
    requires !Has(n.w, rcpt, INBOX) && HostOf(resolve, rcpt).Some? && Has(n.w, SYSTEM, OUTBOX)
    ensures Queues(n, SubmitOne(n, resolve, from, rcpt, content, Some(stamped)), HostOf(resolve, rcpt).value, from,
                   rcpt, stamped)
  {
    hide SplitN, HostOf;
    NoHost(resolve, rcpt);
  }

  /** name@host, with no INBOX here: a row for that host, and the stamped content under the next Outbox UID. */
  lemma OrdinaryIsQueued(n: Node, resolve: Resolver, from: string, name: string, host: string, content: Bytes,
                         stamped: Bytes)
    requires '@' !in name && host != "yggmail"
    requires !Has(n.w, name + "@" + host, INBOX) && Has(n.w, SYSTEM, OUTBOX)
    ensures Queues(n, SubmitOne(n, resolve, from, name + "@" + host, content, Some(stamped)), host, from,
                   name + "@" + host, stamped)
  {
    HostIsDestination(resolve, name, host);
    RemoteIsQueued(n, resolve, from, name + "@" + host, content, stamped);
  }

  /** key@yggmail likewise, for the address of the key's node. */
  lemma KeyIsQueued(n: Node, resolve: Resolver, from: string, name: string, content: Bytes, stamped: Bytes)
    requires '@' !in name && resolve(name).Some?
    requires !Has(n.w, name + "@" + "yggmail", INBOX) && Has(n.w, SYSTEM, OUTBOX)
    ensures Queues(n, SubmitOne(n, resolve, from, name + "@" + "yggmail", content, Some(stamped)), resolve(name).value,
                   from, name + "@" + "yggmail", stamped)
  {
    KeyIsLookedUp(resolve, name);
    RemoteIsQueued(n, resolve, from, name + "@" + "yggmail", content, stamped);
  }

  /** A recipient is passed over exactly when it has no at sign, or has no INBOX here and is a name at yggmail that is
      not a key, or has none and the stamp could not be made. */
  lemma SkippedExactly(n: Node, resolve: Resolver, from: string, rcpt: string, content: Bytes, posted: Option<Bytes>)
    ensures SubmitOne(n, resolve, from, rcpt, content, posted) == (n, OK) <==>
            || '@' !in rcpt
            || (!Has(n.w, rcpt, INBOX)
                && (posted.None?
                    || exists name :: '@' !in name && rcpt == name + "@" + "yggmail" && resolve(name).None?))
  {
    hide SplitN, HostOf;
    NoHost(resolve, rcpt);
  }

  /** An error is the missing Outbox, for a remote recipient. */
  lemma RefusedExactly(n: Node, resolve: Resolver, from: string, rcpt: string, content: Bytes, posted: Option<Bytes>)
    ensures var (n', r) := SubmitOne(n, resolve, from, rcpt, content, posted);
            r == (if PostingOf(n.w, resolve, rcpt, posted) != [] && !Has(n.w, SYSTEM, OUTBOX) then Failed else OK)
            && (r == Failed ==> n' == n)
  {
    RouteMeans(n.w, resolve, rcpt, posted);
    hide RouteOf, PostingOf;
  }

  /** So a submission succeeds exactly when the Outbox is there or no recipient is remote. */
  lemma {:induction false} SucceedsExactly(n: Node, resolve: Resolver, from: string, rcpts: seq<string>, content: Bytes,
                                           posted: seq<Option<Bytes>>)
    requires Fresh(n) && |posted| >= |rcpts|
    ensures SubmitAll(n, resolve, from, rcpts, content, posted).1 == OK <==>
            Has(n.w, SYSTEM, OUTBOX) || Postings(n.w, resolve, rcpts, posted) == []
  {
    if rcpts != [] {
      hide SubmitOne, PostingOf, Fresh, PostedTo, StoredTo, InboxGrown, SameInboxes, MailIn, OutboxNext;
      var last := |rcpts| - 1;
      var before := SubmitAll(n, resolve, from, rcpts[..last], content, posted);
      SucceedsExactly(n, resolve, from, rcpts[..last], content, posted);
      SubmitOutcome(n, resolve, from, rcpts[..last], content, posted);
      SubmitAllCarries(n, resolve, from, rcpts[..last], content, posted);
      if before.1 == OK {
        SubmittedExactly(n, resolve, from, rcpts[..last], content, posted);
        PostingStays(n.w, before.0.w, resolve, rcpts[last], posted[last]);
        RefusedExactly(before.0, resolve, from, rcpts[last], content, posted[last]);
      }
    }
  }

  /** If the Outbox is missing, a submission ends at its first remote recipient, with those before it delivered and
      those after it not. */
  lemma {:induction false} StopsAtFirstRemote(n: Node, resolve: Resolver, from: string, rcpts: seq<string>,
                                              content: Bytes, posted: seq<Option<Bytes>>, k: nat)
    requires Fresh(n) && |posted| >= |rcpts| && k < |rcpts| && !Has(n.w, SYSTEM, OUTBOX)
    requires Postings(n.w, resolve, rcpts[..k], posted) == [] && PostingOf(n.w, resolve, rcpts[k], posted[k]) != []
    ensures SubmitAll(n, resolve, from, rcpts[..k], content, posted).1 == OK
    ensures SubmitAll(n, resolve, from, rcpts, content, posted)
         == (SubmitAll(n, resolve, from, rcpts[..k], content, posted).0, Failed)
  {
    hide SubmitOne, PostingOf, Fresh, PostedTo, StoredTo, InboxGrown, SameInboxes, MailIn, OutboxNext;
    var last := |rcpts| - 1;
    if k == last {
      var n1 := SubmitAll(n, resolve, from, rcpts[..k], content, posted).0;
      SucceedsExactly(n, resolve, from, rcpts[..k], content, posted);
      SubmittedExactly(n, resolve, from, rcpts[..k], content, posted);
      SubmitAllCarries(n, resolve, from, rcpts[..k], content, posted);
      PostingStays(n.w, n1.w, resolve, rcpts[k], posted[k]);
      RefusedExactly(n1, resolve, from, rcpts[k], content, posted[k]);
    } else {
      assert rcpts[..last][..k] == rcpts[..k];
      StopsAtFirstRemote(n, resolve, from, rcpts[..last], content, posted, k);
    }
  }

  lemma NothingSubmitted(n: Node, from: string, content: Bytes)
    requires Fresh(n)
    ensures PostedTo(n, n, from, []) && StoredTo(n.w, n.w, []) && forall a :: InboxGrown(n.w, n.w, a, 0, content)
  {}

  // ---- postage ----------------------------------------------------------------------------------------------------

  /** `posted[i]` is what QueueFor stores for recipient i: the content with one stamp made for that recipient at that
      time. */
  ghost predicate StampedFor(lib: Library, content: Bytes, rcpts: seq<string>, times: seq<int>,
                             posted: seq<Option<Bytes>>)
    requires |posted| == |rcpts| == |times|
  {
    forall i :: 0 <= i < |rcpts| && posted[i].Some? ==>
      exists token :: MadeFor(lib.sha, token, rcpts[i], times[i]) && posted[i] == Stamped(lib, content, token)
  }

  /** The receiving gate takes `content` for `rcpt` alone exactly as long as a stamp made at t is valid, if there is no
      semicolon in `rcpt`. */
  ghost predicate GateTakes(lib: Library, content: Bytes, rcpt: string, t: int) {
    lib.read(content).Some?
    && forall now :: Accepts(lib, now, Values(lib.read(content).value.header, HEADER), [rcpt])
                     == (';' !in rcpt && now - (t - t % DAY) <= 48 * HOUR)
  }

  /** Every recipient with a host and no INBOX here has a stamped content, unless the stamp could not be made. */
  ghost predicate StampedAll(lib: Library, w: World, resolve: Resolver, content: Bytes, rcpts: seq<string>,
                             times: seq<int>, random: seq<bool>, posted: seq<Option<Bytes>>)
    requires |posted| == |rcpts| == |times| == |random|
  {
    forall i :: 0 <= i < |rcpts| && '@' in rcpts[i] && !Has(w, rcpts[i], INBOX) && HostOf(resolve, rcpts[i]).Some? ==>
      posted[i].Some? || Unstampable(lib, content, rcpts[i], times[i], random[i])
  }

  /** Why a stamped content is missing: there were no random bytes, or the content cannot be read, or not be written
      with the stamp. */
  ghost predicate Unstampable(lib: Library, content: Bytes, rcpt: string, t: int, random: bool) {
    !random || lib.read(content).None?
    || exists token :: MadeFor(lib.sha, token, rcpt, t) && Stamped(lib, content, token).None?
  }

  lemma StampedPasses(lib: Library, content: Bytes, rcpts: seq<string>, times: seq<int>, posted: seq<Option<Bytes>>,
                      i: nat)
    requires Lawful(lib) && |posted| == |rcpts| == |times| && StampedFor(lib, content, rcpts, times, posted)
    requires i < |rcpts| && posted[i].Some?
    ensures GateTakes(lib, posted[i].value, rcpts[i], times[i])
  {
    hide Accepts, Values, Lawful, MadeFor, Stamped;
    var token :| MadeFor(lib.sha, token, rcpts[i], times[i]) && posted[i] == Stamped(lib, content, token);
    PostageAccepted(lib, content, token, rcpts[i], times[i], 0);
    forall now ensures Accepts(lib, now, Values(lib.read(posted[i].value).value.header, HEADER), [rcpts[i]])
                    == (';' !in rcpts[i] && now - (times[i] - times[i] % DAY) <= 48 * HOUR)
    {
      PostageAccepted(lib, content, token, rcpts[i], times[i], now);
    }
  }

  /** End to end: the message of every row QueueFor adds is one the receiving gate takes for the row's recipient, from
      the time at which it was stamped for that recipient. */
  ghost predicate PostpaidRow(lib: Library, w: World, row: Queued, rcpts: seq<string>, times: seq<int>)
    requires |times| == |rcpts|
  {
    row.id in MailIn(w, SYSTEM, OUTBOX)
    && exists i :: 0 <= i < |rcpts| && rcpts[i] == row.rcpt
                   && GateTakes(lib, MailIn(w, SYSTEM, OUTBOX)[row.id].body, row.rcpt, times[i])
  }

  lemma QueuedIsPostpaid(lib: Library, n: Node, resolve: Resolver, from: string, rcpts: seq<string>,
                         content: Bytes, times: seq<int>, posted: seq<Option<Bytes>>)
    requires Lawful(lib) && Fresh(n) && |posted| == |rcpts| == |times| && StampedFor(lib, content, rcpts, times, posted)
    ensures var n' := SubmitAll(n, resolve, from, rcpts, content, posted).0;
            forall k :: k in n'.queue && k !in n.queue ==> PostpaidRow(lib, n'.w, n'.queue[k], rcpts, times)
  {
    SubmitAllCarries(n, resolve, from, rcpts, content, posted);
    hide GateTakes, StampedFor, SubmitAll, Fresh, Extends;
    var n' := SubmitAll(n, resolve, from, rcpts, content, posted).0;
    forall k | k in n'.queue && k !in n.queue ensures PostpaidRow(lib, n'.w, n'.queue[k], rcpts, times) {
      var row := n'.queue[k];
      var i :| 0 <= i < |rcpts| && rcpts[i] == row.rcpt && posted[i] == Some(MailIn(n'.w, SYSTEM, OUTBOX)[row.id].body);
      StampedPasses(lib, content, rcpts, times, posted, i);
    }
  }

  // ---- run: what a runner's pass over its destination comes to ----------------------------------------------------

  /** One of the ten attempts succeeds. */
  predicate Sends(send: (Queued, Bytes, nat) -> bool, ref: Queued, body: Bytes) {
    exists a :: 1 <= a <= MAX_RETRIES && send(ref, body, a)
  }

  /** One row.  Its message goes when, after a success, no row is left for it. */
  function RunRow(n: Node, dest: string, ref: Queued, send: (Queued, Bytes, nat) -> bool): Node {
    var outbox := MailIn(n.w, SYSTEM, OUTBOX);
    if ref.id !in outbox || !Sends(send, ref, outbox[ref.id].body) then n
    else
      var queue := Cleared(n.queue, dest, [ref.id]);
      if Pending(queue, ref.id) then n.(queue := queue)
      else
        var w1 := Spec(n.w, DeliverToSent(ref.from, outbox[ref.id].body)).0;
        Node(Spec(w1, MailDelete(SYSTEM, OUTBOX, ref.id)).0, queue, n.nextRow)
  }

  /** The rows of this destination for this message. */
  predicate IsFor(row: Queued, dest: string, id: nat) { row.destination == dest && row.id == id }

  /** On any table, matched or not: a message that is missing or not sent changes nothing; one that is sent loses its
      rows for this destination and no others, and goes from the Outbox, with a copy filed for its sender, exactly
      when no other row needs it. */
  lemma RunRowMeans(n: Node, dest: string, ref: Queued, send: (Queued, Bytes, nat) -> bool)
    ensures var n', outbox := RunRow(n, dest, ref, send), Outbox(n);
            if ref.id in outbox && exists a :: 1 <= a <= 10 && send(ref, outbox[ref.id].body, a) then
              && (forall k :: k in n'.queue <==> k in n.queue && !IsFor(n.queue[k], dest, ref.id))
              && (forall k :: k in n'.queue ==> n'.queue[k] == n.queue[k])
              && (if exists k :: k in n.queue && n.queue[k].id == ref.id && n.queue[k].destination != dest
                  then n'.w == n.w
                  else
                    && Outbox(n') == outbox - {ref.id}
                    && (ref.from in n.w.accounts ==>
                          && ref.from in n'.w.accounts
                          && SentOf(n'.w, ref.from)
                             == Appended(SentOf(n.w, ref.from), Message(FILED, outbox[ref.id].body))))
            else n' == n
  {
    var outbox := Outbox(n);
    if ref.id in outbox && Sends(send, ref, outbox[ref.id].body) {
      ClearedMeans(n.queue, dest, ref.id);
      ArchivedOutbox(n.w, ref.from, outbox[ref.id].body, ref.id);
      if ref.from in n.w.accounts { ArchivedSent(n.w, ref.from, outbox[ref.id].body, ref.id, ref.from); }
    }
    hide MailIn, Cleared, Spec, Pending, SentOf, IsFor;
  }

  lemma ClearedMeans(queue: map<Id, Queued>, dest: string, id: nat)
    ensures var q := Cleared(queue, dest, [id]);
            && (forall k :: k in q <==> k in queue && !IsFor(queue[k], dest, id))
            && (forall k :: k in q ==> q[k] == queue[k])
            && (Pending(q, id) <==> exists k :: k in queue && queue[k].id == id && queue[k].destination != dest)
  {
    var q := Cleared(queue, dest, [id]);
    if k :| k in queue && queue[k].id == id && queue[k].destination != dest { assert k in q; }
  }

  function RunRows(n: Node, dest: string, refs: seq<Queued>, send: (Queued, Bytes, nat) -> bool): Node {
    if refs == [] then n
    else RunRow(RunRows(n, dest, refs[..|refs| - 1], send), dest, refs[|refs| - 1], send)
  }

  /** The whole pass, over the rows named by `ks`. */
  function RunAll(n: Node, dest: string, ks: seq<Id>, send: (Queued, Bytes, nat) -> bool): Node
    requires forall i :: 0 <= i < |ks| ==> ks[i] in n.queue
  {
    var n1 := RunRows(n, dest, RowsOf(n.queue, ks), send);
    n1.(w := Spec(n1.w, MailExpunge(SYSTEM, OUTBOX)).0)
  }

  type Mails = map<nat, Message>

  function Outbox(n: Node): Mails { MailIn(n.w, SYSTEM, OUTBOX) }

  /** Rows and Outbox messages correspond one to one. */
  ghost predicate Matched(queue: map<Id, Queued>, mail: Mails) {
    && (forall k :: k in queue ==> queue[k].id in mail)
    && (forall k, l :: k in queue && l in queue && queue[k].id == queue[l].id ==> k == l)
    && (forall u :: u in mail ==> Pending(queue, u))
  }

  /** Row k's message gets through. */
  ghost predicate GetsThrough(queue: map<Id, Queued>, mail: Mails, k: Id, send: (Queued, Bytes, nat) -> bool) {
    k in queue && queue[k].id in mail && Sends(send, queue[k], mail[queue[k].id].body)
  }

  /** `queue1` and `mail1` are what is left without the rows among `done` that got through, and without their
      messages. */
  ghost predicate Left(queue: map<Id, Queued>, mail: Mails, queue1: map<Id, Queued>, mail1: Mails,
                       done: set<Id>, send: (Queued, Bytes, nat) -> bool)
  {
    && (forall k :: k in queue1 <==> k in queue && !(k in done && GetsThrough(queue, mail, k, send)))
    && (forall k :: k in queue1 ==> queue1[k] == queue[k])
    && (forall u :: u in mail1 <==> u in mail && Pending(queue1, u))
    && (forall u :: u in mail1 ==> mail1[u] == mail[u])
  }

  lemma LeftMatched(queue: map<Id, Queued>, mail: Mails, queue1: map<Id, Queued>, mail1: Mails,
                    done: set<Id>, send: (Queued, Bytes, nat) -> bool)
    requires Matched(queue, mail) && Left(queue, mail, queue1, mail1, done, send)
    ensures Matched(queue1, mail1)
  {
    hide GetsThrough;
    forall k | k in queue1 ensures queue1[k].id in mail1 {
      assert Pending(queue1, queue1[k].id);
    }
  }

  /** Archiving to a Sent folder and deleting from the Outbox. */
  lemma ArchivedOutbox(w: World, from: string, body: Bytes, id: int)
    ensures var w1 := Spec(w, DeliverToSent(from, body)).0;
            MailIn(Spec(w1, MailDelete(SYSTEM, OUTBOX, id)).0, SYSTEM, OUTBOX) == MailIn(w, SYSTEM, OUTBOX) - {id}
  {
    assert SENT != OUTBOX by { assert |SENT| != |OUTBOX|; }
    assert MailIn(Spec(w, DeliverToSent(from, body)).0, SYSTEM, OUTBOX) == MailIn(w, SYSTEM, OUTBOX);
  }

  /** With matched rows, clearing one row's message id removes that row, and then none is pending for it. */
  lemma ClearedRow(queue: map<Id, Queued>, mail: Mails, dest: string, k: Id)
    requires Matched(queue, mail) && k in queue && queue[k].destination == dest
    ensures Cleared(queue, dest, [queue[k].id]) == queue - {k}
    ensures !Pending(queue - {k}, queue[k].id)
  {}

  lemma RunRowTables(n: Node, dest: string, k: Id, send: (Queued, Bytes, nat) -> bool)
    requires Matched(n.queue, Outbox(n)) && k in n.queue && n.queue[k].destination == dest
    ensures var n' := RunRow(n, dest, n.queue[k], send);
            if GetsThrough(n.queue, Outbox(n), k, send) then n'.queue == n.queue - {k} &&
                Outbox(n') == Outbox(n) - {n.queue[k].id}
            else n' == n
  {
    ClearedRow(n.queue, Outbox(n), dest, k);
    var ref := n.queue[k];
    assert ref.id in Outbox(n);
    ArchivedOutbox(n.w, ref.from, Outbox(n)[ref.id].body, ref.id);
    hide MailIn, Sends, Cleared, Spec, Pending, Matched;
  }

  lemma LeftSent(queue: map<Id, Queued>, mail: Mails, queue1: map<Id, Queued>, mail1: Mails,
                 done: set<Id>, send: (Queued, Bytes, nat) -> bool, k: Id)
    requires Matched(queue, mail) && Left(queue, mail, queue1, mail1, done, send) && k in queue1
    requires GetsThrough(queue, mail, k, send)
    ensures Left(queue, mail, queue1 - {k}, mail1 - {queue1[k].id}, done + {k}, send)
  {
    LeftMatched(queue, mail, queue1, mail1, done, send);
    StillPending(queue1, k);
    hide GetsThrough, Pending;
    OnlyRowPending(queue1, mail1, k);
  }

  lemma OnlyRowPending(queue: map<Id, Queued>, mail: Mails, k: Id)
    requires Matched(queue, mail) && k in queue
    ensures !Pending(queue - {k}, queue[k].id)
  {}

  lemma LeftUnsent(queue: map<Id, Queued>, mail: Mails, queue1: map<Id, Queued>, mail1: Mails,
                   done: set<Id>, send: (Queued, Bytes, nat) -> bool, k: Id)
    requires Left(queue, mail, queue1, mail1, done, send) && !GetsThrough(queue, mail, k, send)
    ensures Left(queue, mail, queue1, mail1, done + {k}, send)
  {
    hide GetsThrough, Pending;
  }

  lemma StillPending(queue: map<Id, Queued>, k: Id)
    requires k in queue
    ensures forall u :: Pending(queue - {k}, u) ==> Pending(queue, u)
    ensures forall u :: Pending(queue, u) && u != queue[k].id ==> Pending(queue - {k}, u)
  {
    forall u | Pending(queue, u) && u != queue[k].id ensures Pending(queue - {k}, u) {
      var l :| l in queue && queue[l].id == u;
      assert l in queue - {k};
    }
    forall u | Pending(queue - {k}, u) ensures Pending(queue, u) {
      var l :| l in queue - {k} && (queue - {k})[l].id == u;
      assert queue[l].id == u;
    }
  }

  /** A row that has not been handled is still there, with its message. */
  lemma LeftSame(queue: map<Id, Queued>, mail: Mails, queue1: map<Id, Queued>, mail1: Mails,
                 done: set<Id>, send: (Queued, Bytes, nat) -> bool, k: Id)
    requires Matched(queue, mail) && Left(queue, mail, queue1, mail1, done, send) && k in queue && k !in done
    ensures k in queue1 && queue1[k] == queue[k] &&
            (GetsThrough(queue1, mail1, k, send) <==> GetsThrough(queue, mail, k, send))
  {
    hide Sends;
    assert Pending(queue1, queue1[k].id);
  }

  lemma RunRowLeaves(n: Node, n1: Node, dest: string, k: Id, done: set<Id>, send: (Queued, Bytes, nat) -> bool)
    requires Matched(n.queue, Outbox(n)) && Left(n.queue, Outbox(n), n1.queue, Outbox(n1), done, send)
    requires k in n.queue && k !in done && n.queue[k].destination == dest
    ensures var n2 := RunRow(n1, dest, n.queue[k], send);
            Left(n.queue, Outbox(n), n2.queue, Outbox(n2), done + {k}, send)
  {
    LeftMatched(n.queue, Outbox(n), n1.queue, Outbox(n1), done, send);
    LeftSame(n.queue, Outbox(n), n1.queue, Outbox(n1), done, send, k);
    hide Matched, Left, GetsThrough, RunRow, Outbox;
    RunRowTables(n1, dest, k, send);
    if GetsThrough(n.queue, Outbox(n), k, send) {
      LeftSent(n.queue, Outbox(n), n1.queue, Outbox(n1), done, send, k);
    } else {
      LeftUnsent(n.queue, Outbox(n), n1.queue, Outbox(n1), done, send, k);
    }
  }

  lemma NothingLeft(queue: map<Id, Queued>, mail: Mails, send: (Queued, Bytes, nat) -> bool)
    requires Matched(queue, mail)
    ensures Left(queue, mail, queue, mail, {}, send)
  {
    hide GetsThrough;
  }

  lemma {:induction false} RunRowsLeave(n: Node, dest: string, ks: seq<Id>, send: (Queued, Bytes, nat) -> bool)
    requires Matched(n.queue, Outbox(n))
    requires Distinct(ks) && forall i :: 0 <= i < |ks| ==> ks[i] in n.queue && n.queue[ks[i]].destination == dest
    ensures var n1 := RunRows(n, dest, RowsOf(n.queue, ks), send);
            Left(n.queue, Outbox(n), n1.queue, Outbox(n1), KeySet(ks), send)
  {
    hide Left, RunRow, Matched, Outbox;
    if ks == [] {
      NothingLeft(n.queue, Outbox(n), send);
      assert RowsOf(n.queue, ks) == [];
      assert KeySet(ks) == {};
    } else {
      var p, k := ks[..|ks| - 1], ks[|ks| - 1];
      RunRowsLeave(n, dest, p, send);
      assert RowsOf(n.queue, ks)[..|ks| - 1] == RowsOf(n.queue, p);
      LastMember(ks);
      RunRowLeaves(n, RunRows(n, dest, RowsOf(n.queue, p), send), dest, k, KeySet(p), send);
    }
  }

  lemma LastMember(ks: seq<Id>)
    requires ks != [] && Distinct(ks)
    ensures KeySet(ks) == KeySet(ks[..|ks| - 1]) + {ks[|ks| - 1]} && ks[|ks| - 1] !in KeySet(ks[..|ks| - 1])
  {
    var p, k := ks[..|ks| - 1], ks[|ks| - 1];
    forall x ensures x in KeySet(ks) <==> x in KeySet(p) + {k} {
      assert x in ks <==> x in p || x == k;
    }
  }

  /** A pass over a destination, undisturbed: of its rows it leaves those that no attempt got through for, of the
      Outbox the messages of the rows that are left, and everything under other destinations.  The order of the rows
      does not matter. */
  lemma RunLeavesTheUnsent(n: Node, dest: string, ks: seq<Id>, send: (Queued, Bytes, nat) -> bool)
    requires Lists(ks, n.queue, dest)
    requires Matched(n.queue, Outbox(n)) && forall u :: u in Outbox(n) ==> !Outbox(n)[u].flags.deleted
    ensures var n' := RunAll(n, dest, ks, send);
            && Matched(n'.queue, Outbox(n'))
            && Left(n.queue, Outbox(n), n'.queue, Outbox(n'), RowsFor(n.queue, dest), send)
  {
    hide RunRows, Sends, Matched, Outbox, GetsThrough;
    KeysOfRows(ks, n.queue, dest);
    RunRowsLeave(n, dest, ks, send);
    var n1 := RunRows(n, dest, RowsOf(n.queue, ks), send);
    NothingExpunged(n1);
    LeftMatched(n.queue, Outbox(n), n1.queue, Outbox(n1), RowsFor(n.queue, dest), send);
  }

  /** The expunge at the end of a pass: whatever the tables, no Outbox message marked deleted is left, and of those its
      rows left there only they go. */
  lemma PassExpunges(n: Node, dest: string, ks: seq<Id>, send: (Queued, Bytes, nat) -> bool)
    requires forall i :: 0 <= i < |ks| ==> ks[i] in n.queue
    ensures var n1, n' := RunRows(n, dest, RowsOf(n.queue, ks), send), RunAll(n, dest, ks, send);
            && n'.queue == n1.queue
            && (forall u :: u in Outbox(n') <==> u in Outbox(n1) && !Outbox(n1)[u].flags.deleted)
            && (forall u :: u in Outbox(n') ==> Outbox(n')[u] == Outbox(n1)[u])
  {
    hide RunRows, RowsOf;
  }

  function KeySet(ks: seq<Id>): set<Id> { set k | k in ks }

  lemma KeysOfRows(ks: seq<Id>, queue: map<Id, Queued>, dest: string)
    requires Lists(ks, queue, dest)
    ensures KeySet(ks) == RowsFor(queue, dest)
  {}

  lemma NothingExpunged(n: Node)
    requires forall u :: u in Outbox(n) ==> !Outbox(n)[u].flags.deleted
    ensures Outbox(n.(w := Spec(n.w, MailExpunge(SYSTEM, OUTBOX)).0)) == Outbox(n)
  {}

  // ---- the copies in the senders' Sent folders --------------------------------------------------------------------

  /** The Sent folder an archived message goes to; it is made when it is needed. */
  function SentOf(w: World, a: string): Mailbox {
    if Has(w, a, SENT) then w.accounts[a][SENT] else Mailbox(1, map[])
  }

  /** The bodies of a's rows among `ks` that got through, in order. */
  ghost function Filings(queue: map<Id, Queued>, mail: Mails, ks: seq<Id>, a: string, send: (Queued, Bytes,
                         nat) -> bool): seq<Bytes> {
    if ks == [] then []
    else
      var k := ks[|ks| - 1];
      Filings(queue, mail, ks[..|ks| - 1], a, send)
      + if GetsThrough(queue, mail, k, send) && queue[k].from == a then [mail[queue[k].id].body] else []
  }

  const FILED := NO_FLAGS.(seen := true)

  /** `mb'` is `mb` with these bodies appended, marked seen. */
  ghost predicate Filed(mb: Mailbox, mb': Mailbox, bodies: seq<Bytes>) {
    && mb'.uidNext == mb.uidNext + |bodies|
    && (forall u :: u < mb.uidNext ==> (u in mb'.mail <==> u in mb.mail))
    && (forall u :: u < mb.uidNext && u in mb.mail ==> mb'.mail[u] == mb.mail[u])
    && (forall u :: mb.uidNext <= u < mb'.uidNext ==>
        u in mb'.mail && mb'.mail[u] == Message(FILED, bodies[u - mb.uidNext]))
  }

  lemma FiledMore(mb: Mailbox, mb1: Mailbox, bodies: seq<Bytes>, body: Bytes)
    requires Filed(mb, mb1, bodies)
    ensures Filed(mb, Appended(mb1, Message(FILED, body)), bodies + [body])
  {}

  lemma ArchivedSent(w: World, from: string, body: Bytes, id: int, a: string)
    requires a in w.accounts
    ensures var w' := Spec(Spec(w, DeliverToSent(from, body)).0, MailDelete(SYSTEM, OUTBOX, id)).0;
            && a in w'.accounts
            && SentOf(w', a) == if a == from then Appended(SentOf(w, a), Message(FILED, body)) else SentOf(w, a)
  {
    assert SENT != OUTBOX by { assert |SENT| != |OUTBOX|; }
    var w1 := Spec(w, DeliverToSent(from, body)).0;
    assert a in w1.accounts;
    assert SentOf(w1, a) == if a == from then Appended(SentOf(w, a), Message(FILED, body)) else SentOf(w, a);
  }

  lemma RunRowSent(n: Node, dest: string, k: Id, send: (Queued, Bytes, nat) -> bool, a: string)
    requires Matched(n.queue, Outbox(n)) && k in n.queue && n.queue[k].destination == dest && a in n.w.accounts
    ensures var w' := RunRow(n, dest, n.queue[k], send).w;
            && a in w'.accounts
            && SentOf(w', a) == if GetsThrough(n.queue, Outbox(n), k, send) && n.queue[k].from == a
                                then Appended(SentOf(n.w, a), Message(FILED, Outbox(n)[n.queue[k].id].body))
                                    else SentOf(n.w, a)
  {
    ClearedRow(n.queue, Outbox(n), dest, k);
    var ref := n.queue[k];
    assert ref.id in Outbox(n);
    ArchivedSent(n.w, ref.from, Outbox(n)[ref.id].body, ref.id, a);
    hide MailIn, Sends, Cleared, Spec, Pending, Matched, SentOf;
  }

  /** A pass files what got through in its sender's Sent folder: each message once, in the order of the pass, and
      nothing else. */
  lemma {:induction false} RunFilesTheSent(n: Node, dest: string, ks: seq<Id>, send: (Queued, Bytes, nat) -> bool,
                                           a: string)
    requires Matched(n.queue, Outbox(n)) && a in n.w.accounts
    requires Distinct(ks) && forall i :: 0 <= i < |ks| ==> ks[i] in n.queue && n.queue[ks[i]].destination == dest
    ensures var n1 := RunRows(n, dest, RowsOf(n.queue, ks), send);
            && a in n1.w.accounts
            && Filed(SentOf(n.w, a), SentOf(n1.w, a), Filings(n.queue, Outbox(n), ks, a, send))
  {
    hide Left, RunRow, Matched, Outbox, SentOf, GetsThrough;
    if ks == [] {
      assert RowsOf(n.queue, ks) == [];
    } else {
      var p, k := ks[..|ks| - 1], ks[|ks| - 1];
      RunFilesTheSent(n, dest, p, send, a);
      RunRowsLeave(n, dest, p, send);
      LastMember(ks);
      assert RowsOf(n.queue, ks)[..|ks| - 1] == RowsOf(n.queue, p);
      var n1 := RunRows(n, dest, RowsOf(n.queue, p), send);
      LeftMatched(n.queue, Outbox(n), n1.queue, Outbox(n1), KeySet(p), send);
      LeftSame(n.queue, Outbox(n), n1.queue, Outbox(n1), KeySet(p), send, k);
      SameBody(n.queue, Outbox(n), n1.queue, Outbox(n1), KeySet(p), send, k);
      RunRowSent(n1, dest, k, send, a);
      hide Filed;
      if GetsThrough(n.queue, Outbox(n), k, send) && n.queue[k].from == a {
        FiledMore(SentOf(n.w, a), SentOf(n1.w, a), Filings(n.queue, Outbox(n), p, a, send),
                  Outbox(n)[n.queue[k].id].body);
      } else {
        assert Filings(n.queue, Outbox(n), p, a, send) + [] == Filings(n.queue, Outbox(n), p, a, send);
      }
    }
  }

  lemma SameBody(queue: map<Id, Queued>, mail: Mails, queue1: map<Id, Queued>, mail1: Mails,
                 done: set<Id>, send: (Queued, Bytes, nat) -> bool, k: Id)
    requires Matched(queue, mail) && Left(queue, mail, queue1, mail1, done, send) && k in queue1
    ensures queue[k].id in mail && queue[k].id in mail1 && mail1[queue[k].id] == mail[queue[k].id]
  {
    LeftMatched(queue, mail, queue1, mail1, done, send);
    hide GetsThrough;
  }
}
