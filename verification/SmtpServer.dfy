/** The two SMTP sessions: mail arriving from other nodes, and mail submitted by local users. */
module SmtpServer {
  import opened Wrappers
  import opened Schema
  import opened Operations
  import opened Storage
  import opened TextSearch
  import opened Calendar
  import opened Stamp
  import opened Postage
  import opened Delivery
  import opened Sender
  import opened Queues

  /** What is found out about the peer of a connection. */
  datatype Peer = Peer(handshake: bool, certificates: nat, tcp: bool, ed25519: bool, keyMatchesAddress: bool)

  /** The trace headers the receiving session adds on top. */
  function Traced(e: Entity, received: string, date: string): Entity {
    e.(header := Add(Add(e.header, "Received", received), "Delivery-Date", date))
  }

  /** What is delivered of a message that arrives, if anything: it can be read, and a stamp pays for each recipient. */
  function Admitted(lib: Library, now: int, r: Bytes, rcpts: seq<string>, received: string,
                    date: string): Option<Bytes> {
    var e := lib.read(r);
    if e.None? || !Accepts(lib, now, Values(e.value.header, HEADER), rcpts) then None
    else lib.write(Traced(e.value, received, date))
  }

  /** A message that can be read, and written with its trace headers, is let in exactly when the work was done for each
      recipient; then it is what came, with those two headers on top: the body and every other header are as they
      came. */
  lemma AdmittedMeans(lib: Library, now: int, r: Bytes, rcpts: seq<string>, received: string, date: string)
    requires Lawful(lib)
    ensures var was, b := lib.read(r), Admitted(lib, now, r, rcpts, received, date);
            if b.None? then
              || was.None? || lib.write(Traced(was.value, received, date)).None?
              || exists i :: 0 <= i < |rcpts| && !WorkIn(lib, now, Values(was.value.header, HEADER), rcpts[i])
            else
              && was.Some? && (forall i :: 0 <= i < |rcpts| ==>
                                 WorkIn(lib, now, Values(was.value.header, HEADER), rcpts[i]))
              && lib.read(b.value).Some?
              && var (h, h') := (was.value.header, lib.read(b.value).value.header);
                 && lib.read(b.value).value.body == was.value.body
                 && forall name :: Values(h', name)
                      == (if name == "Received" then [received] else if name == "Delivery-Date" then [date] else [])
                         + Values(h, name)
  {
    hide Accepts, Values, Traced, WorkIn, Add;
    var was := lib.read(r);
    if was.Some? {
      AcceptsMeans(lib, now, Values(was.value.header, HEADER), rcpts);
      TracedKeeps(was.value, received, date);
    }
  }

  lemma AdmittedHeader(lib: Library, now: int, r: Bytes, rcpts: seq<string>, received: string, date: string,
                       name: string)
    requires Lawful(lib) && Admitted(lib, now, r, rcpts, received, date).Some?
    requires name != "Received" && name != "Delivery-Date"
    ensures var b := Admitted(lib, now, r, rcpts, received, date).value;
            && lib.read(r).Some? && lib.read(b).Some?
            && Values(lib.read(b).value.header, name) == Values(lib.read(r).value.header, name)
  {
    hide Values, Accepts, Traced;
    TracedKeeps(lib.read(r).value, received, date);
    assert [] + Values(lib.read(r).value.header, name) == Values(lib.read(r).value.header, name);
  }

  lemma TracedKeeps(e: Entity, received: string, date: string)
    ensures var e' := Traced(e, received, date);
            && e'.body == e.body
            && forall name :: Values(e'.header, name)
                 == (if name == "Received" then [received] else if name == "Delivery-Date" then [date] else [])
                    + Values(e.header, name)
  {
    hide Values, Add;
    forall name ensures Values(Traced(e, received, date).header, name)
        == (if name == "Received" then [received] else if name == "Delivery-Date" then [date] else [])
           + Values(e.header, name)
    {
      AddValues(e.header, "Received", received, name);
      AddValues(Add(e.header, "Received", received), "Delivery-Date", date, name);
    }
  }

  class SessionYgg {
    const store: Store
    const lib: Library
    var from: string
    var rcpts: seq<string>

    constructor (store: Store, lib: Library)
      ensures this.store == store && this.lib == lib && from == "" && rcpts == []
    {
      this.store, this.lib, from, rcpts := store, lib, "", [];
    }

    /** A transaction starts, without recipients, exactly when the peer is identified: TLS is up with a certificate,
        over TCP, and its Ed25519 key is that of the peer's address. */
    method Mail(peer: Peer, from: string) returns (r: Outcome)
      modifies this
      ensures r == if peer.handshake && peer.certificates > 0 && peer.tcp && peer.ed25519 && peer.keyMatchesAddress
                   then OK else Failed
      ensures if r == OK then this.from == from && rcpts == [] else unchanged(this)
    {
      if !peer.handshake { return Failed; }
      if peer.certificates == 0 { return Failed; }
      if !peer.tcp { return Failed; }
      if !peer.ed25519 { return Failed; }
      if !peer.keyMatchesAddress { return Failed; }
      this.from := from;
      rcpts := [];
      r := OK;
    }

    method Rcpt(to: string) returns (r: Outcome)
      modifies this`rcpts
      ensures r == (if '@' in to then OK else Failed)
      ensures rcpts == old(rcpts) + if '@' in to then [to] else []
    {
      if '@' !in to { return Failed; }
      rcpts := rcpts + [to];
      r := OK;
    }

    method Reset()
      modifies this
      ensures from == "" && rcpts == []
    {
      from := "";
      rcpts := [];
    }

    /** The inner loop: the recipients one verifying token is for. */
    method MarkRecipients(tokenRecipient: string, validated: map<string, bool>) returns (v: map<string, bool>)
      ensures forall r :: r in v <==> r in validated || (r in rcpts && Clean(lib, r) == tokenRecipient)
      ensures forall r :: r in v ==>
                v[r] == if r in rcpts && Clean(lib, r) == tokenRecipient then true else validated[r]
    {
      hide Clean;
      v := validated;
      for j := 0 to |rcpts|
        invariant forall r :: r in v <==> r in validated || (r in rcpts[..j] && Clean(lib, r) == tokenRecipient)
        invariant forall r :: r in v ==>
                    v[r] == if r in rcpts[..j] && Clean(lib, r) == tokenRecipient then true else validated[r]
      {
        var r := rcpts[j];
        assert rcpts[..j + 1] == rcpts[..j] + [r];
        if Clean(lib, r) == tokenRecipient {
          v := v[r := true];
        }
      }
      assert rcpts[..|rcpts|] == rcpts;
    }

    /** The loops over tokens and recipients find exactly the recipients that some stamp pays for. */
    method Validate(stamps: seq<string>, now: int) returns (validated: map<string, bool>)
      ensures forall r :: r in validated <==> r in rcpts && Paid(lib, now, stamps, r)
      ensures forall r :: r in validated ==> validated[r]
    {
      hide Verify, Clean, Split, TrimSpace;
      validated := map[];
      for i := 0 to |stamps|
        invariant forall r :: r in validated <==> r in rcpts && Paid(lib, now, stamps[..i], r)
        invariant forall r :: r in validated ==> validated[r]
      {
        PaidSoFar(lib, now, stamps, i);
        var token := TrimSpace(lib, stamps[i]);
        if Verify(lib.sha, now, token) {
          var parts := Split(token, ';');
          if |parts| >= 4 {
            validated := MarkRecipients(Clean(lib, parts[3]), validated);
          }
        }
      }
      assert stamps[..|stamps|] == stamps;
    }

    /** All of the message's recipients are paid for, or nothing is delivered.  Then each occurrence of a recipient is
        delivered to its own INBOX or the one its alias stands for, up to the first that has neither. */
    method Data(r: Bytes, now: int, received: string, date: string) returns (result: Outcome)
      requires store.Valid()
      modifies store`db
      ensures store.Valid()
      ensures match Admitted(lib, now, r, rcpts, received, date) {
                case None => store.db == old(store.db) && result == Failed
                case Some(b) =>
                  var w := View(old(store.db));
                  var k := FirstUndeliverable(w, rcpts);
                  View(store.db) == DeliverEach(w, rcpts[..k], b) && result == if k == |rcpts| then OK else Failed
              }
      ensures store.db != old(store.db) || result == OK ==>
                lib.read(r).Some? && forall i :: 0 <= i < |rcpts| ==>
                  WorkIn(lib, now, Values(lib.read(r).value.header, HEADER), rcpts[i])
    {
      hide Sound, View, Pays, Values, Traced, WorkIn;
      var m := lib.read(r);
      if m.None? { return Failed; }
      var stamps := Values(m.value.header, HEADER);
      AcceptsMeans(lib, now, stamps, rcpts);
      var validated := Validate(stamps, now);
      for i := 0 to |rcpts|
        invariant forall j :: 0 <= j < i ==> Paid(lib, now, stamps, rcpts[j])
      {
        var rcpt := rcpts[i];
        if rcpt !in validated || !validated[rcpt] {
          assert !Paid(lib, now, stamps, rcpts[i]);
          return Failed;
        }
      }
      var b := lib.write(Traced(m.value, received, date));
      if b.None? { return Failed; }
      result := Deliver(b.value);
    }

    method Deliver(msgBytes: Bytes) returns (result: Outcome)
      requires store.Valid()
      modifies store`db
      ensures store.Valid()
      ensures var w := View(old(store.db));
              var k := FirstUndeliverable(w, rcpts);
              && View(store.db) == DeliverEach(w, rcpts[..k], msgBytes)
              && result == if k == |rcpts| then OK else Failed
    {
      hide Sound, View, OnlyInboxes, Destination, DeliverOne;
      ghost var w := View(store.db);
      assert rcpts[..0] == [] && rcpts[..|rcpts|] == rcpts;
      for i := 0 to |rcpts|
        invariant store.Valid() && View(store.db) == DeliverEach(w, rcpts[..i], msgBytes)
        invariant forall j :: 0 <= j < i ==> Destination(w, rcpts[j]).Some?
      {
        DeliveredExactly(w, rcpts[..i], msgBytes);
        DestinationsStay(w, View(store.db), rcpts[i]);
        assert rcpts[..i + 1][..i] == rcpts[..i];
        var delivered := DeliverTo(rcpts[i], msgBytes);
        if !delivered {
          NotDelivered(DeliverEach(w, rcpts[..i], msgBytes), rcpts[i], msgBytes);
          return Failed;
        }
      }
      result := OK;
    }

    method DeliverTo(rcpt: string, msgBytes: Bytes) returns (delivered: bool)
      requires store.Valid()
      modifies store`db
      ensures store.Valid()
      ensures View(store.db) == DeliverOne(View(old(store.db)), rcpt, msgBytes)
      ensures delivered <==> Destination(View(old(store.db)), rcpt).Some?
    {
      hide Sound, View, Do;
      delivered := false;
      var direct := store.DeliverToUser(rcpt, msgBytes);
      if direct.Done? {
        delivered := true;
      } else {
        var alias := store.ResolveAlias(rcpt);
        if alias.Ok? {
          var viaAlias := store.DeliverToUser(alias.value, msgBytes);
          if viaAlias.Done? { delivered := true; }
        }
      }
    }
  }

  // ---- submission by local users ----------------------------------------------------------------------------------

  /** Stamps added one after the other, each on top. */
  function Stack(h: seq<Field>, tokens: seq<string>): seq<Field> {
    if tokens == [] then h else Add(Stack(h, tokens[..|tokens| - 1]), HEADER, tokens[|tokens| - 1])
  }

  /** The message a local session hands over. */
  function Prepared(e: Entity, tokens: seq<string>, received: string, date: string): Entity {
    var h := Add(Stack(e.header, tokens), "Received", received);
    e.(header := if Values(h, "Date") == [] then Add(h, "Date", date) else h)
  }

  function Reversed(s: seq<string>): seq<string> { if s == [] then [] else [s[|s| - 1]] + Reversed(s[..|s| - 1]) }

  /** The session's stamps come to lie on those the message came with, the last on top; no other header is touched. */
  lemma {:induction false} StackedStamps(h: seq<Field>, tokens: seq<string>, name: string)
    ensures Values(Stack(h, tokens), name) == (if name == HEADER then Reversed(tokens) else []) + Values(h, name)
  {
    if tokens != [] {
      var last := |tokens| - 1;
      StackedStamps(h, tokens[..last], name);
      AddValues(Stack(h, tokens[..last]), HEADER, tokens[last], name);
    }
  }

  /** What a local session hands over: the body as it was, its stamps and one Received header on top of those that
      came, a Date if there was none, and every other header as it was. */
  lemma PreparedKeeps(e: Entity, tokens: seq<string>, received: string, date: string, name: string)
    ensures var e' := Prepared(e, tokens, received, date);
            && e'.body == e.body
            && Values(e'.header, name) ==
               (if name == HEADER then Reversed(tokens)
                else if name == "Received" then [received]
                else if name == "Date" && Values(e.header, "Date") == [] then [date]
                else [])
               + Values(e.header, name)
  {
    hide Values, Add, Stack;
    var h := Stack(e.header, tokens);
    StackedStamps(e.header, tokens, name);
    StackedStamps(e.header, tokens, "Date");
    AddValues(h, "Received", received, name);
    AddValues(h, "Received", received, "Date");
    AddValues(Add(h, "Received", received), "Date", date, name);
  }

  /** One token for each recipient for which there were random bytes, made for it at its time, in order. */
  ghost predicate StampedInTurn(sha: string -> Digest, rcpts: seq<string>, ms: seq<Moment>, tokens: seq<string>)
    requires |ms| == |rcpts|
  {
    if rcpts == [] then tokens == []
    else
      var i := |rcpts| - 1;
      if ms[i].random.None? then StampedInTurn(sha, rcpts[..i], ms[..i], tokens)
      else
        && tokens != []
        && MadeFor(sha, tokens[|tokens| - 1], rcpts[i], ms[i].time)
        && StampedInTurn(sha, rcpts[..i], ms[..i], tokens[..|tokens| - 1])
  }

  class SessionLocal {
    const queues: Queues
    var from: string
    var rcpt: seq<string>

    constructor (queues: Queues)
      ensures this.queues == queues && from == "" && rcpt == []
    {
      this.queues, from, rcpt := queues, "", [];
    }

    method Mail(from: string)
      modifies this
      ensures this.from == from && rcpt == []
    {
      rcpt := [];
      this.from := from;
    }

    method Rcpt(to: string)
      modifies this`rcpt
      ensures rcpt == old(rcpt) + [to]
    {
      rcpt := rcpt + [to];
    }

    method Reset()
      modifies this
      ensures from == "" && rcpt == []
    {
      rcpt := [];
      from := "";
    }

    /** The loop over recipients: a stamp for each for which there are random bytes. */
    method AddStamps(h: seq<Field>, ms: seq<Moment>) returns (h': seq<Field>, ghost tokens: seq<string>)
      requires Solvable(queues.lib.sha)
      requires |ms| == |rcpt| && forall i :: 0 <= i < |ms| ==> Printable(ms[i].time)
      ensures h' == Stack(h, tokens) && StampedInTurn(queues.lib.sha, rcpt, ms, tokens)
    {
      hide Solvable, Printable, MadeFor, MadeFrom;
      h' := h;
      tokens := [];
      for i := 0 to |rcpt|
        invariant h' == Stack(h, tokens) && StampedInTurn(queues.lib.sha, rcpt[..i], ms[..i], tokens)
      {
        assert rcpt[..i + 1][..i] == rcpt[..i] && ms[..i + 1][..i] == ms[..i];
        if ms[i].random.None? { continue; }
        var token := Generate(queues.lib.sha, rcpt[i], ms[i].time, ms[i].random.value);
        assert (tokens + [token])[..|tokens|] == tokens;
        h' := Add(h', HEADER, token);
        tokens := tokens + [token];
      }
      assert rcpt[..|rcpt|] == rcpt && ms[..|rcpt|] == ms;
    }

    /** Submission.  However many stamps the session has added, the message of every queued row carries the one its
        recipient's node will accept. */
    method Data(r: Bytes, stamping: seq<Moment>, received: string, date: string, queueing: seq<Moment>)
      returns (result: Outcome, ghost tokens: seq<string>, ghost posted: seq<Option<Bytes>>)
      requires queues.Valid() && Solvable(queues.lib.sha)
      requires |stamping| == |queueing| == |rcpt|
      requires forall i :: 0 <= i < |rcpt| ==> Printable(stamping[i].time) && Printable(queueing[i].time)
      modifies queues.store, queues`running
      ensures queues.Valid() && |posted| == |rcpt|
      ensures queues.lib.read(r).Some? ==> StampedInTurn(queues.lib.sha, rcpt, stamping, tokens)
      ensures match HandedOver(queues.lib, r, tokens, received, date) {
                case None => queues.State() == old(queues.State()) && result == Failed
                case Some(content) =>
                  (queues.State(), result) == SubmitAll(old(queues.State()), queues.resolve, from, rcpt, content,
                                                        posted)
                  && StampedFor(queues.lib, content, rcpt, TimesOf(queueing), posted)
                  && (result == OK ==>
                        && StampedAll(queues.lib, old(queues.State()).w, queues.resolve, content, rcpt,
                                      TimesOf(queueing), RandomOf(queueing), posted)
                        && var ps := Postings(old(queues.State()).w, queues.resolve, rcpt, posted);
                           PostedTo(old(queues.State()), queues.State(), from, ps)
                           && StoredTo(old(queues.State()).w, queues.State().w, ps))
              }
      ensures Lawful(queues.lib) ==> forall k :: k in queues.store.queue && k !in old(queues.store.queue) ==>
                PostpaidRow(queues.lib, View(queues.store.db), queues.store.queue[k], rcpt, TimesOf(queueing))
    {
      hide Sound, View, Lawful, SubmitAll, StampedFor, PostpaidRow, Solvable, Printable, Stack, Values, MadeFor,
          StampedInTurn, StampedAll, PostedTo, StoredTo, Postings;
      tokens, posted := [], seq(|rcpt|, _ => None);
      var m := queues.lib.read(r);
      if m.None? { return Failed, tokens, posted; }
      var h;
      h, tokens := AddStamps(m.value.header, stamping);
      h := Add(h, "Received", received);
      if Values(h, "Date") == [] {
        h := Add(h, "Date", date);
      }
      var b := queues.lib.write(m.value.(header := h));
      if b.None? { return Failed, tokens, posted; }
      result, posted := queues.QueueFor(from, rcpt, b.value, queueing);
    }
  }

  function HandedOver(lib: Library, r: Bytes, tokens: seq<string>, received: string, date: string): Option<Bytes> {
    var e := lib.read(r);
    if e.None? then None else lib.write(Prepared(e.value, tokens, received, date))
  }

  predicate Trace(name: string) { name == "Received" || name == "Date" || name == "Delivery-Date" }

  /** From the local session through the queue and the receiving gate to an INBOX: the body and every header but the
      trace ones and the stamps are as the user wrote them, and the one stamp is the queue's, in time and made for that
      recipient. */
  lemma ArrivesIntact(lib: Library, r: Bytes, tokens: seq<string>, received: string, date: string, token: string,
                    rcpt: string, t: int, now: int, received': string, date': string)
    requires Lawful(lib) && MadeFor(lib.sha, token, rcpt, t)
    requires HandedOver(lib, r, tokens, received, date).Some?
    requires Stamped(lib, HandedOver(lib, r, tokens, received, date).value, token).Some?
    ensures var posted := Stamped(lib, HandedOver(lib, r, tokens, received, date).value, token).value;
            var b := Admitted(lib, now, posted, [rcpt], received', date');
            b.Some? ==>
              && ';' !in rcpt && now - (t - t % DAY) <= 48 * HOUR
              && lib.read(b.value).Some? && lib.read(r).Some?
              && var (was, arrived) := (lib.read(r).value, lib.read(b.value).value);
                 && arrived.body == was.body && Values(arrived.header, HEADER) == [token]
                 && forall name :: name != HEADER && !Trace(name) ==>
                      Values(arrived.header, name) == Values(was.header, name)
  {
    hide MadeFor, Pays, Values, Stamped, Prepared, WorkIn, Admitted;
    var content := HandedOver(lib, r, tokens, received, date).value;
    var posted := Stamped(lib, content, token).value;
    ExactlyOneStamp(lib, content, token);
    PostageAccepted(lib, content, token, rcpt, t, now);
    AcceptsMeans(lib, now, Values(lib.read(posted).value.header, HEADER), [rcpt]);
    AdmittedMeans(lib, now, posted, [rcpt], received', date');
    PreparedBody(lib.read(r).value, tokens, received, date);
    assert !Trace(HEADER);
    forall name | !Trace(name) && Admitted(lib, now, posted, [rcpt], received', date').Some?
      ensures var b := Admitted(lib, now, posted, [rcpt], received', date').value;
              Values(lib.read(b).value.header, name) == Values(lib.read(posted).value.header, name)
    {
      AdmittedHeader(lib, now, posted, [rcpt], received', date', name);
    }
    forall name | name != HEADER && !Trace(name)
      ensures Values(lib.read(content).value.header, name) == Values(lib.read(r).value.header, name)
    {
      PreparedKeeps(lib.read(r).value, tokens, received, date, name);
    }
  }

  lemma PreparedBody(e: Entity, tokens: seq<string>, received: string, date: string)
    ensures Prepared(e, tokens, received, date).body == e.body
  {}

  lemma NotDelivered(w: World, rcpt: string, body: Bytes)
    requires Destination(w, rcpt).None?
    ensures DeliverOne(w, rcpt, body) == w
  {}

  lemma PaidSoFar(lib: Library, now: int, stamps: seq<string>, i: nat)
    requires i < |stamps|
    ensures forall r :: Paid(lib, now, stamps[..i + 1], r) <==>
            Paid(lib, now, stamps[..i], r) || Pays(lib, now, stamps[i], r)
  {
    hide Pays;
    forall r ensures Paid(lib, now, stamps[..i + 1], r) <==>
        Paid(lib, now, stamps[..i], r) || Pays(lib, now, stamps[i], r) {
      var a, b := stamps[..i], stamps[..i + 1];
      if Pays(lib, now, stamps[i], r) { assert Pays(lib, now, b[i], r); }
      if k :| 0 <= k < |a| && Pays(lib, now, a[k], r) { assert Pays(lib, now, b[k], r); }
      if k :| 0 <= k < |b| && Pays(lib, now, b[k], r) && k < i { assert Pays(lib, now, a[k], r); }
    }
  }
}
