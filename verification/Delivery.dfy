/** Delivering one message to several recipients' INBOXes, directly or through an alias. */
module Delivery {
  import opened Wrappers
  import opened Flags
  import opened Schema
  import opened Operations

  /** The account whose INBOX gets mail for `rcpt`. */
  function Destination(w: World, rcpt: string): Option<string> {
    if Has(w, rcpt, INBOX) then Some(rcpt)
    else if rcpt in w.aliases && Has(w, w.aliases[rcpt].address, INBOX) then Some(w.aliases[rcpt].address)
    else None
  }

  function DeliverOne(w: World, rcpt: string, body: Bytes): World {
    match Destination(w, rcpt)
    case Some(a) => SpecAppend(w, a, INBOX, Message(NO_FLAGS, body)).0
    case None => w
  }

  /** One after the other, to those that have a destination. */
  function DeliverEach(w: World, rcpts: seq<string>, body: Bytes): World {
    if rcpts == [] then w else DeliverOne(DeliverEach(w, rcpts[..|rcpts| - 1], body), rcpts[|rcpts| - 1], body)
  }

  /** The position of the first recipient without a destination. */
  function FirstUndeliverable(w: World, rcpts: seq<string>): (k: nat)
    ensures k <= |rcpts| && (forall i :: 0 <= i < k ==> Destination(w, rcpts[i]).Some?)
    ensures k < |rcpts| ==> Destination(w, rcpts[k]).None?
  {
    if rcpts == [] || Destination(w, rcpts[0]).None? then 0 else 1 + FirstUndeliverable(w, rcpts[1..])
  }

  /** How many of the recipients end up with account `a`. */
  function CountTo(w: World, rcpts: seq<string>, a: string): nat {
    if rcpts == [] then 0
    else CountTo(w, rcpts[..|rcpts| - 1], a) + (if Destination(w, rcpts[|rcpts| - 1]) == Some(a) then 1 else 0)
  }

  /** `mb'` is `mb` with n more messages m, under the next n UIDs. */
  ghost predicate GrownBy(mb: Mailbox, mb': Mailbox, n: nat, m: Message) {
    && mb'.uidNext == mb.uidNext + n
    && (forall u :: mb.uidNext <= u < mb.uidNext + n ==> u in mb'.mail && mb'.mail[u] == m)
    && (forall u :: !(mb.uidNext <= u < mb.uidNext + n) ==> (u in mb'.mail <==> u in mb.mail))
    && (forall u :: u in mb.mail && !(mb.uidNext <= u < mb.uidNext + n) ==> mb'.mail[u] == mb.mail[u])
  }

  /** Only INBOXes differ, and no account or folder comes or goes. */
  ghost predicate OnlyInboxes(w: World, w': World) {
    && w'.aliases == w.aliases && w'.accounts.Keys == w.accounts.Keys
    && (forall a :: a in w.accounts ==> w'.accounts[a].Keys == w.accounts[a].Keys)
    && (forall a, n :: a in w.accounts && n in w.accounts[a] && n != INBOX ==> w'.accounts[a][n] == w.accounts[a][n])
  }

  lemma DestinationsStay(w: World, w': World, rcpt: string)
    requires OnlyInboxes(w, w')
    ensures Destination(w', rcpt) == Destination(w, rcpt)
  {}

  lemma StepInboxes(w: World, w1: World, rcpt: string, body: Bytes)
    requires OnlyInboxes(w, w1)
    ensures OnlyInboxes(w, DeliverOne(w1, rcpt, body))
  {}

  lemma StepGrows(w: World, w1: World, rcpt: string, body: Bytes, a: string, n: nat)
    requires OnlyInboxes(w, w1) && Has(w, a, INBOX)
    requires GrownBy(w.accounts[a][INBOX], w1.accounts[a][INBOX], n, Message(NO_FLAGS, body))
    ensures Has(DeliverOne(w1, rcpt, body), a, INBOX)
    ensures var n' := n + if Destination(w, rcpt) == Some(a) then 1 else 0;
            GrownBy(w.accounts[a][INBOX], DeliverOne(w1, rcpt, body).accounts[a][INBOX], n', Message(NO_FLAGS, body))
  {
    DestinationsStay(w, w1, rcpt);
    AppendGrows(w.accounts[a][INBOX], w1.accounts[a][INBOX], n, Message(NO_FLAGS, body));
    hide GrownBy;
    if Destination(w, rcpt) == Some(a) {
      assert DeliverOne(w1, rcpt, body).accounts[a][INBOX] == Appended(w1.accounts[a][INBOX], Message(NO_FLAGS, body));
    } else {
      assert DeliverOne(w1, rcpt, body).accounts[a][INBOX] == w1.accounts[a][INBOX];
    }
  }

  lemma AppendGrows(mb: Mailbox, mb1: Mailbox, n: nat, m: Message)
    requires GrownBy(mb, mb1, n, m)
    ensures GrownBy(mb, Appended(mb1, m), n + 1, m)
  {}

  /** The INBOXes of `w` as they are in `w'`, when each has grown by its share of the deliveries. */
  ghost predicate EachGrown(w: World, w': World, rcpts: seq<string>, body: Bytes)
    requires OnlyInboxes(w, w')
  {
    forall a :: Has(w, a, INBOX) ==>
      GrownBy(w.accounts[a][INBOX], w'.accounts[a][INBOX], CountTo(w, rcpts, a), Message(NO_FLAGS, body))
  }

  /** Each occurrence of a recipient adds one message to its INBOX, under consecutive UIDs, and nothing else changes. */
  lemma {:induction false} DeliveredExactly(w: World, rcpts: seq<string>, body: Bytes)
    ensures OnlyInboxes(w, DeliverEach(w, rcpts, body)) && EachGrown(w, DeliverEach(w, rcpts, body), rcpts, body)
  {
    if rcpts != [] {
      hide DeliverOne, Destination, OnlyInboxes, GrownBy;
      var p, r := rcpts[..|rcpts| - 1], rcpts[|rcpts| - 1];
      DeliveredExactly(w, p, body);
      var w1 := DeliverEach(w, p, body);
      StepInboxes(w, w1, r, body);
      forall a | Has(w, a, INBOX)
        ensures Has(DeliverOne(w1, r, body), a, INBOX)
        ensures GrownBy(w.accounts[a][INBOX], DeliverOne(w1, r, body).accounts[a][INBOX], CountTo(w, rcpts, a),
                        Message(NO_FLAGS, body))
      {
        StepGrows(w, w1, r, body, a, CountTo(w, p, a));
      }
    }
  }

  /** From `w` to `w'` one message with this body, unread, has arrived in the INBOX of `a`, and nothing else changed. */
  ghost predicate LandsIn(w: World, w': World, a: string, body: Bytes)
    requires Has(w, a, INBOX)
  {
    && OnlyInboxes(w, w')
    && GrownBy(w.accounts[a][INBOX], w'.accounts[a][INBOX], 1, Message(NO_FLAGS, body))
    && forall b :: b != a && Has(w, b, INBOX) ==> w'.accounts[b][INBOX] == w.accounts[b][INBOX]
  }

  /** A recipient's own INBOX comes first; an alias counts only without one; with neither nothing happens. */
  lemma Lands(w: World, rcpt: string, body: Bytes)
    ensures Has(w, rcpt, INBOX) ==> LandsIn(w, DeliverEach(w, [rcpt], body), rcpt, body)
    ensures !Has(w, rcpt, INBOX) && rcpt in w.aliases && Has(w, w.aliases[rcpt].address, INBOX) ==>
              LandsIn(w, DeliverEach(w, [rcpt], body), w.aliases[rcpt].address, body)
    ensures !Has(w, rcpt, INBOX) && (rcpt in w.aliases ==> !Has(w, w.aliases[rcpt].address, INBOX)) ==>
              DeliverEach(w, [rcpt], body) == w
  {
    assert [rcpt][..0] == [];
    assert DeliverEach(w, [rcpt], body) == DeliverOne(w, rcpt, body);
  }
}
