/** UID allocation when MailCreate, DeliverToUser, DeliverToSent, MailMove, deletions and mailbox removal interleave.

    An appending call is three statements: read uid_next, insert, increment.  MailMove reads uid_next at the start of
    its transaction (a consistent read, which sees no later commit) and takes effect at its commit. */
module UidAllocation {

  type Id = nat
  type Tid = nat

  datatype Place = Place(box: Id, uid: nat)

  datatype Pc =
    | Creating(box: Id, uid: nat)                          // has read uid_next; about to insert
    | Bumping(box: Id, uid: nat, msg: Id)                  // has inserted msg; about to increment
    // has read the destination's uid_next; about to update and commit
    | Moving(src: Id, uid: nat, dest: Id, next: nat)

  datatype Sys = Sys(uidNext: map<Id, nat>, nextBox: Id, msgs: map<Id, Place>, nextMsg: Id, threads: map<Tid, Pc>)

  const INIT := Sys(map[], 0, map[], 0, map[])

  datatype Event =
    | AddBox
    | DropBox(box: Id)                       // cascades to its messages
    | ReadForCreate(t: Tid, box: Id)
    | Insert(t: Tid)
    | Bump(t: Tid)
    | ReadForMove(t: Tid, src: Id, uid: nat, dest: Id)
    | Commit(t: Tid)
    | Delete(msg: Id)

  /** The unique key (mailbox_id, uid) already has an entry, other than message `except`. */
  predicate Taken(s: Sys, p: Place, except: Id) { exists m :: m in s.msgs && m != except && s.msgs[m] == p }

  ghost predicate Enabled(s: Sys, e: Event) {
    match e
    case AddBox => true
    case DropBox(b) => b in s.uidNext
    case ReadForCreate(t, b) => t !in s.threads && b in s.uidNext
    case Insert(t) => t in s.threads && s.threads[t].Creating?
    case Bump(t) => t in s.threads && s.threads[t].Bumping?
    case ReadForMove(t, a, _, b) => t !in s.threads && a in s.uidNext && b in s.uidNext
    case Commit(t) => t in s.threads && s.threads[t].Moving?
    case Delete(m) => m in s.msgs
  }

  function Increment(s: Sys, b: Id): Sys {
    if b in s.uidNext then s.(uidNext := s.uidNext[b := s.uidNext[b] + 1]) else s
  }

  /** The message a move names, if it is there. */
  ghost function Named(s: Sys, p: Place): (ms: set<Id>)
    ensures forall m :: m in ms <==> m in s.msgs && s.msgs[m] == p
  {
    set m | m in s.msgs && s.msgs[m] == p
  }

  /** The update of a move fails: the destination is gone (foreign key) or the UID is in use there (unique key). */
  ghost predicate MoveFails(s: Sys, pc: Pc)
    requires pc.Moving?
  {
    exists m :: m in Named(s, Place(pc.src, pc.uid)) && (pc.dest !in s.uidNext || Taken(s, Place(pc.dest, pc.next), m))
  }

  ghost function Apply(s: Sys, e: Event): Sys
    requires Enabled(s, e)
  {
    match e
    case AddBox => s.(uidNext := s.uidNext[s.nextBox := 1], nextBox := s.nextBox + 1)
    case DropBox(b) => s.(uidNext := s.uidNext - {b}, msgs := map m | m in s.msgs && s.msgs[m].box != b :: s.msgs[m])
    case ReadForCreate(t, b) => s.(threads := s.threads[t := Creating(b, s.uidNext[b])])
    case Insert(t) =>
      var pc := s.threads[t];
      if pc.box !in s.uidNext || Taken(s, Place(pc.box, pc.uid), s.nextMsg) then s.(threads := s.threads - {t})
      else s.(msgs := s.msgs[s.nextMsg := Place(pc.box, pc.uid)], nextMsg := s.nextMsg + 1,
              threads := s.threads[t := Bumping(pc.box, pc.uid, s.nextMsg)])
    case Bump(t) => Increment(s, s.threads[t].box).(threads := s.threads - {t})
    case ReadForMove(t, a, u, b) => s.(threads := s.threads[t := Moving(a, u, b, s.uidNext[b])])
    case Commit(t) =>
      var pc := s.threads[t];
      if MoveFails(s, pc) then s.(threads := s.threads - {t})
      else
        Increment(s, pc.dest)
        .(msgs := map m | m in s.msgs :: if s.msgs[m] == Place(pc.src, pc.uid) then Place(pc.dest, pc.next)
          else s.msgs[m],
          threads := s.threads - {t})
    case Delete(m) => s.(msgs := s.msgs - {m})
  }

  ghost predicate Run(es: seq<Event>)
    decreases |es|, 0
  {
    es == [] || (Run(es[..|es| - 1]) && Enabled(After(es[..|es| - 1]), es[|es| - 1]))
  }

  ghost function After(es: seq<Event>): Sys
    requires Run(es)
    decreases |es|, 1
  {
    if es == [] then INIT else Apply(After(es[..|es| - 1]), es[|es| - 1])
  }

  type Threads = map<Tid, Pc>
  type Places = map<Id, Place>
  type Counters = map<Id, nat>

  /** The call that inserted message `m` under `p` has not run its increment yet. */
  ghost predicate Unfinished(ts: Threads, m: Id, p: Place) {
    exists t :: t in ts && ts[t] == Bumping(p.box, p.uid, m)
  }

  ghost predicate CounterInv(next: Counters, nextBox: Id) {
    forall b :: b in next ==> b < nextBox && 1 <= next[b]
  }

  ghost predicate PlaceInv(msgs: Places, nextMsg: Id, next: Counters) {
    forall m :: m in msgs ==> m < nextMsg && msgs[m].box in next && 1 <= msgs[m].uid <= next[msgs[m].box]
  }

  ghost predicate UniqueInv(msgs: Places) {
    forall m, n :: m in msgs && n in msgs && m != n ==> msgs[m] != msgs[n]
  }

  /** A message is as high as uid_next only while its creator has not finished. */
  ghost predicate DueInv(msgs: Places, next: Counters, ts: Threads) {
    forall m :: m in msgs && msgs[m].box in next && msgs[m].uid >= next[msgs[m].box] ==> Unfinished(ts, m, msgs[m])
  }

  /** What a thread has read is not ahead of the counter. */
  ghost predicate ReadOk(pc: Pc, next: Counters, nextBox: Id, nextMsg: Id) {
    match pc
    case Creating(b, u) => b < nextBox && 1 <= u && (b in next ==> u <= next[b])
    case Bumping(b, u, m) => b < nextBox && m < nextMsg && (b in next ==> u <= next[b])
    case Moving(_, _, b, n) => b < nextBox && 1 <= n && (b in next ==> n <= next[b])
  }

  ghost predicate ReadInv(ts: Threads, next: Counters, nextBox: Id, nextMsg: Id) {
    forall t :: t in ts ==> ReadOk(ts[t], next, nextBox, nextMsg)
  }

  ghost predicate Inv(s: Sys) {
    && CounterInv(s.uidNext, s.nextBox)
    && PlaceInv(s.msgs, s.nextMsg, s.uidNext)
    && UniqueInv(s.msgs)
    && DueInv(s.msgs, s.uidNext, s.threads)
    && ReadInv(s.threads, s.uidNext, s.nextBox, s.nextMsg)
  }

  lemma KeepReads(s: Sys, e: Event)
    requires CounterInv(s.uidNext, s.nextBox) && ReadInv(s.threads, s.uidNext, s.nextBox, s.nextMsg) && Enabled(s, e)
    ensures var s' := Apply(s, e);
            CounterInv(s'.uidNext, s'.nextBox) && ReadInv(s'.threads, s'.uidNext, s'.nextBox, s'.nextMsg)
  {
    hide Taken, MoveFails, Named;
    var s' := Apply(s, e);
    forall t | t in s'.threads ensures ReadOk(s'.threads[t], s'.uidNext, s'.nextBox, s'.nextMsg) {
      assert t in s.threads ==> ReadOk(s.threads[t], s.uidNext, s.nextBox, s.nextMsg);
    }
  }

  lemma KeepPlaces(s: Sys, e: Event)
    requires CounterInv(s.uidNext, s.nextBox) && ReadInv(s.threads, s.uidNext, s.nextBox, s.nextMsg) && Enabled(s, e)
    requires PlaceInv(s.msgs, s.nextMsg, s.uidNext)
    ensures var s' := Apply(s, e); PlaceInv(s'.msgs, s'.nextMsg, s'.uidNext)
  {
    hide Taken;
    var s' := Apply(s, e);
    if e.Insert? || e.Commit? { assert ReadOk(s.threads[e.t], s.uidNext, s.nextBox, s.nextMsg); }
    forall m | m in s'.msgs
      ensures m < s'.nextMsg && s'.msgs[m].box in s'.uidNext && 1 <= s'.msgs[m].uid <= s'.uidNext[s'.msgs[m].box]
    {
      if e.Commit? && m in Named(s, Place(s.threads[e.t].src, s.threads[e.t].uid)) {}
    }
  }

  lemma KeepUnique(s: Sys, e: Event)
    requires UniqueInv(s.msgs) && PlaceInv(s.msgs, s.nextMsg, s.uidNext) && Enabled(s, e)
    ensures UniqueInv(Apply(s, e).msgs)
  {
    var s' := Apply(s, e);
    forall m, n | m in s'.msgs && n in s'.msgs && m != n ensures s'.msgs[m] != s'.msgs[n] {
      if e.Commit? && !MoveFails(s, s.threads[e.t]) {
        var pc := s.threads[e.t];
        assert m in Named(s, Place(pc.src, pc.uid)) ==> !Taken(s, Place(pc.dest, pc.next), m);
        assert n in Named(s, Place(pc.src, pc.uid)) ==> !Taken(s, Place(pc.dest, pc.next), n);
      }
    }
  }

  lemma KeepDue(s: Sys, e: Event)
    requires PlaceInv(s.msgs, s.nextMsg, s.uidNext) && DueInv(s.msgs, s.uidNext, s.threads) && Enabled(s, e)
    requires ReadInv(s.threads, s.uidNext, s.nextBox, s.nextMsg) && CounterInv(s.uidNext, s.nextBox)
    ensures var s' := Apply(s, e); DueInv(s'.msgs, s'.uidNext, s'.threads)
  {
    hide Taken, MoveFails, UniqueInv;
    var s' := Apply(s, e);
    if e.Commit? || e.Bump? { assert ReadOk(s.threads[e.t], s.uidNext, s.nextBox, s.nextMsg); }
    forall m | m in s'.msgs && s'.msgs[m].box in s'.uidNext && s'.msgs[m].uid >= s'.uidNext[s'.msgs[m].box]
      ensures Unfinished(s'.threads, m, s'.msgs[m])
    {
      if m in s.msgs {
        assert s'.msgs[m] == s.msgs[m] && s.msgs[m].uid >= s.uidNext[s.msgs[m].box];
        var x :| x in s.threads && s.threads[x] == Bumping(s.msgs[m].box, s.msgs[m].uid, m);
        assert s'.threads[x] == s.threads[x];
      } else {
        assert s'.threads[e.t] == Bumping(s'.msgs[m].box, s'.msgs[m].uid, m);
      }
    }
  }

  lemma {:induction false} Always(es: seq<Event>)
    requires Run(es)
    ensures Inv(After(es))
  {
    if es != [] {
      var s, e := After(es[..|es| - 1]), es[|es| - 1];
      Always(es[..|es| - 1]);
      hide CounterInv, PlaceInv, UniqueInv, DueInv, ReadInv, Apply, Enabled;
      KeepReads(s, e);
      KeepPlaces(s, e);
      KeepUnique(s, e);
      KeepDue(s, e);
    }
  }

  // ---- the guarantees ---------------------------------------------------------------------------------------------

  lemma Snoc(es: seq<Event>, e: Event)
    ensures Run(es + [e]) <==> Run(es) && Enabled(After(es), e)
    ensures Run(es + [e]) ==> After(es + [e]) == Apply(After(es), e)
  {
    assert (es + [e])[..|es + [e]| - 1] == es;
  }

  /** In every interleaving: live UIDs of a mailbox are distinct, positive and at most uid_next; a message whose
      creator has run its increment (or which arrived by MailMove) is strictly below uid_next. */
  lemma UidsUniqueAndBounded(es: seq<Event>)
    requires Run(es)
    ensures var s := After(es);
            && (forall m, n :: m in s.msgs && n in s.msgs && m != n && s.msgs[m].box == s.msgs[n].box ==>
                  s.msgs[m].uid != s.msgs[n].uid)
            && (forall m :: m in s.msgs ==>
                s.msgs[m].box in s.uidNext && 1 <= s.msgs[m].uid <= s.uidNext[s.msgs[m].box])
            && (forall m :: m in s.msgs && !Unfinished(s.threads, m, s.msgs[m]) ==>
                  s.msgs[m].uid < s.uidNext[s.msgs[m].box])
  {
    Always(es);
  }

  /** uid_next of a mailbox never decreases while the mailbox exists, and a removed mailbox id never comes back. */
  lemma UidNextMonotone(es: seq<Event>, e: Event, b: Id)
    requires Run(es + [e])
    ensures b in After(es).uidNext && b in After(es + [e]).uidNext ==>
              After(es).uidNext[b] <= After(es + [e]).uidNext[b] <= After(es).uidNext[b] + 1
    ensures b !in After(es).uidNext && b < After(es).nextBox ==> b !in After(es + [e]).uidNext
  {
    Snoc(es, e);
    Always(es);
    hide Taken, MoveFails, Named, PlaceInv, UniqueInv, DueInv, ReadInv;
  }

  /** The event completes an allocation in mailbox `b`: an appending call's increment, or a committed move into `b`. */
  ghost predicate Completes(s: Sys, e: Event, b: Id)
    requires Enabled(s, e)
  {
    (e.Bump? && s.threads[e.t].box == b) || (e.Commit? && s.threads[e.t].dest == b && !MoveFails(s, s.threads[e.t]))
  }

  ghost function Completed(es: seq<Event>, b: Id): nat
    requires Run(es)
  {
    if es == [] then 0
    else Completed(es[..|es| - 1], b)
         + (if Completes(After(es[..|es| - 1]), es[|es| - 1], b) then 1 else 0)
  }

  /** uid_next - 1 counts the completed appends and the committed moves into the mailbox, those of an absent UID
      included. */
  lemma {:induction false} UidNextCounts(es: seq<Event>, b: Id)
    requires Run(es)
    ensures b in After(es).uidNext ==> After(es).uidNext[b] == 1 + Completed(es, b)
    ensures b >= After(es).nextBox ==> Completed(es, b) == 0
  {
    if es != [] {
      UidNextCounts(es[..|es| - 1], b);
      Always(es[..|es| - 1]);
      hide Run, After;
      CountStep(After(es[..|es| - 1]), es[|es| - 1], b);
    }
  }

  lemma CountStep(s: Sys, e: Event, b: Id)
    requires CounterInv(s.uidNext, s.nextBox) && ReadInv(s.threads, s.uidNext, s.nextBox, s.nextMsg) && Enabled(s, e)
    ensures var s' := Apply(s, e); var n := if Completes(s, e, b) then 1 else 0;
            && (b in s.uidNext && b in s'.uidNext ==> s'.uidNext[b] == s.uidNext[b] + n)
            && (b !in s.uidNext && b in s'.uidNext ==> b == s.nextBox && s'.uidNext[b] == 1 && n == 0)
            && (b >= s.nextBox ==> n == 0) && s.nextBox <= s'.nextBox
  {
    hide Taken, MoveFails, Named;
    if e.Bump? || e.Commit? { assert ReadOk(s.threads[e.t], s.uidNext, s.nextBox, s.nextMsg); }
  }

  /** A move of a UID that is not there uses up a UID of the destination although nothing arrives. */
  lemma MoveOfAbsentUidBumps(es: seq<Event>, t: Tid)
    requires Run(es + [Commit(t)])
    requires Enabled(After(es), Commit(t)) && After(es).threads[t].dest in After(es).uidNext
    requires forall m :: m in After(es).msgs ==>
               After(es).msgs[m] != Place(After(es).threads[t].src, After(es).threads[t].uid)
    ensures var s := After(es); var b := s.threads[t].dest;
            After(es + [Commit(t)]) == s.(uidNext := s.uidNext[b := s.uidNext[b] + 1], threads := s.threads - {t})
  {
    Snoc(es, Commit(t));
    assert Apply(After(es), Commit(t)).msgs == After(es).msgs;
  }

  // ---- where messages go ------------------------------------------------------------------------------------------

  predicate Own(e: Event, t: Tid) {
    (e.ReadForCreate? || e.Insert? || e.Bump? || e.ReadForMove? || e.Commit?) && e.t == t
  }

  /** A message leaves only when it is deleted itself or its mailbox is dropped, and until then it is moved by commits
      only. */
  lemma MessagesStay(es: seq<Event>, e: Event, m: Id)
    requires Run(es + [e]) && m in After(es).msgs
    ensures var s, s' := After(es), After(es + [e]);
            && (m in s'.msgs <==> e != Delete(m) && e != DropBox(s.msgs[m].box))
            && (m in s'.msgs && !e.Commit? ==> s'.msgs[m] == s.msgs[m])
  {
    Snoc(es, e);
    Always(es);
    hide Taken, MoveFails, Named, CounterInv, UniqueInv, DueInv, ReadInv;
  }

  /** A call is moved on by its own statements only. */
  lemma {:induction false} CallWaits(es: seq<Event>, t: Tid, more: seq<Event>)
    requires Run(es) && Run(es + more) && t in After(es).threads
    requires forall i :: 0 <= i < |more| ==> !Own(more[i], t)
    ensures t in After(es + more).threads && After(es + more).threads[t] == After(es).threads[t]
  {
    hide Run, After, Apply, Enabled;
    if more == [] {
      assert es + more == es;
    } else {
      var p, e := more[..|more| - 1], more[|more| - 1];
      assert es + more == (es + p) + [e];
      Snoc(es + p, e);
      assert forall i :: 0 <= i < |p| ==> p[i] == more[i];
      CallWaits(es, t, p);
      WaitStep(After(es + p), e, t);
    }
  }

  lemma WaitStep(s: Sys, e: Event, t: Tid)
    requires Enabled(s, e) && t in s.threads && !Own(e, t)
    ensures t in Apply(s, e).threads && Apply(s, e).threads[t] == s.threads[t]
  {
    hide Taken, MoveFails, Named;
  }

  /** There is a message at `p`, and `q` cannot take it: its mailbox is gone, or another message is there. */
  ghost predicate Blocked(s: Sys, p: Place, q: Place) {
    exists m :: m in s.msgs && s.msgs[m] == p && (q.box !in s.uidNext || Taken(s, q, m))
  }

  /** Whatever comes between its read and its commit, a move puts the message it names under the UID that was next when
      it read, unless that cannot take it; all other messages stay where they are. */
  lemma MoveLands(es: seq<Event>, t: Tid, src: Id, uid: nat, dest: Id, more: seq<Event>)
    requires Run(es) && dest in After(es).uidNext
    requires Run(es + [ReadForMove(t, src, uid, dest)]) && Run(es + [ReadForMove(t, src, uid, dest)] + more)
    requires Run(es + [ReadForMove(t, src, uid, dest)] + more + [Commit(t)])
    requires forall i :: 0 <= i < |more| ==> !Own(more[i], t)
    ensures var s := After(es + [ReadForMove(t, src, uid, dest)] + more);
            var s' := After(es + [ReadForMove(t, src, uid, dest)] + more + [Commit(t)]);
            var p, q := Place(src, uid), Place(dest, After(es).uidNext[dest]);
            && s'.msgs.Keys == s.msgs.Keys
            && forall m :: m in s.msgs ==>
                 s'.msgs[m] == if s.msgs[m] == p && !Blocked(s, p, q) then q else s.msgs[m]
  {
    hide Run, After, Taken;
    Snoc(es, ReadForMove(t, src, uid, dest));
    CallWaits(es + [ReadForMove(t, src, uid, dest)], t, more);
    Snoc(es + [ReadForMove(t, src, uid, dest)] + more, Commit(t));
    CommitPuts(After(es + [ReadForMove(t, src, uid, dest)] + more), t);
  }

  lemma CommitPuts(s: Sys, t: Tid)
    requires Enabled(s, Commit(t))
    ensures var pc := s.threads[t];
            var p, q, s' := Place(pc.src, pc.uid), Place(pc.dest, pc.next), Apply(s, Commit(t));
            && s'.msgs.Keys == s.msgs.Keys
            && forall m :: m in s.msgs ==>
                 s'.msgs[m] == if s.msgs[m] == p && !Blocked(s, p, q) then q else s.msgs[m]
  {
    hide Taken;
    var pc := s.threads[t];
    assert MoveFails(s, pc) <==> Blocked(s, Place(pc.src, pc.uid), Place(pc.dest, pc.next)) by {
      if m :| m in s.msgs && s.msgs[m] == Place(pc.src, pc.uid)
              && (pc.dest !in s.uidNext || Taken(s, Place(pc.dest, pc.next), m)) {
        assert m in Named(s, Place(pc.src, pc.uid));
      }
    }
  }

  /** And an appended message lands under the UID its call read, unless its mailbox is gone or that UID in use. */
  lemma CreateLands(es: seq<Event>, t: Tid, box: Id, more: seq<Event>)
    requires Run(es) && box in After(es).uidNext
    requires Run(es + [ReadForCreate(t, box)]) && Run(es + [ReadForCreate(t, box)] + more)
    requires Run(es + [ReadForCreate(t, box)] + more + [Insert(t)])
    requires forall i :: 0 <= i < |more| ==> !Own(more[i], t)
    ensures var s := After(es + [ReadForCreate(t, box)] + more);
            var p := Place(box, After(es).uidNext[box]);
            After(es + [ReadForCreate(t, box)] + more + [Insert(t)]).msgs
            == if box !in s.uidNext || exists m :: m in s.msgs && s.msgs[m] == p then s.msgs
               else s.msgs[s.nextMsg := p]
  {
    hide Run, After;
    Snoc(es, ReadForCreate(t, box));
    CallWaits(es + [ReadForCreate(t, box)], t, more);
    Snoc(es + [ReadForCreate(t, box)] + more, Insert(t));
    Always(es + [ReadForCreate(t, box)] + more);
    hide UniqueInv, DueInv, ReadInv, CounterInv;
  }

  /** RFC 3501, section 2.3.1.1, wants every added message to get a UID above those of all messages before it.  When an
      insert succeeds and the UID it read is still uid_next, it does; MailCreate does not look again after its read. */
  lemma FreshInsertAscends(es: seq<Event>, t: Tid)
    requires Run(es + [Insert(t)]) && After(es).nextMsg in After(es + [Insert(t)]).msgs
    requires var s := After(es); s.threads[t].box in s.uidNext && s.threads[t].uid == s.uidNext[s.threads[t].box]
    ensures var s := After(es); var p := After(es + [Insert(t)]).msgs[s.nextMsg];
            p == Place(s.threads[t].box, s.threads[t].uid)
            && forall m :: m in s.msgs && s.msgs[m].box == p.box ==> s.msgs[m].uid < p.uid
  {
    Snoc(es, Insert(t));
    Always(es);
    InsertFree(After(es), t);
  }

  lemma InsertFree(s: Sys, t: Tid)
    requires Inv(s) && Enabled(s, Insert(t)) && s.nextMsg in Apply(s, Insert(t)).msgs
    ensures var p := Place(s.threads[t].box, s.threads[t].uid);
            Apply(s, Insert(t)).msgs[s.nextMsg] == p && forall m :: m in s.msgs ==> s.msgs[m] != p
  {
    assert s.nextMsg !in s.msgs;
    assert !Taken(s, Place(s.threads[t].box, s.threads[t].uid), s.nextMsg);
  }

  ghost predicate Reaches(es: seq<Event>, s: Sys) { Run(es) && After(es) == s }

  lemma Then(es: seq<Event>, s: Sys, e: Event, s': Sys)
    requires Reaches(es, s) && Enabled(s, e) && Apply(s, e) == s'
    ensures Reaches(es + [e], s')
  {
    Snoc(es, e);
  }

  /** Call 0 has read UID 1 and waits; call 1 stored a message under it, which was deleted; call 2 stored one under
      2. */
  const STALE := Sys(map[0 := 2], 1, map[1 := Place(0, 2)], 2, map[0 := Creating(0, 1), 2 := Bumping(0, 2, 1)])

  lemma StaleReached()
    ensures exists es :: Reaches(es, STALE)
  {
    var zero := Creating(0, 1);
    assert Reaches([], INIT);
    var es := [];
    var s1 := Sys(map[0 := 1], 1, map[], 0, map[]);
    Then(es, INIT, AddBox, s1); es := es + [AddBox];
    var s2 := s1.(threads := map[0 := zero]);
    Then(es, s1, ReadForCreate(0, 0), s2); es := es + [ReadForCreate(0, 0)];
    var s3 := s1.(threads := map[0 := zero, 1 := Creating(0, 1)]);
    Then(es, s2, ReadForCreate(1, 0), s3); es := es + [ReadForCreate(1, 0)];
    var s4 := Sys(map[0 := 1], 1, map[0 := Place(0, 1)], 1, map[0 := zero, 1 := Bumping(0, 1, 0)]);
    Then(es, s3, Insert(1), s4); es := es + [Insert(1)];
    var s5 := s4.(uidNext := map[0 := 2], threads := map[0 := zero]);
    assert Apply(s4, Bump(1)).threads == s5.threads;
    Then(es, s4, Bump(1), s5); es := es + [Bump(1)];
    var s6 := s5.(msgs := map[]);
    assert Apply(s5, Delete(0)).msgs == s6.msgs;
    Then(es, s5, Delete(0), s6); es := es + [Delete(0)];
    var s7 := s6.(threads := map[0 := zero, 2 := Creating(0, 2)]);
    Then(es, s6, ReadForCreate(2, 0), s7); es := es + [ReadForCreate(2, 0)];
    assert Apply(s7, Insert(2)) == STALE;
    Then(es, s7, Insert(2), STALE);
  }

  /** Otherwise it need not: with a UID read before other calls finished, the new message can come in below an older
      one. */
  lemma StaleInsertDescends()
    ensures exists es, t, m ::
              Run(es + [Insert(t)]) && m in After(es).msgs
              && After(es).nextMsg in After(es + [Insert(t)]).msgs
              && After(es).msgs[m].box == After(es + [Insert(t)]).msgs[After(es).nextMsg].box
              && After(es).msgs[m].uid > After(es + [Insert(t)]).msgs[After(es).nextMsg].uid
  {
    StaleReached();
    var es :| Reaches(es, STALE);
    Snoc(es, Insert(0));
    assert After(es).msgs[1].uid > After(es + [Insert(0)]).msgs[2].uid;
  }
}
