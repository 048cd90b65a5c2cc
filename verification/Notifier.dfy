/**
  notifier/notifier.go: the alert queue between Send and the Run loop.  Sections that
  hold the lock are atomic steps; the two sides interleave freely.  An alert is the
  number it was accepted under, so that its fate can be told.
 */
module Notifier {
  import opened Samples

  const MAX_BATCH_SIZE: int := 64

  /** Where the Run loop is. */
  datatype Pc =
    | Waiting                    // in the select
    | Awake                      // before nextBatch
    | Sending(batch: seq<int>)   // in sendAll
    | Checking                   // before queueLen
    | Signalling                 // queueLen was positive, before setMore

  /**
    queue, more and dropped are the manager's; accepted counts the alerts offered after
    relabelling, handled are those given to sendAll, in order, and sent and lost what
    became of the alerts that are no longer queued or in flight.
   */
  datatype State = State(queue: seq<int>, more: bool, dropped: nat, pc: Pc,
                         accepted: nat, handled: seq<int>, sent: seq<int>, lost: seq<int>)

  datatype Action =
    | Send(n: nat)          // n alerts are left after relabelling
    | Wake                  // the token is taken
    | Reload                // new targets arrive instead
    | TakeBatch
    | Deliver(ok: bool)
    | CheckQueue
    | Signal

  function Numbers(from: nat, n: nat): seq<int> {
    seq(n, i requires 0 <= i => from + i)
  }

  function Drop(s: seq<int>, d: int): seq<int> {
    if d <= 0 then s else if d > |s| then [] else s[d..]
  }

  function Taken(s: seq<int>, d: int): seq<int> {
    if d <= 0 then [] else if d > |s| then s else s[..d]
  }

  /** The newest capacity alerts of the queue and the new ones stay. */
  function Sent(s: State, capacity: nat, n: nat): State {
    if n == 0 then s
    else
      var alerts := Numbers(s.accepted, n);
      var d := n - capacity;
      var kept := Drop(alerts, d);
      var e := |s.queue| + |kept| - capacity;
      s.(queue := Drop(s.queue, e) + kept,
         more := true,
         dropped := s.dropped + |Taken(alerts, d)| + |Taken(s.queue, e)|,
         accepted := s.accepted + n,
         lost := s.lost + Taken(alerts, d) + Taken(s.queue, e))
  }

  predicate Enabled(s: State, a: Action) {
    match a
    case Send(_) => true
    case Wake => s.pc == Waiting && s.more
    case Reload => s.pc == Waiting
    case TakeBatch => s.pc == Awake
    case Deliver(_) => s.pc.Sending?
    case CheckQueue => s.pc == Checking
    case Signal => s.pc == Signalling
  }

  function BatchSize(queue: seq<int>): nat {
    if |queue| > MAX_BATCH_SIZE then MAX_BATCH_SIZE else |queue|
  }

  function Step(s: State, capacity: nat, a: Action): State
    requires Enabled(s, a)
  {
    match a
    case Send(n) => Sent(s, capacity, n)
    case Wake => s.(more := false, pc := Awake)
    case Reload => s.(pc := Awake)
    case TakeBatch =>
      var b := BatchSize(s.queue);
      s.(queue := s.queue[b..], pc := Sending(s.queue[..b]))
    case Deliver(ok) =>
      var b := s.pc.batch;
      var t := s.(pc := Checking, handled := s.handled + b);
      if ok then t.(sent := s.sent + b) else t.(dropped := s.dropped + |b|, lost := s.lost + b)
    case CheckQueue => s.(pc := if |s.queue| > 0 then Signalling else Waiting)
    case Signal => s.(more := true, pc := Waiting)
  }

  const INIT: State := State([], false, 0, Waiting, 0, [], [], [])

  // ---------------------------------------------------------------------------
  // What every step keeps

  function InFlight(s: State): seq<int> {
    if s.pc.Sending? then s.pc.batch else []
  }

  /** Everything that is somewhere. */
  ghost function Places(s: State): multiset<int> {
    multiset(s.queue) + multiset(InFlight(s)) + multiset(s.sent) + multiset(s.lost)
  }

  /** Everything that was accepted is in one place, once. */
  ghost predicate Conserved(s: State) {
    Places(s) == multiset(Numbers(0, s.accepted)) && |s.lost| == s.dropped
  }

  ghost predicate Ascending(q: seq<int>) {
    forall i, j :: 0 <= i < j < |q| ==> q[i] < q[j]
  }

  /** Accepted numbers, in the order of acceptance. */
  ghost predicate InLine(q: seq<int>, accepted: nat) {
    Ascending(q) && forall i :: 0 <= i < |q| ==> q[i] < accepted
  }

  /** Alerts leave in the order in which they were accepted. */
  ghost predicate Fifo(s: State) {
    InLine(s.handled + InFlight(s) + s.queue, s.accepted)
  }

  ghost predicate Inv(s: State, capacity: nat) {
    && Conserved(s) && Fifo(s)
    && |s.queue| <= capacity
    && (s.pc == Waiting && |s.queue| > 0 ==> s.more)
    && |InFlight(s)| <= MAX_BATCH_SIZE
  }

  lemma {:induction false} DropTaken(s: seq<int>, d: int)
    ensures multiset(Taken(s, d)) + multiset(Drop(s, d)) == multiset(s)
    ensures |Taken(s, d)| + |Drop(s, d)| == |s|
    ensures 0 <= d <= |s| ==> |Taken(s, d)| == d
    ensures Taken(s, d) + Drop(s, d) == s
  {
    assert Taken(s, d) + Drop(s, d) == s;
  }

  lemma {:induction false} NumbersAppend(m: nat, n: nat)
    ensures multiset(Numbers(0, m + n)) == multiset(Numbers(0, m)) + multiset(Numbers(m, n))
  {
    assert Numbers(0, m + n) == Numbers(0, m) + Numbers(m, n);
  }

  /** What two of the places take in, the whole takes in. */
  lemma {:induction false} Balance(queue: multiset<int>, lost: multiset<int>, flight: multiset<int>, sent: multiset<int>,
                                   queue': multiset<int>, lost': multiset<int>, more: multiset<int>)
    requires queue' + lost' == queue + lost + more
    ensures queue' + flight + sent + lost' == queue + flight + sent + lost + more
  {
    var rest := flight + sent;
    assert queue' + flight + sent + lost' == queue' + lost' + rest;
    assert queue + lost + more + rest == queue + flight + sent + lost + more;
  }

  lemma {:induction false} Joined(a: seq<int>, b: seq<int>)
    ensures multiset(a + b) == multiset(a) + multiset(b)
  {
  }

  /** What Send turns the lists into, by name. */
  lemma {:induction false} SentParts(s: State, capacity: nat, n: nat)
    returns (kept: seq<int>, refused: seq<int>, rest: seq<int>, cut: seq<int>)
    requires 0 < n
    ensures var t := Sent(s, capacity, n);
      && t.queue == rest + kept && t.lost == s.lost + refused + cut
      && t.dropped == s.dropped + |refused| + |cut| && t.accepted == s.accepted + n
      && t.sent == s.sent && t.pc == s.pc && t.handled == s.handled && t.more
    ensures kept == Drop(Numbers(s.accepted, n), n - capacity)
    ensures rest == Drop(s.queue, |s.queue| + |kept| - capacity)
    ensures multiset(Numbers(s.accepted, n)) == multiset(refused) + multiset(kept)
    ensures multiset(s.queue) == multiset(rest) + multiset(cut)
    ensures |s.queue| <= capacity ==> |rest| + |kept| <= capacity
  {
    hide Drop, Taken, Numbers;
    var alerts, d := Numbers(s.accepted, n), n - capacity;
    NumbersSize(s.accepted, n);
    kept, refused := Drop(alerts, d), Taken(alerts, d);
    var e := |s.queue| + |kept| - capacity;
    rest, cut := Drop(s.queue, e), Taken(s.queue, e);
    DropTaken(alerts, d);
    DropSize(alerts, d);
    DropTaken(s.queue, e);
    DropSize(s.queue, e);
  }

  lemma {:induction false} NumbersSize(from: nat, n: nat)
    ensures |Numbers(from, n)| == n
  {
  }

  lemma {:induction false} DropSize(s: seq<int>, d: int)
    ensures |Drop(s, d)| == if d <= 0 then |s| else if d > |s| then 0 else |s| - d
  {
  }

  lemma {:induction false} SendConserves(s: State, capacity: nat, n: nat)
    requires Conserved(s)
    ensures Conserved(Sent(s, capacity, n))
  {
    hide Sent, Numbers, Places;
    if n == 0 {
      SendNothing(s, capacity);
    } else {
      SentCounts(s, capacity, n);
      SentAdds(s, capacity, n);
      NumbersAppend(s.accepted, n);
    }
  }

  lemma {:induction false} SentAdds(s: State, capacity: nat, n: nat)
    requires 0 < n
    ensures Places(Sent(s, capacity, n)) == Places(s) + multiset(Numbers(s.accepted, n))
  {
    hide Sent, Numbers;
    var t := Sent(s, capacity, n);
    SentCounts(s, capacity, n);
    SentBag(s, capacity, n);
    assert InFlight(t) == InFlight(s);
    hide InFlight;
    Balance(multiset(s.queue), multiset(s.lost), multiset(InFlight(s)), multiset(s.sent),
            multiset(t.queue), multiset(t.lost), multiset(Numbers(s.accepted, n)));
  }

  lemma {:induction false} SentCounts(s: State, capacity: nat, n: nat)
    requires 0 < n
    ensures var t := Sent(s, capacity, n);
      && t.sent == s.sent && t.pc == s.pc && t.accepted == s.accepted + n
      && |t.lost| - t.dropped == |s.lost| - s.dropped
  {
    hide Drop, Taken, Numbers;
  }

  /** What is queued or lost grows by the new alerts. */
  lemma {:induction false} SentBag(s: State, capacity: nat, n: nat)
    requires 0 < n
    ensures var t := Sent(s, capacity, n);
      multiset(t.queue) + multiset(t.lost) == multiset(s.queue) + multiset(s.lost) + multiset(Numbers(s.accepted, n))
  {
    hide Sent, Drop, Taken, Numbers;
    var kept, refused, rest, cut := SentParts(s, capacity, n);
    Joined(rest, kept);
    JoinedThree(s.lost, refused, cut);
    Exchange(multiset(rest), multiset(cut), multiset(kept), multiset(refused), multiset(s.lost));
  }

  lemma {:induction false} Exchange(rest: multiset<int>, cut: multiset<int>, kept: multiset<int>, refused: multiset<int>,
                                    lost: multiset<int>)
    ensures (rest + kept) + (lost + refused + cut) == (rest + cut) + lost + (refused + kept)
  {
  }

  lemma {:induction false} JoinedThree(a: seq<int>, b: seq<int>, c: seq<int>)
    ensures multiset(a + b + c) == multiset(a) + multiset(b) + multiset(c)
  {
    Joined(a, b);
    Joined(a + b, c);
  }

  lemma {:induction false} SendKeepsOrder(s: State, capacity: nat, n: nat)
    requires Fifo(s) && |s.queue| <= capacity
    ensures Fifo(Sent(s, capacity, n)) && |Sent(s, capacity, n).queue| <= capacity
  {
    if n > 0 {
      hide Sent, Drop, Taken, Numbers, InLine;
      var kept, refused, rest, cut := SentParts(s, capacity, n);
      var front := s.handled + InFlight(s);
      DropInLine(front, s.queue, |s.queue| + |kept| - capacity, s.accepted);
      NumbersInLine(front + rest, s.accepted, n, n - capacity);
      Regroup(front, rest, kept);
    }
  }

  lemma {:induction false} Regroup(a: seq<int>, b: seq<int>, c: seq<int>)
    ensures a + b + c == a + (b + c)
  {
  }

  lemma {:induction false} DropInLine(front: seq<int>, q: seq<int>, e: int, accepted: nat)
    requires InLine(front + q, accepted)
    ensures InLine(front + Drop(q, e), accepted)
  {
    var r := front + Drop(q, e);
    var gap := |q| - |Drop(q, e)|;
    assert forall i :: 0 <= i < |r| ==> r[i] == (front + q)[if i < |front| then i else i + gap];
  }

  lemma {:induction false} NumbersInLine(front: seq<int>, accepted: nat, n: nat, d: int)
    requires InLine(front, accepted)
    ensures InLine(front + Drop(Numbers(accepted, n), d), accepted + n)
  {
    var tail := Drop(Numbers(accepted, n), d);
    assert forall i :: 0 <= i < |tail| ==> tail[i] == accepted + n - |tail| + i;
  }

  lemma {:induction false} BatchConserves(s: State, capacity: nat)
    requires Inv(s, capacity) && s.pc == Awake
    ensures Inv(Step(s, capacity, TakeBatch), capacity)
  {
    hide InLine, Numbers;
    var b := BatchSize(s.queue);
    var t := Step(s, capacity, TakeBatch);
    assert s.queue == s.queue[..b] + s.queue[b..];
    assert t.queue == s.queue[b..] && InFlight(t) == s.queue[..b] && InFlight(s) == [];
    assert Fifo(t) by {
      assert s.handled + InFlight(s) + s.queue == t.handled + InFlight(t) + t.queue;
    }
    assert Conserved(t) by {
      hide Fifo;
      Joined(s.queue[..b], s.queue[b..]);
    }
  }

  lemma {:induction false} DeliverConserves(s: State, capacity: nat, ok: bool)
    requires Inv(s, capacity) && s.pc.Sending?
    ensures Inv(Step(s, capacity, Deliver(ok)), capacity)
  {
    var t := Step(s, capacity, Deliver(ok));
    var b := s.pc.batch;
    Joined(s.sent, b);
    Joined(s.lost, b);
    assert s.handled + InFlight(s) + s.queue == t.handled + InFlight(t) + t.queue;
  }

  lemma {:induction false} StepKeepsInv(s: State, capacity: nat, a: Action)
    requires Inv(s, capacity) && Enabled(s, a)
    ensures Inv(Step(s, capacity, a), capacity)
  {
    match a
    case Send(n) =>
      SendConserves(s, capacity, n);
      SendKeepsOrder(s, capacity, n);
    case TakeBatch => BatchConserves(s, capacity);
    case Deliver(ok) => DeliverConserves(s, capacity, ok);
    case Wake =>
    case Reload =>
    case CheckQueue =>
    case Signal =>
  }

  /** The state after the actions; None if one of them could not be taken where it stands. */
  function After(capacity: nat, actions: seq<Action>): Option<State> {
    if |actions| == 0 then Some(INIT)
    else
      var s := After(capacity, actions[..|actions| - 1]);
      var a := actions[|actions| - 1];
      if s.Some? && Enabled(s.value, a) then Some(Step(s.value, capacity, a)) else None
  }

  /** In every interleaving: nothing is lost uncounted, order, bound, and no lost wake-up. */
  lemma {:induction false} EveryRun(capacity: nat, actions: seq<Action>)
    requires After(capacity, actions).Some?
    ensures Inv(After(capacity, actions).value, capacity)
  {
    if |actions| > 0 {
      var n := |actions| - 1;
      EveryRun(capacity, actions[..n]);
      StepKeepsInv(After(capacity, actions[..n]).value, capacity, actions[n]);
    } else {
      assert Numbers(0, 0) == [];
    }
  }

  /** Every accepted alert is in exactly one place, exactly once. */
  lemma {:induction false} ExactlyOnePlace(s: State, x: nat)
    requires Conserved(s)
    ensures x < s.accepted ==>
      multiset(s.queue)[x] + multiset(InFlight(s))[x] + multiset(s.sent)[x] + multiset(s.lost)[x] == 1
    ensures x >= s.accepted ==> x !in s.queue && x !in InFlight(s) && x !in s.sent && x !in s.lost
  {
    NumberOnce(s.accepted, x);
    var all := multiset(s.queue) + multiset(InFlight(s)) + multiset(s.sent) + multiset(s.lost);
    assert all[x] == multiset(Numbers(0, s.accepted))[x];
  }

  lemma {:induction false} NumberOnce(n: nat, x: nat)
    ensures multiset(Numbers(0, n))[x] == if x < n then 1 else 0
  {
    if n == 0 {
      assert Numbers(0, 0) == [];
    } else {
      NumberOnce(n - 1, x);
      assert Numbers(0, n) == Numbers(0, n - 1) + [n - 1];
    }
  }

  /** One turn of the loop when no alert arrives. */
  function Turn(s: State, capacity: nat, ok: bool): State
    requires s.pc == Waiting && s.more
  {
    var t := Step(Step(Step(Step(s, capacity, Wake), capacity, TakeBatch), capacity, Deliver(ok)), capacity, CheckQueue);
    if t.pc == Signalling then Step(t, capacity, Signal) else t
  }

  /** A waiting loop with alerts queued can run, and a turn leaves it waiting with fewer and, if any are left, awake. */
  lemma {:induction false} TurnShrinksQueue(s: State, capacity: nat, ok: bool)
    requires Inv(s, capacity) && s.pc == Waiting && |s.queue| > 0
    ensures Enabled(s, Wake)
    ensures var t := Turn(s, capacity, ok);
      && Inv(t, capacity) && t.pc == Waiting
      && t.queue == s.queue[BatchSize(s.queue)..] && |t.queue| < |s.queue|
      && (t.more <==> |t.queue| > 0)
  {
    hide Inv;
    assert s.more by { TokenThere(s, capacity); }
    var s1 := Step(s, capacity, Wake);
    StepKeepsInv(s, capacity, Wake);
    var s2 := Step(s1, capacity, TakeBatch);
    StepKeepsInv(s1, capacity, TakeBatch);
    var s3 := Step(s2, capacity, Deliver(ok));
    StepKeepsInv(s2, capacity, Deliver(ok));
    StepKeepsInv(s3, capacity, CheckQueue);
    var s4 := Step(s3, capacity, CheckQueue);
    if s4.pc == Signalling {
      StepKeepsInv(s4, capacity, Signal);
    }
  }

  lemma {:induction false} TokenThere(s: State, capacity: nat)
    requires Inv(s, capacity) && s.pc == Waiting && |s.queue| > 0
    ensures s.more
  {
  }

  // ---------------------------------------------------------------------------
  // What became of the alerts, from the actions alone

  /** The alerts of the batches whose delivery ended with ok, in order. */
  function Batches(capacity: nat, actions: seq<Action>, ok: bool): seq<int> {
    if |actions| == 0 then []
    else
      var n := |actions| - 1;
      var s := After(capacity, actions[..n]);
      Batches(capacity, actions[..n], ok)
      + if actions[n] == Deliver(ok) && s.Some? then InFlight(s.value) else []
  }

  /** How many alerts did not fit into the queue when they or later ones were sent. */
  function Overflow(capacity: nat, actions: seq<Action>): int {
    if |actions| == 0 then 0
    else
      var n := |actions| - 1;
      var s := After(capacity, actions[..n]);
      Overflow(capacity, actions[..n])
      + if actions[n].Send? && s.Some? && |s.value.queue| + actions[n].n > capacity
        then |s.value.queue| + actions[n].n - capacity else 0
  }

  /** In every run: sent are exactly the batches delivered, and dropped counts the failed ones and the overflow. */
  lemma {:induction false} RunAccounts(capacity: nat, actions: seq<Action>)
    requires After(capacity, actions).Some?
    ensures var s := After(capacity, actions).value;
      && s.sent == Batches(capacity, actions, true)
      && s.dropped == |Batches(capacity, actions, false)| + Overflow(capacity, actions)
  {
    if |actions| > 0 {
      hide Sent, Inv;
      var n := |actions| - 1;
      var s := After(capacity, actions[..n]).value;
      RunAccounts(capacity, actions[..n]);
      EveryRun(capacity, actions[..n]);
      if actions[n].Send? {
        QueueFits(s, capacity);
        SendMeans(s, capacity, actions[n].n);
      }
    }
  }

  /** The queue and the new alerts together, of which the newest that fit stay; how many do not is counted. */
  lemma {:induction false} SendMeans(s: State, capacity: nat, n: nat)
    requires |s.queue| <= capacity
    ensures var t, all := Sent(s, capacity, n), s.queue + Numbers(s.accepted, n);
      var over := if |s.queue| + n > capacity then |s.queue| + n - capacity else 0;
      && |all| == |s.queue| + n && t.queue == all[over..] && t.dropped == s.dropped + over
      && t.accepted == s.accepted + n && t.sent == s.sent && t.handled == s.handled && t.pc == s.pc
      && (n > 0 ==> t.more) && (n == 0 ==> t == s)
  {
    NumbersSize(s.accepted, n);
    hide Numbers;
    var all := s.queue + Numbers(s.accepted, n);
    var d := n - capacity;
    if d > 0 {
      assert all[|s.queue| + d..] == Numbers(s.accepted, n)[d..];
    }
  }

  /** A batch is the first 64 alerts of the queue, or all if there are fewer. */
  lemma {:induction false} BatchMeans(s: State, capacity: nat)
    requires s.pc == Awake
    ensures var b := if |s.queue| > 64 then 64 else |s.queue|;
      Step(s, capacity, TakeBatch) == s.(queue := s.queue[b..], pc := Sending(s.queue[..b]))
  {
  }

  // ---------------------------------------------------------------------------
  // The manager: each method is one atomic step

  class Manager {
    const capacity: nat
    var queue: seq<int>
    var more: bool
    var dropped: nat
    ghost var st: State

    ghost predicate Valid()
      reads this
    {
      queue == st.queue && more == st.more && dropped == st.dropped && Inv(st, capacity)
    }

    constructor (capacity: nat)
      ensures Valid() && this.capacity == capacity && st == INIT
    {
      this.capacity := capacity;
      queue, more, dropped, st := [], false, 0, INIT;
      EveryRun(capacity, []);
    }

    method SetMore()
      modifies this`more
      ensures more
    {
      if !more {
        more := true;
      }
    }

    method Send(relabelled: seq<int>)
      requires Valid() && relabelled == Numbers(st.accepted, |relabelled|)
      modifies this
      ensures Valid() && st == Step(old(st), capacity, Action.Send(|relabelled|))
    {
      hide Inv, Numbers, Sent, Step, Drop, Taken;
      StepKeepsInv(st, capacity, Action.Send(|relabelled|));
      StepSend(st, capacity, |relabelled|);
      if |relabelled| == 0 {
        SendNothing(st, capacity);
        return;
      }
      QueueFits(st, capacity);
      ghost var kept, rest := SendIs(st, capacity, relabelled);
      st := Step(st, capacity, Action.Send(|relabelled|));
      var alerts, refused := CutFront(relabelled, |relabelled| - capacity);
      dropped := dropped + refused;
      var left, cut := CutFront(queue, |queue| + |alerts| - capacity);
      dropped := dropped + cut;
      queue := left + alerts;
      SetMore();
    }

    method TakeToken()
      requires Valid() && st.pc == Waiting && more
      modifies this
      ensures Valid() && st == Step(old(st), capacity, Wake)
    {
      StepKeepsInv(st, capacity, Wake);
      more := false;
      st := Step(st, capacity, Wake);
    }

    method NextBatch() returns (alerts: seq<int>)
      requires Valid() && st.pc == Awake
      modifies this
      ensures Valid() && st == Step(old(st), capacity, TakeBatch) && st.pc == Sending(alerts)
    {
      hide Inv;
      StepKeepsInv(st, capacity, TakeBatch);
      st := Step(st, capacity, TakeBatch);
      if |queue| > MAX_BATCH_SIZE {
        alerts := queue[..MAX_BATCH_SIZE];
        queue := queue[MAX_BATCH_SIZE..];
      } else {
        alerts := queue;
        queue := [];
      }
    }

    /** sendAll has returned; a failed batch is counted as dropped. */
    method Delivered(alerts: seq<int>, ok: bool)
      requires Valid() && st.pc == Sending(alerts)
      modifies this
      ensures Valid() && st == Step(old(st), capacity, Deliver(ok))
    {
      hide Inv;
      StepKeepsInv(st, capacity, Deliver(ok));
      if !ok {
        dropped := dropped + |alerts|;
      }
      st := Step(st, capacity, Deliver(ok));
    }

    method QueueLen() returns (n: nat)
      requires Valid() && st.pc == Checking
      modifies this`st
      ensures Valid() && st == Step(old(st), capacity, CheckQueue) && (n > 0 <==> st.pc == Signalling)
    {
      StepKeepsInv(st, capacity, CheckQueue);
      st := Step(st, capacity, CheckQueue);
      n := |queue|;
    }

    /** The last step of a turn with alerts left: the next turn is kicked off. */
    method KickOff()
      requires Valid() && st.pc == Signalling
      modifies this
      ensures Valid() && st == Step(old(st), capacity, Signal)
    {
      StepKeepsInv(st, capacity, Signal);
      SetMore();
      st := Step(st, capacity, Signal);
    }
  }

  lemma {:induction false} StepSend(s: State, capacity: nat, n: nat)
    ensures Step(s, capacity, Action.Send(n)) == Sent(s, capacity, n)
  {
  }

  lemma {:induction false} SendNothing(s: State, capacity: nat)
    ensures Sent(s, capacity, 0) == s
  {
  }

  /** The first d elements are taken away, if d is positive. */
  method CutFront(s: seq<int>, d: int) returns (r: seq<int>, n: nat)
    requires d <= |s|
    ensures r == Drop(s, d) && n == |Taken(s, d)|
  {
    if d > 0 {
      return s[d..], d;
    }
    return s, 0;
  }

  lemma {:induction false} QueueFits(s: State, capacity: nat)
    requires Inv(s, capacity)
    ensures |s.queue| <= capacity
  {
  }

  /** What a Send keeps of the new alerts and of the queue. */
  lemma {:induction false} SendIs(s: State, capacity: nat, alerts: seq<int>) returns (kept: seq<int>, rest: seq<int>)
    requires |s.queue| <= capacity && alerts == Numbers(s.accepted, |alerts|) && |alerts| > 0
    ensures kept == Drop(alerts, |alerts| - capacity)
    ensures var e := |s.queue| + |kept| - capacity; e <= |s.queue| && rest == Drop(s.queue, e)
    ensures var t, d, e := Sent(s, capacity, |alerts|), |alerts| - capacity, |s.queue| + |kept| - capacity;
      t.queue == rest + kept && t.more && t.dropped == s.dropped + |Taken(alerts, d)| + |Taken(s.queue, e)|
  {
    hide Drop, Taken, Numbers;
    kept := Drop(alerts, |alerts| - capacity);
    DropSize(alerts, |alerts| - capacity);
    rest := Drop(s.queue, |s.queue| + |kept| - capacity);
  }
}
