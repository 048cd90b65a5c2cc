/**
  rules/alerting.go: the state machine of the alerts of one rule.  An alert stands
  for its fingerprint; times and durations are in milliseconds, and an unset time
  is None.
 */
module Alerting {
  import opened Samples

  const RESOLVED_RETENTION: int := 15 * 60 * 1000

  datatype Fingerprint = Fingerprint(id: int)

  datatype AlertState = Inactive | Pending | Firing

  datatype Alert = Alert(state: AlertState, value: int, activeAt: int, firedAt: Option<int>, resolvedAt: Option<int>,
                         lastSentAt: Option<int>, validUntil: Option<int>, keepFiringSince: Option<int>)

  function NewAlert(value: int, ts: int): Alert {
    Alert(Pending, value, ts, None, None, None, None, None)
  }

  datatype Config = Config(holdDuration: int, keepFiringFor: int)

  // ---------------------------------------------------------------------------
  // One alert through one evaluation

  /** A new result starts an alert, unless one is pending or firing; that one takes the value. */
  function Refreshed(a: Option<Alert>, v: Option<int>, ts: int): Option<Alert> {
    if v.None? then a
    else if a.Some? && a.value.state != Inactive then Some(a.value.(value := v.value))
    else Some(NewAlert(v.value, ts))
  }

  /** An alert that is not in the result; None: it is forgotten. */
  function Miss(cfg: Config, a: Alert, ts: int): Option<Alert> {
    var mayKeep := a.state == Firing && cfg.keepFiringFor > 0;
    var since := if a.keepFiringSince.Some? then a.keepFiringSince.value else ts;
    var keep := mayKeep && ts - since < cfg.keepFiringFor;
    var a1 := if mayKeep then a.(keepFiringSince := Some(since)) else a;
    if a.state == Pending || (a.resolvedAt.Some? && ts - a.resolvedAt.value > RESOLVED_RETENTION) then None
    else if a.state != Inactive && !keep then Some(a1.(state := Inactive, resolvedAt := Some(ts)))
    else Some(a1)
  }

  /** An alert that is in the result. */
  function Hit(cfg: Config, a: Alert, ts: int): Alert {
    var a1 := a.(keepFiringSince := None);
    if a1.state == Pending && ts - a1.activeAt >= cfg.holdDuration
    then a1.(state := Firing, firedAt := Some(ts))
    else a1
  }

  function Evaluated(cfg: Config, a: Option<Alert>, v: Option<int>, ts: int): Option<Alert> {
    match Refreshed(a, v, ts)
    case None => None
    case Some(b) => if v.Some? then Some(Hit(cfg, b, ts)) else Miss(cfg, b, ts)
  }

  // ---------------------------------------------------------------------------
  // Sending

  predicate After(t: Option<int>, u: Option<int>) {
    t.Some? && (u.None? || t.value > u.value)
  }

  predicate NeedsSending(a: Alert, ts: int, resendDelay: int) {
    if a.state == Pending then false
    else if After(a.resolvedAt, a.lastSentAt) then true
    else a.lastSentAt.None? || a.lastSentAt.value + resendDelay < ts
  }

  /** Not pending, and never sent, or last sent too long ago, or resolved since it was last sent. */
  ghost predicate IsDue(a: Alert, ts: int, resendDelay: int) {
    && a.state != Pending
    && (|| a.lastSentAt == None
        || ts - a.lastSentAt.value > resendDelay
        || (a.resolvedAt.Some? && a.lastSentAt.value < a.resolvedAt.value))
  }

  function Sent(a: Alert, ts: int, resendDelay: int, interval: int): Alert {
    var delta := if interval > resendDelay then interval else resendDelay;
    if NeedsSending(a, ts, resendDelay) then a.(lastSentAt := Some(ts), validUntil := Some(ts + 4 * delta)) else a
  }

  function Get<V>(m: map<Fingerprint, V>, k: Fingerprint): Option<V> {
    if k in m then Some(m[k]) else None
  }

  class AlertingRule {
    const cfg: Config
    var active: map<Fingerprint, Alert>

    constructor (cfg: Config)
      ensures this.cfg == cfg && active == map[]
    {
      this.cfg := cfg;
      active := map[];
    }

    /** The first loop of Eval: new alerts in, values of old ones brought up to date. */
    method Refresh(res: map<Fingerprint, int>, ts: int)
      modifies this
      ensures forall fp :: Get(active, fp) == Refreshed(Get(old(active), fp), Get(res, fp), ts)
    {
      var todo := res.Keys;
      while todo != {}
        invariant todo <= res.Keys
        invariant forall fp ::
          Get(active, fp) == (if fp in todo then Get(old(active), fp) else Refreshed(Get(old(active), fp), Get(res, fp), ts))
      {
        var h := AnyOf(todo);
        todo := todo - {h};
        if h in active && active[h].state != Inactive {
          active := active[h := active[h].(value := res[h])];
        } else {
          active := active[h := NewAlert(res[h], ts)];
        }
      }
    }

    /** The body of the second loop of Eval: one alert, in the result or not. */
    method Step(fp: Fingerprint, present: bool, ts: int)
      requires fp in active
      modifies this
      ensures forall x :: x != fp ==> Get(active, x) == old(Get(active, x))
      ensures Get(active, fp) == if present then Some(Hit(cfg, old(active[fp]), ts)) else Miss(cfg, old(active[fp]), ts)
    {
      var a := active[fp];
      if !present {
        var keepFiring := false;
        if a.state == Firing && cfg.keepFiringFor > 0 {
          if a.keepFiringSince.None? {
            a := a.(keepFiringSince := Some(ts));
          }
          if ts - a.keepFiringSince.value < cfg.keepFiringFor {
            keepFiring := true;
          }
        }
        var delete := a.state == Pending || (a.resolvedAt.Some? && ts - a.resolvedAt.value > RESOLVED_RETENTION);
        if a.state != Inactive && !keepFiring {
          a := a.(state := Inactive, resolvedAt := Some(ts));
        }
        active := if delete then active - {fp} else active[fp := a];
        if !keepFiring {
          return;
        }
      } else {
        a := a.(keepFiringSince := None);
        active := active[fp := a];
      }
      if a.state == Pending && ts - a.activeAt >= cfg.holdDuration {
        active := active[fp := a.(state := Firing, firedAt := Some(ts))];
      }
    }

    method Eval(ts: int, res: map<Fingerprint, int>)
      modifies this
      ensures forall fp :: Get(active, fp) == Evaluated(cfg, Get(old(active), fp), Get(res, fp), ts)
    {
      hide Hit, Miss, Refreshed;
      Refresh(res, ts);
      ghost var mid := active;
      var todo := active.Keys;
      while todo != {}
        invariant todo <= mid.Keys
        invariant forall fp :: fp in todo ==> Get(active, fp) == Get(mid, fp)
        invariant forall fp :: fp !in todo ==>
          Get(active, fp) == match Get(mid, fp)
                             case None => None
                             case Some(b) => if fp in res then Some(Hit(cfg, b, ts)) else Miss(cfg, b, ts)
      {
        var fp := AnyOf(todo);
        assert Get(active, fp) == Get(mid, fp);
        Step(fp, fp in res, ts);
        todo := todo - {fp};
      }
    }

    /** All alerts that need it are sent, as they are after the send is recorded; the others stay as they are. */
    method SendAlerts(ts: int, resendDelay: int, interval: int) returns (alerts: map<Fingerprint, Alert>)
      modifies this
      ensures active.Keys == old(active.Keys)
      ensures forall fp :: fp in active ==> active[fp] == Sent(old(active)[fp], ts, resendDelay, interval)
      ensures forall fp :: fp in alerts <==> fp in active && NeedsSending(old(active)[fp], ts, resendDelay)
      ensures forall fp :: fp in alerts ==> alerts[fp] == active[fp]
      ensures forall fp :: fp in active ==> (fp in alerts <==> IsDue(old(active)[fp], ts, resendDelay))
      ensures forall fp :: fp in active && fp !in alerts ==> active[fp] == old(active)[fp]
      ensures forall fp :: fp in alerts ==>
        var delta := if interval > resendDelay then interval else resendDelay;
        alerts[fp] == old(active)[fp].(lastSentAt := Some(ts), validUntil := Some(ts + 4 * delta))
    {
      alerts := map[];
      var todo := active.Keys;
      while todo != {}
        invariant todo <= active.Keys && active.Keys == old(active.Keys)
        invariant forall fp :: fp in active ==>
          active[fp] == if fp in todo then old(active)[fp] else Sent(old(active)[fp], ts, resendDelay, interval)
        invariant forall fp :: fp in alerts <==>
          fp in active && fp !in todo && NeedsSending(old(active)[fp], ts, resendDelay)
        invariant forall fp :: fp in alerts ==> alerts[fp] == active[fp]
      {
        var fp := AnyOf(todo);
        todo := todo - {fp};
        var alert := active[fp];
        if NeedsSending(alert, ts, resendDelay) {
          var delta := resendDelay;
          if interval > resendDelay {
            delta := interval;
          }
          alert := alert.(lastSentAt := Some(ts), validUntil := Some(ts + 4 * delta));
          active := active[fp := alert];
          alerts := alerts[fp := alert];
        }
      }
    }
  }

  // ---------------------------------------------------------------------------
  // One alert over whole runs

  /** An evaluation: its time, and the value the alert's labels have in the result, if they are in it. */
  datatype Obs = Obs(ts: int, v: Option<int>)

  datatype Resend = Resend(delay: int, interval: int)

  /** The alert after every evaluation of the run was followed by a send. */
  function Run(cfg: Config, rs: Resend, hist: seq<Obs>): Option<Alert> {
    if |hist| == 0 then None
    else
      var o := hist[|hist| - 1];
      match Evaluated(cfg, Run(cfg, rs, hist[..|hist| - 1]), o.v, o.ts)
      case None => None
      case Some(a) => Some(Sent(a, o.ts, rs.delay, rs.interval))
  }

  ghost predicate Present(hist: seq<Obs>, i: int, j: int) {
    0 <= i <= j < |hist| && forall k :: i <= k <= j ==> hist[k].v.Some?
  }

  /** s..k is the part up to k of an absence that began at s. */
  ghost predicate AbsentSince(hist: seq<Obs>, s: int, k: int) {
    && 0 < s <= k < |hist| && hist[s - 1].v.Some?
    && forall m :: s <= m <= k ==> hist[m].v.None?
  }

  lemma {:induction false} PendingWasPresent(cfg: Config, rs: Resend, hist: seq<Obs>) returns (i: int)
    requires Run(cfg, rs, hist).Some? && Run(cfg, rs, hist).value.state == Pending
    ensures Present(hist, i, |hist| - 1) && Run(cfg, rs, hist).value.activeAt == hist[i].ts
  {
    var n := |hist| - 1;
    var before := Run(cfg, rs, hist[..n]);
    if before.Some? && before.value.state == Pending {
      i := PendingWasPresent(cfg, rs, hist[..n]);
    } else {
      i := n;
    }
  }

  /** Up to k, every absence after j was shorter than keepFiringFor. */
  ghost predicate ShortAbsences(cfg: Config, hist: seq<Obs>, j: int, n: int) {
    forall s, k :: j < s <= k < n && AbsentSince(hist, s, k) ==> hist[k].ts - hist[s].ts < cfg.keepFiringFor
  }

  /**
    A firing alert was in every result from i to j, over at least holdDuration, and has
    since not been missing for keepFiringFor.  If it is missing now, it is since s.
   */
  lemma {:induction false} FiringIsEarned(cfg: Config, rs: Resend, hist: seq<Obs>) returns (i: int, j: int, s: int)
    requires Run(cfg, rs, hist).Some? && Run(cfg, rs, hist).value.state == Firing
    ensures Present(hist, i, j) && hist[j].ts - hist[i].ts >= cfg.holdDuration
    ensures var a := Run(cfg, rs, hist).value; a.activeAt == hist[i].ts && a.firedAt == Some(hist[j].ts)
    ensures ShortAbsences(cfg, hist, j, |hist|)
    ensures var a := Run(cfg, rs, hist).value;
      if hist[|hist| - 1].v.Some? then a.keepFiringSince == None
      else AbsentSince(hist, s, |hist| - 1) && j < s && a.keepFiringSince == Some(hist[s].ts)
  {
    hide Run, Hit, Miss, Refreshed, ShortAbsences;
    FiringStep(cfg, rs, hist);
    var n := |hist| - 1;
    var before := Run(cfg, rs, hist[..n]);
    var o := hist[n];
    if before.Some? && before.value.state == Firing {
      i, j, s := FiringIsEarned(cfg, rs, hist[..n]);
      assert Present(hist[..n], i, j);
      if o.v.None? {
        if hist[n - 1].v.Some? {
          s := n;
        }
        AbsenceGrows(hist, s, n);
      }
      AbsencesExtend(cfg, hist, j, n, s);
    } else if before.Some? && before.value.state == Pending {
      i := PendingWasPresent(cfg, rs, hist[..n]);
      j, s := n, n;
      assert Present(hist[..n], i, n - 1);
    } else {
      i, j, s := n, n, n;
    }
    if !(before.Some? && before.value.state == Firing) {
      NoAbsences(cfg, hist, n);
    }
  }

  /** How an alert comes to be firing in one evaluation: it was, or was pending for long enough, or need not be. */
  lemma {:induction false} FiringStep(cfg: Config, rs: Resend, hist: seq<Obs>)
    requires Run(cfg, rs, hist).Some? && Run(cfg, rs, hist).value.state == Firing
    ensures |hist| > 0
    ensures var n := |hist| - 1;
      var before, a, o := Run(cfg, rs, hist[..n]), Run(cfg, rs, hist).value, hist[n];
      if before.Some? && before.value.state == Firing then
        && n > 0 && a.activeAt == before.value.activeAt && a.firedAt == before.value.firedAt
        && (o.v.Some? ==> a.keepFiringSince == None)
        && (o.v.None? ==>
              var since := if before.value.keepFiringSince.Some? then before.value.keepFiringSince.value else o.ts;
              a.keepFiringSince == Some(since) && o.ts - since < cfg.keepFiringFor)
      else
        && o.v.Some? && a.keepFiringSince == None && a.firedAt == Some(o.ts) && o.ts - a.activeAt >= cfg.holdDuration
        && (if before.Some? && before.value.state == Pending then a.activeAt == before.value.activeAt
            else a.activeAt == o.ts)
  {
  }

  lemma {:induction false} NoAbsences(cfg: Config, hist: seq<Obs>, j: int)
    requires j == |hist| - 1
    ensures ShortAbsences(cfg, hist, j, |hist|)
  {
  }

  lemma {:induction false} AbsenceGrows(hist: seq<Obs>, s: int, n: int)
    requires n == |hist| - 1 && 0 < s <= n && hist[n].v.None?
    requires s == n ==> hist[n - 1].v.Some?
    requires s < n ==> AbsentSince(hist[..n], s, n - 1)
    ensures AbsentSince(hist, s, n)
  {
    if s < n {
      assert forall m :: 0 <= m < n ==> hist[..n][m] == hist[m];
    }
  }

  lemma {:induction false} OneBeginning(hist: seq<Obs>, a: int, s: int, k: int)
    requires AbsentSince(hist, a, k) && AbsentSince(hist, s, k)
    ensures a == s
  {
  }

  lemma {:induction false} AbsencesExtend(cfg: Config, hist: seq<Obs>, j: int, n: int, s: int)
    requires n == |hist| - 1 && 0 <= j < n && ShortAbsences(cfg, hist[..n], j, n)
    requires hist[n].v.None? ==> AbsentSince(hist, s, n) && hist[n].ts - hist[s].ts < cfg.keepFiringFor
    ensures ShortAbsences(cfg, hist, j, n + 1)
  {
    forall a, k | j < a <= k < n + 1 && AbsentSince(hist, a, k)
      ensures hist[k].ts - hist[a].ts < cfg.keepFiringFor
    {
      if k < n {
        assert forall m :: 0 <= m < n ==> hist[..n][m] == hist[m];
        assert AbsentSince(hist[..n], a, k);
      } else {
        OneBeginning(hist, a, s, k);
      }
    }
  }

  /** Conversely, labels in every result over at least holdDuration make the alert fire. */
  lemma {:induction false} HeldLongEnoughFires(cfg: Config, rs: Resend, hist: seq<Obs>, i: int)
    requires Present(hist, i, |hist| - 1)
    requires forall j, k :: 0 <= j < k < |hist| ==> hist[j].ts <= hist[k].ts
    ensures var r := Run(cfg, rs, hist);
      && r.Some? && r.value.state != Inactive && (r.value.state == Pending ==> r.value.activeAt <= hist[i].ts)
      && (hist[|hist| - 1].ts - hist[i].ts >= cfg.holdDuration ==> r.value.state == Firing)
  {
    var n := |hist| - 1;
    var before := Run(cfg, rs, hist[..n]);
    if i < n {
      HeldLongEnoughFires(cfg, rs, hist[..n], i);
    } else if before.Some? && before.value.state == Pending {
      var p := PendingWasPresent(cfg, rs, hist[..n]);
      assert before.value.activeAt == hist[p].ts;
    }
  }

  /** Every alert in the active map is resolved iff it is inactive. */
  lemma {:induction false} ResolvedIffInactive(cfg: Config, rs: Resend, hist: seq<Obs>)
    requires Run(cfg, rs, hist).Some?
    ensures Run(cfg, rs, hist).value.resolvedAt.Some? <==> Run(cfg, rs, hist).value.state == Inactive
  {
    var n := |hist| - 1;
    if Run(cfg, rs, hist[..n]).Some? {
      ResolvedIffInactive(cfg, rs, hist[..n]);
    }
  }

  ghost predicate StrictlyLater(hist: seq<Obs>) {
    forall j, k :: 0 <= j < k < |hist| ==> hist[j].ts < hist[k].ts
  }

  lemma {:induction false} SentBefore(cfg: Config, rs: Resend, hist: seq<Obs>)
    requires Run(cfg, rs, hist).Some? && StrictlyLater(hist)
    ensures var a := Run(cfg, rs, hist).value; a.lastSentAt.Some? ==> a.lastSentAt.value <= hist[|hist| - 1].ts
  {
    var n := |hist| - 1;
    if Run(cfg, rs, hist[..n]).Some? {
      SentBefore(cfg, rs, hist[..n]);
    }
  }

  /** A firing alert that an evaluation resolves is sent by it, as resolved at its time. */
  lemma {:induction false} ResolutionIsSent(cfg: Config, rs: Resend, hist: seq<Obs>)
    requires |hist| > 0 && StrictlyLater(hist)
    requires var b := Run(cfg, rs, hist[..|hist| - 1]); b.Some? && b.value.state == Firing
    requires Run(cfg, rs, hist).Some? && Run(cfg, rs, hist).value.state == Inactive
    ensures var o := hist[|hist| - 1];
      var e := Evaluated(cfg, Run(cfg, rs, hist[..|hist| - 1]), o.v, o.ts);
      && e.Some? && e.value.state == Inactive && e.value.resolvedAt == Some(o.ts)
      && NeedsSending(e.value, o.ts, rs.delay)
      && Run(cfg, rs, hist).value.lastSentAt == Some(o.ts)
  {
    var n := |hist| - 1;
    ResolvedIffInactive(cfg, rs, hist[..n]);
    SentBefore(cfg, rs, hist[..n]);
  }

  /** A pending alert was never sent; any other was sent, and not longer ago than the resend delay. */
  lemma {:induction false} SentInTime(cfg: Config, rs: Resend, hist: seq<Obs>)
    requires Run(cfg, rs, hist).Some?
    ensures |hist| > 0
    ensures var a, ts := Run(cfg, rs, hist).value, hist[|hist| - 1].ts;
      if a.state == Pending then a.lastSentAt == None
      else a.lastSentAt.Some? && (a.lastSentAt.value == ts || ts - a.lastSentAt.value <= rs.delay)
  {
    var n := |hist| - 1;
    if Run(cfg, rs, hist[..n]).Some? {
      SentInTime(cfg, rs, hist[..n]);
    }
  }

  /** An alert as an evaluation at ts starts it. */
  ghost predicate Starts(cfg: Config, a: Option<Alert>, v: int, ts: int) {
    && a.Some? && a.value.value == v && a.value.activeAt == ts && a.value.resolvedAt == None
    && a.value.state == (if cfg.holdDuration <= 0 then Firing else Pending)
    && a.value.firedAt == (if cfg.holdDuration <= 0 then Some(ts) else None)
  }

  /** An alert whose labels are in the result. */
  ghost predicate Goes(cfg: Config, b: Alert, a: Option<Alert>, v: int, ts: int) {
    match b.state
    case Inactive => Starts(cfg, a, v, ts)
    case Pending =>
      var fires := ts - b.activeAt >= cfg.holdDuration;
      && a.Some? && a.value.value == v && a.value.activeAt == b.activeAt
      && a.value.state == (if fires then Firing else Pending)
      && a.value.firedAt == (if fires then Some(ts) else b.firedAt)
    case Firing =>
      && a.Some? && a.value.state == Firing && a.value.value == v
      && a.value.activeAt == b.activeAt && a.value.firedAt == b.firedAt
  }

  /** An alert whose labels are not in the result: firing ones are kept for a while, resolved ones for 15 minutes. */
  ghost predicate Stays(cfg: Config, b: Alert, a: Option<Alert>, ts: int) {
    match b.state
    case Inactive =>
      && b.resolvedAt.Some?
      && (a.None? <==> ts - b.resolvedAt.value > 15 * 60 * 1000)
      && (a.Some? ==> a.value.state == Inactive && a.value.resolvedAt == b.resolvedAt && a.value.value == b.value)
    case Pending => a.None?
    case Firing =>
      var since := if b.keepFiringSince.Some? then b.keepFiringSince.value else ts;
      && a.Some? && a.value.value == b.value
      && (if cfg.keepFiringFor > 0 && ts - since < cfg.keepFiringFor
          then a.value.state == Firing && a.value.activeAt == b.activeAt && a.value.firedAt == b.firedAt
          else a.value.state == Inactive && a.value.resolvedAt == Some(ts))
  }

  /** What one evaluation makes of an alert, whatever it was sent as. */
  lemma {:induction false} OneEvaluation(cfg: Config, rs: Resend, hist: seq<Obs>)
    requires |hist| > 0
    ensures var b, a, o := Run(cfg, rs, hist[..|hist| - 1]), Run(cfg, rs, hist), hist[|hist| - 1];
      if b.None? then (if o.v.Some? then Starts(cfg, a, o.v.value, o.ts) else a.None?)
      else if o.v.Some? then Goes(cfg, b.value, a, o.v.value, o.ts)
      else Stays(cfg, b.value, a, o.ts)
  {
    var n := |hist| - 1;
    if Run(cfg, rs, hist[..n]).Some? {
      ResolvedIffInactive(cfg, rs, hist[..n]);
    }
  }

  // ---------------------------------------------------------------------------
  // The rule itself over whole runs

  /** An evaluation of the rule: its time, and its result. */
  datatype Evaluation = Evaluation(ts: int, res: map<Fingerprint, int>)

  /** What one label set sees of the evaluations. */
  function Seen(evals: seq<Evaluation>, fp: Fingerprint): seq<Obs> {
    seq(|evals|, i requires 0 <= i < |evals| => Obs(evals[i].ts, Get(evals[i].res, fp)))
  }

  lemma {:induction false} RunStep(cfg: Config, rs: Resend, evals: seq<Evaluation>, i: int, fp: Fingerprint)
    requires 0 <= i < |evals|
    ensures var e := Evaluated(cfg, Run(cfg, rs, Seen(evals[..i], fp)), Get(evals[i].res, fp), evals[i].ts);
      Run(cfg, rs, Seen(evals[..i + 1], fp)) ==
      match e { case None => None case Some(a) => Some(Sent(a, evals[i].ts, rs.delay, rs.interval)) }
  {
    var h := Seen(evals[..i + 1], fp);
    assert h[..i] == Seen(evals[..i], fp) && h[i] == Obs(evals[i].ts, Get(evals[i].res, fp));
  }

  /** The rule, evaluated and sent again and again, has for every label set the alert that its run says. */
  method Execute(cfg: Config, rs: Resend, evals: seq<Evaluation>) returns (rule: AlertingRule)
    ensures fresh(rule) && forall fp :: Get(rule.active, fp) == Run(cfg, rs, Seen(evals, fp))
  {
    hide Run, Evaluated, Sent, Seen, NeedsSending, IsDue;
    rule := new AlertingRule(cfg);
    NothingSeen(cfg, rs, evals);
    for i := 0 to |evals|
      invariant fresh(rule) && rule.cfg == cfg
      invariant forall fp :: Get(rule.active, fp) == Run(cfg, rs, Seen(evals[..i], fp))
    {
      rule.Eval(evals[i].ts, evals[i].res);
      ghost var mid := rule.active;
      var alerts := rule.SendAlerts(evals[i].ts, rs.delay, rs.interval);
      forall fp
        ensures Get(rule.active, fp) == Run(cfg, rs, Seen(evals[..i + 1], fp))
      {
        RunStep(cfg, rs, evals, i, fp);
        assert fp in rule.active <==> fp in mid;
      }
    }
    assert evals[..|evals|] == evals;
  }

  lemma {:induction false} NothingSeen(cfg: Config, rs: Resend, evals: seq<Evaluation>)
    ensures forall fp :: Run(cfg, rs, Seen(evals[..0], fp)) == None
  {
  }
}
