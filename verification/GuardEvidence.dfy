/** From raw results to the verdict: a turn is completed exactly when the results returned to it say so. */
module GuardEvidence {
  import opened GuardResults
  import opened Guard
  import opened GuardTheorems

  predicate IsCall(e: Event, i: nat) {
    e.Returned? && i < |Effective(e.name, e.arguments)|
  }

  /** The `i`-th effective call behind a returned event. */
  function CallAt(e: Event, i: nat): Call
    requires IsCall(e, i)
  {
    Effective(e.name, e.arguments)[i]
  }

  /** What the raw result says about the call. */
  ghost predicate CallHas(c: Classifier, e: Event, i: nat, s: Status)
    requires IsCall(e, i)
  {
    CallIs(c.reader, e.result, |Effective(e.name, e.arguments)|, i, s)
  }

  /** A write that the raw result does not show as rejected by the host. */
  ghost predicate WasDispatched(c: Classifier, e: Event, i: nat) {
    IsCall(e, i) && IsWrite(c, CallAt(e, i).name) && !CallHas(c, e, i, Undispatched)
  }

  /** A write with the given evidence in the raw result. */
  ghost predicate WriteHas(c: Classifier, e: Event, i: nat, s: Status) {
    IsCall(e, i) && IsWrite(c, CallAt(e, i).name) && CallHas(c, e, i, s)
  }

  /** A write whose own evidence in the raw result affirms success. */
  ghost predicate Confirmed(c: Classifier, e: Event, i: nat) {
    WriteHas(c, e, i, Accepted)
  }

  ghost predicate ConfirmedFor(c: Classifier, events: seq<Event>, key: string) {
    exists m, i: nat :: 0 <= m < |events| && Confirmed(c, events[m], i) && c.operation(CallAt(events[m], i)) == key
  }

  /** Some confirmed write fits the requested destinations. */
  ghost predicate SomeConfirmed(c: Classifier, intent: Intent, events: seq<Event>) {
    exists m, i: nat :: 0 <= m < |events| && Confirmed(c, events[m], i) && Meets(c, intent, CallAt(events[m], i).name)
  }

  /** The request names no destination, or the tool none, or they share one. */
  ghost predicate Meets(c: Classifier, intent: Intent, name: string) {
    || (forall d :: d !in intent.destinations) || (forall d :: d !in c.domains(name))
    || exists d :: d in intent.destinations && d in c.domains(name)
  }

  lemma MeetsIs(c: Classifier, intent: Intent, name: string)
    ensures Meets(c, intent, name) <==> Requested(c, intent, name)
  {
    if d :| d in intent.destinations && d in c.domains(name) {
      assert d in c.domains(name) * intent.destinations;
    }
  }

  /** Every dispatched operation has a confirmed write. */
  ghost predicate EveryOperationConfirmed(c: Classifier, events: seq<Event>) {
    forall m, i: nat :: 0 <= m < |events| && WasDispatched(c, events[m], i)
                        ==> ConfirmedFor(c, events, c.operation(CallAt(events[m], i)))
  }

  // ---- replies and raw calls ------------------------------------------------

  lemma ReplyAt(c: Classifier, e: Event, i: nat)
    requires IsCall(e, i)
    ensures i < |RepliesOf(c, e)| && RepliesOf(c, e)[i].call == CallAt(e, i)
    ensures forall s :: RepliesOf(c, e)[i].status == s <==> CallHas(c, e, i, s)
  {
    hide PerCallStatus, CallIs, Effective;
    forall s
      ensures RepliesOf(c, e)[i].status == s <==> CallHas(c, e, i, s)
    {
      CallStatusExactly(c.reader, e.result, |Effective(e.name, e.arguments)|, i, s);
    }
  }

  lemma {:induction false} HistoryHolds(c: Classifier, events: seq<Event>, m: nat, i: nat)
    requires m < |events| && IsCall(events[m], i)
    ensures i < |RepliesOf(c, events[m])| && RepliesOf(c, events[m])[i] in History(c, events)
    decreases |events|
  {
    hide RepliesOf;
    ReplyAt(c, events[m], i);
    var n := |events| - 1;
    if m < n {
      assert events[..n][m] == events[m];
      HistoryHolds(c, events[..n], m, i);
    }
  }

  /** Every reply of the history stems from a raw call. */
  lemma {:induction false} Origin(c: Classifier, events: seq<Event>, r: Reply) returns (m: nat, i: nat)
    requires r in History(c, events)
    ensures m < |events| && IsCall(events[m], i) && i < |RepliesOf(c, events[m])| && RepliesOf(c, events[m])[i] == r
    decreases |events|
  {
    var n := |events| - 1;
    if r in History(c, events[..n]) {
      m, i := Origin(c, events[..n], r);
      assert events[..n][m] == events[m];
    } else {
      m := n;
      i :| 0 <= i < |RepliesOf(c, events[n])| && RepliesOf(c, events[n])[i] == r;
    }
  }

  lemma SettledIsConfirmed(c: Classifier, events: seq<Event>, key: string)
    ensures Settled(c, History(c, events), key) <==> ConfirmedFor(c, events, key)
  {
    hide RepliesOf, History, CallHas, CallAt, Effective;
    var h := History(c, events);
    if Settled(c, h, key) {
      var x: nat :| AcceptedFor(c, h, x, key);
      var m, i := Origin(c, events, h[x]);
      ReplyAt(c, events[m], i);
      assert Confirmed(c, events[m], i) && c.operation(CallAt(events[m], i)) == key;
    }
    if ConfirmedFor(c, events, key) {
      var m, i: nat :| 0 <= m < |events| && Confirmed(c, events[m], i) && c.operation(CallAt(events[m], i)) == key;
      ReplyAt(c, events[m], i);
      HistoryHolds(c, events, m, i);
      var x: nat :| x < |h| && h[x] == RepliesOf(c, events[m])[i];
      assert AcceptedFor(c, h, x, key);
    }
  }

  lemma FittingIsConfirmed(c: Classifier, intent: Intent, events: seq<Event>)
    ensures SomeFitting(c, intent, History(c, events)) <==> SomeConfirmed(c, intent, events)
  {
    hide RepliesOf, History, CallHas, CallAt, Effective, Requested, Meets;
    forall name { MeetsIs(c, intent, name); }
    var h := History(c, events);
    if SomeFitting(c, intent, h) {
      var x :| 0 <= x < |h| && IsWrite(c, h[x].call.name) && h[x].status == Accepted
               && Requested(c, intent, h[x].call.name);
      var m, i := Origin(c, events, h[x]);
      ReplyAt(c, events[m], i);
      assert Confirmed(c, events[m], i) && Meets(c, intent, CallAt(events[m], i).name);
    }
    if SomeConfirmed(c, intent, events) {
      var m, i: nat :| 0 <= m < |events| && Confirmed(c, events[m], i)
                       && Meets(c, intent, CallAt(events[m], i).name);
      ReplyAt(c, events[m], i);
      HistoryHolds(c, events, m, i);
      var x: nat :| x < |h| && h[x] == RepliesOf(c, events[m])[i];
    }
  }

  lemma SettledIsEveryOperation(c: Classifier, events: seq<Event>)
    ensures AllSettled(c, History(c, events)) <==> EveryOperationConfirmed(c, events)
  {
    hide RepliesOf, History, ConfirmedFor, Settled, CallAt, CallHas, Effective;
    var h := History(c, events);
    if AllSettled(c, h) {
      forall m, i: nat | 0 <= m < |events| && WasDispatched(c, events[m], i)
        ensures ConfirmedFor(c, events, c.operation(CallAt(events[m], i)))
      {
        ReplyAt(c, events[m], i);
        HistoryHolds(c, events, m, i);
        var x: nat :| x < |h| && h[x] == RepliesOf(c, events[m])[i];
        SettledIsConfirmed(c, events, c.operation(h[x].call));
      }
    }
    if EveryOperationConfirmed(c, events) {
      forall x | 0 <= x < |h| && Dispatches(c, h[x])
        ensures Settled(c, h, c.operation(h[x].call))
      {
        var m, i := Origin(c, events, h[x]);
        ReplyAt(c, events[m], i);
        SettledIsConfirmed(c, events, c.operation(h[x].call));
      }
    }
  }

  // ---- the verdict ----------------------------------------------------------

  /** End to end: a turn is "completed" exactly when an action was requested, the route is not explicitly local,
      the raw evidence for some write to a requested destination affirms success, and so does, for every
      dispatched operation, the raw evidence for some call of that operation. */
  lemma CompletedFromResults(c: Classifier, cfg: Config, intent: Intent, visible: set<string>, events: seq<Event>)
    ensures Judge(c, Play(c, cfg, Fresh(intent, visible), events)).Completed?
            <==> intent.action && !intent.explicitLocal && SomeConfirmed(c, intent, events)
                 && EveryOperationConfirmed(c, events)
  {
    hide Judge, Play, AllSettled, SomeFitting, SomeConfirmed, EveryOperationConfirmed, History;
    CompletedExactly(c, cfg, intent, visible, events);
    FittingIsConfirmed(c, intent, events);
    SettledIsEveryOperation(c, events);
  }

  /** Some write has this evidence. */
  ghost predicate SomeEvidence(c: Classifier, events: seq<Event>, s: Status) {
    exists m, i: nat :: 0 <= m < |events| && WriteHas(c, events[m], i, s)
  }

  /** Some call of a local route has evidence of success. */
  ghost predicate SomeLocalEvidence(c: Classifier, events: seq<Event>) {
    exists m, i: nat :: 0 <= m < |events| && IsCall(events[m], i) && LocalRoute(c, CallAt(events[m], i)).Some?
                        && CallHas(c, events[m], i, Accepted)
  }

  lemma WritesAreEvidence(c: Classifier, events: seq<Event>, s: Status)
    ensures SomeWrite(c, History(c, events), s) <==> SomeEvidence(c, events, s)
  {
    hide RepliesOf, History, CallHas, CallAt, Effective;
    var h := History(c, events);
    if SomeWrite(c, h, s) {
      var x :| 0 <= x < |h| && IsWrite(c, h[x].call.name) && h[x].status == s;
      var m, i := Origin(c, events, h[x]);
      ReplyAt(c, events[m], i);
      assert WriteHas(c, events[m], i, s);
    }
    if SomeEvidence(c, events, s) {
      var m, i: nat :| 0 <= m < |events| && WriteHas(c, events[m], i, s);
      ReplyAt(c, events[m], i);
      HistoryHolds(c, events, m, i);
      var x: nat :| x < |h| && h[x] == RepliesOf(c, events[m])[i];
    }
  }

  lemma LocalsAreEvidence(c: Classifier, events: seq<Event>)
    ensures SomeLocal(c, History(c, events)) <==> SomeLocalEvidence(c, events)
  {
    hide RepliesOf, History, CallHas, CallAt, Effective, LocalRoute;
    var h := History(c, events);
    if SomeLocal(c, h) {
      var x :| 0 <= x < |h| && LocalRoute(c, h[x].call).Some? && h[x].status == Accepted;
      var m, i := Origin(c, events, h[x]);
      ReplyAt(c, events[m], i);
      assert LocalRoute(c, CallAt(events[m], i)).Some? && CallHas(c, events[m], i, Accepted);
    }
    if SomeLocalEvidence(c, events) {
      var m, i: nat :| 0 <= m < |events| && IsCall(events[m], i) && LocalRoute(c, CallAt(events[m], i)).Some?
                       && CallHas(c, events[m], i, Accepted);
      ReplyAt(c, events[m], i);
      HistoryHolds(c, events, m, i);
      var x: nat :| x < |h| && h[x] == RepliesOf(c, events[m])[i];
    }
  }

  /** The verdict of a turn and its reason, as raw calls and raw results determine them. */
  ghost predicate VerdictIs(c: Classifier, intent: Intent, events: seq<Event>, v: Verdict) {
    if !intent.action then v.NoActionRequested?
    else if intent.explicitLocal then
      if SomeLocalEvidence(c, events) || SomeEvidence(c, events, Accepted) then v.CompletedLocal? else v.UnverifiedLocal?
    else if SomeConfirmed(c, intent, events) then
      if EveryOperationConfirmed(c, events) then v.Completed? else v.Partial?
    else
      v.NotCompleted?
      && v.reason == if SomeEvidence(c, events, Accepted) then WrongDestination
                     else if SomeEvidence(c, events, Unconfirmed) then NotConfirmed
                     else if SomeEvidence(c, events, Failed) then Rejected
                     else if SomeEvidence(c, events, Undispatched) then NotDispatched
                     else NotAttempted
  }

  /** End to end, for every verdict and every reason. */
  lemma VerdictFromResults(c: Classifier, cfg: Config, intent: Intent, visible: set<string>, events: seq<Event>)
    ensures VerdictIs(c, intent, events, Judge(c, Play(c, cfg, Fresh(intent, visible), events)))
  {
    hide Judge, Play, AllSettled, SomeFitting, SomeWrite, SomeLocal, SomeEvidence, SomeLocalEvidence, SomeConfirmed,
         EveryOperationConfirmed, History;
    VerdictFollowsHistory(c, cfg, intent, visible, events);
    FittingIsConfirmed(c, intent, events);
    SettledIsEveryOperation(c, events);
    WritesAreEvidence(c, events, Accepted);
    WritesAreEvidence(c, events, Unconfirmed);
    WritesAreEvidence(c, events, Failed);
    WritesAreEvidence(c, events, Undispatched);
    LocalsAreEvidence(c, events);
  }
}
