/**
 * The store keeps its timestamps as text and compares them as text. For timestamps in range the queries answer as they
 * would on the instants, which is how the other modules state them.
 */
module NetText {
  import opened Util
  import opened NetStore
  import opened Timestamps
  import NetQueue
  import Scheduler

  predicate TextLe(a: string, b: string) { !Before(b, a) }

  lemma TextLeIsLe(s: Ticks, t: Ticks)
    requires InRange(s) && InRange(t)
    ensures TextLe(Format(s), Format(t)) <==> s <= t
    ensures Before(Format(s), Format(t)) <==> s < t
    ensures Format(s) == Format(t) <==> s == t
  {
    FormatOrder(s, t);
    FormatOrder(t, s);
  }

  // ---------------------------------------------------------------- GetRecentOpenIncidentAsync

  /** The WHERE clause, on the columns as they are stored. */
  predicate RecentText(i: Incident, asset: string, category: string, since: string)
    requires InRange(i.createdAt)
  {
    i.asset == asset && i.category == category && i.status == OPEN && TextLe(since, Format(i.createdAt))
  }

  predicate IncidentsInRange(incidents: seq<Incident>) {
    forall i :: 0 <= i < |incidents| ==> InRange(incidents[i].createdAt)
  }

  /** An answer of the query: a row that passes, none with a later creation text; or nothing, when none passes. */
  predicate AnswersRecent(incidents: seq<Incident>, asset: string, category: string, since: string, r: Option<nat>)
    requires IncidentsInRange(incidents)
  {
    match r
    case None => (forall i :: 0 <= i < |incidents| ==> !RecentText(incidents[i], asset, category, since))
    case Some(n) =>
      && n < |incidents| && RecentText(incidents[n], asset, category, since)
      && forall i :: 0 <= i < |incidents| && RecentText(incidents[i], asset, category, since) ==>
           TextLe(Format(incidents[i].createdAt), Format(incidents[n].createdAt))
  }

  lemma RecentOnText(i: Incident, asset: string, category: string, since: Ticks)
    requires InRange(i.createdAt) && InRange(since)
    ensures RecentText(i, asset, category, Format(since)) <==> Recent(i, asset, category, since)
  {
    TextLeIsLe(since, i.createdAt);
  }

  /** What the model finds on instants is an answer of the query on the stored texts. */
  lemma RecentAnswersQuery(incidents: seq<Incident>, asset: string, category: string, since: Ticks)
    requires IncidentsInRange(incidents) && InRange(since)
    ensures AnswersRecent(incidents, asset, category, Format(since),
                          RecentOpenIncident(incidents, asset, category, since))
  {
    var r := RecentOpenIncident(incidents, asset, category, since);
    forall i | 0 <= i < |incidents|
      ensures RecentText(incidents[i], asset, category, Format(since)) <==>
              Recent(incidents[i], asset, category, since)
      ensures r.Some? ==> (TextLe(Format(incidents[i].createdAt), Format(incidents[r.value].createdAt)) <==>
                           incidents[i].createdAt <= incidents[r.value].createdAt)
    {
      RecentOnText(incidents[i], asset, category, since);
      if r.Some? { TextLeIsLe(incidents[i].createdAt, incidents[r.value].createdAt); }
    }
  }

  // ---------------------------------------------------------------- GetDueActionsAsync

  predicate ActionsInRange(actions: seq<QueuedAction>) {
    forall i :: 0 <= i < |actions| ==> InRange(actions[i].nextAttemptAt) && InRange(actions[i].createdAt)
  }

  predicate DueText(a: QueuedAction, now: string)
    requires InRange(a.nextAttemptAt)
  {
    Open(a) && TextLe(Format(a.nextAttemptAt), now)
  }

  function DueTextSet(actions: seq<QueuedAction>, now: string): set<nat>
    requires ActionsInRange(actions)
  {
    set i | 0 <= i < |actions| && DueText(actions[i], now)
  }

  /** ORDER BY next_attempt_at ASC, created_at ASC on the stored texts. */
  predicate OrderedText(a: QueuedAction, b: QueuedAction)
    requires InRange(a.nextAttemptAt) && InRange(a.createdAt) && InRange(b.nextAttemptAt) && InRange(b.createdAt)
  {
    || Before(Format(a.nextAttemptAt), Format(b.nextAttemptAt))
    || (Format(a.nextAttemptAt) == Format(b.nextAttemptAt) && TextLe(Format(a.createdAt), Format(b.createdAt)))
  }

  /** An answer of the due query on the stored texts: filter, order, limit. */
  ghost predicate AnswersDue(actions: seq<QueuedAction>, now: string, sel: seq<nat>, limit: nat)
    requires ActionsInRange(actions)
  {
    var due := DueTextSet(actions, now);
    && (forall k :: 0 <= k < |sel| ==> sel[k] in due)
    && (forall j, k :: 0 <= j < k < |sel| ==> sel[j] != sel[k])
    && (forall j, k :: 0 <= j < k < |sel| && sel[j] < |actions| && sel[k] < |actions| ==>
          OrderedText(actions[sel[j]], actions[sel[k]]))
    && |sel| <= limit
    && (forall i <- due :: i !in sel ==>
          |sel| == limit
          && forall k :: 0 <= k < |sel| && sel[k] < |actions| ==> OrderedText(actions[sel[k]], actions[i]))
  }

  lemma DueOnText(actions: seq<QueuedAction>, now: Ticks)
    requires ActionsInRange(actions) && InRange(now)
    ensures DueTextSet(actions, Format(now)) == NetQueue.DueSet(actions, now)
  {
    forall i | 0 <= i < |actions| ensures DueText(actions[i], Format(now)) <==> NetQueue.Due(actions[i], now) {
      TextLeIsLe(actions[i].nextAttemptAt, now);
    }
  }

  lemma OrderOnText(a: QueuedAction, b: QueuedAction)
    requires InRange(a.nextAttemptAt) && InRange(a.createdAt) && InRange(b.nextAttemptAt) && InRange(b.createdAt)
    ensures OrderedText(a, b) <==> Scheduler.KeyLe(NetQueue.AsSlot(a), NetQueue.AsSlot(b))
  {
    TextLeIsLe(a.nextAttemptAt, b.nextAttemptAt);
    TextLeIsLe(a.createdAt, b.createdAt);
  }

  /** The batches of the model are exactly the answers of the due query on the stored texts. */
  lemma SelectionAnswersQuery(actions: seq<QueuedAction>, now: Ticks, sel: seq<nat>, limit: nat)
    requires ActionsInRange(actions) && InRange(now)
    ensures Scheduler.IsSelection(NetQueue.Slots(actions), NetQueue.DueSet(actions, now), sel, limit)
            <==> AnswersDue(actions, Format(now), sel, limit)
  {
    DueOnText(actions, now);
    forall i, j | 0 <= i < |actions| && 0 <= j < |actions|
      ensures OrderedText(actions[i], actions[j]) <==>
              Scheduler.KeyLe(NetQueue.Slots(actions)[i], NetQueue.Slots(actions)[j])
    {
      OrderOnText(actions[i], actions[j]);
    }
  }
}
