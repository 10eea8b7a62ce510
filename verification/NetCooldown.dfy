/** What the transactional cooldown guarantees for an asset/category key, over every history of commits. */
module NetCooldown {
  import opened Util
  import opened NetStore
  import opened N = NetConcurrency

  // ---------------------------------------------------------------- the greedy rule on its own

  predicate RecentTime(x: Ticks, since: Ticks) { x >= since }

  /** Keep an arrival unless something kept is at most the cooldown older than it. */
  function Greedy(times: seq<Ticks>, cooldown: Ticks): seq<Ticks> {
    if times == [] then []
    else
      var kept, t := Greedy(times[..|times| - 1], cooldown), times[|times| - 1];
      if exists x <- kept :: RecentTime(x, t - cooldown) then kept else kept + [t]
  }

  /** Strictly increasing, and pairwise more than the cooldown apart. */
  predicate Spread(s: seq<Ticks>, cooldown: Ticks) {
    forall i, j :: 0 <= i < j < |s| ==> s[j] > s[i] + cooldown && s[j] > s[i]
  }

  predicate Sorted(s: seq<Ticks>) { forall i, j :: 0 <= i < j < |s| ==> s[i] <= s[j] }

  /** `s` is what is left of `t` after deleting some elements. */
  predicate Subsequence(s: seq<Ticks>, t: seq<Ticks>)
    decreases |t|
  {
    s == [] || (t != [] &&
      (Subsequence(s, t[..|t| - 1]) || (s[|s| - 1] == t[|t| - 1] && Subsequence(s[..|s| - 1], t[..|t| - 1]))))
  }

  /** In whatever order the arrivals come, what is kept is spread and is part of what came. */
  lemma {:induction false} GreedyIsSpread(times: seq<Ticks>, cooldown: Ticks)
    requires cooldown >= 0
    ensures Spread(Greedy(times, cooldown), cooldown) && Subsequence(Greedy(times, cooldown), times)
    ensures times != [] ==> Greedy(times, cooldown) != [] && Greedy(times, cooldown)[0] == times[0]
  {
    if times != [] {
      var init, t := times[..|times| - 1], times[|times| - 1];
      var kept := Greedy(init, cooldown);
      GreedyIsSpread(init, cooldown);
      if !exists x <- kept :: RecentTime(x, t - cooldown) {
        assert (kept + [t])[..|kept|] == kept;
        assert forall i :: 0 <= i < |kept| ==> kept[i] in kept;
      }
    }
  }

  predicate Within(times: seq<Ticks>, low: Ticks, high: Ticks) {
    forall k :: 0 <= k < |times| ==> low <= times[k] <= high
  }

  /** Arrivals within one cooldown of each other collapse into the first. */
  lemma {:induction false} GreedyCollapses(times: seq<Ticks>, cooldown: Ticks, low: Ticks)
    requires cooldown >= 0 && times != [] && Within(times, low, low + cooldown)
    ensures Greedy(times, cooldown) == [times[0]]
  {
    var init, t := times[..|times| - 1], times[|times| - 1];
    if init == [] {
      assert times == [t];
    } else {
      GreedyCollapses(init, cooldown, low);
      assert times[0] in Greedy(init, cooldown) && RecentTime(times[0], t - cooldown);
    }
  }

  lemma LastIsLatest(g: seq<Ticks>, cooldown: Ticks, bound: Ticks)
    requires Spread(g, cooldown) && g != [] && g[|g| - 1] < bound
    ensures forall x <- g :: x < bound
  {
    forall x | x in g ensures x < bound {
      var k :| 0 <= k < |g| && g[k] == x;
      assert x <= g[|g| - 1];
    }
  }

  lemma GreedyStep(init: seq<Ticks>, t: Ticks, cooldown: Ticks)
    ensures var g := Greedy(init, cooldown);
            Greedy(init + [t], cooldown) == if exists x <- g :: RecentTime(x, t - cooldown) then g else g + [t]
  {
    assert (init + [t])[..|init|] == init && (init + [t])[|init|] == t;
  }

  lemma NotAfter(init: seq<Ticks>, t: Ticks, x: Ticks)
    requires Sorted(init + [t]) && x in init
    ensures x <= t
  {
    var k :| 0 <= k < |init| && init[k] == x;
    assert (init + [t])[k] <= (init + [t])[|init|];
  }

  predicate IsAhead(g: seq<Ticks>, pick: seq<Ticks>) {
    |pick| <= |g| && (|pick| == |g| && pick != [] ==> g[|g| - 1] <= pick[|pick| - 1])
  }

  /** When a choice takes the newest arrival on top of one the greedy rule was ahead of, the rule keeps it or is longer. */
  lemma GreedyKeepsUp(init: seq<Ticks>, t: Ticks, cooldown: Ticks, shorter: seq<Ticks>)
    requires cooldown >= 0 && Sorted(init + [t]) && Spread(shorter + [t], cooldown)
    requires IsAhead(Greedy(init, cooldown), shorter)
    ensures IsAhead(Greedy(init + [t], cooldown), shorter + [t])
  {
    var g := Greedy(init, cooldown);
    var pick := shorter + [t];
    GreedyStep(init, t, cooldown);
    GreedyIsSpread(init, cooldown);
    if |shorter| == |g| && g != [] {
      assert pick[|shorter| - 1] == shorter[|shorter| - 1] && pick[|shorter|] == t;
      LastIsLatest(g, cooldown, t - cooldown);
    } else if |shorter| + 1 == |g| {
      ElementsOf(g, init);
      NotAfter(init, t, g[|g| - 1]);
    }
  }

  /**
   * The greedy rule stays ahead: with readings in order no choice of arrivals that are pairwise more than the cooldown
   * apart is longer, and one of the same length does not end earlier.
   */
  lemma {:induction false} GreedyStaysAhead(times: seq<Ticks>, cooldown: Ticks, pick: seq<Ticks>)
    requires cooldown >= 0 && Sorted(times) && Subsequence(pick, times) && Spread(pick, cooldown)
    ensures IsAhead(Greedy(times, cooldown), pick)
    decreases |times|
  {
    if pick != [] {
      var init, t := times[..|times| - 1], times[|times| - 1];
      assert times == init + [t];
      if Subsequence(pick, init) {
        GreedyStaysAhead(init, cooldown, pick);
      } else {
        var shorter := pick[..|pick| - 1];
        assert pick == shorter + [t];
        GreedyStaysAhead(init, cooldown, shorter);
        GreedyKeepsUp(init, t, cooldown, shorter);
      }
    }
  }

  lemma {:induction false} ElementsOf(s: seq<Ticks>, t: seq<Ticks>)
    requires Subsequence(s, t)
    ensures forall x <- s :: x in t
    decreases |t|
  {
    if s != [] {
      var init := t[..|t| - 1];
      if Subsequence(s, init) {
        ElementsOf(s, init);
      } else {
        ElementsOf(s[..|s| - 1], init);
        assert s == s[..|s| - 1] + [s[|s| - 1]];
      }
    }
  }

  /** k times that are more than the cooldown apart need that much room. */
  lemma {:induction false} SpreadNeedsRoom(s: seq<Ticks>, cooldown: Ticks, a: Ticks, b: Ticks)
    requires cooldown >= 0 && Spread(s, cooldown) && s != [] && a <= s[0] && s[|s| - 1] <= b
    ensures (|s| - 1) * (cooldown + 1) <= b - a
  {
    if |s| > 1 {
      var n := |s| - 1;
      SpreadNeedsRoom(s[..n], cooldown, a, s[n - 1]);
      assert s[n] >= s[n - 1] + cooldown + 1;
      assert n * (cooldown + 1) == (n - 1) * (cooldown + 1) + (cooldown + 1);
    }
  }

  // ---------------------------------------------------------------- histories

  predicate OfKey(q: Request, asset: string, category: string) {
    q.verdict.createIncident && q.event.asset == asset && q.event.category == category
  }

  /** The clock readings of the committed incident-worthy events of a key, in commit order. */
  function Arrivals(log: seq<Entry>, asset: string, category: string): seq<Ticks> {
    if log == [] then []
    else
      var e := log[|log| - 1];
      Arrivals(log[..|log| - 1], asset, category) +
      (if e.Ingested? && OfKey(e.request, asset, category) then [e.request.now] else [])
  }

  /** When the incidents of a key were created, in table order. */
  function CreationTimes(incidents: seq<Incident>, asset: string, category: string): seq<Ticks> {
    if incidents == [] then []
    else
      var i := incidents[|incidents| - 1];
      CreationTimes(incidents[..|incidents| - 1], asset, category) +
      (if i.asset == asset && i.category == category then [i.createdAt] else [])
  }

  /** One cooldown is configured for the service. */
  predicate OneCooldown(log: seq<Entry>, cooldown: Ticks) {
    forall e <- log :: e.Ingested? ==> e.request.cooldown == cooldown
  }

  predicate AllOpen(incidents: seq<Incident>) { forall i :: 0 <= i < |incidents| ==> incidents[i].status == OPEN }

  lemma {:induction false} CreationTimesAre(incidents: seq<Incident>, asset: string, category: string, since: Ticks)
    requires AllOpen(incidents)
    ensures (exists x <- CreationTimes(incidents, asset, category) :: RecentTime(x, since)) <==>
            RecentOpenIncident(incidents, asset, category, since).Some?
  {
    if incidents != [] {
      CreationTimesAre(incidents[..|incidents| - 1], asset, category, since);
      var before, last := CreationTimes(incidents[..|incidents| - 1], asset, category), incidents[|incidents| - 1];
      if last.asset == asset && last.category == category {
        assert CreationTimes(incidents, asset, category) == before + [last.createdAt];
        assert forall x :: x in before + [last.createdAt] <==> (x in before || x == last.createdAt);
        assert RecentTime(last.createdAt, since) <==> Recent(last, asset, category, since);
      }
    }
  }

  lemma CreationTimesGrow(incidents: seq<Incident>, i: Incident, asset: string, category: string)
    ensures CreationTimes(incidents + [i], asset, category) == CreationTimes(incidents, asset, category) +
              (if i.asset == asset && i.category == category then [i.createdAt] else [])
  {
    assert (incidents + [i])[..|incidents|] == incidents;
  }

  /** One ingestion does to the creation times of a key what the greedy rule does with one more arrival. */
  lemma OneMoreArrival(db: Db, q: Request, asset: string, category: string, times: seq<Ticks>)
    requires AllOpen(db.incidents) && CreationTimes(db.incidents, asset, category) == Greedy(times, q.cooldown)
    ensures AllOpen(Record(db, q).0.incidents)
    ensures CreationTimes(Record(db, q).0.incidents, asset, category) ==
              Greedy(if OfKey(q, asset, category) then times + [q.now] else times, q.cooldown)
  {
    if q.verdict.createIncident {
      CreationTimesGrow(db.incidents, NewIncident(q, |db.events|), asset, category);
      if OfKey(q, asset, category) {
        CreationTimesAre(db.incidents, asset, category, q.now - q.cooldown);
        assert (times + [q.now])[..|times|] == times;
      }
    }
  }

  /** The store keeps exactly what the greedy rule keeps of the arrivals, whatever the order of the clock readings. */
  lemma {:induction false} StoreIsGreedy(log: seq<Entry>, asset: string, category: string, cooldown: Ticks)
    requires OneCooldown(log, cooldown)
    ensures AllOpen(Serial(log).incidents)
    ensures CreationTimes(Serial(log).incidents, asset, category) == Greedy(Arrivals(log, asset, category), cooldown)
  {
    if log != [] {
      var init, e := log[..|log| - 1], log[|log| - 1];
      assert e in log;
      StoreIsGreedy(init, asset, category, cooldown);
      if e.Ingested? {
        OneMoreArrival(Serial(init), e.request, asset, category, Arrivals(init, asset, category));
      }
      assert Arrivals(init, asset, category) + [] == Arrivals(init, asset, category);
    }
  }

  /** Out-of-order clocks included: incidents of a key are created later and later, each by more than the cooldown. */
  lemma IncidentsSpread(log: seq<Entry>, asset: string, category: string, cooldown: Ticks)
    requires cooldown >= 0 && OneCooldown(log, cooldown)
    ensures Spread(CreationTimes(Serial(log).incidents, asset, category), cooldown)
  {
    StoreIsGreedy(log, asset, category, cooldown);
    GreedyIsSpread(Arrivals(log, asset, category), cooldown);
  }

  predicate SuppressedBy(incidents: seq<Incident>, q: Request, i: nat) {
    && i < |incidents| && Recent(incidents[i], q.event.asset, q.event.category, q.now - q.cooldown)
  }

  /** Every suppression names an open incident of its key that was no older than the cooldown, and still is there. */
  lemma {:induction false} SuppressionsNameIncidents(log: seq<Entry>, n: nat)
    requires Answered(log) && n < |log| && log[n].Ingested? && log[n].result.decision.Suppressed?
    ensures SuppressedBy(Serial(log).incidents, log[n].request, log[n].result.decision.incident)
  {
    var init := log[..|log| - 1];
    if n < |init| {
      SuppressionsNameIncidents(init, n);
      assert Serial(init).incidents <= Serial(log).incidents;
    }
  }

  /** With readings in order the number of incidents of a key is the best that any choice of arrivals could do. */
  lemma IncidentCountIsOptimal(log: seq<Entry>, asset: string, category: string, cooldown: Ticks, pick: seq<Ticks>)
    requires cooldown >= 0 && OneCooldown(log, cooldown) && Sorted(Arrivals(log, asset, category))
    ensures var times := CreationTimes(Serial(log).incidents, asset, category);
            && Subsequence(times, Arrivals(log, asset, category)) && Spread(times, cooldown)
            && (Subsequence(pick, Arrivals(log, asset, category)) && Spread(pick, cooldown) ==> |pick| <= |times|)
  {
    StoreIsGreedy(log, asset, category, cooldown);
    GreedyIsSpread(Arrivals(log, asset, category), cooldown);
    if Subsequence(pick, Arrivals(log, asset, category)) && Spread(pick, cooldown) {
      GreedyStaysAhead(Arrivals(log, asset, category), cooldown, pick);
    }
  }

  /** The i-th to the j-th incident of a key, anywhere in its history, need (j - i) * (cooldown + 1) ticks. */
  lemma IncidentsNeedTime(log: seq<Entry>, asset: string, category: string, cooldown: Ticks, i: nat, j: nat)
    requires cooldown >= 0 && OneCooldown(log, cooldown)
    requires i <= j < |CreationTimes(Serial(log).incidents, asset, category)|
    ensures var times := CreationTimes(Serial(log).incidents, asset, category);
            (j - i) * (cooldown + 1) <= times[j] - times[i]
  {
    IncidentsSpread(log, asset, category, cooldown);
    GapNeedsTime(CreationTimes(Serial(log).incidents, asset, category), cooldown, i, j);
  }

  /** The times between two ticks, in order. */
  function Window(times: seq<Ticks>, a: Ticks, b: Ticks): seq<Ticks> {
    if times == [] then []
    else
      var t := times[|times| - 1];
      Window(times[..|times| - 1], a, b) + (if a <= t <= b then [t] else [])
  }

  /** A window holds exactly the times between its ends, and keeps their spread. */
  lemma {:induction false} WindowOf(times: seq<Ticks>, a: Ticks, b: Ticks, cooldown: Ticks)
    requires cooldown >= 0 && Spread(times, cooldown)
    ensures Spread(Window(times, a, b), cooldown)
    ensures forall x :: x in Window(times, a, b) <==> x in times && a <= x <= b
  {
    if times != [] {
      var n := |times| - 1;
      var w := Window(times[..n], a, b);
      WindowOf(times[..n], a, b, cooldown);
      assert times == times[..n] + [times[n]];
      forall k | 0 <= k < |w| ensures times[n] > w[k] + cooldown {
        assert w[k] in w && w[k] in times[..n];
        var i :| 0 <= i < n && times[i] == w[k];
      }
    }
  }

  lemma WindowRate(times: seq<Ticks>, a: Ticks, b: Ticks, cooldown: Ticks)
    requires cooldown >= 0 && Spread(times, cooldown)
    ensures var k := |Window(times, a, b)|; k > 0 ==> (k - 1) * (cooldown + 1) <= b - a
  {
    var w := Window(times, a, b);
    WindowOf(times, a, b, cooldown);
    if w != [] {
      assert w[0] in w && w[|w| - 1] in w;
      SpreadNeedsRoom(w, cooldown, a, b);
    }
  }

  lemma GapNeedsTime(times: seq<Ticks>, cooldown: Ticks, i: nat, j: nat)
    requires cooldown >= 0 && Spread(times, cooldown) && i <= j < |times|
    ensures (j - i) * (cooldown + 1) <= times[j] - times[i]
  {
    SpreadNeedsRoom(times[i..j + 1], cooldown, times[i], times[j]);
  }

  /** The k incidents of a key that fall between ticks a and b satisfy (k - 1) * (cooldown + 1) <= b - a. */
  lemma IncidentRateBound(log: seq<Entry>, asset: string, category: string, cooldown: Ticks, a: Ticks, b: Ticks)
    requires cooldown >= 0 && OneCooldown(log, cooldown)
    ensures var k := |Window(CreationTimes(Serial(log).incidents, asset, category), a, b)|;
            k > 0 ==> (k - 1) * (cooldown + 1) <= b - a
  {
    IncidentsSpread(log, asset, category, cooldown);
    WindowRate(CreationTimes(Serial(log).incidents, asset, category), a, b, cooldown);
  }

  // ---------------------------------------------------------------- concurrent duplicates

  predicate SuppressionOf(e: Entry, asset: string, category: string) {
    e.Ingested? && OfKey(e.request, asset, category) && e.result.decision.Suppressed?
  }

  function SuppressionTest(asset: string, category: string): Entry -> bool { e => SuppressionOf(e, asset, category) }

  /** Every arrival of a key either opened an incident of that key or was answered as suppressed. */
  lemma {:induction false} ArrivalsSplit(log: seq<Entry>, asset: string, category: string)
    requires Answered(log)
    ensures |Arrivals(log, asset, category)| == |CreationTimes(Serial(log).incidents, asset, category)|
              + Count(log, SuppressionTest(asset, category))
  {
    if log != [] {
      var init, e := log[..|log| - 1], log[|log| - 1];
      ArrivalsSplit(init, asset, category);
      if e.Ingested? {
        CreationTimesGrow(Serial(init).incidents, NewIncident(e.request, |Serial(init).events|), asset, category);
      }
    }
  }

  function IsIngested(): Entry -> bool { (e: Entry) => e.Ingested? }
  function IsDone(): Client -> bool { (c: Client) => c.phase.Done? }

  predicate FromClient(e: Entry, c: Client) { e.Ingested? ==> e.request == At(c.request, e.request.now) }

  /** One entry per committed client, each from the request of a client. */
  ghost predicate Attributed(s: State) {
    && Count(s.log, IsIngested()) == Count(s.clients, IsDone())
    && forall e <- s.log :: e.Ingested? ==> exists c :: 0 <= c < |s.clients| && FromClient(e, s.clients[c])
  }

  lemma StepKeepsRequests(s: State, l: Label)
    ensures |Next(s, l).clients| == |s.clients|
    ensures forall c :: 0 <= c < |s.clients| ==> Next(s, l).clients[c].request == s.clients[c].request
    ensures s.log <= Next(s, l).log && |Next(s, l).log| <= |s.log| + 1
  {
    StepLogs(s, l);
  }

  /** A step turns at most one client into a committed one, exactly when it logs a committed request. */
  lemma StepCommits(s: State, l: Label)
    ensures Count(Next(s, l).clients, IsDone())
         == Count(s.clients, IsDone()) + (if Logged(s, l) != [] && Logged(s, l)[0].Ingested? then 1 else 0)
  {
    if !l.WorkerUpdate? && !l.WorkerAudit? && l.client < |s.clients| {
      var c := l.client;
      var after := Next(s, l).clients[c];
      assert Next(s, l).clients == s.clients[c := after];
      SumUpdate(s.clients, c, after, Indicator(IsDone()));
    } else {
      assert Next(s, l).clients == s.clients;
    }
  }

  lemma StepKeepsCounts(s: State, l: Label)
    requires Count(s.log, IsIngested()) == Count(s.clients, IsDone())
    ensures Count(Next(s, l).log, IsIngested()) == Count(Next(s, l).clients, IsDone())
  {
    StepLogs(s, l);
    StepCommits(s, l);
    if Logged(s, l) != [] {
      SumOne(s.log, Logged(s, l)[0], Indicator(IsIngested()));
    }
  }

  lemma StepKeepsAttributed(s: State, l: Label)
    requires Attributed(s)
    ensures Attributed(Next(s, l))
  {
    var s' := Next(s, l);
    StepKeepsCounts(s, l);
    StepKeepsRequests(s, l);
    forall e | e in s'.log && e.Ingested? ensures exists c :: 0 <= c < |s'.clients| && FromClient(e, s'.clients[c]) {
      if e in s.log {
        var c :| 0 <= c < |s.clients| && FromClient(e, s.clients[c]);
        assert FromClient(e, s'.clients[c]);
      } else {
        assert FromClient(e, s'.clients[l.client]);
      }
    }
  }

  lemma {:induction false} NoneDone(clients: seq<Client>)
    requires forall c <- clients :: !c.phase.Done?
    ensures Count(clients, IsDone()) == 0
  {
    if clients != [] { NoneDone(clients[..|clients| - 1]); }
  }

  lemma {:induction false} InterleavingAttributed(requests: seq<Request>, labels: seq<Label>)
    ensures var s := Interleave(Start(requests), labels);
            Attributed(s) && |s.clients| == |requests| &&
            forall c :: 0 <= c < |requests| ==> s.clients[c].request == requests[c]
    decreases |labels|
  {
    if labels == [] {
      NoneDone(Start(requests).clients);
    } else {
      InterleavingAttributed(requests, labels[..|labels| - 1]);
      StepKeepsAttributed(Interleave(Start(requests), labels[..|labels| - 1]), labels[|labels| - 1]);
      StepKeepsRequests(Interleave(Start(requests), labels[..|labels| - 1]), labels[|labels| - 1]);
    }
  }

  lemma {:induction false} AllOfKey(log: seq<Entry>, asset: string, category: string)
    requires forall n :: 0 <= n < |log| && log[n].Ingested? ==> OfKey(log[n].request, asset, category)
    ensures |Arrivals(log, asset, category)| == Count(log, IsIngested())
  {
    if log != [] {
      AllOfKey(log[..|log| - 1], asset, category);
    }
  }

  lemma {:induction false} ArrivalsAreReadings(log: seq<Entry>, asset: string, category: string, low: Ticks, high: Ticks)
    requires forall n :: 0 <= n < |log| && log[n].Ingested? ==> low <= log[n].request.now <= high
    ensures Within(Arrivals(log, asset, category), low, high)
  {
    if log != [] {
      ArrivalsAreReadings(log[..|log| - 1], asset, category, low, high);
    }
  }

  lemma {:induction false} AllIncidentsOfKey(log: seq<Entry>, asset: string, category: string)
    requires forall n :: 0 <= n < |log| && log[n].Ingested? ==> OfKey(log[n].request, asset, category)
    ensures |CreationTimes(Serial(log).incidents, asset, category)| == |Serial(log).incidents|
  {
    if log != [] {
      var init, e := log[..|log| - 1], log[|log| - 1];
      AllIncidentsOfKey(init, asset, category);
      if e.Ingested? {
        CreationTimesGrow(Serial(init).incidents, NewIncident(e.request, |Serial(init).events|), asset, category);
      }
    }
  }

  lemma {:induction false} OneActionPerIncident(log: seq<Entry>)
    requires forall n :: 0 <= n < |log| && log[n].Ingested? && log[n].request.verdict.createIncident ==>
               log[n].request.verdict.queueAction
    ensures |Serial(log).actions| == |Serial(log).incidents|
  {
    if log != [] { OneActionPerIncident(log[..|log| - 1]); }
  }

  /**
   * A fresh key among any other traffic: whatever the other clients ingest, whoever dies where, and whatever the worker
   * writes, when the committed arrivals of the key read the clock within one cooldown of each other, exactly the first
   * of them opens an incident and all others are answered as suppressed.
   */
  lemma FreshKeyCollapses(requests: seq<Request>, labels: seq<Label>, asset: string, category: string,
                          cooldown: Ticks, low: Ticks)
    requires cooldown >= 0 && forall q <- requests :: q.cooldown == cooldown
    requires var arrivals := Arrivals(Interleave(Start(requests), labels).log, asset, category);
             arrivals != [] && Within(arrivals, low, low + cooldown)
    ensures var s := Interleave(Start(requests), labels);
            var arrivals := Arrivals(s.log, asset, category);
            && CreationTimes(s.db.incidents, asset, category) == [arrivals[0]]
            && Count(s.log, SuppressionTest(asset, category)) == |arrivals| - 1
  {
    var s := Interleave(Start(requests), labels);
    EveryInterleavingIsSerial(requests, labels);
    LogHasOneCooldown(requests, labels, cooldown);
    StoreIsGreedy(s.log, asset, category, cooldown);
    GreedyCollapses(Arrivals(s.log, asset, category), cooldown, low);
    ArrivalsSplit(s.log, asset, category);
  }

  lemma LogHasOneCooldown(requests: seq<Request>, labels: seq<Label>, cooldown: Ticks)
    requires forall q <- requests :: q.cooldown == cooldown
    ensures OneCooldown(Interleave(Start(requests), labels).log, cooldown)
  {
    var s := Interleave(Start(requests), labels);
    InterleavingAttributed(requests, labels);
    forall e | e in s.log && e.Ingested? ensures e.request.cooldown == cooldown {
      var c :| 0 <= c < |s.clients| && FromClient(e, s.clients[c]);
      assert s.clients[c].request == requests[c] && requests[c] in requests;
    }
  }

  /**
   * N concurrent duplicates: when all N clients of one key have committed, with clock readings that span at most one
   * cooldown, then in any interleaving with any worker writes there is exactly one incident, with one action, and
   * N - 1 callers were told they were suppressed.
   */
  lemma ConcurrentDuplicatesCollapse(requests: seq<Request>, labels: seq<Label>, asset: string, category: string,
                                     cooldown: Ticks, low: Ticks)
    requires cooldown >= 0 && requests != []
    requires forall q <- requests :: OfKey(q, asset, category) && q.verdict.queueAction && q.cooldown == cooldown
    requires var s := Interleave(Start(requests), labels);
             && Count(s.clients, IsDone()) == |requests|
             && forall n :: 0 <= n < |s.log| && s.log[n].Ingested? ==>
                  low <= s.log[n].request.now <= low + cooldown
    ensures var s := Interleave(Start(requests), labels);
            && |s.db.incidents| == 1 && |s.db.actions| == 1
            && CreationTimes(s.db.incidents, asset, category) == [s.db.incidents[0].createdAt]
            && Count(s.log, SuppressionTest(asset, category)) == |requests| - 1
  {
    var s := Interleave(Start(requests), labels);
    EveryInterleavingIsSerial(requests, labels);
    InterleavingAttributed(requests, labels);
    forall e | e in s.log && e.Ingested?
      ensures OfKey(e.request, asset, category) && e.request.verdict.queueAction && e.request.cooldown == cooldown
    {
      var c :| 0 <= c < |s.clients| && FromClient(e, s.clients[c]);
      assert s.clients[c].request == requests[c] && requests[c] in requests;
    }
    AllOfKey(s.log, asset, category);
    ArrivalsAreReadings(s.log, asset, category, low, low + cooldown);
    FreshKeyCollapses(requests, labels, asset, category, cooldown, low);
    AllIncidentsOfKey(s.log, asset, category);
    OneActionPerIncident(s.log);
  }
}
