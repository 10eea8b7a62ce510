/** EventIngestionService: a request is normalized, judged by the rules, and recorded in one write decision. */
module NetIngestion {
  import opened Util
  import Text
  import opened NetStore

  // ---------------------------------------------------------------- text

  /** char.IsWhiteSpace */
  predicate White(c: char) {
    || '\U{9}' <= c <= '\U{d}' || c == ' ' || c == '\U{85}' || c == '\U{a0}' || c == '\U{1680}'
    || '\U{2000}' <= c <= '\U{200a}' || c == '\U{2028}' || c == '\U{2029}' || c == '\U{202f}' || c == '\U{205f}'
    || c == '\U{3000}'
  }

  /** string.IsNullOrWhiteSpace */
  predicate Blank(s: string) { forall i :: 0 <= i < |s| ==> White(s[i]) }

  predicate Trimmed(s: string) { s != "" ==> !White(s[0]) && !White(s[|s| - 1]) }

  lemma BlankJoin(s: string, t: string)
    ensures Blank(s + t) <==> Blank(s) && Blank(t)
  {
    assert forall i :: 0 <= i < |s| ==> s[i] == (s + t)[i];
    assert forall i :: 0 <= i < |t| ==> t[i] == (s + t)[|s| + i];
  }

  lemma BlankFirst(s: string)
    requires s != ""
    ensures Blank(s) <==> White(s[0]) && Blank(s[1..])
  {
    BlankJoin([s[0]], s[1..]);
    assert s == [s[0]] + s[1..];
  }

  lemma BlankLast(s: string)
    requires s != ""
    ensures Blank(s) <==> Blank(s[..|s| - 1]) && White(s[|s| - 1])
  {
    BlankJoin(s[..|s| - 1], [s[|s| - 1]]);
    assert s == s[..|s| - 1] + [s[|s| - 1]];
  }

  function TrimStart(s: string): (r: string)
    ensures |r| <= |s| && r == s[|s| - |r|..]
    ensures r == "" <==> Blank(s)
    ensures r != "" ==> !White(r[0])
  {
    if s != "" && White(s[0]) then BlankFirst(s); TrimStart(s[1..]) else s
  }

  function TrimEnd(s: string): (r: string)
    ensures r <= s
    ensures r == "" <==> Blank(s)
    ensures r != "" ==> !White(r[|r| - 1])
  {
    if s != "" && White(s[|s| - 1]) then BlankLast(s); TrimEnd(s[..|s| - 1]) else s
  }

  /** string.Trim() */
  function Trim(s: string): (r: string)
    ensures Trimmed(r) && (r == "" <==> Blank(s))
    ensures Trimmed(s) ==> r == s
  {
    TrimEnd(TrimStart(s))
  }

  function LowerChar(c: char): char { if 'A' <= c <= 'Z' then c + ('a' - 'A') else c }

  function Lower(s: string): (r: string)
    ensures |r| == |s| && forall i :: 0 <= i < |s| ==> r[i] == LowerChar(s[i])
  {
    seq(|s|, i requires 0 <= i < |s| => LowerChar(s[i]))
  }

  lemma LowerKeepsShape(s: string)
    ensures Blank(Lower(s)) <==> Blank(s)
    ensures Trimmed(Lower(s)) <==> Trimmed(s)
    ensures Lower(Lower(s)) == Lower(s)
  {
    assert forall i :: 0 <= i < |s| ==> (White(Lower(s)[i]) <==> White(s[i]));
  }

  predicate IsLower(s: string) { forall i :: 0 <= i < |s| ==> !('A' <= s[i] <= 'Z') }

  // ---------------------------------------------------------------- requests

  /** SyntheticEventRequest; a null text behaves like an empty one. */
  datatype EventRequest = EventRequest(
    source: string, assetId: string, category: string, severity: int, message: string, executorMode: Option<string>,
    occurredAt: Option<Ticks>)

  datatype Error = AssetRequired | StoreFailed | SignalFailed

  datatype Options = Options(maxAttempts: int, cooldown: Ticks, retryDelay: Ticks)

  predicate IsMode(mode: string) {
    mode == "success" || mode == "transient_then_success" || mode == "permanent_failure"
  }

  function NormalizeExecutorMode(requested: Option<string>, message: string, category: string): (mode: string)
    ensures IsMode(mode)
    ensures requested.Some? && IsMode(Lower(Trim(requested.value))) ==> mode == Lower(Trim(requested.value))
  {
    var combined := Lower(message + " " + category);
    if requested.Some? && IsMode(Lower(Trim(requested.value))) then Lower(Trim(requested.value))
    else if Text.Contains(combined, "permanent") then "permanent_failure"
    else if Text.Contains(combined, "transient") then "transient_then_success"
    else "success"
  }

  function Clamp(x: int, low: int, high: int): int { if x < low then low else if x > high then high else x }

  function Normalize(r: EventRequest, now: Ticks): Result<OpEvent, Error> {
    if Blank(r.assetId) then Err(AssetRequired)
    else
      var source := if Blank(r.source) then "synthetic-monitor" else Trim(r.source);
      var category := if Blank(r.category) then "health" else Lower(Trim(r.category));
      var message := if Blank(r.message) then "Synthetic event" else Trim(r.message);
      Ok(OpEvent(source, Trim(r.assetId), category, Clamp(r.severity, 0, 100), message,
                 NormalizeExecutorMode(r.executorMode, message, category),
                 if r.occurredAt.Some? then r.occurredAt.value else now, now))
  }

  /** What every stored event looks like. */
  predicate Canonical(e: OpEvent) {
    && !Blank(e.source) && Trimmed(e.source) && !Blank(e.asset) && Trimmed(e.asset)
    && !Blank(e.category) && Trimmed(e.category) && Lower(e.category) == e.category
    && !Blank(e.message) && Trimmed(e.message) && 0 <= e.severity <= 100 && IsMode(e.executorMode)
  }

  /** The request that asks for exactly this event. */
  function AsRequest(e: OpEvent): EventRequest {
    EventRequest(e.source, e.asset, e.category, e.severity, e.message, Some(e.executorMode), Some(e.occurredAt))
  }

  lemma LowerSame(s: string)
    requires IsLower(s)
    ensures Lower(s) == s
  {
  }

  lemma ModeIsCanonical(mode: string)
    requires IsMode(mode)
    ensures Lower(Trim(mode)) == mode
  {
    assert Trimmed(mode) && IsLower(mode);
    LowerSame(mode);
  }

  lemma CategoryIsCanonical(category: string)
    requires !Blank(category)
    ensures var c := Lower(Trim(category)); !Blank(c) && Trimmed(c) && Lower(c) == c
  {
    LowerKeepsShape(Trim(category));
  }

  lemma HealthIsCanonical()
    ensures !Blank("health") && Trimmed("health") && Lower("health") == "health"
  {
    assert !White("health"[0]);
    LowerSame("health");
  }

  lemma DefaultsAreCanonical()
    ensures !Blank("synthetic-monitor") && Trimmed("synthetic-monitor")
    ensures !Blank("Synthetic event") && Trimmed("Synthetic event")
  {
    assert !White("synthetic-monitor"[0]) && !White("Synthetic event"[0]);
  }

  lemma NormalizeIsCanonical(r: EventRequest, now: Ticks)
    ensures Normalize(r, now).Err? <==> Blank(r.assetId)
    ensures Normalize(r, now).Ok? ==> Canonical(Normalize(r, now).value)
  {
    DefaultsAreCanonical();
    HealthIsCanonical();
    if !Blank(r.category) { CategoryIsCanonical(r.category); }
  }

  lemma ModeStays(mode: string, message: string, category: string)
    requires IsMode(mode)
    ensures NormalizeExecutorMode(Some(mode), message, category) == mode
  {
    ModeIsCanonical(mode);
  }

  lemma TrimStays(s: string)
    requires Trimmed(s)
    ensures Trim(s) == s
  {
  }

  lemma TextStays(e: OpEvent)
    requires Canonical(e)
    ensures Trim(e.source) == e.source && Trim(e.asset) == e.asset && Trim(e.message) == e.message
    ensures Lower(Trim(e.category)) == e.category && Clamp(e.severity, 0, 100) == e.severity
  {
    TrimStays(e.source);
    TrimStays(e.asset);
    TrimStays(e.message);
    TrimStays(e.category);
  }

  /** Normalization is a projection: it leaves exactly the canonical events as they are. */
  lemma NormalizeProjects(e: OpEvent)
    ensures Normalize(AsRequest(e), e.createdAt) == Ok(e) <==> Canonical(e)
  {
    if Canonical(e) {
      TextStays(e);
      ModeStays(e.executorMode, e.message, e.category);
    } else {
      NormalizeIsCanonical(AsRequest(e), e.createdAt);
    }
  }

  // ---------------------------------------------------------------- ingestion

  function RequestFor(e: OpEvent, options: Options, now: Ticks): Request {
    Request(e, Evaluate(e), options.maxAttempts, options.cooldown, now)
  }

  /** IngestAsync; the clock is read once, before the store is asked for its lock. */
  function Ingest(db: Db, r: EventRequest, options: Options, now: Ticks): Result<(Db, IngestResult), Error> {
    match Normalize(r, now)
    case Err(e) => Err(e)
    case Ok(e) => Ok(Record(db, RequestFor(e, options, now)))
  }

  class EventIngestionService {
    const store: OpsStore
    const options: Options

    constructor (store: OpsStore, options: Options)
      ensures this.store == store && this.options == options
    {
      this.store := store;
      this.options := options;
    }

    /**
     * `storeFails`: a statement of the write decision, or its commit, throws. `signalFails`: signalling a queued action
     * throws, as it does when the caller cancels; by then the decision is committed, and the caller is told of an error
     * although nothing is undone.
     */
    method IngestAsync(r: EventRequest, now: Ticks, storeFails: bool, signalFails: bool)
      returns (result: Result<IngestResult, Error>)
      modifies store
      ensures Blank(r.assetId) ==> result == Err(AssetRequired) && store.View() == old(store.View())
      ensures !Blank(r.assetId) && storeFails ==> result == Err(StoreFailed) && store.View() == old(store.View())
      ensures !Blank(r.assetId) && !storeFails ==>
        var ingested := Ingest(old(store.View()), r, options, now);
        && ingested.Ok? && store.View() == ingested.value.0
        && result == if signalFails && ingested.value.1.decision.ActionOpened? then Err(SignalFailed)
                     else Ok(ingested.value.1)
      ensures Blank(r.assetId) ==> Ingest(old(store.View()), r, options, now) == Err(AssetRequired)
    {
      NormalizeIsCanonical(r, now);
      var normalized := Normalize(r, now);
      if normalized.Err? {
        return Err(normalized.error);
      }
      var recorded := store.RecordIngestionDecision(RequestFor(normalized.value, options, now), storeFails);
      if recorded.None? {
        return Err(StoreFailed);
      }
      if recorded.value.decision.ActionOpened? && signalFails {
        return Err(SignalFailed);
      }
      return Ok(recorded.value);
    }
  }
}
