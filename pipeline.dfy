/** What one translation run does to the subtitle list and the log, stated as functions:
    the context phase, the routing decision, the translate phase with its single Flash
    retry, one chunk as their composition, and the whole run over the chunks in order.
    The class in the App module performs the same run step by step and is proved equal
    to `TranslationRun`. */
module Pipeline {
  import opened Types
  import opened JsText
  import opened GeminiService
  import opened BatchSteps
  import opened Chunking

  /** The id and timestamp `addLog` draws from `Math.random` and the clock. */
  datatype Stamp = Stamp(id: string, timestamp: int)

  /** The first translate call of a batch, or its one Flash retry. */
  datatype Attempt = Primary | FlashRetry

  /** Everything a run depends on that the program does not compute: the answer of every
      remote call (by batch number, attempt and request), the routing roll of every batch,
      and the stamp of every log entry (by its position in the log). */
  datatype Remote = Remote(
    contextService: (nat, ContextRequest) -> Response,
    translateService: (nat, Attempt, TranslateRequest) -> Response,
    roll: nat -> Roll,
    stamp: nat -> Stamp)

  /** The controller state a run changes: the subtitle list and the log. */
  datatype Session = Session(items: seq<SubtitleItem>, logs: seq<LogEntry>)

  /** `addLog`: appends exactly one entry and keeps every earlier one. */
  function AddLog(logs: seq<LogEntry>, stamp: Stamp, message: Message, kind: LogKind, model: Option<ModelTag>): (r: seq<LogEntry>)
    ensures |r| == |logs| + 1
    ensures r[..|logs|] == logs
    ensures r[|logs|].message == message && r[|logs|].kind == kind && r[|logs|].model == model
    ensures r[|logs|].id == stamp.id && r[|logs|].timestamp == stamp.timestamp
  {
    logs + [LogEntry(stamp.id, stamp.timestamp, message, kind, model)]
  }

  function Emit(env: Remote, s: Session, message: Message, kind: LogKind, model: Option<ModelTag>): Session
  {
    s.(logs := AddLog(s.logs, env.stamp(|s.logs|), message, kind, model))
  }

  // ---------------------------------------------------------------------------
  // one chunk

  /** `checkContextBatch(chunk, config)`. */
  function CheckContextBatch(env: Remote, i: nat, chunk: seq<SubtitleItem>, config: AppConfig): Reply
  {
    ResultOf(env.contextService(i, ContextRequestFor(chunk, config)))
  }

  /** `translateBatch(batch, config, model)`. */
  function TranslateBatch(env: Remote, i: nat, attempt: Attempt, batch: seq<SubtitleItem>, config: AppConfig, model: ModelId): Reply
  {
    ResultOf(env.translateService(i, attempt, TranslateRequestFor(batch, config, model)))
  }

  /** Mark the batch `checking_context`, log, ask for suggestions and merge them. */
  function ContextPhase(env: Remote, config: AppConfig, chunks: seq<seq<SubtitleItem>>, i: nat, s: Session): Session
    requires i < |chunks|
  {
    var ids := IdsOf(chunks[i]);
    var s1 := Emit(env, s.(items := MarkStatus(s.items, ids, CheckingContext)), Checking(i, |chunks|), Info, Some(Pro));
    match CheckContextBatch(env, i, chunks[i], config)
    case Resolved(suggestions) =>
      var s2 := s1.(items := MergeSuggestions(s1.items, suggestions));
      if |suggestions| > 0 then Emit(env, s2, FlaggedIssues(i, |suggestions|), Warning, Some(Pro)) else s2
    case Rejected =>
      Emit(env, s1, ContextFailed(i), LogKind.Error, Some(Pro))
  }

  /** `hasFlags`, read from the current list. */
  predicate BatchFlagged(s: Session, ids: seq<int>)
  {
    AnyFlagged(FilterBatch(s.items, ids))
  }

  /** The tier chosen for batch `i` in state `s` (the state after the context phase). */
  function ChunkTag(env: Remote, config: AppConfig, chunks: seq<seq<SubtitleItem>>, i: nat, s: Session): ModelTag
    requires i < |chunks|
  {
    Route(BatchFlagged(s, IdsOf(chunks[i])), env.roll(i), config.proAllocation)
  }

  /** Log a forced Pro routing, then mark the batch `translating` with the chosen tag. */
  function RoutePhase(env: Remote, config: AppConfig, chunks: seq<seq<SubtitleItem>>, i: nat, s: Session): Session
    requires i < |chunks|
  {
    var ids := IdsOf(chunks[i]);
    var tag := ChunkTag(env, config, chunks, i, s);
    var s1 := if BatchFlagged(s, ids) then Emit(env, s, Routed(i), Info, Some(Pro)) else s;
    s1.(items := MarkTranslating(s1.items, ids, tag))
  }

  /** Translate the batch's current items with the chosen model; on failure log, retry
      once with Flash on the run-start chunk, and mark the batch failed if that fails too. */
  function TranslatePhase(env: Remote, config: AppConfig, chunks: seq<seq<SubtitleItem>>, i: nat, tag: ModelTag, s: Session): Session
    requires i < |chunks|
  {
    var ids := IdsOf(chunks[i]);
    match TranslateBatch(env, i, Primary, FilterBatch(s.items, ids), config, ModelIdOf(tag))
    case Resolved(translations) =>
      Emit(env, s.(items := MergeTranslations(s.items, ids, translations)), Completed(i), LogKind.Success, Some(tag))
    case Rejected =>
      var s1 := Emit(env, s, Retrying(i), LogKind.Error, Some(tag));
      match TranslateBatch(env, i, FlashRetry, chunks[i], config, GeminiFlash)
      case Resolved(translations) =>
        Emit(env, s1.(items := MergeFallback(s1.items, translations)), Recovered(i), Warning, Some(Flash))
      case Rejected =>
        s1.(items := MarkFailed(s1.items, ids))
  }

  /** One iteration of the chunk loop. */
  function ChunkStep(env: Remote, config: AppConfig, chunks: seq<seq<SubtitleItem>>, i: nat, s: Session): Session
    requires i < |chunks|
  {
    var c := ContextPhase(env, config, chunks, i, s);
    TranslatePhase(env, config, chunks, i, ChunkTag(env, config, chunks, i, c), RoutePhase(env, config, chunks, i, c))
  }

  /** The chunk loop's body as a step function of the iteration number; past the last
      chunk it does nothing. */
  function Step(env: Remote, config: AppConfig, chunks: seq<seq<SubtitleItem>>): (nat, Session) -> Session
  {
    (j: nat, t: Session) => if j < |chunks| then ChunkStep(env, config, chunks, j, t) else t
  }

  /** `i` iterations of a loop body, in order. */
  function Iterate(step: (nat, Session) -> Session, i: nat, s: Session): Session
    decreases i
  {
    if i == 0 then s else step(i - 1, Iterate(step, i - 1, s))
  }

  /** The state after the first `i` chunks. */
  function RunPrefix(env: Remote, config: AppConfig, chunks: seq<seq<SubtitleItem>>, i: nat, s: Session): Session
  {
    Iterate(Step(env, config, chunks), i, s)
  }

  /** One more iteration of the chunk loop runs the next chunk. */
  lemma RunPrefixStep(env: Remote, config: AppConfig, chunks: seq<seq<SubtitleItem>>, i: nat, s: Session)
    requires i < |chunks|
    ensures RunPrefix(env, config, chunks, i + 1, s) == ChunkStep(env, config, chunks, i, RunPrefix(env, config, chunks, i, s))
  {
    StepAt(env, config, chunks, i, RunPrefix(env, config, chunks, i, s));
  }

  /** A whole run: nothing at all for an empty list; otherwise the opening log line,
      every chunk in order, and the closing log line. A batch size below 1 would make
      the source's chunk loop run forever, so the run is defined only for sizes of at
      least 1. */
  function TranslationRun(env: Remote, config: AppConfig, s: Session): Session
    requires |s.items| == 0 || config.batchSize >= 1
  {
    if |s.items| == 0 then s
    else
      var chunks := Chunks(s.items, config.batchSize);
      var start := Emit(env, s, Starting, Info, None);
      Emit(env, RunPrefix(env, config, chunks, |chunks|, start), JobComplete, LogKind.Success, None)
  }

  /** A run on a non-empty list, named stage by stage. */
  lemma TranslationRunUnfold(env: Remote, config: AppConfig, s: Session, start: Session, done: Session)
    requires |s.items| > 0 && config.batchSize >= 1
    requires start == Emit(env, s, Starting, Info, None)
    requires done == RunPrefix(env, config, Chunks(s.items, config.batchSize),
      |Chunks(s.items, config.batchSize)|, start)
    ensures TranslationRun(env, config, s) == Emit(env, done, JobComplete, LogKind.Success, None)
  {
  }

  /** `(processedCount / items.length) * 100`. */
  function Progress(processed: nat, n: nat): real
    requires n > 0
  {
    (processed as real / n as real) * 100.0
  }

  /** All items processed is 100 percent. */
  lemma ProgressComplete(n: nat)
    requires n > 0
    ensures Progress(n, n) == 100.0
  {
    assert n as real / n as real == 1.0;
  }

  /** More processed items give a strictly larger percentage, never above 100. */
  lemma ProgressMonotone(a: nat, c: nat, n: nat)
    requires a < c <= n
    ensures 0.0 <= Progress(a, n) < Progress(c, n) <= 100.0
  {
    var x := n as real;
    assert a as real / x < c as real / x;
    assert c as real / x <= 1.0;
  }

  /** Over a run the progress bar rises strictly with every chunk, from above 0 after
      the first chunk to exactly 100 after the last. */
  lemma RunProgress(items: seq<SubtitleItem>, b: nat, i: nat)
    requires b >= 1 && i < |Chunks(items, b)|
    ensures var c := Chunks(items, b);
      var before := |Flatten(c[..i])|;
      var after := |Flatten(c[..i + 1])|;
      && 0.0 <= Progress(before, |items|) < Progress(after, |items|) <= 100.0
      && after == Min((i + 1) * b, |items|)
      && (i + 1 == |c| ==> Progress(after, |items|) == 100.0)
  {
    var c := Chunks(items, b);
    ChunksShape(items, b);
    FlattenStep(c, i);
    ProcessedAfter(items, b, i + 1);
    ProcessedAfter(items, b, i);
    ProgressMonotone(|Flatten(c[..i])|, |Flatten(c[..i + 1])|, |items|);
    if i + 1 == |c| {
      assert c[..i + 1] == c;
      ChunksFlatten(items, b);
      ProgressComplete(|items|);
    }
  }

  // ---------------------------------------------------------------------------
  // properties of one chunk

  /** The context phase marks the batch `checking_context` and changes nothing else but
      suggestions; a suggestion changes only where the reply mentions the item's id, so a
      failed check changes no suggestion. */
  lemma ContextPhaseItems(env: Remote, config: AppConfig, chunks: seq<seq<SubtitleItem>>, i: nat, s: Session)
    requires i < |chunks|
    ensures var r := ContextPhase(env, config, chunks, i, s);
      var ids := IdsOf(chunks[i]);
      var reply := CheckContextBatch(env, i, chunks[i], config);
      && |r.items| == |s.items|
      && (forall k :: 0 <= k < |s.items| ==>
            r.items[k].status == (if s.items[k].id in ids then CheckingContext else s.items[k].status) &&
            r.items[k].(status := s.items[k].status, contextSuggestion := s.items[k].contextSuggestion) == s.items[k])
      && (forall k :: 0 <= k < |s.items| && r.items[k].contextSuggestion != s.items[k].contextSuggestion ==>
            reply.Resolved? && Mentions(reply.records, s.items[k].id))
  {
    var ids := IdsOf(chunks[i]);
    var marked := MarkStatus(s.items, ids, CheckingContext);
    var r := ContextPhase(env, config, chunks, i, s);
    match CheckContextBatch(env, i, chunks[i], config)
    case Resolved(suggestions) =>
      assert r.items == MergeSuggestions(marked, suggestions);
      MarkThenMerge(s.items, ids, suggestions);
    case Rejected =>
      assert r.items == marked;
      MarkThenMerge(s.items, ids, []);
      assert MergeSuggestions(marked, []) == marked;
  }

  /** Marking a batch as checked and then merging suggestions changes only the statuses
      of the batch and the suggestions of the mentioned ids. */
  lemma MarkThenMerge(items: seq<SubtitleItem>, ids: seq<int>, suggestions: seq<Record>)
    ensures var marked := MarkStatus(items, ids, CheckingContext);
      var merged := MergeSuggestions(marked, suggestions);
      && |merged| == |items|
      && (forall k :: 0 <= k < |items| ==>
            merged[k].status == (if items[k].id in ids then CheckingContext else items[k].status) &&
            merged[k].(status := items[k].status, contextSuggestion := items[k].contextSuggestion) == items[k])
      && (forall k :: 0 <= k < |items| && merged[k].contextSuggestion != items[k].contextSuggestion ==>
            Mentions(suggestions, items[k].id))
  {
    var marked := MarkStatus(items, ids, CheckingContext);
    var merged := MergeSuggestions(marked, suggestions);
    forall k | 0 <= k < |items|
      ensures merged[k].status == (if items[k].id in ids then CheckingContext else items[k].status)
      ensures merged[k].(status := items[k].status, contextSuggestion := items[k].contextSuggestion) == items[k]
    {
      assert merged[k].(contextSuggestion := marked[k].contextSuggestion) == marked[k];
      assert marked[k].(status := items[k].status) == items[k];
    }
  }

  lemma ContextPhaseSkeleton(env: Remote, config: AppConfig, chunks: seq<seq<SubtitleItem>>, i: nat, s: Session)
    requires i < |chunks|
    ensures var r := ContextPhase(env, config, chunks, i, s);
      && SameSkeleton(s.items, r.items)
      && forall k :: 0 <= k < |s.items| ==>
           r.items[k].status == (if s.items[k].id in IdsOf(chunks[i]) then CheckingContext else s.items[k].status)
  {
    var c := ContextPhase(env, config, chunks, i, s);
    ContextPhaseItems(env, config, chunks, i, s);
    forall k | 0 <= k < |s.items|
      ensures c.items[k].id == s.items[k].id && c.items[k].startTime == s.items[k].startTime
      ensures c.items[k].endTime == s.items[k].endTime && c.items[k].originalText == s.items[k].originalText
    {
      assert c.items[k].(status := s.items[k].status, contextSuggestion := s.items[k].contextSuggestion) == s.items[k];
    }
  }

  /** The context phase logs the check at info severity, then the number of flags at
      warning severity when there are any, or the failure at error severity (and goes on
      to translation either way). */
  lemma ContextPhaseLogs(env: Remote, config: AppConfig, chunks: seq<seq<SubtitleItem>>, i: nat, s: Session)
    requires i < |chunks|
    ensures var r := ContextPhase(env, config, chunks, i, s);
      var reply := CheckContextBatch(env, i, chunks[i], config);
      && |r.logs| > |s.logs| && r.logs[..|s.logs|] == s.logs
      && r.logs[|s.logs|].message == Checking(i, |chunks|) && r.logs[|s.logs|].kind == Info
      && r.logs[|s.logs|].model == Some(Pro)
      && (reply.Rejected? ==>
            |r.logs| == |s.logs| + 2 && r.logs[|s.logs| + 1].kind == LogKind.Error &&
            r.logs[|s.logs| + 1].message == ContextFailed(i))
      && (reply.Resolved? && |reply.records| > 0 ==>
            |r.logs| == |s.logs| + 2 && r.logs[|s.logs| + 1].kind == Warning &&
            r.logs[|s.logs| + 1].message == FlaggedIssues(i, |reply.records|))
      && (reply.Resolved? && |reply.records| == 0 ==> |r.logs| == |s.logs| + 1)
  {
    var ids := IdsOf(chunks[i]);
    var s1 := Emit(env, s.(items := MarkStatus(s.items, ids, CheckingContext)), Checking(i, |chunks|), Info, Some(Pro));
    var r := ContextPhase(env, config, chunks, i, s);
    assert s1.logs[..|s.logs|] == s.logs;
    assert r.logs[..|s1.logs|] == s1.logs;
    assert r.logs[..|s.logs|] == s1.logs[..|s.logs|];
  }

  /** Routing of a batch: Pro exactly when some current item of the batch carries a
      non-empty suggestion or the applied flag, or else the roll falls below the Pro
      allocation. */
  lemma ChunkTagIff(env: Remote, config: AppConfig, chunks: seq<seq<SubtitleItem>>, i: nat, s: Session)
    requires i < |chunks|
    ensures ChunkTag(env, config, chunks, i, s) == Pro <==>
      (exists k :: 0 <= k < |s.items| && s.items[k].id in IdsOf(chunks[i]) && Flagged(s.items[k])) ||
      env.roll(i) < config.proAllocation as real
  {
    HasFlagsIff(s.items, IdsOf(chunks[i]));
  }

  /** A batch for which the context check returns a non-empty suggestion for an id of the
      batch that is in the list goes to Pro, whatever the allocation. */
  lemma SuggestionForcesPro(env: Remote, config: AppConfig, chunks: seq<seq<SubtitleItem>>, i: nat, s: Session, k: nat)
    requires i < |chunks| && k < |s.items| && s.items[k].id in IdsOf(chunks[i])
    requires CheckContextBatch(env, i, chunks[i], config).Resolved?
    requires Mentions(CheckContextBatch(env, i, chunks[i], config).records, s.items[k].id)
    requires FindRecord(CheckContextBatch(env, i, chunks[i], config).records, s.items[k].id).value.text != ""
    ensures ChunkTag(env, config, chunks, i, ContextPhase(env, config, chunks, i, s)) == Pro
  {
    var c := ContextPhase(env, config, chunks, i, s);
    var suggestions := CheckContextBatch(env, i, chunks[i], config).records;
    var marked := MarkStatus(s.items, IdsOf(chunks[i]), CheckingContext);
    assert marked[k].id == s.items[k].id by {
      assert marked[k].(status := s.items[k].status) == s.items[k];
    }
    assert c.items == MergeSuggestions(marked, suggestions);
    assert Flagged(c.items[k]);
    ChunkTagIff(env, config, chunks, i, c);
  }

  /** Before the translate call every current item of the batch is `translating` with the
      chosen tag, and the request is built from exactly those items with the model of
      that tag. */
  lemma RoutePhaseMarks(env: Remote, config: AppConfig, chunks: seq<seq<SubtitleItem>>, i: nat, s: Session)
    requires i < |chunks|
    ensures var r := RoutePhase(env, config, chunks, i, s);
      var tag := ChunkTag(env, config, chunks, i, s);
      var batch := FilterBatch(r.items, IdsOf(chunks[i]));
      && |r.items| == |s.items|
      && (forall k :: 0 <= k < |batch| ==> batch[k].status == Translating && batch[k].modelUsed == Some(tag))
      && TranslateRequestFor(batch, config, ModelIdOf(tag)).model == (if tag == Pro then GeminiPro else GeminiFlash)
      && (BatchFlagged(s, IdsOf(chunks[i])) <==> |r.logs| == |s.logs| + 1)
  {
    var ids := IdsOf(chunks[i]);
    var r := RoutePhase(env, config, chunks, i, s);
    var batch := FilterBatch(r.items, ids);
    forall k | 0 <= k < |batch| ensures batch[k].status == Translating && batch[k].modelUsed == Some(ChunkTag(env, config, chunks, i, s)) {
      assert batch[k] in r.items && batch[k].id in ids;
    }
  }

  /** The translate phase when the first call succeeds: returned items are done with the
      returned text, unreturned batch items are errors, other unreturned items keep their
      state, and exactly one success line is logged with the tier. */
  lemma PrimarySuccess(env: Remote, config: AppConfig, chunks: seq<seq<SubtitleItem>>, i: nat, tag: ModelTag, s: Session)
    requires i < |chunks|
    requires TranslateBatch(env, i, Primary, FilterBatch(s.items, IdsOf(chunks[i])), config, ModelIdOf(tag)).Resolved?
    ensures var ts := TranslateBatch(env, i, Primary, FilterBatch(s.items, IdsOf(chunks[i])), config, ModelIdOf(tag)).records;
      var r := TranslatePhase(env, config, chunks, i, tag, s);
      && |r.items| == |s.items|
      && (forall k :: 0 <= k < |s.items| && Mentions(ts, s.items[k].id) ==>
            r.items[k].status == Done && r.items[k].translatedText == Some(FindRecord(ts, s.items[k].id).value.text))
      && (forall k :: 0 <= k < |s.items| && !Mentions(ts, s.items[k].id) && s.items[k].id in IdsOf(chunks[i]) ==>
            r.items[k].status == Status.Error)
      && (forall k :: 0 <= k < |s.items| && !Mentions(ts, s.items[k].id) && s.items[k].id !in IdsOf(chunks[i]) ==>
            r.items[k] == s.items[k])
      && r.logs == s.logs + [LogEntry(env.stamp(|s.logs|).id, env.stamp(|s.logs|).timestamp, Completed(i), LogKind.Success, Some(tag))]
  {
  }

  /** The translate phase when the first call fails and the Flash retry succeeds: the
      retry goes to Flash with the run-start chunk; returned items are done by Flash;
      every other item keeps its state (so unreturned batch items stay `translating`);
      the failure is logged at error severity with the first tier, the recovery with Flash. */
  lemma FallbackSuccess(env: Remote, config: AppConfig, chunks: seq<seq<SubtitleItem>>, i: nat, tag: ModelTag, s: Session)
    requires i < |chunks|
    requires TranslateBatch(env, i, Primary, FilterBatch(s.items, IdsOf(chunks[i])), config, ModelIdOf(tag)).Rejected?
    requires TranslateBatch(env, i, FlashRetry, chunks[i], config, GeminiFlash).Resolved?
    ensures var ts := TranslateBatch(env, i, FlashRetry, chunks[i], config, GeminiFlash).records;
      var r := TranslatePhase(env, config, chunks, i, tag, s);
      && |r.items| == |s.items|
      && (forall k :: 0 <= k < |s.items| && Mentions(ts, s.items[k].id) ==>
            r.items[k].status == Done && r.items[k].modelUsed == Some(Flash))
      && (forall k :: 0 <= k < |s.items| && !Mentions(ts, s.items[k].id) ==> r.items[k] == s.items[k])
      && |r.logs| == |s.logs| + 2 && r.logs[..|s.logs|] == s.logs
      && r.logs[|s.logs|].kind == LogKind.Error && r.logs[|s.logs|].model == Some(tag)
      && r.logs[|s.logs|].message == Retrying(i)
      && r.logs[|s.logs| + 1].kind == Warning && r.logs[|s.logs| + 1].model == Some(Flash)
      && r.logs[|s.logs| + 1].message == Recovered(i)
  {
    var s1 := Emit(env, s, Retrying(i), LogKind.Error, Some(tag));
    var ts := TranslateBatch(env, i, FlashRetry, chunks[i], config, GeminiFlash).records;
    var r := Emit(env, s1.(items := MergeFallback(s1.items, ts)), Recovered(i), Warning, Some(Flash));
    assert r.logs[..|s.logs|] == s.logs;
  }

  /** The translate phase when both calls fail: every item of the batch is an error with
      the message "Failed", nothing else changes, and only the retry line is logged. */
  lemma BothAttemptsFail(env: Remote, config: AppConfig, chunks: seq<seq<SubtitleItem>>, i: nat, tag: ModelTag, s: Session)
    requires i < |chunks|
    requires TranslateBatch(env, i, Primary, FilterBatch(s.items, IdsOf(chunks[i])), config, ModelIdOf(tag)).Rejected?
    requires TranslateBatch(env, i, FlashRetry, chunks[i], config, GeminiFlash).Rejected?
    ensures var r := TranslatePhase(env, config, chunks, i, tag, s);
      && |r.items| == |s.items|
      && (forall k :: 0 <= k < |s.items| && s.items[k].id in IdsOf(chunks[i]) ==>
            r.items[k].status == Status.Error && r.items[k].errorMessage == Some("Failed"))
      && (forall k :: 0 <= k < |s.items| && s.items[k].id !in IdsOf(chunks[i]) ==> r.items[k] == s.items[k])
      && r.logs == s.logs + [LogEntry(env.stamp(|s.logs|).id, env.stamp(|s.logs|).timestamp, Retrying(i), LogKind.Error, Some(tag))]
  {
  }

  // ---------------------------------------------------------------------------
  // properties of the whole run

  /** A status a batch leaves behind: the run never leaves an item it has reached
      `pending` or `checking_context`. */
  predicate Settled(st: Status)
  {
    st == Translating || st == Done || st == Status.Error
  }

  lemma SkeletonTrans(a: seq<SubtitleItem>, b: seq<SubtitleItem>, c: seq<SubtitleItem>)
    requires SameSkeleton(a, b) && SameSkeleton(b, c)
    ensures SameSkeleton(a, c)
  {
  }

  /** The translate phase keeps the skeleton and the log history, and moves an item only
      to `done` or `error`. */
  lemma TranslatePhaseEffect(env: Remote, config: AppConfig, chunks: seq<seq<SubtitleItem>>, i: nat, tag: ModelTag, s: Session)
    requires i < |chunks|
    ensures var r := TranslatePhase(env, config, chunks, i, tag, s);
      && SameSkeleton(s.items, r.items)
      && |r.logs| > |s.logs| && r.logs[..|s.logs|] == s.logs
      && (forall k :: 0 <= k < |s.items| ==>
            r.items[k].status == s.items[k].status || r.items[k].status == Done || r.items[k].status == Status.Error)
  {
    var ids := IdsOf(chunks[i]);
    var r := TranslatePhase(env, config, chunks, i, tag, s);
    match TranslateBatch(env, i, Primary, FilterBatch(s.items, ids), config, ModelIdOf(tag))
    case Resolved(ts) =>
      var m := MergeTranslations(s.items, ids, ts);
      assert m == r.items;
      forall k | 0 <= k < |s.items|
        ensures m[k].id == s.items[k].id && m[k].startTime == s.items[k].startTime
        ensures m[k].endTime == s.items[k].endTime && m[k].originalText == s.items[k].originalText
      {
        if Mentions(ts, s.items[k].id) {
          assert m[k].(status := s.items[k].status, translatedText := s.items[k].translatedText) == s.items[k];
        } else if s.items[k].id in ids {
          assert m[k].(status := s.items[k].status) == s.items[k];
        }
      }
      assert r.logs[..|s.logs|] == s.logs;
    case Rejected =>
      var s1 := Emit(env, s, Retrying(i), LogKind.Error, Some(tag));
      assert s1.logs[..|s.logs|] == s.logs;
      match TranslateBatch(env, i, FlashRetry, chunks[i], config, GeminiFlash)
      case Resolved(ts) =>
        var m := MergeFallback(s.items, ts);
        assert m == r.items;
        forall k | 0 <= k < |s.items|
          ensures m[k].id == s.items[k].id && m[k].startTime == s.items[k].startTime
          ensures m[k].endTime == s.items[k].endTime && m[k].originalText == s.items[k].originalText
        {
          if Mentions(ts, s.items[k].id) {
            assert m[k].(status := s.items[k].status, modelUsed := s.items[k].modelUsed,
              translatedText := s.items[k].translatedText) == s.items[k];
          }
        }
        assert r.logs[..|s1.logs|] == s1.logs;
        assert r.logs[..|s.logs|] == s1.logs[..|s.logs|];
      case Rejected =>
        var m := MarkFailed(s.items, ids);
        assert m == r.items;
        forall k | 0 <= k < |s.items|
          ensures m[k].id == s.items[k].id && m[k].startTime == s.items[k].startTime
          ensures m[k].endTime == s.items[k].endTime && m[k].originalText == s.items[k].originalText
        {
          if s.items[k].id in ids {
            assert m[k].(status := s.items[k].status, errorMessage := s.items[k].errorMessage) == s.items[k];
          }
        }
  }

  /** The routing phase keeps the skeleton and the log history and leaves exactly the
      batch items `translating`. */
  lemma RoutePhaseEffect(env: Remote, config: AppConfig, chunks: seq<seq<SubtitleItem>>, i: nat, s: Session)
    requires i < |chunks|
    ensures var r := RoutePhase(env, config, chunks, i, s);
      && SameSkeleton(s.items, r.items)
      && |r.logs| >= |s.logs| && r.logs[..|s.logs|] == s.logs
      && (forall k :: 0 <= k < |s.items| ==>
            r.items[k].status == (if s.items[k].id in IdsOf(chunks[i]) then Translating else s.items[k].status))
  {
    var ids := IdsOf(chunks[i]);
    var tag := ChunkTag(env, config, chunks, i, s);
    var r := RoutePhase(env, config, chunks, i, s);
    var s1 := if BatchFlagged(s, ids) then Emit(env, s, Routed(i), Info, Some(Pro)) else s;
    assert s1.logs[..|s.logs|] == s.logs;
    assert r.items == MarkTranslating(s.items, ids, tag);
  }

  lemma PrefixTrans<T>(a: seq<T>, b: seq<T>, c: seq<T>)
    requires |a| <= |b| <= |c| && b[..|a|] == a && c[..|b|] == b
    ensures c[..|a|] == a
  {
    assert c[..|a|] == c[..|b|][..|a|];
  }

  /** What one chunk does to the list as a whole: same skeleton, every item of the batch
      settled, every settled item still settled. */
  predicate StepStatuses(s: seq<SubtitleItem>, r: seq<SubtitleItem>, ids: seq<int>)
  {
    && SameSkeleton(s, r)
    && (forall k :: 0 <= k < |s| && s[k].id in ids ==> Settled(r[k].status))
    && (forall k :: 0 <= k < |s| && Settled(s[k].status) ==> Settled(r[k].status))
  }

  /** The three phases' effects on statuses compose to settling the batch. */
  lemma SettleCompose(s: seq<SubtitleItem>, c: seq<SubtitleItem>, p: seq<SubtitleItem>, r: seq<SubtitleItem>, ids: seq<int>)
    requires SameSkeleton(s, c) && SameSkeleton(c, p) && SameSkeleton(p, r)
    requires forall k :: 0 <= k < |s| ==> c[k].status == (if s[k].id in ids then CheckingContext else s[k].status)
    requires forall k :: 0 <= k < |c| ==> p[k].status == (if c[k].id in ids then Translating else c[k].status)
    requires forall k :: 0 <= k < |p| ==> r[k].status == p[k].status || r[k].status == Done || r[k].status == Status.Error
    ensures StepStatuses(s, r, ids)
  {
    forall k | 0 <= k < |s| && s[k].id in ids ensures Settled(r[k].status) {
      assert c[k].id == s[k].id;
    }
  }

  /** One chunk keeps the list's skeleton, settles every item of its batch, and never
      unsettles an item. */
  lemma ChunkStepItems(env: Remote, config: AppConfig, chunks: seq<seq<SubtitleItem>>, i: nat, s: Session)
    requires i < |chunks|
    ensures StepStatuses(s.items, ChunkStep(env, config, chunks, i, s).items, IdsOf(chunks[i]))
  {
    var ids := IdsOf(chunks[i]);
    var c := ContextPhase(env, config, chunks, i, s);
    ContextPhaseSkeleton(env, config, chunks, i, s);
    var tag := ChunkTag(env, config, chunks, i, c);
    var p := RoutePhase(env, config, chunks, i, c);
    RoutePhaseEffect(env, config, chunks, i, c);
    var r := TranslatePhase(env, config, chunks, i, tag, p);
    TranslatePhaseEffect(env, config, chunks, i, tag, p);
    SettleCompose(s.items, c.items, p.items, r.items, ids);
    assert r == ChunkStep(env, config, chunks, i, s);
  }

  /** One chunk only appends to the log. */
  lemma ChunkStepLogs(env: Remote, config: AppConfig, chunks: seq<seq<SubtitleItem>>, i: nat, s: Session)
    requires i < |chunks|
    ensures var r := ChunkStep(env, config, chunks, i, s);
      |r.logs| > |s.logs| && r.logs[..|s.logs|] == s.logs
  {
    var c := ContextPhase(env, config, chunks, i, s);
    ContextPhaseLogs(env, config, chunks, i, s);
    var tag := ChunkTag(env, config, chunks, i, c);
    var p := RoutePhase(env, config, chunks, i, c);
    RoutePhaseEffect(env, config, chunks, i, c);
    var r := TranslatePhase(env, config, chunks, i, tag, p);
    TranslatePhaseEffect(env, config, chunks, i, tag, p);
    PrefixTrans(s.logs, c.logs, p.logs);
    PrefixTrans(s.logs, p.logs, r.logs);
  }

  /** Some chunk among the first `i` holds this id. */
  predicate Covered(id: int, chunks: seq<seq<SubtitleItem>>, i: nat)
    requires i <= |chunks|
  {
    exists c :: 0 <= c < i && id in IdsOf(chunks[c])
  }

  /** Every item whose id the first `i` chunks hold is settled. */
  predicate CoveredSettled(s: seq<SubtitleItem>, r: seq<SubtitleItem>, chunks: seq<seq<SubtitleItem>>, i: nat)
    requires i <= |chunks|
  {
    && SameSkeleton(s, r)
    && forall k :: 0 <= k < |s| && Covered(s[k].id, chunks, i) ==> Settled(r[k].status)
  }

  lemma CoverStep(s: seq<SubtitleItem>, p: seq<SubtitleItem>, r: seq<SubtitleItem>, chunks: seq<seq<SubtitleItem>>, i: nat)
    requires 0 < i <= |chunks|
    requires CoveredSettled(s, p, chunks, i - 1)
    requires StepStatuses(p, r, IdsOf(chunks[i - 1]))
    ensures CoveredSettled(s, r, chunks, i)
  {
    SkeletonTrans(s, p, r);
    forall k | 0 <= k < |s| && Covered(s[k].id, chunks, i) ensures Settled(r[k].status) {
      var c :| 0 <= c < i && s[k].id in IdsOf(chunks[c]);
      if c < i - 1 {
        assert Covered(s[k].id, chunks, i - 1);
      } else {
        assert p[k].id == s[k].id;
      }
    }
  }

  /** A loop whose body settles its batch and never unsettles an item settles every
      item whose id the first `i` batches hold. */
  lemma {:induction false} IterateItems(step: (nat, Session) -> Session, chunks: seq<seq<SubtitleItem>>, i: nat, s: Session)
    requires i <= |chunks|
    requires forall j: nat, t: Session :: j < |chunks| ==> StepStatuses(t.items, step(j, t).items, IdsOf(chunks[j]))
    ensures CoveredSettled(s.items, Iterate(step, i, s).items, chunks, i)
  {
    if i > 0 {
      var p := Iterate(step, i - 1, s);
      IterateItems(step, chunks, i - 1, s);
      CoverStep(s.items, p.items, step(i - 1, p).items, chunks, i);
    } else {
      assert forall k :: 0 <= k < |s.items| ==> !Covered(s.items[k].id, chunks, 0);
    }
  }

  /** A loop whose body only appends to the log only appends to the log. */
  lemma {:induction false} IterateLogs(step: (nat, Session) -> Session, i: nat, s: Session)
    requires forall j: nat, t: Session :: |step(j, t).logs| >= |t.logs| && step(j, t).logs[..|t.logs|] == t.logs
    ensures var r := Iterate(step, i, s);
      |r.logs| >= |s.logs| && r.logs[..|s.logs|] == s.logs
  {
    if i > 0 {
      var p := Iterate(step, i - 1, s);
      IterateLogs(step, i - 1, s);
      PrefixTrans(s.logs, p.logs, step(i - 1, p).logs);
    }
  }

  lemma StepAt(env: Remote, config: AppConfig, chunks: seq<seq<SubtitleItem>>, j: nat, t: Session)
    requires j < |chunks|
    ensures Step(env, config, chunks)(j, t) == ChunkStep(env, config, chunks, j, t)
  {
  }

  /** The chunk loop's body settles its batch and unsettles nothing. */
  lemma StepItems(env: Remote, config: AppConfig, chunks: seq<seq<SubtitleItem>>)
    ensures forall j: nat, t: Session :: j < |chunks| ==>
      StepStatuses(t.items, Step(env, config, chunks)(j, t).items, IdsOf(chunks[j]))
  {
    forall j: nat, t: Session | j < |chunks|
      ensures StepStatuses(t.items, Step(env, config, chunks)(j, t).items, IdsOf(chunks[j]))
    {
      StepAt(env, config, chunks, j, t);
      ChunkStepItems(env, config, chunks, j, t);
    }
  }

  /** The chunk loop's body only appends to the log. */
  lemma StepLogs(env: Remote, config: AppConfig, chunks: seq<seq<SubtitleItem>>)
    ensures forall j: nat, t: Session ::
      |Step(env, config, chunks)(j, t).logs| >= |t.logs| && Step(env, config, chunks)(j, t).logs[..|t.logs|] == t.logs
  {
    forall j: nat, t: Session
      ensures |Step(env, config, chunks)(j, t).logs| >= |t.logs| && Step(env, config, chunks)(j, t).logs[..|t.logs|] == t.logs
    {
      if j < |chunks| {
        StepAt(env, config, chunks, j, t);
        ChunkStepLogs(env, config, chunks, j, t);
      }
    }
  }

  /** Every element of a list lies in one of its chunks. */
  lemma {:induction false} InSomeChunk(s: seq<SubtitleItem>, b: nat, k: nat)
    requires b >= 1 && k < |s|
    ensures exists c :: 0 <= c < |Chunks(s, b)| && s[k].id in IdsOf(Chunks(s, b)[c])
    decreases |s|
  {
    var chunks := Chunks(s, b);
    if |s| <= b {
      assert chunks[0] == s;
      assert IdsOf(chunks[0])[k] == s[k].id;
    } else if k < b {
      assert chunks[0] == s[..b];
      assert IdsOf(chunks[0])[k] == s[k].id;
    } else {
      InSomeChunk(s[b..], b, k - b);
      var c :| 0 <= c < |Chunks(s[b..], b)| && s[b..][k - b].id in IdsOf(Chunks(s[b..], b)[c]);
      assert chunks[c + 1] == Chunks(s[b..], b)[c];
    }
  }

  /** A run leaves every item with the same id, times and original text in the same
      place, and with a settled status: `translating` (only where the Flash retry did not
      return it), `done` or `error`. */
  lemma RunItems(env: Remote, config: AppConfig, s: Session)
    requires |s.items| > 0 && config.batchSize >= 1
    ensures var r := TranslationRun(env, config, s);
      && SameSkeleton(s.items, r.items)
      && (forall k :: 0 <= k < |r.items| ==> Settled(r.items[k].status))
  {
    var chunks := Chunks(s.items, config.batchSize);
    var start := Emit(env, s, Starting, Info, None);
    var p := RunPrefix(env, config, chunks, |chunks|, start);
    StepItems(env, config, chunks);
    IterateItems(Step(env, config, chunks), chunks, |chunks|, start);
    assert TranslationRun(env, config, s).items == p.items;
    forall k | 0 <= k < |s.items| ensures Settled(p.items[k].status) {
      InSomeChunk(s.items, config.batchSize, k);
      assert Covered(start.items[k].id, chunks, |chunks|);
    }
  }

  /** A run keeps the log's old entries, adds the opening line ("Starting batch
      translation...") first and the closing line ("Job Complete.") last. */
  lemma RunLogs(env: Remote, config: AppConfig, s: Session)
    requires |s.items| > 0 && config.batchSize >= 1
    ensures var r := TranslationRun(env, config, s);
      && |r.logs| >= |s.logs| + 2 && r.logs[..|s.logs|] == s.logs
      && r.logs[|s.logs|].message == Starting && r.logs[|s.logs|].kind == Info
      && r.logs[|r.logs| - 1].message == JobComplete && r.logs[|r.logs| - 1].kind == LogKind.Success
  {
    var chunks := Chunks(s.items, config.batchSize);
    var start := Emit(env, s, Starting, Info, None);
    var p := RunPrefix(env, config, chunks, |chunks|, start);
    StepLogs(env, config, chunks);
    IterateLogs(Step(env, config, chunks), |chunks|, start);
    var r := TranslationRun(env, config, s);
    assert r == Emit(env, p, JobComplete, LogKind.Success, None);
    assert start.logs[..|s.logs|] == s.logs;
    PrefixTrans(s.logs, start.logs, p.logs);
    PrefixTrans(start.logs, p.logs, r.logs);
    assert r.logs[|s.logs|] == start.logs[|s.logs|];
  }

  /** With an empty list a run changes nothing and logs nothing. */
  lemma EmptyRun(env: Remote, config: AppConfig, s: Session)
    requires |s.items| == 0
    ensures TranslationRun(env, config, s) == s
  {
  }
}
