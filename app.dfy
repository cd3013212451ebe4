/** The application controller: the state the screens share (configuration, subtitle
    list, file name, log, processing flag, progress and the visible tab) and the
    handlers that change it. `StartTranslation` performs a run step by step and is
    proved to end in the state `TranslationRun` describes. */
module App {
  import opened Types
  import opened JsText
  import opened GeminiService
  import opened BatchSteps
  import opened Chunking
  import SrtParser
  import Pipeline
  import SetupTab

  class App {
    var config: AppConfig
    var items: seq<SubtitleItem>
    var fileName: Option<string>
    var logs: seq<LogEntry>
    var isProcessing: bool
    var progress: real
    var activeTab: Tab

    /** The initial state: default configuration, nothing loaded, nothing logged. */
    constructor()
      ensures config == DefaultConfig() && ValidConfig(config)
      ensures items == [] && fileName == None && logs == []
      ensures !isProcessing && progress == 0.0 && activeTab == Setup
    {
      config := DefaultConfig();
      items := [];
      fileName := None;
      logs := [];
      isProcessing := false;
      progress := 0.0;
      activeTab := Setup;
    }

    /** The session a run works on. */
    function Current(): Pipeline.Session
      reads this
    {
      Pipeline.Session(items, logs)
    }

    /** `addLog`: one entry appended, with the given stamp. */
    method AddLog(stamp: Pipeline.Stamp, message: Message, kind: LogKind, model: Option<ModelTag>)
      modifies this`logs
      ensures logs == Pipeline.AddLog(old(logs), stamp, message, kind, model)
    {
      logs := logs + [LogEntry(stamp.id, stamp.timestamp, message, kind, model)];
    }

    /** `handleFileUpload`: the parsed items replace the list, the file name is kept,
        the count is logged and the data tab is shown. */
    method HandleFileUpload(content: string, name: string, stamp: Pipeline.Stamp)
      modifies this`items, this`fileName, this`logs, this`activeTab
      ensures items == SrtParser.SrtItems(content)
      ensures fileName == Some(name) && activeTab == Data
      ensures logs == Pipeline.AddLog(old(logs), stamp,
                        Loaded(name, |items|), Success, None)
    {
      var parsed := SrtParser.ParseSRT(content);
      var message := Loaded(name, |parsed|);
      items := parsed;
      fileName := Some(name);
      AddLog(stamp, message, Success, None);
      activeTab := Data;
    }

    /** `handleApplyContext`: the applied flag is set on the items with that id that
        carry a suggestion, and the action is logged whatever happened. */
    method HandleApplyContext(id: int, stamp: Pipeline.Stamp)
      modifies this`items, this`logs
      ensures items == ApplyContext(old(items), id)
      ensures logs == Pipeline.AddLog(old(logs), stamp, ContextApplied(id), Success, None)
    {
      items := ApplyContext(items, id);
      AddLog(stamp, ContextApplied(id), Success, None);
    }

    /** The setup screen's allocation slider, handed to `setConfig`. */
    method ChangeAllocation(position: int)
      requires 0 <= position <= 100
      modifies this`config
      ensures config == SetupTab.SliderChange(old(config), position)
      ensures ValidConfig(old(config)) ==> ValidConfig(config)
    {
      config := SetupTab.SliderChange(config, position);
    }

    /** A language, genre or prompt edit on the setup screen. */
    method ChangeField(field: SetupTab.ConfigField, value: string)
      modifies this`config
      ensures config == SetupTab.SetField(old(config), field, value)
      ensures ValidConfig(old(config)) ==> ValidConfig(config)
    {
      config := SetupTab.SetField(config, field, value);
    }

    /** The batch-size input, `parseInt(e.target.value) || 10` as the source writes it: the
        size is never 0, and it is positive exactly when the text is not a number or
        parses to a non-negative integer. A negative size is stored as typed; a run is
        then undefined, which `StartTranslation`'s precondition records. */
    method ChangeBatchSize(value: string)
      modifies this`config
      ensures config == SetupTab.BatchSizeChangeAsWritten(old(config), value)
      ensures config.batchSize != 0
      ensures config.batchSize >= 1 <==> ParseInt(value).None? || ParseInt(value).value >= 0
    {
      config := SetupTab.BatchSizeChangeAsWritten(config, value);
    }

    /** Step 1 of a batch: mark it, log, ask for suggestions and merge them. */
    method CheckContext(env: Pipeline.Remote, chunks: seq<seq<SubtitleItem>>, i: nat)
      requires i < |chunks|
      modifies this`items, this`logs
      ensures Current() == Pipeline.ContextPhase(env, config, chunks, i, old(Current()))
    {
      ghost var s0 := Current();
      var ids := IdsOf(chunks[i]);
      items := MarkStatus(items, ids, CheckingContext);
      AddLog(env.stamp(|logs|), Checking(i, |chunks|), Info, Some(Pro));
      ghost var s1 := Current();
      assert s1 == Pipeline.Emit(env, s0.(items := MarkStatus(s0.items, ids, CheckingContext)),
                                 Checking(i, |chunks|), Info, Some(Pro));
      var reply := Pipeline.CheckContextBatch(env, i, chunks[i], config);
      match reply {
        case Resolved(suggestions) =>
          items := MergeSuggestions(items, suggestions);
          if |suggestions| > 0 {
            AddLog(env.stamp(|logs|), FlaggedIssues(i, |suggestions|), Warning, Some(Pro));
          }
        case Rejected =>
          AddLog(env.stamp(|logs|), ContextFailed(i), LogKind.Error, Some(Pro));
      }
    }

    /** Step 2 of a batch: read the flags, choose the tier, log a forced Pro routing and
        mark the batch translating. */
    method RouteBatch(env: Pipeline.Remote, chunks: seq<seq<SubtitleItem>>, i: nat) returns (tag: ModelTag)
      requires i < |chunks|
      modifies this`items, this`logs
      ensures tag == Pipeline.ChunkTag(env, config, chunks, i, old(Current()))
      ensures Current() == Pipeline.RoutePhase(env, config, chunks, i, old(Current()))
    {
      var ids := IdsOf(chunks[i]);
      var hasFlags := AnyFlagged(FilterBatch(items, ids));
      tag := Route(hasFlags, env.roll(i), config.proAllocation);
      if hasFlags {
        AddLog(env.stamp(|logs|), Routed(i), Info, Some(Pro));
      }
      items := MarkTranslating(items, ids, tag);
    }

    /** Step 3 of a batch: translate, and on failure retry once with Flash. */
    method TranslateChunk(env: Pipeline.Remote, chunks: seq<seq<SubtitleItem>>, i: nat, tag: ModelTag)
      requires i < |chunks|
      modifies this`items, this`logs
      ensures Current() == Pipeline.TranslatePhase(env, config, chunks, i, tag, old(Current()))
    {
      var ids := IdsOf(chunks[i]);
      var batch := FilterBatch(items, ids);
      var reply := Pipeline.TranslateBatch(env, i, Pipeline.Primary, batch, config, ModelIdOf(tag));
      match reply {
        case Resolved(translations) =>
          items := MergeTranslations(items, ids, translations);
          AddLog(env.stamp(|logs|), Completed(i), Success, Some(tag));
        case Rejected =>
          AddLog(env.stamp(|logs|), Retrying(i), LogKind.Error, Some(tag));
          var retry := Pipeline.TranslateBatch(env, i, Pipeline.FlashRetry, chunks[i], config, GeminiFlash);
          match retry {
            case Resolved(translations) =>
              items := MergeFallback(items, translations);
              AddLog(env.stamp(|logs|), Recovered(i), Warning, Some(Flash));
            case Rejected =>
              items := MarkFailed(items, ids);
          }
      }
    }

    /** One iteration of the chunk loop. */
    method RunChunk(env: Pipeline.Remote, chunks: seq<seq<SubtitleItem>>, i: nat)
      requires i < |chunks|
      modifies this`items, this`logs
      ensures Current() == Pipeline.ChunkStep(env, config, chunks, i, old(Current()))
    {
      CheckContext(env, chunks, i);
      var tag := RouteBatch(env, chunks, i);
      TranslateChunk(env, chunks, i, tag);
    }

    /** The chunk loop, with the progress update after every chunk. */
    method RunChunks(env: Pipeline.Remote, chunks: seq<seq<SubtitleItem>>, n: nat)
      requires n > 0 && |Flatten(chunks)| == n && |chunks| > 0
      modifies this`items, this`logs, this`progress
      ensures Current() == Pipeline.RunPrefix(env, config, chunks, |chunks|, old(Current()))
      ensures progress == 100.0
    {
      ghost var start := Current();
      var processed := 0;
      var i := 0;
      while i < |chunks|
        invariant 0 <= i <= |chunks|
        invariant Current() == Pipeline.RunPrefix(env, config, chunks, i, start)
        invariant processed == |Flatten(chunks[..i])|
        invariant i > 0 ==> progress == Pipeline.Progress(processed, n)
      {
        RunChunk(env, chunks, i);
        Pipeline.RunPrefixStep(env, config, chunks, i, start);
        FlattenStep(chunks, i);
        processed := processed + |chunks[i]|;
        progress := Pipeline.Progress(processed, n);
        i := i + 1;
      }
      assert chunks[..|chunks|] == chunks;
      Pipeline.ProgressComplete(n);
    }

    /** The body of a run on a non-empty list: the opening log line, the chunk loop and
        the closing log line. */
    method RunJob(env: Pipeline.Remote)
      requires |items| > 0 && config.batchSize >= 1
      modifies this`items, this`logs, this`progress
      ensures Current() == Pipeline.TranslationRun(env, config, old(Current()))
      ensures progress == 100.0
    {
      ghost var s0 := Current();
      AddLog(env.stamp(|logs|), Starting, Info, None);
      ghost var start := Current();
      var chunks := MakeChunks(items, config.batchSize);
      ChunksFlatten(items, config.batchSize);
      ChunksShape(items, config.batchSize);
      RunChunks(env, chunks, |items|);
      ghost var done := Current();
      AddLog(env.stamp(|logs|), JobComplete, Success, None);
      Pipeline.TranslationRunUnfold(env, config, s0, start, done);
    }

    /** `startTranslation`: nothing happens on an empty list; otherwise the run ends in
        the state `TranslationRun` describes, with the processing flag cleared, the
        progress at 100 and the monitoring tab shown. */
    method StartTranslation(env: Pipeline.Remote)
      requires |items| == 0 || config.batchSize >= 1
      modifies this`items, this`logs, this`isProcessing, this`progress, this`activeTab
      ensures |old(items)| == 0 ==>
        items == old(items) && logs == old(logs) && isProcessing == old(isProcessing) &&
        progress == old(progress) && activeTab == old(activeTab)
      ensures |old(items)| > 0 ==>
        && Current() == Pipeline.TranslationRun(env, config, old(Current()))
        && !isProcessing && progress == 100.0 && activeTab == Monitoring
    {
      if |items| == 0 {
        return;
      }
      isProcessing := true;
      activeTab := Monitoring;
      RunJob(env);
      isProcessing := false;
    }
  }
}
