/** The records and enumerations every other module is built on:
    subtitle items, run configuration and log entries. */
module Types {

  datatype Option<T> = None | Some(value: T)

  /** JavaScript truthiness of an optional string: present and non-empty. */
  predicate Truthy(o: Option<string>)
  {
    o.Some? && o.value != ""
  }

  /** The processing state of one subtitle item. */
  datatype Status = Pending | CheckingContext | Translating | Done | Error

  /** The tier tag recorded on items and log entries. */
  datatype ModelTag = Flash | Pro

  /** The two remote model identifiers; the core only routes between them. */
  datatype ModelId = GeminiFlash | GeminiPro

  /** The three screens of the application. */
  datatype Tab = Setup | Data | Monitoring

  /** The log severity (the `type` field of a log entry). */
  datatype LogKind = Info | Success | Warning | Error

  datatype SubtitleItem = SubtitleItem(
    id: int,
    startTime: string,
    endTime: string,
    originalText: string,
    contextSuggestion: Option<string>,
    isContextApplied: bool,
    translatedText: Option<string>,
    modelUsed: Option<ModelTag>,
    status: Status,
    errorMessage: Option<string>)

  datatype AppConfig = AppConfig(
    flashAllocation: int,
    proAllocation: int,
    sourceLang: string,
    targetLang: string,
    genre: string,
    customPrompt: string,
    batchSize: int)

  /** A log message, as the template that produced it and the values filled in; batch
      numbers are loop indices counted from 0 (the text shows them counted from 1). */
  datatype Message =
    | Loaded(fileName: string, count: nat)
    | ParseFailed
    | ContextApplied(itemId: int)
    | Starting
    | Checking(batch: nat, batches: nat)
    | FlaggedIssues(batch: nat, count: nat)
    | ContextFailed(batch: nat)
    | Routed(batch: nat)
    | Completed(batch: nat)
    | Retrying(batch: nat)
    | Recovered(batch: nat)
    | JobComplete

  datatype LogEntry = LogEntry(
    id: string,
    timestamp: int,
    message: Message,
    kind: LogKind,
    model: Option<ModelTag>)

  /** A configuration a run can start from: complementary percentages and a usable batch size. */
  predicate ValidConfig(c: AppConfig)
  {
    && 0 <= c.flashAllocation <= 100
    && 0 <= c.proAllocation <= 100
    && c.flashAllocation + c.proAllocation == 100
    && c.batchSize >= 1
  }

  function DefaultConfig(): (c: AppConfig)
    ensures ValidConfig(c)
    ensures c.flashAllocation == 70 && c.proAllocation == 30 && c.batchSize == 10
  {
    AppConfig(70, 30, "Auto Detect", "Vietnamese", "Modern/Life", "", 10)
  }
}
