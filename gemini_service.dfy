/** The parts of the remote-model service that are not network I/O: what each request
    carries, which model it names, and how a response text becomes a result list.
    The SDK call itself is an answer supplied from outside (see the Pipeline module). */
module GeminiService {
  import opened Types

  /** One `{ id, text }` element of a JSON array. Requests carry `{id, text}`; the context
      check answers `{id, suggestion}` and translation answers `{id, translatedText}`;
      all three have this shape, with `text` holding the string field. */
  datatype Record = Record(id: int, text: string)

  datatype ContextRequest = ContextRequest(model: ModelId, genre: string, entries: seq<Record>)

  datatype TranslateRequest = TranslateRequest(
    model: ModelId,
    sourceLang: string,
    targetLang: string,
    genre: string,
    customPrompt: string,
    entries: seq<Record>)

  /** What the SDK call did: it threw, or it answered with a response text (absent or
      possibly empty), and `decoded` is what `JSON.parse` makes of that text, `None`
      when the text is not a JSON array of records. */
  datatype Response = Thrown | Answered(text: Option<string>, decoded: Option<seq<Record>>)

  /** What the service function gives its caller: a rejected promise or the record list. */
  datatype Reply = Rejected | Resolved(records: seq<Record>)

  /** The context check's input: id and original text of every item, in order. */
  function ContextEntries(items: seq<SubtitleItem>): (r: seq<Record>)
    ensures |r| == |items|
    ensures forall k :: 0 <= k < |items| ==> r[k].id == items[k].id && r[k].text == items[k].originalText
  {
    seq(|items|, k requires 0 <= k < |items| => Record(items[k].id, items[k].originalText))
  }

  /** The text sent for translation: the suggestion when it has been applied and is
      non-empty, the original text in every other case. */
  function TranslationText(it: SubtitleItem): (t: string)
    ensures it.isContextApplied && Truthy(it.contextSuggestion) ==> t == it.contextSuggestion.value
    ensures !it.isContextApplied ==> t == it.originalText
    ensures it.contextSuggestion.None? || it.contextSuggestion == Some("") ==> t == it.originalText
  {
    if it.isContextApplied && Truthy(it.contextSuggestion) then it.contextSuggestion.value else it.originalText
  }

  /** The translation input: one entry per item, same order, same ids. */
  function TranslationEntries(items: seq<SubtitleItem>): (r: seq<Record>)
    ensures |r| == |items|
    ensures forall k :: 0 <= k < |items| ==> r[k].id == items[k].id && r[k].text == TranslationText(items[k])
  {
    seq(|items|, k requires 0 <= k < |items| => Record(items[k].id, TranslationText(items[k])))
  }

  /** The context check always goes to the Pro model, with the configured genre. */
  function ContextRequestFor(items: seq<SubtitleItem>, config: AppConfig): (q: ContextRequest)
    ensures q.model == GeminiPro
    ensures q.genre == config.genre
    ensures |q.entries| == |items|
    ensures forall k :: 0 <= k < |items| ==> q.entries[k] == Record(items[k].id, items[k].originalText)
  {
    ContextRequest(GeminiPro, config.genre, ContextEntries(items))
  }

  /** Translation goes to whatever model the caller names, with the configured languages,
      genre and instructions. */
  function TranslateRequestFor(items: seq<SubtitleItem>, config: AppConfig, model: ModelId): (q: TranslateRequest)
    ensures q.model == model
    ensures q.sourceLang == config.sourceLang && q.targetLang == config.targetLang
    ensures q.genre == config.genre && q.customPrompt == config.customPrompt
    ensures |q.entries| == |items|
    ensures forall k :: 0 <= k < |items| ==> q.entries[k] == Record(items[k].id, TranslationText(items[k]))
  {
    TranslateRequest(model, config.sourceLang, config.targetLang, config.genre, config.customPrompt,
      TranslationEntries(items))
  }

  /** `JSON.parse(response.text || "[]")` inside a try that re-throws: a thrown call or an
      unparsable text is a failure, an absent or empty text is the empty list, and a
      parsed array is returned as it is. */
  function ResultOf(resp: Response): (r: Reply)
    ensures resp.Thrown? ==> r.Rejected?
    ensures resp.Answered? && !Truthy(resp.text) ==> r == Resolved([])
    ensures resp.Answered? && Truthy(resp.text) ==>
      (r.Rejected? <==> resp.decoded.None?) && (r.Resolved? ==> r.records == resp.decoded.value)
  {
    match resp
    case Thrown => Rejected
    case Answered(text, decoded) =>
      if !Truthy(text) then Resolved([])
      else if decoded.None? then Rejected
      else Resolved(decoded.value)
  }

  /** `MODEL_FLASH` / `MODEL_PRO` for a tier tag. */
  function ModelIdOf(tag: ModelTag): (m: ModelId)
    ensures m == GeminiPro <==> tag == Pro
  {
    if tag == Pro then GeminiPro else GeminiFlash
  }
}
