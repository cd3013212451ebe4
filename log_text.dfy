/** The text the log panel shows for each message: the template strings of the
    controller, with batch numbers counted from 1. */
module LogText {
  import opened Types
  import opened JsText

  /** The messages that name a batch. */
  predicate NamesBatch(m: Message)
  {
    m.Checking? || m.FlaggedIssues? || m.ContextFailed? || m.Routed? || m.Completed? ||
    m.Retrying? || m.Recovered?
  }

  function BatchTag(batch: nat): string
  {
    "[Batch " + IntToString(batch + 1)
  }

  /** The words of a batch message after `]` (after `/` for the context check, which
      also shows the number of batches). */
  function BatchWords(m: Message): string
    requires NamesBatch(m)
  {
    match m
    case Checking(_, batches) => IntToString(batches) + "] Checking context..."
    case FlaggedIssues(_, count) => " Flagged " + IntToString(count) + " potential context issues."
    case ContextFailed(_) =>
      " Context check failed (Rate Limit or Error). Proceeding to translate without suggestions."
    case Routed(_) => " Routed to Pro (Context Flags Detected)"
    case Completed(_) => " Translation complete."
    case Retrying(_) => " Translation failed. Retrying with Flash..."
    case Recovered(_) => " Recovered with Flash."
  }

  /** What a batch message shows after its batch number; it never starts with a digit. */
  function BatchDetail(m: Message): (r: string)
    requires NamesBatch(m)
    ensures |r| > 0 && !IsDigit(r[0])
  {
    (if m.Checking? then "/" else "]") + BatchWords(m)
  }

  function Text(m: Message): string
  {
    if NamesBatch(m) then BatchTag(m.batch) + BatchDetail(m)
    else
      match m
      case Loaded(fileName, count) => "Loaded " + fileName + " with " + IntToString(count) + " subtitles."
      case ParseFailed => "Failed to parse SRT file."
      case ContextApplied(itemId) => "Applied context suggestion for ID " + IntToString(itemId)
      case Starting => "Starting batch translation..."
      case JobComplete => "Job Complete."
  }

  lemma BatchTagThen(batch: nat, x: string)
    requires x == [] || !IsDigit(x[0])
    ensures |BatchTag(batch) + x| > 7 && (BatchTag(batch) + x)[..7] == "[Batch "
    ensures ParseInt((BatchTag(batch) + x)[7..]) == Some(batch + 1)
  {
    var d := IntToString(batch + 1);
    assert BatchTag(batch) + x == "[Batch " + (d + x);
    ParseIntPrefix(batch + 1, x);
  }

  /** Every batch message opens with `[Batch ` and a number that `parseInt` reads back
      as the loop index counted from 1. */
  lemma TextShowsBatch(m: Message)
    requires NamesBatch(m)
    ensures |Text(m)| > 7 && Text(m)[..7] == "[Batch "
    ensures ParseInt(Text(m)[7..]) == Some(m.batch + 1)
  {
    BatchTagThen(m.batch, BatchDetail(m));
  }

  /** Messages about different batches show different texts. */
  lemma DistinctBatchTexts(m: Message, n: Message)
    requires NamesBatch(m) && NamesBatch(n) && m.batch != n.batch
    ensures Text(m) != Text(n)
  {
    TextShowsBatch(m);
    TextShowsBatch(n);
  }
}
