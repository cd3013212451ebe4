/** The id-keyed list updates a translation run and the Apply button perform on the
    subtitle list, and the choice of model tier for one batch. Each update is one
    `prev.map(item => …)` of the controller: it keeps the list's length and order and
    changes only the fields it names. */
module BatchSteps {
  import opened Types
  import opened GeminiService

  /** The routing roll, `Math.random() * 100`. */
  type Roll = r: real | 0.0 <= r < 100.0

  /** Two lists describe the same subtitles: same length and, item by item, the same
      id, times and original text. */
  predicate SameSkeleton(a: seq<SubtitleItem>, b: seq<SubtitleItem>)
  {
    && |a| == |b|
    && forall k :: 0 <= k < |a| ==>
         a[k].id == b[k].id && a[k].startTime == b[k].startTime &&
         a[k].endTime == b[k].endTime && a[k].originalText == b[k].originalText
  }

  /** `chunk.map(c => c.id)`. */
  function IdsOf(chunk: seq<SubtitleItem>): (ids: seq<int>)
    ensures |ids| == |chunk|
    ensures forall k :: 0 <= k < |chunk| ==> ids[k] == chunk[k].id
  {
    seq(|chunk|, k requires 0 <= k < |chunk| => chunk[k].id)
  }

  /** Sets `status` on every item whose id is in `ids` (the `checking_context` step). */
  function MarkStatus(items: seq<SubtitleItem>, ids: seq<int>, s: Status): (r: seq<SubtitleItem>)
    ensures |r| == |items|
    ensures forall k :: 0 <= k < |items| ==>
      r[k].status == (if items[k].id in ids then s else items[k].status) &&
      r[k].(status := items[k].status) == items[k]
  {
    seq(|items|, k requires 0 <= k < |items| =>
      if items[k].id in ids then items[k].(status := s) else items[k])
  }

  /** Some record of the reply carries this id. */
  predicate Mentions(records: seq<Record>, id: int)
  {
    exists j :: 0 <= j < |records| && records[j].id == id
  }

  /** `records.find(r => r.id === id)`: a record with that id, if there is one. */
  function FindRecord(records: seq<Record>, id: int): (r: Option<Record>)
    ensures r.None? <==> !Mentions(records, id)
    ensures r.Some? ==> r.value.id == id && r.value in records
  {
    if |records| == 0 then None
    else if records[0].id == id then Some(records[0])
    else
      assert forall j :: 1 <= j < |records| ==> records[j] == records[1..][j - 1];
      FindRecord(records[1..], id)
  }

  /** The record found is the first one with that id. */
  lemma {:induction false} FindRecordFirst(records: seq<Record>, id: int)
    requires Mentions(records, id)
    ensures exists j ::
      0 <= j < |records| && records[j] == FindRecord(records, id).value &&
      (forall i :: 0 <= i < j ==> records[i].id != id)
  {
    if records[0].id != id {
      var j0 :| 0 <= j0 < |records| && records[j0].id == id;
      assert records[1..][j0 - 1].id == id;
      FindRecordFirst(records[1..], id);
      var j :| 0 <= j < |records[1..]| && records[1..][j] == FindRecord(records[1..], id).value &&
        (forall i :: 0 <= i < j ==> records[1..][i].id != id);
      assert records[j + 1] == FindRecord(records, id).value;
      forall i | 0 <= i < j + 1 ensures records[i].id != id {
        if i > 0 { assert records[i] == records[1..][i - 1]; }
      }
    } else {
      assert records[0] == FindRecord(records, id).value;
    }
  }

  /** The context merge of one item: the first suggestion for its id, if any, replaces
      its `contextSuggestion`. */
  function WithSuggestion(it: SubtitleItem, suggestions: seq<Record>): SubtitleItem
  {
    match FindRecord(suggestions, it.id)
    case None => it
    case Some(rec) => it.(contextSuggestion := Some(rec.text))
  }

  /** The context merge over the whole list (not only the current batch). */
  function MergeSuggestions(items: seq<SubtitleItem>, suggestions: seq<Record>): (r: seq<SubtitleItem>)
    ensures |r| == |items|
    ensures forall k :: 0 <= k < |items| ==> r[k].(contextSuggestion := items[k].contextSuggestion) == items[k]
    ensures forall k :: 0 <= k < |items| ==> !Mentions(suggestions, items[k].id) ==> r[k] == items[k]
    ensures forall k :: 0 <= k < |items| ==> Mentions(suggestions, items[k].id) ==>
      r[k].contextSuggestion == Some(FindRecord(suggestions, items[k].id).value.text)
  {
    seq(|items|, k requires 0 <= k < |items| => WithSuggestion(items[k], suggestions))
  }

  /** An item that forces the Pro tier: it carries a non-empty suggestion or the applied flag. */
  predicate Flagged(it: SubtitleItem)
  {
    Truthy(it.contextSuggestion) || it.isContextApplied
  }

  /** `items.filter(item => batchIds.includes(item.id))`: the items of the current list
      that belong to the batch, in list order. */
  function FilterBatch(items: seq<SubtitleItem>, ids: seq<int>): (r: seq<SubtitleItem>)
    ensures |r| <= |items|
    ensures forall k :: 0 <= k < |r| ==> r[k].id in ids && r[k] in items
    ensures forall k :: 0 <= k < |items| && items[k].id in ids ==> items[k] in r
  {
    if |items| == 0 then []
    else
      var rest := FilterBatch(items[1..], ids);
      assert forall k :: 1 <= k < |items| ==> items[k] == items[1..][k - 1];
      if items[0].id in ids then [items[0]] + rest else rest
  }

  /** The filter keeps one item as it is when its id is in the batch and drops it otherwise. */
  lemma FilterBatchSingle(x: SubtitleItem, ids: seq<int>)
    ensures FilterBatch([x], ids) == if x.id in ids then [x] else []
  {
    assert [x][1..] == [];
  }

  /** Filtering a list is filtering its two halves and concatenating the results, so
      the batch keeps the list's order and its duplicates. */
  lemma {:induction false} FilterBatchAppend(a: seq<SubtitleItem>, b: seq<SubtitleItem>, ids: seq<int>)
    ensures FilterBatch(a + b, ids) == FilterBatch(a, ids) + FilterBatch(b, ids)
  {
    if |a| == 0 {
      assert a + b == b;
    } else {
      assert (a + b)[0] == a[0];
      assert (a + b)[1..] == a[1..] + b;
      FilterBatchAppend(a[1..], b, ids);
    }
  }

  predicate AnyFlagged(batch: seq<SubtitleItem>)
  {
    exists k :: 0 <= k < |batch| && Flagged(batch[k])
  }

  /** The `hasFlags` test: some item of the current list whose id is in the batch is flagged. */
  lemma HasFlagsIff(items: seq<SubtitleItem>, ids: seq<int>)
    ensures AnyFlagged(FilterBatch(items, ids)) <==>
      exists k :: 0 <= k < |items| && items[k].id in ids && Flagged(items[k])
  {
    var batch := FilterBatch(items, ids);
    if AnyFlagged(batch) {
      var k :| 0 <= k < |batch| && Flagged(batch[k]);
      assert batch[k] in items;
      var j :| 0 <= j < |items| && items[j] == batch[k];
      assert items[j].id in ids && Flagged(items[j]);
    }
    if exists k :: 0 <= k < |items| && items[k].id in ids && Flagged(items[k]) {
      var k :| 0 <= k < |items| && items[k].id in ids && Flagged(items[k]);
      assert items[k] in batch;
      var j :| 0 <= j < |batch| && batch[j] == items[k];
      assert Flagged(batch[j]);
    }
  }

  /** The tier for a batch: Pro whenever the batch is flagged, otherwise Pro exactly when
      the roll falls below the Pro allocation. */
  function Route(flagged: bool, roll: Roll, proAllocation: int): (tag: ModelTag)
    ensures tag == Pro <==> flagged || roll < proAllocation as real
    ensures flagged ==> tag == Pro
    ensures !flagged && proAllocation <= 0 ==> tag == Flash
    ensures proAllocation >= 100 ==> tag == Pro
  {
    if flagged then Pro
    else if roll < proAllocation as real then Pro
    else Flash
  }

  /** The `translating` step: batch items get the status and the chosen tier tag. */
  function MarkTranslating(items: seq<SubtitleItem>, ids: seq<int>, tag: ModelTag): (r: seq<SubtitleItem>)
    ensures |r| == |items|
    ensures forall k :: 0 <= k < |items| && items[k].id in ids ==>
      r[k].status == Translating && r[k].modelUsed == Some(tag) &&
      r[k].(status := items[k].status, modelUsed := items[k].modelUsed) == items[k]
    ensures forall k :: 0 <= k < |items| && items[k].id !in ids ==> r[k] == items[k]
  {
    seq(|items|, k requires 0 <= k < |items| =>
      if items[k].id in ids then items[k].(status := Translating, modelUsed := Some(tag)) else items[k])
  }

  /** The primary merge of one item: a returned translation marks it done; an unreturned
      item of the batch is marked as an error; any other item is left alone. */
  function WithTranslation(it: SubtitleItem, ids: seq<int>, translations: seq<Record>): SubtitleItem
  {
    match FindRecord(translations, it.id)
    case Some(t) => it.(translatedText := Some(t.text), status := Done)
    case None => if it.id in ids then it.(status := Status.Error) else it
  }

  function MergeTranslations(items: seq<SubtitleItem>, ids: seq<int>, translations: seq<Record>): (r: seq<SubtitleItem>)
    ensures |r| == |items|
    ensures forall k :: 0 <= k < |items| && Mentions(translations, items[k].id) ==>
      r[k].status == Done &&
      r[k].translatedText == Some(FindRecord(translations, items[k].id).value.text) &&
      r[k].(status := items[k].status, translatedText := items[k].translatedText) == items[k]
    ensures forall k :: 0 <= k < |items| && !Mentions(translations, items[k].id) && items[k].id in ids ==>
      r[k].status == Status.Error && r[k].(status := items[k].status) == items[k]
    ensures forall k :: 0 <= k < |items| && !Mentions(translations, items[k].id) && items[k].id !in ids ==>
      r[k] == items[k]
  {
    seq(|items|, k requires 0 <= k < |items| => WithTranslation(items[k], ids, translations))
  }

  /** The fallback merge of one item: a returned translation marks it done by Flash;
      an unreturned item keeps its state, whatever batch it is in. */
  function WithFallback(it: SubtitleItem, translations: seq<Record>): SubtitleItem
  {
    match FindRecord(translations, it.id)
    case Some(t) => it.(translatedText := Some(t.text), status := Done, modelUsed := Some(Flash))
    case None => it
  }

  function MergeFallback(items: seq<SubtitleItem>, translations: seq<Record>): (r: seq<SubtitleItem>)
    ensures |r| == |items|
    ensures forall k :: 0 <= k < |items| && Mentions(translations, items[k].id) ==>
      r[k].status == Done && r[k].modelUsed == Some(Flash) &&
      r[k].translatedText == Some(FindRecord(translations, items[k].id).value.text) &&
      r[k].(status := items[k].status, modelUsed := items[k].modelUsed,
            translatedText := items[k].translatedText) == items[k]
    ensures forall k :: 0 <= k < |items| && !Mentions(translations, items[k].id) ==> r[k] == items[k]
  {
    seq(|items|, k requires 0 <= k < |items| => WithFallback(items[k], translations))
  }

  /** Both attempts failed: every batch item becomes an error with the message "Failed". */
  function MarkFailed(items: seq<SubtitleItem>, ids: seq<int>): (r: seq<SubtitleItem>)
    ensures |r| == |items|
    ensures forall k :: 0 <= k < |items| && items[k].id in ids ==>
      r[k].status == Status.Error && r[k].errorMessage == Some("Failed") &&
      r[k].(status := items[k].status, errorMessage := items[k].errorMessage) == items[k]
    ensures forall k :: 0 <= k < |items| && items[k].id !in ids ==> r[k] == items[k]
  {
    seq(|items|, k requires 0 <= k < |items| =>
      if items[k].id in ids then items[k].(status := Status.Error, errorMessage := Some("Failed")) else items[k])
  }

  /** The Apply button: every item with this id and a non-empty suggestion gets the
      applied flag; nothing else changes, the original text included. */
  function ApplyContext(items: seq<SubtitleItem>, id: int): (r: seq<SubtitleItem>)
    ensures |r| == |items|
    ensures forall k :: 0 <= k < |items| ==>
      r[k].isContextApplied == (items[k].isContextApplied || (items[k].id == id && Truthy(items[k].contextSuggestion))) &&
      r[k].(isContextApplied := items[k].isContextApplied) == items[k]
  {
    seq(|items|, k requires 0 <= k < |items| =>
      if items[k].id == id && Truthy(items[k].contextSuggestion) then items[k].(isContextApplied := true) else items[k])
  }

  /** Applying the same suggestion twice is the same as applying it once. */
  lemma ApplyContextIdempotent(items: seq<SubtitleItem>, id: int)
    ensures ApplyContext(ApplyContext(items, id), id) == ApplyContext(items, id)
  {
    var once := ApplyContext(items, id);
    var twice := ApplyContext(once, id);
    forall k | 0 <= k < |items| ensures twice[k] == once[k] {
      assert twice[k].(isContextApplied := once[k].isContextApplied) == once[k];
    }
  }

  /** Applying where no item with that id has a suggestion changes nothing. */
  lemma ApplyContextNoSuggestion(items: seq<SubtitleItem>, id: int)
    requires forall k :: 0 <= k < |items| && items[k].id == id ==> !Truthy(items[k].contextSuggestion)
    ensures ApplyContext(items, id) == items
  {
    var r := ApplyContext(items, id);
    forall k | 0 <= k < |items| ensures r[k] == items[k] {
      assert r[k].(isContextApplied := items[k].isContextApplied) == items[k];
    }
  }

  /** After Apply, the item's translation input is its suggestion, while the context
      check's input (the original text) is unchanged. */
  lemma ApplyContextInputs(items: seq<SubtitleItem>, id: int)
    ensures ContextEntries(ApplyContext(items, id)) == ContextEntries(items)
    ensures forall k :: 0 <= k < |items| && items[k].id == id && Truthy(items[k].contextSuggestion) ==>
      TranslationEntries(ApplyContext(items, id))[k].text == items[k].contextSuggestion.value
    ensures forall k :: 0 <= k < |items| && items[k].id != id ==>
      TranslationEntries(ApplyContext(items, id))[k] == TranslationEntries(items)[k]
  {
    var r := ApplyContext(items, id);
    forall k | 0 <= k < |items| ensures r[k].originalText == items[k].originalText && r[k].id == items[k].id {
      assert r[k].(isContextApplied := items[k].isContextApplied) == items[k];
    }
  }
}
