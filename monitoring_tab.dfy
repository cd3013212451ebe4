/** The figures of the monitoring screen: how many items are done, how many of those
    each model produced, whether the download button is enabled and what it saves. */
module MonitoringTab {
  import opened Types
  import opened SrtParser

  predicate IsDone(it: SubtitleItem)
  {
    it.status == Done
  }

  predicate DoneBy(it: SubtitleItem, tag: ModelTag)
  {
    it.modelUsed == Some(tag) && it.status == Done
  }

  /** `items.filter(i => i.status === 'done').length`. */
  function CompletedCount(items: seq<SubtitleItem>): (r: nat)
    ensures r <= |items|
    ensures r == 0 <==> forall k :: 0 <= k < |items| ==> !IsDone(items[k])
  {
    if |items| == 0 then 0
    else CompletedCount(items[..|items| - 1]) + (if IsDone(items[|items| - 1]) then 1 else 0)
  }

  /** `items.filter(i => i.modelUsed === tag && i.status === 'done').length`, the Flash
      and Pro counts. */
  function ModelCount(items: seq<SubtitleItem>, tag: ModelTag): (r: nat)
    ensures r <= |items|
  {
    if |items| == 0 then 0
    else ModelCount(items[..|items| - 1], tag) + (if DoneBy(items[|items| - 1], tag) then 1 else 0)
  }

  function FlashCount(items: seq<SubtitleItem>): nat
  {
    ModelCount(items, Flash)
  }

  function ProCount(items: seq<SubtitleItem>): nat
  {
    ModelCount(items, Pro)
  }

  /** The Flash and Pro figures never add up to more than the done figure, and they add
      up to exactly that when every done item records its model. */
  lemma {:induction false} CountsBounded(items: seq<SubtitleItem>)
    ensures FlashCount(items) + ProCount(items) <= CompletedCount(items)
    ensures (forall k :: 0 <= k < |items| ==> IsDone(items[k]) ==> items[k].modelUsed.Some?) ==>
      FlashCount(items) + ProCount(items) == CompletedCount(items)
  {
    if |items| > 0 {
      var init := items[..|items| - 1];
      var last := items[|items| - 1];
      CountsBounded(init);
      assert forall k :: 0 <= k < |init| ==> init[k] == items[k];
      assert FlashCount(items) == FlashCount(init) + (if DoneBy(last, Flash) then 1 else 0);
      assert ProCount(items) == ProCount(init) + (if DoneBy(last, Pro) then 1 else 0);
      assert CompletedCount(items) == CompletedCount(init) + (if IsDone(last) then 1 else 0);
      if forall k :: 0 <= k < |items| ==> IsDone(items[k]) ==> items[k].modelUsed.Some? {
        assert forall k :: 0 <= k < |init| ==> IsDone(init[k]) ==> init[k].modelUsed.Some?;
        if IsDone(last) {
          assert last.modelUsed.Some?;
          assert last.modelUsed.value == Flash || last.modelUsed.value == Pro;
        }
      }
    }
  }

  /** Counting the two halves of a list separately adds up. */
  lemma {:induction false} CompletedCountAppend(a: seq<SubtitleItem>, b: seq<SubtitleItem>)
    ensures CompletedCount(a + b) == CompletedCount(a) + CompletedCount(b)
    decreases |b|
  {
    if |b| == 0 {
      assert a + b == a;
    } else {
      var b0 := b[..|b| - 1];
      assert (a + b)[..|a + b| - 1] == a + b0;
      CompletedCountAppend(a, b0);
    }
  }

  /** `disabled={completedCount === 0}`: the button is enabled when some item is done. */
  function DownloadEnabled(items: seq<SubtitleItem>): (r: bool)
    ensures r <==> exists k :: 0 <= k < |items| && IsDone(items[k])
  {
    CompletedCount(items) != 0
  }

  /** What `handleDownload` saves: every item printed, done or not. */
  function DownloadContent(items: seq<SubtitleItem>): string
  {
    GenerateSRT(items)
  }

  /** A freshly uploaded file has nothing done, so its download button is disabled. */
  lemma UploadNotDownloadable(content: string)
    ensures !DownloadEnabled(SrtItems(content))
  {
    var items := SrtItems(content);
    SrtItemsWellFormed(content);
    forall k | 0 <= k < |items|
      ensures !IsDone(items[k])
    {
      assert Pristine(items[k]);
    }
  }

  /** Reading the saved file back gives one item per item on screen, each with the text
      that was shown (the translation when there is one) and every item untranslated. */
  lemma DownloadReadsBack(items: seq<SubtitleItem>)
    requires forall k :: 0 <= k < |items| ==> Printable(items[k])
    ensures |SrtItems(DownloadContent(items))| == |items|
    ensures forall k :: 0 <= k < |items| ==>
      SrtItems(DownloadContent(items))[k] == NewItem(items[k].id, items[k].startTime, items[k].endTime, DisplayText(items[k]))
  {
    GenerateThenParse(items);
  }
}
