/** The configuration updates of the setup screen: the Flash/Pro allocation slider, the
    language, genre and prompt fields and the batch-size input. Each handler builds a
    new configuration record from the previous one. */
module SetupTab {
  import opened Types
  import opened JsText

  // ---------------------------------------------------------------------------
  // allocation split

  /** `handleAllocationChange(flash)`: Flash gets `flash` percent and Pro the rest. */
  function AllocationChange(c: AppConfig, flash: int): (r: AppConfig)
    ensures r.flashAllocation == flash && r.flashAllocation + r.proAllocation == 100
    ensures r.sourceLang == c.sourceLang && r.targetLang == c.targetLang
    ensures r.genre == c.genre && r.customPrompt == c.customPrompt && r.batchSize == c.batchSize
    ensures 0 <= flash <= 100 ==> 0 <= r.proAllocation <= 100
  {
    c.(flashAllocation := flash, proAllocation := 100 - flash)
  }

  /** A slider position inside 0..100 keeps a valid configuration valid. */
  lemma AllocationKeepsValid(c: AppConfig, flash: int)
    requires ValidConfig(c) && 0 <= flash <= 100
    ensures ValidConfig(AllocationChange(c, flash))
  {
  }

  /** Only the last slider position counts: moving the slider twice is moving it once. */
  lemma AllocationLastWins(c: AppConfig, f: int, g: int)
    ensures AllocationChange(AllocationChange(c, f), g) == AllocationChange(c, g)
  {
  }

  /** The slider's `onChange`: the range input (min 0, max 100) reports its position as
      the decimal text of an integer, and `parseInt` reads that text back. */
  function SliderChange(c: AppConfig, position: int): (r: AppConfig)
    requires 0 <= position <= 100
    ensures r == AllocationChange(c, position)
    ensures ValidConfig(c) ==> ValidConfig(r)
  {
    ParseIntToString(position);
    AllocationChange(c, ParseInt(IntToString(position)).value)
  }

  // ---------------------------------------------------------------------------
  // text fields

  /** The four string fields edited through a select or a text area. */
  datatype ConfigField = SourceLang | TargetLang | Genre | CustomPrompt

  function FieldOf(c: AppConfig, f: ConfigField): string
  {
    match f
    case SourceLang => c.sourceLang
    case TargetLang => c.targetLang
    case Genre => c.genre
    case CustomPrompt => c.customPrompt
  }

  /** `setConfig({...config, <field>: e.target.value})`: the edited field takes the new
      value and every other field, numeric ones included, is unchanged. */
  function SetField(c: AppConfig, f: ConfigField, v: string): (r: AppConfig)
    ensures FieldOf(r, f) == v
    ensures forall g: ConfigField :: g != f ==> FieldOf(r, g) == FieldOf(c, g)
    ensures r.flashAllocation == c.flashAllocation && r.proAllocation == c.proAllocation
    ensures r.batchSize == c.batchSize
    ensures ValidConfig(c) ==> ValidConfig(r)
  {
    match f
    case SourceLang => c.(sourceLang := v)
    case TargetLang => c.(targetLang := v)
    case Genre => c.(genre := v)
    case CustomPrompt => c.(customPrompt := v)
  }

  /** Two configurations with the same numbers and the same four fields are equal. */
  lemma ConfigExt(a: AppConfig, b: AppConfig)
    requires a.flashAllocation == b.flashAllocation && a.proAllocation == b.proAllocation
    requires a.batchSize == b.batchSize
    requires forall g: ConfigField :: FieldOf(a, g) == FieldOf(b, g)
    ensures a == b
  {
    assert FieldOf(a, SourceLang) == FieldOf(b, SourceLang);
    assert FieldOf(a, TargetLang) == FieldOf(b, TargetLang);
    assert FieldOf(a, Genre) == FieldOf(b, Genre);
    assert FieldOf(a, CustomPrompt) == FieldOf(b, CustomPrompt);
  }

  /** Editing one field and then another in either order gives the same configuration;
      editing the same field twice keeps the second value. */
  lemma SetFieldCommutes(c: AppConfig, f: ConfigField, u: string, g: ConfigField, v: string)
    ensures f != g ==> SetField(SetField(c, f, u), g, v) == SetField(SetField(c, g, v), f, u)
    ensures f == g ==> SetField(SetField(c, f, u), g, v) == SetField(c, g, v)
  {
    var a := SetField(SetField(c, f, u), g, v);
    if f != g {
      ConfigExt(a, SetField(SetField(c, g, v), f, u));
    } else {
      ConfigExt(a, SetField(c, g, v));
    }
  }

  // ---------------------------------------------------------------------------
  // batch size

  /** `parseInt(e.target.value) || 10` as written: NaN and zero (including `-0`) become
      10, every other parsed integer is kept, negative ones included. */
  function BatchSizeAsWritten(v: string): (r: int)
    ensures ParseInt(v).None? ==> r == 10
    ensures ParseInt(v).Some? ==> r == (if ParseInt(v).value == 0 then 10 else ParseInt(v).value)
    ensures r != 0
    ensures r >= 1 <==> ParseInt(v).None? || ParseInt(v).value >= 0
  {
    match ParseInt(v)
    case None => 10
    case Some(n) => if n == 0 then 10 else n
  }

  /** The batch-size handler as written. */
  function BatchSizeChangeAsWritten(c: AppConfig, v: string): (r: AppConfig)
    ensures r == c.(batchSize := BatchSizeAsWritten(v))
  {
    c.(batchSize := BatchSizeAsWritten(v))
  }

  /** Typing a non-zero number gives exactly that batch size. */
  lemma BatchSizeOfTyped(n: int)
    requires n != 0
    ensures BatchSizeAsWritten(IntToString(n)) == n
  {
    ParseIntToString(n);
  }

  /** Typing `-3` passes the `|| 10` guard: the batch size becomes -3, a configuration
      that was valid no longer is, and the chunk loop's index `i`, starting at 0 and
      growing by the batch size, never reaches a positive item count. */
  lemma NegativeBatchSizeAccepted(c: AppConfig, n: nat, k: nat)
    requires ValidConfig(c) && n > 0
    ensures BatchSizeAsWritten("-3") == -3
    ensures !ValidConfig(BatchSizeChangeAsWritten(c, "-3"))
    ensures k * BatchSizeAsWritten("-3") < n
  {
    BatchSizeOfTyped(-3);
    assert IntToString(-3) == "-3";
  }

  /** The batch size the input's `min="1"` and `max="50"` describe: the typed value,
      defaulting to 10 like the source, then clamped into 1..50. */
  function BatchSize(v: string): (r: int)
    ensures 1 <= r <= 50
    ensures 1 <= BatchSizeAsWritten(v) <= 50 ==> r == BatchSizeAsWritten(v)
  {
    var b := BatchSizeAsWritten(v);
    if b < 1 then 1 else if b > 50 then 50 else b
  }

  /** The batch-size handler with the clamp: it changes only the batch size and keeps a
      valid configuration valid, so a run is always defined on it. */
  function BatchSizeChange(c: AppConfig, v: string): (r: AppConfig)
    ensures r.batchSize == BatchSize(v)
    ensures r == c.(batchSize := r.batchSize)
    ensures ValidConfig(c) ==> ValidConfig(r)
  {
    c.(batchSize := BatchSize(v))
  }

  /** Every size the input allows, typed in, is taken as it is. */
  lemma BatchSizeOfAllowed(n: int)
    requires 1 <= n <= 50
    ensures BatchSize(IntToString(n)) == n
  {
    BatchSizeOfTyped(n);
  }
}
