/**
 * The launch parameters the activity reads from its Intent in `onCreate`, their
 * defaults, and the timeout-prompt settings derived from them.
 */
module LaunchParams {
  import opened Wrappers

  /** Java's 32-bit `int`. */
  type Int32 = x: int | -0x8000_0000 <= x < 0x8000_0000

  /** Two's-complement wrap-around of an exact integer into Java's `int` range. */
  function WrapInt32(x: int): (r: Int32)
    ensures (r - x) % 0x1_0000_0000 == 0
    ensures -0x8000_0000 <= x < 0x8000_0000 ==> r == x
  {
    (x + 0x8000_0000) % 0x1_0000_0000 - 0x8000_0000
  }

  /**
   * The Intent extras as the caller supplied them; None is an absent extra
   * (and, for the prompt, a null string).
   */
  datatype LaunchExtras = LaunchExtras(
    oneShot: Option<bool>,            // "oneShot"
    showTimeoutPrompt: Option<bool>,  // "timeoutPrompt.show"
    timeoutSeconds: Option<Int32>,    // "timeoutPrompt.timeout"
    prompt: Option<string>,           // "timeoutPrompt.prompt"
    debugPreview: Option<Int32>)      // "debug.preview"

  /** The configuration the activity keeps for its whole lifetime. */
  datatype Config = Config(
    oneShot: bool,
    showTimeoutPrompt: bool,
    timeoutPromptSpan: Int32,
    timeoutPrompt: string,
    debugPreviewMode: Int32)

  const DefaultTimeoutPrompt: string := "Barcode not detected"

  /** The value `getIntExtra("timeoutPrompt.timeout", -1)` falls back to. */
  const DefaultTimeoutSpan: Int32 := -1

  /** Reads the launch parameters, filling in each absent one with its default. */
  function ConfigFrom(extras: LaunchExtras): (c: Config)
    ensures c.oneShot <==> extras.oneShot == Some(true)
    ensures c.showTimeoutPrompt <==> extras.showTimeoutPrompt == Some(true)
    ensures extras.timeoutSeconds.Some? ==> c.timeoutPromptSpan == extras.timeoutSeconds.value
    ensures extras.timeoutSeconds.None? ==> c.timeoutPromptSpan == DefaultTimeoutSpan
    ensures c.timeoutPrompt != ""
    ensures extras.prompt.Some? && extras.prompt.value != "" ==> c.timeoutPrompt == extras.prompt.value
    ensures extras.prompt.None? || extras.prompt.value == "" ==> c.timeoutPrompt == DefaultTimeoutPrompt
    ensures extras.debugPreview.Some? ==> c.debugPreviewMode == extras.debugPreview.value
    ensures extras.debugPreview.None? ==> c.debugPreviewMode == 0
  {
    var prompt :=
      if extras.prompt.Some? && |extras.prompt.value| > 0 then extras.prompt.value
      else DefaultTimeoutPrompt;
    Config(
      extras.oneShot.GetOr(false),
      extras.showTimeoutPrompt.GetOr(false),
      extras.timeoutSeconds.GetOr(DefaultTimeoutSpan),
      prompt,
      extras.debugPreview.GetOr(0))
  }

  /** `isEnableTimeoutPrompt`: a prompt was asked for and the span is not negative. */
  predicate TimeoutPromptEnabled(c: Config) {
    c.showTimeoutPrompt && c.timeoutPromptSpan >= 0
  }

  /** A caller that sets no timeout never gets a timeout prompt, whatever else it asks. */
  lemma AbsentTimeoutDisablesPrompt(extras: LaunchExtras)
    requires extras.timeoutSeconds.None? || extras.showTimeoutPrompt != Some(true)
    ensures !TimeoutPromptEnabled(ConfigFrom(extras))
  {
  }

  /** The prompt is enabled exactly when it is asked for with a non-negative timeout. */
  lemma TimeoutPromptEnabledIff(extras: LaunchExtras)
    ensures TimeoutPromptEnabled(ConfigFrom(extras)) <==>
      extras.showTimeoutPrompt == Some(true) &&
      extras.timeoutSeconds.Some? && extras.timeoutSeconds.value >= 0
  {
  }

  /**
   * The delay, in milliseconds, handed to `postDelayed`:
   * `Math.max(timeoutPromptSpan * 1000, 400)`, the product computed in Java `int`.
   */
  function TimeoutDelay(span: Int32): (ms: Int32)
    ensures ms >= 400
    ensures ms == 400 || ms == WrapInt32(span * 1000)
    ensures ms >= WrapInt32(span * 1000)
  {
    var product := WrapInt32(span * 1000);
    if product >= 400 then product else 400
  }

  /** Up to 2147483 seconds the product does not overflow: the delay is the span, at least 400 ms. */
  lemma TimeoutDelayExact(span: Int32)
    requires 0 <= span <= 2147483
    ensures TimeoutDelay(span) == if span * 1000 >= 400 then span * 1000 else 400
    ensures span > 0 ==> TimeoutDelay(span) == span * 1000
  {
  }

  /**
   * From 2147484 to 4294967 seconds the product wraps to a negative number,
   * so the delay falls back to 400 ms.
   */
  lemma TimeoutDelayOverflow(span: Int32)
    requires 2147484 <= span <= 4294967
    ensures TimeoutDelay(span) == 400
  {
    var x := span * 1000;
    assert 0x8000_0000 <= x < 0x1_0000_0000;
    assert (x + 0x8000_0000) % 0x1_0000_0000 == x + 0x8000_0000 - 0x1_0000_0000;
  }

  /** Past 4294967 seconds the product wraps around to positive values again: 4294968 s gives 704 ms. */
  lemma TimeoutDelayWrapsPositive()
    ensures TimeoutDelay(4294968) == 704
  {
    assert WrapInt32(4294968 * 1000) == 4294968000 - 0x1_0000_0000;
  }
}
