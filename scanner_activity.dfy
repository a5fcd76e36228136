/**
 * The barcode scanner activity's controller with views, Handler and ML Kit
 * replaced by plain state: the callbacks that change that state are methods.
 */
module ScannerActivity {
  import opened Wrappers
  import opened BarcodeFormat
  import opened LaunchParams
  import opened DetectionPass
  import opened JavaStrings

  /** `Activity.RESULT_OK`. */
  const RESULT_OK: int := -1

  /** What `setResult` records: a result code and the Intent's extras. */
  datatype ActivityResult = ActivityResult(resultCode: int, extras: map<string, Option<JavaString>>)

  /** A runnable posted to the main-thread Handler, with the delay it was posted with. */
  datatype TimerTask = TimerTask(id: nat, delay: int)

  /** `Handler.removeCallbacks`: drops every pending post of the runnable `id`. */
  function RemoveCallbacks(queue: seq<TimerTask>, id: nat): (rest: seq<TimerTask>)
    ensures forall t :: t in rest <==> t in queue && t.id != id
    ensures |rest| <= |queue|
  {
    if queue == [] then []
    else if queue[0].id == id then RemoveCallbacks(queue[1..], id)
    else [queue[0]] + RemoveCallbacks(queue[1..], id)
  }

  class BarcodeScannerActivity {
    const config: Config
    /** The text of the timeout-prompt view. */
    const timeoutPromptText: string
    /** Visibility of the debug preview view. */
    const debugPreviewVisible: bool

    var detectedBarcode: Option<Barcode>
    var buttonText: JavaString
    var buttonVisible: bool
    var borderDetected: bool
    var promptVisible: bool

    /** The posts of timeout-prompt runnables not yet run by the main-thread Handler. */
    var pending: seq<TimerTask>
    /** The runnable held in `timeoutPromptRunnable` (with its Handler); None while both are null. */
    var current: Option<nat>
    /** Source of fresh runnable identities. */
    var nextId: nat

    var finished: bool
    var result: Option<ActivityResult>

    /** The display state a detection pass works on. */
    function View(): Display
      reads this
    {
      Display(detectedBarcode, buttonText, buttonVisible, borderDetected)
    }

    ghost predicate Valid()
      reads this
    {
      // the slot never holds a barcode without text
      (detectedBarcode.Some? ==> HasText(detectedBarcode.value)) &&
      // at most one timeout prompt is pending, and it is the current runnable
      |pending| <= 1 &&
      (pending != [] ==>
        current == Some(pending[0].id) && pending[0].delay == TimeoutDelay(config.timeoutPromptSpan)) &&
      (current.Some? ==> current.value < nextId) &&
      // with the prompt disabled no timer exists and the prompt stays hidden
      (!TimeoutPromptEnabled(config) ==> pending == [] && current.None? && !promptVisible) &&
      // setResult is always followed by finish, always with RESULT_OK
      (finished <==> result.Some?) &&
      (result.Some? ==> result.value.resultCode == RESULT_OK)
    }

    /**
     * `onCreate`: read the launch parameters, set up the views, and — when the
     * camera permission is granted — start the camera and the timeout timer.
     */
    constructor (extras: LaunchExtras, cameraPermitted: bool)
      ensures Valid()
      ensures config == ConfigFrom(extras)
      ensures timeoutPromptText == config.timeoutPrompt
      ensures debugPreviewVisible <==> config.debugPreviewMode != 0
      ensures View() == Cleared && !promptVisible
      ensures !finished && result == None
      ensures cameraPermitted && TimeoutPromptEnabled(config) ==>
        pending == [TimerTask(0, TimeoutDelay(config.timeoutPromptSpan))] && current == Some(0)
      ensures !(cameraPermitted && TimeoutPromptEnabled(config)) ==> pending == [] && current == None
    {
      config := ConfigFrom(extras);
      timeoutPromptText := ConfigFrom(extras).timeoutPrompt;
      debugPreviewVisible := ConfigFrom(extras).debugPreviewMode != 0;
      detectedBarcode := None;
      buttonText := [];
      buttonVisible := false;
      borderDetected := false;
      promptVisible := false;
      pending := [];
      current := None;
      nextId := 0;
      finished := false;
      result := None;
      new;
      if cameraPermitted {
        StartDetectionTimer();
      }
    }

    /**
     * `startDetectionTimer`: when the prompt is enabled, post a fresh runnable
     * that will show the prompt after `TimeoutDelay` milliseconds. Called only
     * while nothing is pending.
     */
    method StartDetectionTimer()
      requires Valid() && pending == []
      modifies this
      ensures Valid()
      ensures TimeoutPromptEnabled(config) ==>
        pending == [TimerTask(old(nextId), TimeoutDelay(config.timeoutPromptSpan))] &&
        current == Some(old(nextId)) && nextId == old(nextId) + 1
      ensures !TimeoutPromptEnabled(config) ==>
        pending == old(pending) && current == old(current) && nextId == old(nextId)
      ensures View() == old(View()) && promptVisible == old(promptVisible)
      ensures finished == old(finished) && result == old(result)
    {
      if !TimeoutPromptEnabled(config) {
        return;
      }
      var id := nextId;
      nextId := nextId + 1;
      current := Some(id);
      pending := pending + [TimerTask(id, TimeoutDelay(config.timeoutPromptSpan))];
    }

    /**
     * `restartDetectionTimer`: when the prompt is enabled, cancel the current
     * runnable, hide the prompt and start a new timer; exactly one is then pending.
     */
    method RestartDetectionTimer()
      requires Valid()
      modifies this
      ensures Valid()
      ensures TimeoutPromptEnabled(config) ==>
        !promptVisible &&
        pending == [TimerTask(old(nextId), TimeoutDelay(config.timeoutPromptSpan))] &&
        current == Some(old(nextId)) && nextId == old(nextId) + 1
      ensures !TimeoutPromptEnabled(config) ==>
        pending == old(pending) && current == old(current) && nextId == old(nextId) &&
        promptVisible == old(promptVisible)
      ensures View() == old(View())
      ensures finished == old(finished) && result == old(result)
    {
      if !TimeoutPromptEnabled(config) {
        return;
      }
      if current.Some? {
        pending := RemoveCallbacks(pending, current.value);
      }
      assert pending == [];
      promptVisible := false;
      StartDetectionTimer();
    }

    /**
     * The main-thread Handler runs the earliest pending runnable once its delay
     * has passed: the prompt becomes visible. Nothing happens when none is pending.
     */
    method RunTimeoutPrompt()
      requires Valid()
      modifies this
      ensures Valid()
      ensures old(pending) != [] ==> pending == old(pending)[1..] && promptVisible
      ensures old(pending) == [] ==> pending == old(pending) && promptVisible == old(promptVisible)
      ensures current == old(current) && nextId == old(nextId)
      ensures View() == old(View())
      ensures finished == old(finished) && result == old(result)
    {
      if pending != [] {
        pending := pending[1..];
        promptVisible := true;
      }
    }

    /**
     * The loop of `onDetectionTaskSuccess`: for each barcode the slot takes it,
     * or is cleared when it has no text; outside one-shot mode a barcode with
     * text also sets the button label and the detected border. Returns the
     * loop's `detected` counter.
     */
    method VisitBarcodes(barcodes: seq<Barcode>) returns (detected: nat)
      modifies this`detectedBarcode, this`buttonText, this`buttonVisible, this`borderDetected
      ensures View() == VisitAll(old(View()), barcodes, config.oneShot)
      ensures detected == CountDetected(barcodes)
    {
      detected := 0;
      for i := 0 to |barcodes|
        invariant View() == VisitAll(old(View()), barcodes[..i], config.oneShot)
        invariant detected == CountDetected(barcodes[..i])
      {
        var barcode := barcodes[i];
        assert barcodes[..i + 1] == barcodes[..i] + [barcode];
        CountDetectedAppend(barcodes[..i], barcode);
        detectedBarcode := Some(barcode);
        if barcode.displayValue.None? {
          detectedBarcode := None;
          continue;
        }
        detected := detected + 1;
        if !config.oneShot {
          borderDetected := true;
          buttonText := ButtonLabel(barcode.displayValue.value);
          buttonVisible := true;
        }
      }
      assert barcodes[..|barcodes|] == barcodes;
    }

    /**
     * `onDetectionTaskSuccess`: visit every detected barcode, then clear the
     * display when none had text, or else finish (in one-shot mode) and
     * restart the timeout timer.
     */
    method OnDetectionTaskSuccess(barcodes: seq<Barcode>)
      requires Valid()
      modifies this
      ensures Valid()
      ensures View() == Pass(old(View()), barcodes, config.oneShot)
      ensures finished <==> old(finished) || (config.oneShot && CountDetected(barcodes) > 0)
      ensures result ==
        if config.oneShot && CountDetected(barcodes) > 0
        then Some(ActivityResult(RESULT_OK, ResultExtras(detectedBarcode)))
        else old(result)
      ensures CountDetected(barcodes) > 0 && TimeoutPromptEnabled(config) ==>
        !promptVisible &&
        pending == [TimerTask(old(nextId), TimeoutDelay(config.timeoutPromptSpan))] &&
        current == Some(old(nextId)) && nextId == old(nextId) + 1
      ensures CountDetected(barcodes) == 0 || !TimeoutPromptEnabled(config) ==>
        pending == old(pending) && current == old(current) && nextId == old(nextId) &&
        promptVisible == old(promptVisible)
    {
      PassSlotHasText(View(), barcodes, config.oneShot);
      var detected := VisitBarcodes(barcodes);
      if detected == 0 {
        detectedBarcode := None;
        buttonText := [];
        buttonVisible := false;
        borderDetected := false;
      } else {
        if config.oneShot {
          result := Some(ActivityResult(RESULT_OK, ResultExtras(detectedBarcode)));
          finished := true;
        }
        RestartDetectionTimer();
      }
    }

    /**
     * The click on the detected-text button: nothing when the slot is empty;
     * otherwise finish with RESULT_OK and the slot's text and format tag.
     */
    method OnDetectedTextClick()
      requires Valid()
      modifies this
      ensures Valid()
      ensures old(detectedBarcode).None? ==>
        finished == old(finished) && result == old(result)
      ensures old(detectedBarcode).Some? ==>
        finished &&
        result == Some(ActivityResult(RESULT_OK, map[
          INTENT_DETECTED_TEXT := old(detectedBarcode).value.displayValue,
          INTENT_DETECTED_FORMAT := Some(FormatTag(old(detectedBarcode).value.format))]))
      ensures View() == old(View()) && promptVisible == old(promptVisible)
      ensures pending == old(pending) && current == old(current) && nextId == old(nextId)
    {
      if detectedBarcode.None? {
        return;
      }
      result := Some(ActivityResult(RESULT_OK, ResultExtras(detectedBarcode)));
      finished := true;
    }
  }

  /**
   * A caller's view of the contracts: in one-shot mode the first pass that
   * reads "ABC123" from a QR code finishes with that text and "QR_CODE"; with
   * one-shot mode off, the same pass only shows the button, a pass that finds
   * nothing hides it again, and a click on the empty slot finishes nothing.
   */
  method Scenarios()
  {
    var qr := Barcode(Some(Utf16("ABC123")), FORMAT_QR_CODE);
    var oneShot := new BarcodeScannerActivity(LaunchExtras(Some(true), None, None, None, None), true);
    oneShot.OnDetectionTaskSuccess([qr]);
    assert oneShot.finished;
    assert oneShot.result == Some(ActivityResult(RESULT_OK,
      map[INTENT_DETECTED_TEXT := Some(Utf16("ABC123")), INTENT_DETECTED_FORMAT := Some(Utf16("QR_CODE"))]));

    var continuous := new BarcodeScannerActivity(LaunchExtras(None, None, None, None, None), true);
    continuous.OnDetectionTaskSuccess([qr]);
    assert !continuous.finished && continuous.buttonVisible && continuous.buttonText == Utf16("ABC123");
    continuous.OnDetectionTaskSuccess([]);
    assert !continuous.buttonVisible && continuous.detectedBarcode == None;
    continuous.OnDetectedTextClick();
    assert !continuous.finished && continuous.result == None;
  }
}
