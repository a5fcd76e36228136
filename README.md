# Barcode scanner activity: the controller, verified

`BarcodeScannerActivity` (Monaca barcode scanner plugin, Android) opens the
camera, lets ML Kit look for barcodes, shows the text of the last one found on
a button, and returns the text and a format tag to the caller, either when the
user taps the button or, in one-shot mode, as soon as something is detected.
A "Barcode not detected" prompt appears if nothing is detected for a
configurable time.

This project models the controller inside that activity, with views, the
main-thread `Handler` and ML Kit objects replaced by plain state:

- `BarcodeFormat` — `getBarcodeFormatString`, the switch from ML Kit's format
  constants to the 13 tags or `"UNKNOWN"`, with its reverse lookup.
- `LaunchParams` — the launch extras read in `onCreate` and their defaults, the
  "timeout prompt enabled" predicate and the delay
  `Math.max(timeoutPromptSpan * 1000, 400)`, with the product computed in
  Java's 32-bit `int`.
- `DetectionPass` — the rule `onDetectionTaskSuccess` applies to a list of
  detected barcodes, stated on values: one step per barcode, the fold of the
  steps, the `detected` counter, the reset when nothing had text, and the
  extras `getResultIntent` builds. The lemmas state what a pass leaves behind.
- `ScannerActivity` — class `BarcodeScannerActivity` with the abstract state
  (the `detectedBarcode` slot, button text and visibility, border colour as a
  boolean, prompt visibility, the pending timeout-prompt posts, the
  "finished" flag and the result) and one method per callback. `Valid()` is
  the invariant every callback keeps: the slot never holds a barcode without
  text, at most one timeout-prompt post is pending and it belongs to the
  current runnable, a disabled prompt never has a timer, and a result is set
  exactly when the activity has finished, always with `RESULT_OK`.

Behaviour pinned down as the code has it:

- The last barcode of a pass decides the slot. When the last barcode has no
  display value, the slot ends empty even if an earlier barcode was counted
  as detected; in one-shot mode such a pass still finishes, with a result that
  carries no extras, because `getResultIntent` swallows the exception
  raised by dereferencing the empty slot (`DetectionPass.PassDetectedButSlotEmpty`).
- In the activity as written, the analyzer's success listener calls
  `onBarcodeDetected`, which only logs; `onDetectionTaskSuccess` is not called
  from anywhere. The model keeps it as the activity's detection-handling rule
  (`OnDetectionTaskSuccess`), to be driven by whatever delivers a detection
  result.
- `timeoutPromptSpan * 1000` overflows Java's `int` above 2147483 seconds.
  For spans from 2147484 to 4294967 seconds the product wraps to a negative
  number and the delay falls back to 400 ms (`LaunchParams.TimeoutDelayOverflow`).
  Larger spans wrap to positive values again: 4294968 seconds gives a delay of
  704 ms (`LaunchParams.TimeoutDelayWrapsPositive`).
- Display values are Java strings, modelled as sequences of UTF-16 code units
  (`JavaStrings`): the 40-character cut of the button label counts code units,
  so a character outside the Basic Multilingual Plane counts twice and the cut
  can split a surrogate pair (`DetectionPass.ButtonLabelCountsCodeUnits`).
- Nothing stops a pass from running after the activity has finished; a later
  one-shot pass sets the result again.

ML Kit's format constants (`FORMAT_CODE_128 = 1`, …, `FORMAT_AZTEC = 4096`)
come from ML Kit's `Barcode` class, which is not part of this model.

## Model

| member | source | states |
|---|---|---|
| BarcodeFormat.FormatString | src/android/BarcodeScannerActivity.java:191-239 | the tag is one of the 14 tags and never empty; it is "UNKNOWN" exactly when the code is not one of the 13 known constants |
| BarcodeFormat.FormatCode | src/android/BarcodeScannerActivity.java:191-239 | reverse lookup: a tag other than "UNKNOWN" yields a known constant, "UNKNOWN" and non-tags yield none |
| BarcodeFormat.FormatStringRoundTrip | src/android/BarcodeScannerActivity.java:191-239 | each known constant's tag reads back as that constant |
| BarcodeFormat.FormatCodeRoundTrip | src/android/BarcodeScannerActivity.java:191-239 | a tag that reads back as a constant is that constant's tag |
| BarcodeFormat.FormatStringInjective | src/android/BarcodeScannerActivity.java:191-239 | distinct known constants get distinct tags |
| BarcodeFormat.FormatStringOnto | src/android/BarcodeScannerActivity.java:191-239 | every tag of the enumeration, "UNKNOWN" included, is produced by some code |
| LaunchParams.WrapInt32 | src/android/BarcodeScannerActivity.java:407 | Java `int` arithmetic: the result is congruent to the exact value modulo 2^32 and equal to it when it fits |
| LaunchParams.ConfigFrom | src/android/BarcodeScannerActivity.java:113-121 | each absent extra takes its default (false, false, -1, "Barcode not detected", 0); the prompt is the supplied one when non-null and non-empty, the default otherwise, and never empty |
| LaunchParams.AbsentTimeoutDisablesPrompt | src/android/BarcodeScannerActivity.java:115-116 | without a timeout extra, or without the show flag, the timeout prompt is disabled |
| LaunchParams.TimeoutPromptEnabled | src/android/BarcodeScannerActivity.java:397-399 | `isEnableTimeoutPrompt`: true exactly when the show flag is set and the span is at least 0; its consequences over the raw extras are the two lemmas below |
| LaunchParams.TimeoutPromptEnabledIff | src/android/BarcodeScannerActivity.java:397-399 | the prompt is enabled exactly when the show flag is true and the span is at least 0 |
| LaunchParams.TimeoutDelay | src/android/BarcodeScannerActivity.java:407 | the delay is at least 400 ms and is the larger of 400 and the int product span*1000 |
| LaunchParams.TimeoutDelayExact | src/android/BarcodeScannerActivity.java:407 | for spans up to 2147483 s the delay is max(span*1000, 400) exactly |
| LaunchParams.TimeoutDelayOverflow | src/android/BarcodeScannerActivity.java:407 | every span from 2147484 to 4294967 s overflows to a negative product and gives a 400 ms delay |
| LaunchParams.TimeoutDelayWrapsPositive | src/android/BarcodeScannerActivity.java:407 | a span of 4294968 s wraps around to a positive product and gives a 704 ms delay |
| DetectionPass.ButtonLabel | src/android/BarcodeScannerActivity.java:313-314 | the button text is a prefix of the detected text of length min(40, length), both counted in UTF-16 code units |
| DetectionPass.ButtonLabelCountsCodeUnits | src/android/BarcodeScannerActivity.java:313-314 | 41 copies of U+1F600 give a label of 20 of them; 39 letters and one U+1F600 give a label ending in a lone high surrogate |
| DetectionPass.Visit | src/android/BarcodeScannerActivity.java:300-316 | one loop iteration: the slot takes the barcode, or is cleared when it has no text; outside one-shot mode a barcode with text also sets the label, shows the button and the detected border (properties in the VisitAll lemmas) |
| DetectionPass.VisitAll | src/android/BarcodeScannerActivity.java:299-317 | the loop as the fold of Visit from the first barcode to the last; what it leaves behind is stated by VisitAllSlot, VisitAllShowsLastText and VisitAllOneShotKeepsButton |
| DetectionPass.Pass | src/android/BarcodeScannerActivity.java:297-326 | the display effect of a whole pass: the loop, then the reset when the counter is 0; stated by the Pass lemmas below |
| DetectionPass.CountDetected | src/android/BarcodeScannerActivity.java:298-306 | the detected counter never exceeds the number of barcodes |
| DetectionPass.CountDetectedAppend | src/android/BarcodeScannerActivity.java:299-306 | visiting one more barcode adds one to the counter exactly when it has a display value |
| DetectionPass.CountDetectedZero | src/android/BarcodeScannerActivity.java:318 | the counter is 0 exactly when no barcode has a display value |
| DetectionPass.VisitAllSlot | src/android/BarcodeScannerActivity.java:299-305 | after the loop over a non-empty list the slot holds the last barcode if it has text, else nothing |
| DetectionPass.VisitAllShowsLastText | src/android/BarcodeScannerActivity.java:309-316 | outside one-shot mode the loop leaves the button visible, the border detected, and the label of the last barcode with text |
| DetectionPass.VisitAllOneShotKeepsButton | src/android/BarcodeScannerActivity.java:309 | in one-shot mode the loop never changes the button text, its visibility or the border |
| DetectionPass.PassSlot | src/android/BarcodeScannerActivity.java:299-320 | after a pass the slot holds the last barcode if it has text; otherwise, the empty list included, it is empty |
| DetectionPass.PassSlotHasText | src/android/BarcodeScannerActivity.java:300-305 | a pass never leaves a barcode without text in the slot |
| DetectionPass.PassNothingDetected | src/android/BarcodeScannerActivity.java:318-326 | a pass in which no barcode has text clears the slot, sets the button text to "", hides the button and restores the default border |
| DetectionPass.PassShowsLastText | src/android/BarcodeScannerActivity.java:309-316 | outside one-shot mode a pass with some text shows the button with a prefix of min(40, length) UTF-16 code units of the last text, and the detected border |
| DetectionPass.PassOneShotKeepsButton | src/android/BarcodeScannerActivity.java:309-331 | in one-shot mode a pass that detects something leaves button and border as they were |
| DetectionPass.PassDetectedButSlotEmpty | src/android/BarcodeScannerActivity.java:299-331 | a barcode with text followed by one without counts as a detection, yet the slot ends empty and the result has no extras |
| DetectionPass.ResultExtras | src/android/BarcodeScannerActivity.java:175-184 | an empty slot gives a result with no extras; a filled slot gives exactly the text and format-tag extras |
| DetectionPass.PassResultCarriesLastBarcode | src/android/BarcodeScannerActivity.java:175-184 | when the last barcode of a pass has text, the result carries its text and format tag |
| DetectionPass.SingleQrCodeResult | src/android/BarcodeScannerActivity.java:297-335 | a pass over one QR code reading "ABC123" yields text "ABC123" and format "QR_CODE" |
| DetectionPass.ResultCarriesSlot | src/android/BarcodeScannerActivity.java:175-184 | the result of a slot with text carries that text and a tag that reads back as the barcode's known format, or "UNKNOWN" |
| ScannerActivity.RemoveCallbacks | src/android/BarcodeScannerActivity.java:414-416 | removing a runnable's posts keeps exactly the other posts |
| ScannerActivity.BarcodeScannerActivity.constructor | src/android/BarcodeScannerActivity.java:102-169 | reads the configuration, shows the configured prompt text, shows the debug preview exactly when the mode is non-zero, hides button and prompt, and starts the timer only when the camera is permitted and the prompt is enabled |
| ScannerActivity.BarcodeScannerActivity.StartDetectionTimer | src/android/BarcodeScannerActivity.java:401-408 | when disabled nothing changes; when enabled exactly one fresh post with delay TimeoutDelay(span) is pending |
| ScannerActivity.BarcodeScannerActivity.RestartDetectionTimer | src/android/BarcodeScannerActivity.java:410-419 | when disabled nothing changes; when enabled the old post is cancelled, the prompt hidden, and exactly one fresh post is pending |
| ScannerActivity.BarcodeScannerActivity.RunTimeoutPrompt | src/android/BarcodeScannerActivity.java:406 | running the pending post shows the prompt and leaves nothing pending; with nothing pending nothing happens |
| ScannerActivity.BarcodeScannerActivity.VisitBarcodes | src/android/BarcodeScannerActivity.java:298-317 | the loop's effect on the display is the fold of the per-barcode steps and it returns the number of barcodes with text |
| ScannerActivity.BarcodeScannerActivity.OnDetectionTaskSuccess | src/android/BarcodeScannerActivity.java:297-335 | the display becomes the pass's display; the activity finishes, with the result built from the new slot, exactly in one-shot mode with a detection; the timer restarts exactly when something was detected |
| ScannerActivity.BarcodeScannerActivity.OnDetectedTextClick | src/android/BarcodeScannerActivity.java:146-156 | with an empty slot nothing changes; otherwise the activity finishes with RESULT_OK, the slot's text and its format tag |

## Left out

- Camera setup (`initCamera`, `bindToLifecycle`, the `ProcessCameraProvider` future): CameraX calls and executor asynchrony. The constructor takes a `cameraPermitted` flag and, when it is true, starts the timeout timer, which is what `initCamera` does beside the camera binding.
- `ScannerAnalyzer.analyze` and `onBarcodeDetected`: frame copying, `InputImage`, the ML Kit detector and its listeners are foreign code; a detection result enters the model as the list passed to `OnDetectionTaskSuccess`.
- The permission check itself and all logging: platform I/O, reduced to the `cameraPermitted` parameter.
- Resource-ID lookup, layout inflation, colours, tints and corner radii: the border is a boolean "detected / default"; the button's initial text from the layout is taken to be "".
- Wall-clock behaviour of `Handler.postDelayed`: the model keeps the pending posts and their delays; `RunTimeoutPrompt` stands for the moment the Handler runs a post.
- `Handler` and `Runnable` identities: a fresh number stands for each new runnable (with its Handler), and all Handlers share the main thread's queue.
- Activity teardown after `finish()`: the model records the finished flag and the last result set; it does not stop later callbacks.
