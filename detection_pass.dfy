/**
 * The rule `onDetectionTaskSuccess` applies to one list of detected barcodes,
 * stated on values: one step per barcode (the loop body), the fold of the steps
 * over the list, the count of barcodes that carry text, and the finishing
 * step after the loop. Also the result extras `getResultIntent` builds.
 */
module DetectionPass {
  import opened Wrappers
  import opened BarcodeFormat
  import opened JavaStrings

  /** A detected barcode as the activity sees it: its display value (null-able) and format. */
  datatype Barcode = Barcode(displayValue: Option<JavaString>, format: int)

  /** The displayed state one pass changes: the detected-barcode slot, the button and the border. */
  datatype Display = Display(
    slot: Option<Barcode>,     // detectedBarcode
    buttonText: JavaString,    // detectedTextButton text
    buttonVisible: bool,       // detectedTextButton visibility
    borderDetected: bool)      // detection-area stroke: detected colour (true) or default (false)

  const DETECTED_TEXT_MAX_LENGTH: nat := 40
  const INTENT_DETECTED_TEXT: string := "detectedText"
  const INTENT_DETECTED_FORMAT: string := "detectedFormat"

  /** What a pass that detects nothing leaves on screen. */
  const Cleared: Display := Display(None, [], false, false)

  /**
   * The button label: the first 40 UTF-16 code units of the detected text
   * (`substring(0, Math.min(40, length()))`).
   */
  function ButtonLabel(text: JavaString): (caption: JavaString)
    ensures |caption| == if |text| < DETECTED_TEXT_MAX_LENGTH then |text| else DETECTED_TEXT_MAX_LENGTH
    ensures caption <= text
  {
    text[..if |text| < DETECTED_TEXT_MAX_LENGTH then |text| else DETECTED_TEXT_MAX_LENGTH]
  }

  predicate HasText(b: Barcode) {
    b.displayValue.Some?
  }

  /** One iteration of the loop: the slot takes the barcode, or is cleared when it has no text. */
  function Visit(d: Display, b: Barcode, oneShot: bool): Display {
    match b.displayValue
    case None => d.(slot := None)
    case Some(text) =>
      if oneShot then d.(slot := Some(b))
      else Display(Some(b), ButtonLabel(text), true, true)
  }

  /** The loop run over `bs` from the first barcode to the last. */
  function VisitAll(d: Display, bs: seq<Barcode>, oneShot: bool): Display
    decreases |bs|
  {
    if bs == [] then d
    else Visit(VisitAll(d, bs[..|bs| - 1], oneShot), bs[|bs| - 1], oneShot)
  }

  /** The loop's `detected` counter: how many barcodes carry text. */
  function CountDetected(bs: seq<Barcode>): (n: nat)
    ensures n <= |bs|
  {
    if bs == [] then 0
    else (if HasText(bs[0]) then 1 else 0) + CountDetected(bs[1..])
  }

  /** The whole display effect of a pass: the loop, then the reset when nothing was detected. */
  function Pass(d: Display, bs: seq<Barcode>, oneShot: bool): Display {
    if CountDetected(bs) == 0 then Cleared else VisitAll(d, bs, oneShot)
  }

  /** The format tag of `format` as the Java string put in the result. */
  function FormatTag(format: int): JavaString {
    Utf16(FormatString(format))
  }

  /**
   * `getResultIntent`: the extras of the result. With an empty slot the first
   * dereference throws, the exception is swallowed and no extra is set.
   */
  function ResultExtras(slot: Option<Barcode>): (extras: map<string, Option<JavaString>>)
    ensures slot.None? <==> extras == map[]
    ensures slot.Some? ==>
      extras.Keys == {INTENT_DETECTED_TEXT, INTENT_DETECTED_FORMAT} &&
      extras[INTENT_DETECTED_TEXT] == slot.value.displayValue &&
      extras[INTENT_DETECTED_FORMAT] == Some(FormatTag(slot.value.format))
  {
    match slot
    case None => map[]
    case Some(b) =>
      var extras := map[INTENT_DETECTED_TEXT := b.displayValue, INTENT_DETECTED_FORMAT := Some(FormatTag(b.format))];
      assert INTENT_DETECTED_TEXT in extras;
      extras
  }

  // ---------------------------------------------------------------------------
  // Counting

  /** Appending one barcode adds one to the count exactly when it has text. */
  lemma {:induction false} CountDetectedAppend(bs: seq<Barcode>, b: Barcode)
    ensures CountDetected(bs + [b]) == CountDetected(bs) + (if HasText(b) then 1 else 0)
  {
    if bs != [] {
      assert (bs + [b])[1..] == bs[1..] + [b];
      CountDetectedAppend(bs[1..], b);
    }
  }

  /** The count is zero exactly when no barcode carries text. */
  lemma {:induction false} CountDetectedZero(bs: seq<Barcode>)
    ensures CountDetected(bs) == 0 <==> forall k :: 0 <= k < |bs| ==> !HasText(bs[k])
  {
    if bs != [] {
      CountDetectedZero(bs[1..]);
      assert forall k :: 1 <= k < |bs| ==> bs[k] == bs[1..][k - 1];
    }
  }

  // ---------------------------------------------------------------------------
  // What the loop leaves behind

  /** After the loop the slot holds the last barcode when it has text, and is empty otherwise. */
  lemma VisitAllSlot(d: Display, bs: seq<Barcode>, oneShot: bool)
    requires bs != []
    ensures VisitAll(d, bs, oneShot).slot ==
      if HasText(bs[|bs| - 1]) then Some(bs[|bs| - 1]) else None
  {
  }

  /** `k` is the last position of `bs` whose barcode has text. */
  predicate LastWithText(bs: seq<Barcode>, k: int) {
    0 <= k < |bs| && HasText(bs[k]) &&
    forall j :: k < j < |bs| ==> !HasText(bs[j])
  }

  /**
   * Outside one-shot mode the loop leaves the button showing the label of the
   * last barcode that has text, and the border in the detected colour.
   */
  lemma {:induction false} VisitAllShowsLastText(d: Display, bs: seq<Barcode>, k: int)
    requires LastWithText(bs, k)
    ensures var v := VisitAll(d, bs, false);
      v.buttonVisible && v.borderDetected &&
      v.buttonText == ButtonLabel(bs[k].displayValue.value)
  {
    var n := |bs| - 1;
    if k < n {
      VisitAllShowsLastText(d, bs[..n], k);
    }
  }

  /** In one-shot mode the loop never touches the button or the border. */
  lemma {:induction false} VisitAllOneShotKeepsButton(d: Display, bs: seq<Barcode>)
    ensures var v := VisitAll(d, bs, true);
      v.buttonText == d.buttonText && v.buttonVisible == d.buttonVisible &&
      v.borderDetected == d.borderDetected
  {
    if bs != [] {
      VisitAllOneShotKeepsButton(d, bs[..|bs| - 1]);
    }
  }

  // ---------------------------------------------------------------------------
  // The properties of a whole pass

  /**
   * The slot after a pass holds the last barcode of the list if that barcode
   * has text; otherwise, the empty list included, it is empty — even when an
   * earlier barcode was counted as detected.
   */
  lemma PassSlot(d: Display, bs: seq<Barcode>, oneShot: bool)
    ensures Pass(d, bs, oneShot).slot ==
      if bs != [] && HasText(bs[|bs| - 1]) then Some(bs[|bs| - 1]) else None
  {
    CountDetectedZero(bs);
    if bs != [] && CountDetected(bs) != 0 {
      VisitAllSlot(d, bs, oneShot);
    }
  }

  /** The slot a pass leaves never holds a barcode without text. */
  lemma PassSlotHasText(d: Display, bs: seq<Barcode>, oneShot: bool)
    ensures Pass(d, bs, oneShot).slot.Some? ==> HasText(Pass(d, bs, oneShot).slot.value)
  {
    PassSlot(d, bs, oneShot);
  }

  /** A pass in which no barcode has text clears the slot, the button and the border. */
  lemma PassNothingDetected(d: Display, bs: seq<Barcode>, oneShot: bool)
    requires forall k :: 0 <= k < |bs| ==> !HasText(bs[k])
    ensures Pass(d, bs, oneShot) == Cleared
  {
    CountDetectedZero(bs);
  }

  /**
   * Outside one-shot mode, a pass in which some barcode has text shows the
   * button, labelled with a prefix of at most 40 characters of the last such
   * barcode's text, and the detected border.
   */
  lemma PassShowsLastText(d: Display, bs: seq<Barcode>, k: int)
    requires LastWithText(bs, k)
    ensures var v := Pass(d, bs, false);
      v.buttonVisible && v.borderDetected &&
      v.buttonText <= bs[k].displayValue.value &&
      |v.buttonText| ==
        if |bs[k].displayValue.value| < DETECTED_TEXT_MAX_LENGTH then |bs[k].displayValue.value|
        else DETECTED_TEXT_MAX_LENGTH
  {
    CountDetectedZero(bs);
    VisitAllShowsLastText(d, bs, k);
  }

  /** In one-shot mode a pass that detects something leaves the button and border as they were. */
  lemma PassOneShotKeepsButton(d: Display, bs: seq<Barcode>)
    requires CountDetected(bs) > 0
    ensures var v := Pass(d, bs, true);
      v.buttonText == d.buttonText && v.buttonVisible == d.buttonVisible &&
      v.borderDetected == d.borderDetected
  {
    VisitAllOneShotKeepsButton(d, bs);
  }

  /**
   * The quirk of the loop: a barcode with text followed by one without is
   * counted as a detection, yet the slot ends empty, so a one-shot pass
   * finishes with a result that carries no extras.
   */
  lemma PassDetectedButSlotEmpty(d: Display, text: JavaString, format: int, oneShot: bool)
    ensures var bs := [Barcode(Some(text), format), Barcode(None, format)];
      CountDetected(bs) == 1 &&
      Pass(d, bs, oneShot).slot == None &&
      ResultExtras(Pass(d, bs, oneShot).slot) == map[]
  {
    var bs := [Barcode(Some(text), format), Barcode(None, format)];
    assert bs[1..][1..] == [];
    PassSlot(d, bs, oneShot);
  }

  // ---------------------------------------------------------------------------
  // The result

  /**
   * When the last barcode of a pass has text, the result built from the slot
   * after the pass carries that barcode's text and format tag; for a single
   * QR code reading "ABC123" that is ("ABC123", "QR_CODE").
   */
  lemma PassResultCarriesLastBarcode(d: Display, bs: seq<Barcode>, oneShot: bool)
    requires bs != [] && HasText(bs[|bs| - 1])
    ensures ResultExtras(Pass(d, bs, oneShot).slot) == map[
      INTENT_DETECTED_TEXT := bs[|bs| - 1].displayValue,
      INTENT_DETECTED_FORMAT := Some(FormatTag(bs[|bs| - 1].format))]
  {
    PassSlot(d, bs, oneShot);
  }

  /** A one-barcode pass over a QR code reading "ABC123" yields ("ABC123", "QR_CODE"). */
  lemma SingleQrCodeResult(d: Display)
    ensures ResultExtras(Pass(d, [Barcode(Some(Utf16("ABC123")), FORMAT_QR_CODE)], true).slot) ==
      map[INTENT_DETECTED_TEXT := Some(Utf16("ABC123")), INTENT_DETECTED_FORMAT := Some(Utf16("QR_CODE"))]
  {
    PassResultCarriesLastBarcode(d, [Barcode(Some(Utf16("ABC123")), FORMAT_QR_CODE)], true);
  }

  /**
   * A result built from a slot with text carries that text, and a format tag
   * that reads back as the barcode's format when the format is a known one.
   */
  lemma ResultCarriesSlot(b: Barcode)
    requires HasText(b)
    ensures var extras := ResultExtras(Some(b));
      extras[INTENT_DETECTED_TEXT] == b.displayValue &&
      forall tag :: InBmp(tag) && extras[INTENT_DETECTED_FORMAT] == Some(Utf16(tag)) ==>
        (b.format in KnownFormats ==> FormatCode(tag) == Some(b.format)) &&
        (b.format !in KnownFormats ==> tag == UnknownTag)
  {
    forall tag | InBmp(tag) && ResultExtras(Some(b))[INTENT_DETECTED_FORMAT] == Some(Utf16(tag))
      ensures tag == FormatString(b.format)
    {
      Utf16Injective(tag, FormatString(b.format));
    }
    if b.format in KnownFormats {
      FormatStringRoundTrip(b.format);
    }
  }

  /**
   * The label is cut in UTF-16 code units, as Java's `substring` cuts it: a
   * character outside the Basic Multilingual Plane counts twice, and the cut
   * can separate the two halves of a surrogate pair. Forty-one U+1F600 give a
   * label of twenty of them; 39 letters and one U+1F600 give a label that ends
   * with a lone high surrogate.
   */
  lemma ButtonLabelCountsCodeUnits()
    ensures var emoji: JavaString := [0xD83D, 0xDE00];
      var many := seq(82, i => emoji[i % 2]);
      ButtonLabel(many) == seq(40, i => emoji[i % 2]) &&
      ButtonLabel(seq(39, _ => 0x41 as CodeUnit) + emoji) == seq(39, _ => 0x41 as CodeUnit) + [0xD83D]
  {
  }
}
