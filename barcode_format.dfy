/**
 * The mapping from ML Kit's integer barcode-format constants to the tag strings
 * the plugin hands back to its caller (`getBarcodeFormatString`).
 */
module BarcodeFormat {
  import opened Wrappers
  import opened JavaStrings

  // The format constants of ML Kit's `Barcode` class (bit flags).
  const FORMAT_CODE_128: int := 1
  const FORMAT_CODE_39: int := 2
  const FORMAT_CODE_93: int := 4
  const FORMAT_CODABAR: int := 8
  const FORMAT_DATA_MATRIX: int := 16
  const FORMAT_EAN_13: int := 32
  const FORMAT_EAN_8: int := 64
  const FORMAT_ITF: int := 128
  const FORMAT_QR_CODE: int := 256
  const FORMAT_UPC_A: int := 512
  const FORMAT_UPC_E: int := 1024
  const FORMAT_PDF417: int := 2048
  const FORMAT_AZTEC: int := 4096

  /** The thirteen constants the switch names explicitly. */
  const KnownFormats: set<int> := {
    FORMAT_QR_CODE, FORMAT_EAN_8, FORMAT_EAN_13, FORMAT_ITF, FORMAT_CODE_128,
    FORMAT_CODE_39, FORMAT_CODE_93, FORMAT_CODABAR, FORMAT_UPC_A, FORMAT_UPC_E,
    FORMAT_PDF417, FORMAT_AZTEC, FORMAT_DATA_MATRIX
  }

  const UnknownTag: string := "UNKNOWN"

  /** Every tag the plugin can report, the fallback included. */
  const FormatTags: set<string> := {
    "QR_CODE", "EAN_8", "EAN_13", "ITF", "CODE_128", "CODE_39", "CODE_93",
    "CODABAR", "UPC_A", "UPC_E", "PDF417", "AZTEC", "DATA_MATRIX", UnknownTag
  }

  /**
   * `getBarcodeFormatString`: the tag of a format constant. Total: every code
   * outside the thirteen known constants is reported as "UNKNOWN".
   */
  function FormatString(format: int): (tag: string)
    ensures tag in FormatTags && tag != "" && InBmp(tag)
    ensures tag == UnknownTag <==> format !in KnownFormats
  {
    if format == FORMAT_QR_CODE then "QR_CODE"
    else if format == FORMAT_EAN_8 then "EAN_8"
    else if format == FORMAT_EAN_13 then "EAN_13"
    else if format == FORMAT_ITF then "ITF"
    else if format == FORMAT_CODE_128 then "CODE_128"
    else if format == FORMAT_CODE_39 then "CODE_39"
    else if format == FORMAT_CODE_93 then "CODE_93"
    else if format == FORMAT_CODABAR then "CODABAR"
    else if format == FORMAT_UPC_A then "UPC_A"
    else if format == FORMAT_UPC_E then "UPC_E"
    else if format == FORMAT_PDF417 then "PDF417"
    else if format == FORMAT_AZTEC then "AZTEC"
    else if format == FORMAT_DATA_MATRIX then "DATA_MATRIX"
    else UnknownTag
  }

  /**
   * The reverse lookup a receiver of the result would use: the constant a tag
   * stands for, or None for "UNKNOWN" and for strings that are no tag at all.
   */
  function FormatCode(tag: string): (code: Option<int>)
    ensures code.Some? ==> code.value in KnownFormats
    ensures code.None? <==> tag !in FormatTags - {UnknownTag}
  {
    if tag == "QR_CODE" then Some(FORMAT_QR_CODE)
    else if tag == "EAN_8" then Some(FORMAT_EAN_8)
    else if tag == "EAN_13" then Some(FORMAT_EAN_13)
    else if tag == "ITF" then Some(FORMAT_ITF)
    else if tag == "CODE_128" then Some(FORMAT_CODE_128)
    else if tag == "CODE_39" then Some(FORMAT_CODE_39)
    else if tag == "CODE_93" then Some(FORMAT_CODE_93)
    else if tag == "CODABAR" then Some(FORMAT_CODABAR)
    else if tag == "UPC_A" then Some(FORMAT_UPC_A)
    else if tag == "UPC_E" then Some(FORMAT_UPC_E)
    else if tag == "PDF417" then Some(FORMAT_PDF417)
    else if tag == "AZTEC" then Some(FORMAT_AZTEC)
    else if tag == "DATA_MATRIX" then Some(FORMAT_DATA_MATRIX)
    else None
  }

  /** A known constant's tag reads back as that constant. */
  lemma FormatStringRoundTrip(format: int)
    requires format in KnownFormats
    ensures FormatCode(FormatString(format)) == Some(format)
  {
  }

  /** A tag that reads back as a constant is exactly that constant's tag. */
  lemma FormatCodeRoundTrip(tag: string, format: int)
    requires FormatCode(tag) == Some(format)
    ensures FormatString(format) == tag
  {
  }

  /** Distinct known constants get distinct tags. */
  lemma FormatStringInjective(a: int, b: int)
    requires a in KnownFormats && b in KnownFormats
    requires FormatString(a) == FormatString(b)
    ensures a == b
  {
    FormatStringRoundTrip(a);
    FormatStringRoundTrip(b);
  }

  /** Every tag is reported for some code: "UNKNOWN" for 0, the others for a known constant. */
  lemma FormatStringOnto(tag: string)
    requires tag in FormatTags
    ensures exists format :: FormatString(format) == tag
  {
    if tag == UnknownTag {
      assert FormatString(0) == tag;
    } else {
      var code := FormatCode(tag);
      FormatCodeRoundTrip(tag, code.value);
    }
  }
}
