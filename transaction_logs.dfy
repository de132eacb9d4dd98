/**
 * The event-log panel of a transaction. Each log's data word is shown
 * either as the raw hex text or, in decimal mode, as the base-10 rendering
 * of the number the hex digits denote.
 */
module TransactionLogs {
  import opened Text
  import opened Decimal

  datatype DisplayMode = HexMode | DecMode

  /** `formatValue`: raw in hex mode; in decimal mode an optional `0x` is
      stripped, an empty word renders empty, hex digits render in base 10,
      and anything that is not hex is shown as it was. */
  function FormatValue(value: string, mode: DisplayMode): string {
    if mode == HexMode then value
    else if value == [] then ""
    else
      var hex := HexPart(value);
      if hex == [] then ""
      else if AllHex(hex) then NatToString(HexValue(hex))
      else value
  }

  /** The digits after an optional `0x` prefix. */
  function HexPart(value: string): string {
    if StartsWith(value, "0x") then value[2..] else value
  }

  /** Decimal mode renders a hex word as canonical base-10 digits that read
      back as the word's value; an empty word or a bare `0x` renders empty;
      a word that is not hex comes back unchanged. Hex mode changes nothing. */
  lemma FormatValueMeaning(value: string)
    ensures FormatValue(value, HexMode) == value
    ensures HexPart(value) == [] ==> FormatValue(value, DecMode) == []
    ensures HexPart(value) != [] && !AllHex(HexPart(value)) ==> FormatValue(value, DecMode) == value
    ensures HexPart(value) != [] && AllHex(HexPart(value)) ==>
      var r := FormatValue(value, DecMode);
      r != [] && AllDigits(r) && DecimalValue(r) == HexValue(HexPart(value)) &&
      (r[0] == '0' ==> r == "0")
  {
    if HexPart(value) != [] && AllHex(HexPart(value)) {
      DecimalRoundTrip(HexValue(HexPart(value)));
    }
  }

  /** The `0x` prefix makes no difference: `ff` and `0xff` render alike. */
  lemma PrefixInsensitive(hex: string)
    requires hex != [] && AllHex(hex)
    ensures FormatValue("0x" + hex, DecMode) == FormatValue(hex, DecMode)
  {
    assert ("0x" + hex)[2..] == hex;
    assert !StartsWith(hex, "0x") by {
      assert !IsHexDigit('x');
      if |hex| >= 2 { assert hex[1] != 'x'; }
    }
  }

  /** Distinct hex values never render to the same decimal text. */
  lemma DistinctValuesDistinctText(a: string, b: string)
    requires a != [] && AllHex(a) && b != [] && AllHex(b)
    requires FormatValue(a, DecMode) == FormatValue(b, DecMode)
    ensures HexValue(HexPart(a)) == HexValue(HexPart(b))
  {
    FormatValueMeaning(a);
    FormatValueMeaning(b);
  }
}
