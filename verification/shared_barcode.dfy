/** The barcode arithmetic shared by every barcode kind: reading prefix,
    number and checksum back out of a machine barcode, and composing the
    twelve-digit body and the thirteen-digit EAN barcode from them.

    body    = prefix numeral * 10^9 + number * 100 + checksum letter byte
    machine = body * 10 + EAN check digit of body
 */
module SharedBarcode {
  import opened Errors
  import opened Decimal
  import opened Chars
  import opened Formats
  import Prefixes
  import Checksums
  import Ean13

  datatype Fields = Fields(prefix: Prefixes.Prefix, number: int, checksum: Checksums.Checksum)

  /** A machine barcode whose prefix numeral is below 100 loses its leading
      zero when held as an integer; twelve characters get it back. */
  function RestoreLeadingZero(code: string): (r: string)
    ensures |code| == 12 ==> r == "0" + code
    ensures |code| != 12 ==> r == code
  {
    if |code| == 12 then
      var padded := LeftPad(code, 13, '0');
      assert padded == "0" + code;
      padded
    else code
  }

  /** `parse_barcode`: the text of a machine barcode split into its fields.
      A field already known is kept (`||=`); a code of the wrong shape raises
      InvalidBarcode whatever is already known. */
  function ParseBarcode(code: string, prefix: Option<Prefixes.Prefix>, number: Option<int>,
                        checksum: Option<Checksums.Checksum>): (r: Result<Fields>)
    ensures r.Err? <==> !MachineFormat(RestoreLeadingZero(code))
    ensures r.Err? ==> r.error == InvalidBarcode
    ensures r.Ok? ==> |RestoreLeadingZero(code)| == 13
    ensures r.Ok? && prefix.Some? ==> r.value.prefix == prefix.value
    ensures r.Ok? && number.Some? ==> r.value.number == number.value
    ensures r.Ok? && checksum.Some? ==> r.value.checksum == checksum.value
    ensures r.Ok? && prefix.None? ==>
              var m := Prefixes.Machine(r.value.prefix);
              m.Ok? && 0 <= m.value < Pow10(PrefixLength)
    ensures r.Ok? && number.None? ==> 0 <= r.value.number < Pow10(NumberLength)
    ensures r.Ok? && checksum.None? ==>
              var c := Checksums.Machine(r.value.checksum);
              c.Some? && 0 <= c.value < Pow10(ChecksumLength)
  {
    var padded := RestoreLeadingZero(code);
    match MatchMachine(padded)
    case None => Err(InvalidBarcode)
    case Some(g) =>
      Ok(Fields(
           if prefix.Some? then prefix.value else Prefixes.FromMachine(DigitsValue(g.prefix)),
           if number.Some? then number.value else DigitsValue(g.number),
           if checksum.Some? then checksum.value else Checksums.FromMachine(DigitsValue(g.checksum))))
  }

  /** A twelve-digit code parses exactly as the same code with its leading zero. */
  lemma TwelveDigitsParseAsThirteen(code: string, prefix: Option<Prefixes.Prefix>, number: Option<int>,
                                    checksum: Option<Checksums.Checksum>)
    requires |code| == 12
    ensures ParseBarcode(code, prefix, number, checksum) == ParseBarcode("0" + code, prefix, number, checksum)
  {
  }

  /** `calculate_checksum`: the computed checksum letter, as a one-letter string. */
  function CalculateChecksum(prefix: Prefixes.Prefix, number: int): (r: Result<string>)
    ensures r.Ok? <==> Prefixes.Human(prefix).Ok?
    ensures r.Ok? ==> r.value == [Checksums.Letter(Prefixes.Human(prefix).value, number)]
  {
    var checksum :- Checksums.FromPrefixAndNumber(prefix, number);
    Checksums.Human(checksum)
  }

  /** `sanger_barcode`: ArgumentError for a number whose decimal text is longer
      than seven characters, otherwise the body of prefix, number and checksum. */
  function SangerBody(prefix: Prefixes.Prefix, number: int): (r: Result<int>)
    ensures |IntToS(number)| > NumberLength ==> r == Err(ArgumentError)
    ensures |IntToS(number)| <= NumberLength ==>
              (r.Ok? <==> Prefixes.Machine(prefix).Ok? && Prefixes.Human(prefix).Ok?)
  {
    if |IntToS(number)| > NumberLength then Err(ArgumentError)
    else
      var full :- Prefixes.MachineFull(prefix);
      var letter :- CalculateChecksum(prefix, number);
      Ok(full + number * 100 + Byte(letter[0]))
  }

  /** `calculate_machine_barcode`: the body with its EAN check digit appended.
      Whenever the body is non-negative, the result passes EAN validation. */
  function MachineBarcode(prefix: Prefixes.Prefix, number: int): (r: Result<int>)
    ensures r.Ok? <==> SangerBody(prefix, number).Ok?
    ensures r.Err? ==> r.error == SangerBody(prefix, number).error
    ensures r.Ok? ==> r.value / 10 == SangerBody(prefix, number).value
    ensures r.Ok? && SangerBody(prefix, number).value >= 0 ==> Ean13.Validate(r.value)
  {
    var body :- SangerBody(prefix, number);
    Ean13.ValidateAppended(if body >= 0 then body else 0);
    Ok(body * 10 + Ean13.Calculate(body))
  }

  /** `check_EAN` on the provided machine barcode; with none provided the loop
      compares nil with 0 and raises NoMethodError. */
  function CheckEan(provided: Option<int>): (r: Result<bool>)
    ensures provided.None? ==> r == Err(NoMethodError)
    ensures provided.Some? ==> r.Ok? && (r.value <==> Ean13.CheckDigit(provided.value, 1) == 0)
  {
    match provided
    case None => Err(NoMethodError)
    case Some(code) => Ok(Ean13.Validate(code))
  }

  /** `split_barcode`: zero-padded prefix numeral, number, checksum byte. */
  function SplitBarcode(fields: Fields): (r: Result<(string, int, Option<int>)>)
    ensures r.Ok? <==> Prefixes.Machine(fields.prefix).Ok?
    ensures r.Ok? ==> r.value.0 == Prefixes.MachineS(fields.prefix).value
                      && r.value.1 == fields.number
                      && r.value.2 == Checksums.Machine(fields.checksum)
  {
    var prefixText :- Prefixes.MachineS(fields.prefix);
    Ok((prefixText, fields.number, Checksums.Machine(fields.checksum)))
  }

  /** `split_human_barcode`: prefix letters, number text, checksum letter. */
  function SplitHumanBarcode(fields: Fields): (r: Result<(string, string, string)>)
    ensures r.Ok? <==> Prefixes.Human(fields.prefix).Ok? && Checksums.Human(fields.checksum).Ok?
    ensures r.Ok? ==> r.value.0 == Prefixes.Human(fields.prefix).value
                      && r.value.1 == IntToS(fields.number)
                      && r.value.2 == Checksums.Human(fields.checksum).value
  {
    var prefixText :- Prefixes.Human(fields.prefix);
    var checksumText :- Checksums.Human(fields.checksum);
    Ok((prefixText, IntToS(fields.number), checksumText))
  }

  lemma PowersUsed()
    ensures Pow10(1) == 10 && Pow10(2) == 100 && Pow10(3) == 1000
    ensures Pow10(7) == 10000000 && Pow10(9) == 1000000000
    ensures Pow10(11) == 100000000000 && Pow10(13) == 10000000000000
  {
  }

  /** For two upper-case letters and a number of at most seven digits, the body
      is the three prefix digits, the seven number digits and the checksum
      byte, by place value. */
  lemma {:induction false} BodyFields(human: string, number: nat)
    requires |human| == 2 && AllUpper(human) && number < Pow10(NumberLength)
    ensures var p := Prefixes.FromHuman(human);
            && Prefixes.Machine(p).Ok?
            && 28 <= Prefixes.Machine(p).value <= 728
            && SangerBody(p, number)
               == Ok((Prefixes.Machine(p).value * Pow10(NumberLength) + number) * Pow10(ChecksumLength)
                     + Byte(Checksums.Letter(human, number)))
  {
    var p := Prefixes.FromHuman(human);
    PowersUsed();
    NatToSLength(number, NumberLength);
    var m := Prefixes.Machine(p).value;
    var cb := Byte(Checksums.Letter(human, number));
    assert m * 1000000000 + number * 100 + cb == (m * 10000000 + number) * 100 + cb;
  }

  /** The prefix numeral `m` followed by the seven digits of `number`. */
  function PrefixedNumber(m: nat, number: nat): nat {
    m * Pow10(NumberLength) + number
  }

  /** The twelve-digit body: prefixed number followed by the checksum byte `cb`. */
  function BodyValue(m: nat, number: nat, cb: nat): nat {
    PrefixedNumber(m, number) * Pow10(ChecksumLength) + cb
  }

  /** The value of a machine barcode with prefix numeral `m`, number
      `number`, checksum byte `cb` and EAN digit `e`, by place value. */
  function Assemble(m: nat, number: nat, cb: nat, e: nat): nat {
    BodyValue(m, number, cb) * 10 + e
  }

  /** Written in thirteen digits, an assembled value is the four zero-padded
      fields side by side. */
  lemma {:induction false} FieldDigits(m: nat, number: nat, cb: nat, e: nat)
    requires number < Pow10(NumberLength) && cb < Pow10(ChecksumLength) && e < 10
    ensures PadDigits(Assemble(m, number, cb, e), InternalLength + 1)
            == PadDigits(m, PrefixLength) + PadDigits(number, NumberLength)
               + PadDigits(cb, ChecksumLength) + PadDigits(e, 1)
  {
    NumberDigits(m, number);
    ChecksumDigits(m, number, cb);
    EanDigit(m, number, cb, e);
  }

  lemma NumberDigits(m: nat, number: nat)
    requires number < Pow10(NumberLength)
    ensures PadDigits(PrefixedNumber(m, number), PrefixLength + NumberLength)
            == PadDigits(m, PrefixLength) + PadDigits(number, NumberLength)
  {
    PadDigitsSplit(m, number, PrefixLength, NumberLength);
  }

  lemma ChecksumDigits(m: nat, number: nat, cb: nat)
    requires cb < Pow10(ChecksumLength)
    ensures PadDigits(BodyValue(m, number, cb), InternalLength)
            == PadDigits(PrefixedNumber(m, number), PrefixLength + NumberLength)
               + PadDigits(cb, ChecksumLength)
  {
    PadDigitsSplit(PrefixedNumber(m, number), cb, PrefixLength + NumberLength, ChecksumLength);
  }

  lemma EanDigit(m: nat, number: nat, cb: nat, e: nat)
    requires e < 10
    ensures PadDigits(Assemble(m, number, cb, e), InternalLength + 1)
            == PadDigits(BodyValue(m, number, cb), InternalLength) + PadDigits(e, 1)
  {
    assert Pow10(1) == 10;
    PadDigitsSplit(BodyValue(m, number, cb), e, InternalLength, 1);
  }

  /** A value of 12 or 13 digits is written, once a lost leading zero is
      restored, as its thirteen-digit form, and the machine format accepts it. */
  lemma {:induction false} MachineText(v: nat)
    requires Pow10(11) <= v < Pow10(13)
    ensures MachineFormat(IntToS(v))
    ensures RestoreLeadingZero(IntToS(v)) == PadDigits(v, InternalLength + 1)
  {
    NatToSLength(v, 11);
    NatToSLength(v, 13);
    PadDigitsOfNatToS(v, 13);
  }

  /** Two upper-case prefix letters put every assembled value at 12 or 13 digits. */
  lemma AssembledRange(m: nat, number: nat, cb: nat, e: nat)
    requires 28 <= m <= 728 && number < Pow10(NumberLength) && cb < Pow10(ChecksumLength) && e < 10
    ensures Pow10(11) <= Assemble(m, number, cb, e) < Pow10(13)
  {
    PowersUsed();
    var v := ((m * 10000000 + number) * 100 + cb) * 10 + e;
    assert Assemble(m, number, cb, e) == v;
    assert 280000000000 <= v < 7290000000000;
  }

  /** The machine barcode of two upper-case letters and a short number is the
      assembled value of the prefix numeral, the number, the checksum byte and
      the EAN digit of the body. */
  lemma {:induction false} MachineBarcodeAssembled(human: string, number: nat)
    requires |human| == 2 && AllUpper(human) && number < Pow10(NumberLength)
    ensures var p := Prefixes.FromHuman(human);
            var body := SangerBody(p, number);
            && body.Ok? && body.value >= 0 && MachineBarcode(p, number).Ok?
            && 28 <= Prefixes.Machine(p).value <= 728
            && Byte(Checksums.Letter(human, number)) < Pow10(ChecksumLength)
            && MachineBarcode(p, number).value
               == Assemble(Prefixes.Machine(p).value, number, Byte(Checksums.Letter(human, number)),
                           Ean13.Calculate(body.value))
  {
    var p := Prefixes.FromHuman(human);
    BodyFields(human, number);
    var m, cb := Prefixes.Machine(p).value, Byte(Checksums.Letter(human, number));
    var body := SangerBody(p, number).value;
    assert body == BodyValue(m, number, cb);
    assert Pow10(ChecksumLength) == 100;
    assert MachineBarcode(p, number) == Ok(body * 10 + Ean13.Calculate(body));
  }

  /** The decimal text of such a machine barcode, with a lost leading zero
      restored, lays out as 3 prefix digits, 7 number digits, 2 checksum digits
      and the EAN digit; it is 12 or 13 digits long, so the machine format
      accepts it. */
  lemma {:induction false} MachineBarcodeDigits(human: string, number: nat)
    requires |human| == 2 && AllUpper(human) && number < Pow10(NumberLength)
    ensures var p := Prefixes.FromHuman(human);
            var mb := MachineBarcode(p, number);
            var body := SangerBody(p, number);
            && mb.Ok? && body.Ok? && body.value >= 0
            && MachineFormat(IntToS(mb.value))
            && RestoreLeadingZero(IntToS(mb.value))
               == PadDigits(Prefixes.Machine(p).value, PrefixLength)
                  + PadDigits(number, NumberLength)
                  + PadDigits(Byte(Checksums.Letter(human, number)), ChecksumLength)
                  + PadDigits(Ean13.Calculate(body.value), 1)
  {
    var p := Prefixes.FromHuman(human);
    MachineBarcodeAssembled(human, number);
    var m := Prefixes.Machine(p).value;
    var cb := Byte(Checksums.Letter(human, number));
    var e := Ean13.Calculate(SangerBody(p, number).value);
    AssembledRange(m, number, cb, e);
    FieldDigits(m, number, cb, e);
    MachineText(Assemble(m, number, cb, e));
  }

  /** Four digit fields of widths 3, 7, 2 and 1 side by side match the machine
      format, with exactly those fields as its groups. */
  lemma MatchFields(a: string, b: string, c: string, d: string)
    requires |a| == PrefixLength && |b| == NumberLength && |c| == ChecksumLength && |d| == 1
    requires AllDigits(a) && AllDigits(b) && AllDigits(c) && AllDigits(d)
    ensures MatchMachine(a + b + c + d) == Some(MachineGroups(a, b, c, d))
  {
    var s := a + b + c + d;
    assert s[..3] == a && s[3..10] == b && s[10..12] == c && s[12..] == d;
  }

  /** Parsing the machine barcode of (prefix letters, number) gives back the
      prefix letters, the number and the computed checksum letter: encode then
      decode is the identity on well-formed barcodes. */
  lemma {:induction false} ParseInvertsMachineBarcode(human: string, number: nat)
    requires |human| == 2 && AllUpper(human) && number < Pow10(NumberLength)
    ensures var p := Prefixes.FromHuman(human);
            var mb := MachineBarcode(p, number);
            && mb.Ok?
            && Ean13.Validate(mb.value)
            && var parsed := ParseBarcode(IntToS(mb.value), None, None, None);
               && parsed.Ok?
               && parsed.value == Fields(Prefixes.FromMachine(Prefixes.Machine(p).value), number,
                                         Checksums.FromMachine(Byte(Checksums.Letter(human, number))))
               && Prefixes.Human(parsed.value.prefix) == Ok(human)
               && parsed.value.number == number
               && Checksums.Human(parsed.value.checksum) == CalculateChecksum(p, number)
  {
    var p := Prefixes.FromHuman(human);
    MachineBarcodeDigits(human, number);
    var m := Prefixes.Machine(p).value;
    var cb := Byte(Checksums.Letter(human, number));
    var e := Ean13.Calculate(SangerBody(p, number).value);
    PowersUsed();
    ParsePaddedFields(IntToS(MachineBarcode(p, number).value), m, number, cb, e);
    Prefixes.HumanRoundTrip(human);
  }

  /** A code that reads, after restoring a lost leading zero, as four
      zero-padded fields parses into exactly the values written there. */
  lemma {:induction false} ParsePaddedFields(code: string, m: nat, number: nat, cb: nat, e: nat)
    requires m < Pow10(PrefixLength) && number < Pow10(NumberLength) && cb < Pow10(ChecksumLength) && e < 10
    requires RestoreLeadingZero(code)
             == PadDigits(m, PrefixLength) + PadDigits(number, NumberLength)
                + PadDigits(cb, ChecksumLength) + PadDigits(e, 1)
    ensures ParseBarcode(code, None, None, None)
            == Ok(Fields(Prefixes.FromMachine(m), number, Checksums.FromMachine(cb)))
  {
    MatchFields(PadDigits(m, PrefixLength), PadDigits(number, NumberLength),
                PadDigits(cb, ChecksumLength), PadDigits(e, 1));
    PadDigitsValue(m, PrefixLength);
    PadDigitsValue(number, NumberLength);
    PadDigitsValue(cb, ChecksumLength);
  }

  /** The twelve-digit barcode of BD1 regains its leading zero and reads as
      prefix numeral 58, number 1 and checksum byte 80. */
  lemma ParseExample()
    ensures ParseBarcode("580000001806", None, None, None)
            == Ok(Fields(Prefixes.FromMachine(58), 1, Checksums.FromMachine(80)))
  {
    RestoreExample();
    ParseThirteenDigitExample();
    TwelveDigitsParseAsThirteen("580000001806", None, None, None);
  }

  lemma RestoreExample()
    ensures RestoreLeadingZero("580000001806") == "0580000001806"
  {
    var s := "580000001806";
    assert |s| == 12;
    assert "0" + s == "0580000001806";
  }

  lemma ParseThirteenDigitExample()
    ensures ParseBarcode("0580000001806", None, None, None)
            == Ok(Fields(Prefixes.FromMachine(58), 1, Checksums.FromMachine(80)))
  {
    ParseExampleGroups();
    PrefixValueExample();
    NumberValueExample();
    ChecksumValueExample();
  }

  lemma ParseExampleGroups()
    ensures MatchMachine("0580000001806") == Some(MachineGroups("058", "0000001", "80", "6"))
  {
    var s := "0580000001806";
    assert MachineFormat(s);
    assert s[..3] == "058" && s[3..10] == "0000001" && s[10..12] == "80" && s[12..] == "6";
  }

  lemma PrefixValueExample()
    ensures DigitsValue("058") == 58
  {
    assert DigitsValue("058") == 10 * DigitsValue("05") + 8;
    assert DigitsValue("05") == 10 * DigitsValue("0") + 5;
  }

  lemma NumberValueExample()
    ensures DigitsValue("0000001") == 1
  {
    assert "0000001"[..6] == "000000";
    assert DigitsValue("0000001") == 10 * DigitsValue("000000") + 1;
    PadDigitsZero(6);
    PadDigitsValue(0, 6);
    assert Repeat('0', 6) == "000000";
  }

  lemma ChecksumValueExample()
    ensures DigitsValue("80") == 80
  {
    assert DigitsValue("80") == 10 * DigitsValue("8") + 0;
  }

  /** PR1234K's fields split as "450", 1234, 75 and as "PR", "1234", "K". */
  lemma PRSplitExample()
    ensures var fields := Fields(Prefixes.FromMachine(450), 1234, Checksums.FromMachine(75));
            && SplitBarcode(fields) == Ok(("450", 1234, Some(75)))
            && SplitHumanBarcode(fields) == Ok(("PR", "1234", "K"))
  {
    Prefixes.MachineSExamples();
    Prefixes.EncodeExamples();
    Checksums.PRText();
  }

  /** BD1P's fields split as "058", 1, 80 and as "BD", "1", "P". */
  lemma SplitExample()
    ensures var fields := Fields(Prefixes.FromMachine(58), 1, Checksums.FromMachine(80));
            && SplitBarcode(fields) == Ok(("058", 1, Some(80)))
            && SplitHumanBarcode(fields) == Ok(("BD", "1", "P"))
  {
    Prefixes.MachineSExamples();
    Prefixes.EncodeExamples();
    assert IntToS(1) == "1";
  }
}
