/** The barcode value object: a prefix, a number, an optional supplied
    checksum letter and an optional supplied machine barcode. The checksum,
    body, machine barcode and human barcode are derived from these; the
    source memoises them, this model computes them.
 */
module SangerBarcodes {
  import opened Errors
  import opened Decimal
  import opened Formats
  import Chars
  import Prefixes
  import Checksums
  import Ean13
  import SharedBarcode

  datatype SangerBarcode = SangerBarcode(
    prefix: Prefixes.Prefix,
    number: int,
    suppliedChecksum: Option<Checksums.Checksum>,
    providedMachineBarcode: Option<int>)

  /** The constructor: a text prefix is read as a human prefix, a Prefix is
      kept, and a nil prefix raises BarcodeError before anything else is
      looked at; a supplied checksum text becomes a human checksum. */
  function New(prefix: Prefixes.PrefixInput, number: int, checksum: Option<string>,
               machineBarcode: Option<int>): (r: Result<SangerBarcode>)
    ensures r.Err? <==> prefix.PrefixNil?
    ensures r.Err? ==> r.error == BarcodeError
    ensures prefix.PrefixObject? ==> r.Ok? && r.value.prefix == prefix.prefix
    ensures prefix.PrefixText? ==> r.Ok? && Prefixes.Human(r.value.prefix) == Ok(prefix.text)
    ensures r.Ok? ==> r.value.number == number && r.value.providedMachineBarcode == machineBarcode
    ensures r.Ok? ==> (checksum.None? <==> r.value.suppliedChecksum.None?)
    ensures r.Ok? && checksum.Some? ==> Checksums.Human(r.value.suppliedChecksum.value) == Ok(checksum.value)
  {
    var p :- Prefixes.FromInput(prefix);
    Ok(SangerBarcode(
         p,
         number,
         if checksum.Some? then Some(Checksums.FromHuman(checksum.value)) else None,
         machineBarcode))
  }

  /** `checksum`: the supplied one, else the one computed from prefix and number. */
  function ChecksumOf(b: SangerBarcode): (r: Result<Checksums.Checksum>)
    ensures b.suppliedChecksum.Some? ==> r == Ok(b.suppliedChecksum.value)
    ensures b.suppliedChecksum.None? ==>
              (r.Ok? <==> Prefixes.Human(b.prefix).Ok?)
              && (r.Ok? ==> Checksums.Human(r.value) == SharedBarcode.CalculateChecksum(b.prefix, b.number))
  {
    if b.suppliedChecksum.Some? then Ok(b.suppliedChecksum.value)
    else Checksums.FromPrefixAndNumber(b.prefix, b.number)
  }

  /** `valid?`: the number's text is at most seven characters and the computed
      checksum letter equals the checksum's human form. A long number is
      rejected before anything is computed. */
  function Valid(b: SangerBarcode): (r: Result<bool>)
    ensures |IntToS(b.number)| > NumberLength ==> r == Ok(false)
    ensures r == Ok(true) <==>
              && |IntToS(b.number)| <= NumberLength
              && SharedBarcode.CalculateChecksum(b.prefix, b.number).Ok?
              && ChecksumOf(b).Ok?
              && Checksums.Human(ChecksumOf(b).value) == SharedBarcode.CalculateChecksum(b.prefix, b.number)
  {
    if |IntToS(b.number)| > NumberLength then Ok(false)
    else
      var computed :- SharedBarcode.CalculateChecksum(b.prefix, b.number);
      var checksum :- ChecksumOf(b);
      var stored :- Checksums.Human(checksum);
      Ok(computed == stored)
  }

  /** `check_EAN` on the provided machine barcode. */
  function CheckEan(b: SangerBarcode): (r: Result<bool>)
    ensures b.providedMachineBarcode.None? ==> r == Err(NoMethodError)
    ensures b.providedMachineBarcode.Some? ==> r == Ok(Ean13.Validate(b.providedMachineBarcode.value))
  {
    SharedBarcode.CheckEan(b.providedMachineBarcode)
  }

  /** `sanger_barcode`: the body, ArgumentError for a number over seven characters. */
  function Body(b: SangerBarcode): (r: Result<int>)
    ensures |IntToS(b.number)| > NumberLength ==> r == Err(ArgumentError)
  {
    SharedBarcode.SangerBody(b.prefix, b.number)
  }

  /** `machine_barcode`: the body followed by its EAN check digit. */
  function MachineBarcode(b: SangerBarcode): (r: Result<int>)
    ensures r.Ok? <==> Body(b).Ok?
    ensures r.Ok? ==> r.value / 10 == Body(b).value
    ensures r.Ok? && Body(b).value >= 0 ==> Ean13.Validate(r.value)
  {
    SharedBarcode.MachineBarcode(b.prefix, b.number)
  }

  /** `human_barcode`: prefix letters, number and checksum letter when valid,
      nil otherwise. A barcode found valid has already produced the prefix's
      human form and the checksum's, so neither can raise here. */
  function HumanBarcode(b: SangerBarcode): (r: Result<Option<string>>)
    ensures r.Ok? && r.value.Some? ==> Valid(b) == Ok(true)
    ensures Valid(b) == Ok(false) ==> r == Ok(None)
  {
    var valid :- Valid(b);
    if !valid then Ok(None)
    else
      var checksumText := Checksums.Human(ChecksumOf(b).value).value;
      Ok(Some(Prefixes.Human(b.prefix).value + IntToS(b.number) + checksumText))
  }

  /** The prefix an input resolves to has a human form, so the checksum
      letter can be computed. */
  predicate HasHumanPrefix(prefix: Prefixes.PrefixInput) {
    Prefixes.FromInput(prefix).Ok? && Prefixes.Human(Prefixes.FromInput(prefix).value).Ok?
  }

  /** A barcode built from a prefix and a number alone is valid exactly when
      the number's text has at most seven characters. */
  lemma ValidWithoutSuppliedChecksum(prefix: Prefixes.PrefixInput, number: int, machineBarcode: Option<int>)
    requires HasHumanPrefix(prefix)
    ensures Valid(New(prefix, number, None, machineBarcode).value) == Ok(|IntToS(number)| <= NumberLength)
  {
  }

  /** For prefix letters and a non-negative number that is: fewer than 10^7. */
  lemma ValidIffShortNumber(prefix: string, number: nat)
    ensures Valid(New(Prefixes.PrefixText(prefix), number, None, None).value) == Ok(number < Pow10(NumberLength))
  {
    NatToSLength(number, NumberLength);
  }

  /** A supplied checksum makes the barcode valid exactly when it is the
      letter computed from the prefix's human form (and the number is short
      enough), whether the prefix came as letters or as a machine-read Prefix. */
  lemma ValidWithSuppliedChecksum(prefix: Prefixes.PrefixInput, number: int, checksum: string,
                                  machineBarcode: Option<int>)
    requires HasHumanPrefix(prefix)
    ensures Valid(New(prefix, number, Some(checksum), machineBarcode).value)
            == Ok(&& |IntToS(number)| <= NumberLength
                  && checksum == [Checksums.Letter(Prefixes.Human(Prefixes.FromInput(prefix).value).value, number)])
  {
  }

  /** A prefix without a human form (a machine numeral whose letters are not
      bytes) makes `valid?` raise that error, unless the number is too long. */
  lemma ValidWithUnreadablePrefix(prefix: Prefixes.PrefixInput, number: int, checksum: Option<string>,
                                  machineBarcode: Option<int>)
    requires Prefixes.FromInput(prefix).Ok? && Prefixes.Human(Prefixes.FromInput(prefix).value).Err?
    ensures Valid(New(prefix, number, checksum, machineBarcode).value)
            == if |IntToS(number)| > NumberLength then Ok(false)
               else Err(Prefixes.Human(Prefixes.FromInput(prefix).value).error)
  {
  }

  /** The human barcode of a valid barcode is prefix, number text and checksum
      letter; a barcode that is not valid has none. */
  lemma HumanBarcodeOfValid(prefix: Prefixes.PrefixInput, number: int, checksum: Option<string>,
                            machineBarcode: Option<int>, b: SangerBarcode)
    requires New(prefix, number, checksum, machineBarcode) == Ok(b)
    requires Prefixes.Human(b.prefix).Ok?
    ensures Valid(b).Ok?
    ensures HumanBarcode(b).Ok?
    ensures Valid(b) == Ok(true) ==>
              HumanBarcode(b) == Ok(Some(Prefixes.Human(b.prefix).value + IntToS(b.number)
                                         + SharedBarcode.CalculateChecksum(b.prefix, b.number).value))
    ensures Valid(b) == Ok(false) <==> HumanBarcode(b) == Ok(None)
  {
  }

  /** "XX1234" with the supplied checksum "X" is not valid. */
  lemma MismatchExample()
    ensures Valid(New(Prefixes.PrefixText("XX"), 1234, Some("X"), None).value) == Ok(false)
  {
    ValidWithSuppliedChecksum(Prefixes.PrefixText("XX"), 1234, "X", None);
  }

  /** Human side of the round trip: the human barcode of a barcode built from
      two upper-case letters and a short number is in the human format, and
      its groups are exactly the prefix, the number text and the checksum. */
  lemma {:induction false} HumanBarcodeMatches(human: string, number: nat)
    requires |human| == 2 && AllUpper(human) && number < Pow10(NumberLength)
    ensures var b := New(Prefixes.PrefixText(human), number, None, None).value;
            var letter := Checksums.Letter(human, number);
            && HumanBarcode(b) == Ok(Some(human + NatToS(number) + [letter]))
            && MatchHuman(human + NatToS(number) + [letter])
               == Some(HumanGroups(human, NatToS(number), [letter]))
  {
    var b := New(Prefixes.PrefixText(human), number, None, None).value;
    ValidIffShortNumber(human, number);
    HumanBarcodeOfValid(Prefixes.PrefixText(human), number, None, None, b);
    NatToSLength(number, NumberLength);
    MatchHumanComplete(human, NatToS(number), [Checksums.Letter(human, number)]);
  }

  /** The derived values depend on the prefix only through its two forms. */
  lemma SamePrefixFormsSameDerivation(p1: Prefixes.Prefix, p2: Prefixes.Prefix, number: int)
    requires Prefixes.Machine(p1) == Prefixes.Machine(p2) && Prefixes.Human(p1) == Prefixes.Human(p2)
    ensures SharedBarcode.CalculateChecksum(p1, number) == SharedBarcode.CalculateChecksum(p2, number)
    ensures SharedBarcode.SangerBody(p1, number) == SharedBarcode.SangerBody(p2, number)
    ensures SharedBarcode.MachineBarcode(p1, number) == SharedBarcode.MachineBarcode(p2, number)
  {
  }

  /** Machine side of the round trip: parse the machine barcode of a barcode
      built from two upper-case letters and a short number, rebuild a barcode
      from the parsed fields as a machine-read barcode, and it is valid, its
      EAN checks, and it has the same human and machine barcodes. */
  lemma {:induction false} MachineBarcodeRoundTrip(human: string, number: nat)
    requires |human| == 2 && AllUpper(human) && number < Pow10(NumberLength)
    ensures var b := New(Prefixes.PrefixText(human), number, None, None).value;
            && MachineBarcode(b).Ok?
            && var mb := MachineBarcode(b).value;
               var parsed := SharedBarcode.ParseBarcode(IntToS(mb), None, None, None);
               && parsed.Ok?
               && Checksums.Human(parsed.value.checksum).Ok?
               && var b2 := New(Prefixes.PrefixObject(parsed.value.prefix), parsed.value.number,
                                Some(Checksums.Human(parsed.value.checksum).value), Some(mb)).value;
                  && Valid(b2) == Ok(true)
                  && CheckEan(b2) == Ok(true)
                  && HumanBarcode(b2) == HumanBarcode(b)
                  && MachineBarcode(b2) == Ok(mb)
  {
    var b := New(Prefixes.PrefixText(human), number, None, None).value;
    SharedBarcode.ParseInvertsMachineBarcode(human, number);
    HumanBarcodeMatches(human, number);
    RebuiltFromMachineRead(human, number, MachineBarcode(b).value);
  }

  /** The barcode rebuilt from the machine-read prefix numeral, the number and
      the checksum letter behaves as the one built from the letters. */
  lemma RebuiltFromMachineRead(human: string, number: nat, mb: int)
    requires |human| == 2 && AllUpper(human) && number < Pow10(NumberLength)
    requires SharedBarcode.MachineBarcode(Prefixes.FromHuman(human), number) == Ok(mb)
    ensures var p := Prefixes.FromMachine(Prefixes.Machine(Prefixes.FromHuman(human)).value);
            var b := New(Prefixes.PrefixText(human), number, None, None).value;
            var b2 := New(Prefixes.PrefixObject(p), number, Some([Checksums.Letter(human, number)]), Some(mb)).value;
            && Valid(b2) == Ok(true)
            && HumanBarcode(b2) == HumanBarcode(b)
            && MachineBarcode(b2) == Ok(mb)
  {
    var b := New(Prefixes.PrefixText(human), number, None, None).value;
    var p := Prefixes.FromMachine(Prefixes.Machine(b.prefix).value);
    var letter := Checksums.Letter(human, number);
    var b2 := New(Prefixes.PrefixObject(p), number, Some([letter]), Some(mb)).value;
    Prefixes.HumanRoundTrip(human);
    SamePrefixFormsSameDerivation(p, b.prefix, number);
    NatToSLength(number, NumberLength);
    assert Valid(b2) == Ok(true);
    HumanBarcodeOfValid(Prefixes.PrefixObject(p), number, Some([letter]), Some(mb), b2);
    HumanBarcodeMatches(human, number);
  }

  /** The legacy splits of a barcode read back from its machine barcode: the
      human parts concatenate to the barcode's human barcode, and the machine
      parts are the padded prefix numeral, the number and the byte of the
      checksum letter. */
  lemma {:induction false} SplitsOfMachineBarcode(human: string, number: nat)
    requires |human| == 2 && AllUpper(human) && number < Pow10(NumberLength)
    ensures var b := New(Prefixes.PrefixText(human), number, None, None).value;
            && MachineBarcode(b).Ok?
            && var parsed := SharedBarcode.ParseBarcode(IntToS(MachineBarcode(b).value), None, None, None);
               && parsed.Ok?
               && var split := SharedBarcode.SplitHumanBarcode(parsed.value);
                  && split.Ok?
                  && HumanBarcode(b) == Ok(Some(split.value.0 + split.value.1 + split.value.2))
                  && SharedBarcode.SplitBarcode(parsed.value)
                     == Ok((Prefixes.MachineS(b.prefix).value, number, Some(Chars.Byte(Checksums.Letter(human, number)))))
  {
    SharedBarcode.ParseInvertsMachineBarcode(human, number);
    HumanBarcodeMatches(human, number);
  }

  /** A machine-read prefix with the wrong supplied checksum letter is not valid. */
  lemma MachineReadMismatchExample()
    ensures Valid(New(Prefixes.PrefixObject(Prefixes.FromMachine(450)), 1234, Some("X"), None).value) == Ok(false)
  {
    Prefixes.EncodeExamples();
    Checksums.PRLetterExample();
    ValidWithSuppliedChecksum(Prefixes.PrefixObject(Prefixes.FromMachine(450)), 1234, "X", None);
  }

  lemma PRExample()
    ensures var b := New(Prefixes.PrefixText("PR"), 1234, None, None).value;
            HumanBarcode(b) == Ok(Some("PR1234K")) && MachineBarcode(b) == Ok(4500001234757)
  {
    PRHumanExample();
    PRMachineExample();
  }

  lemma PRHumanExample()
    ensures HumanBarcode(New(Prefixes.PrefixText("PR"), 1234, None, None).value) == Ok(Some("PR1234K"))
  {
    Checksums.PRLetterExample();
    Checksums.PRText();
    HumanBarcodeMatches("PR", 1234);
    assert "PR" + "1234" + "K" == "PR1234K";
  }

  lemma PRMachineExample()
    ensures MachineBarcode(New(Prefixes.PrefixText("PR"), 1234, None, None).value) == Ok(4500001234757)
  {
    PRBodyExample();
    Ean13.CalculateExamples();
  }

  lemma PRBodyExample()
    ensures Body(New(Prefixes.PrefixText("PR"), 1234, None, None).value) == Ok(450000123475)
  {
    Checksums.PRLetterExample();
    Checksums.PRText();
    Prefixes.EncodeExamples();
    SharedBarcode.PowersUsed();
    var b := New(Prefixes.PrefixText("PR"), 1234, None, None).value;
    assert Prefixes.MachineFull(b.prefix) == Ok(450000000000);
    assert SharedBarcode.CalculateChecksum(b.prefix, 1234) == Ok("K");
  }

  lemma SuppliedChecksumExample()
    ensures Valid(New(Prefixes.PrefixText("PR"), 1234, Some("K"), None).value) == Ok(true)
  {
    Checksums.PRLetterExample();
    Checksums.PRText();
    ValidWithSuppliedChecksum(Prefixes.PrefixText("PR"), 1234, "K", None);
  }

  lemma BDExample()
    ensures var b := New(Prefixes.PrefixText("BD"), 1, None, None).value;
            HumanBarcode(b) == Ok(Some("BD1P")) && MachineBarcode(b) == Ok(580000001806)
  {
    BDHumanExample();
    BDMachineExample();
  }

  lemma BDHumanExample()
    ensures HumanBarcode(New(Prefixes.PrefixText("BD"), 1, None, None).value) == Ok(Some("BD1P"))
  {
    var b := New(Prefixes.PrefixText("BD"), 1, None, None).value;
    HumanBarcodeMatches("BD", 1);
    Checksums.BDLetterExample();
    assert HumanBarcode(b) == Ok(Some("BD" + NatToS(1) + ['P']));
    assert NatToS(1) == "1";
    assert "BD" + "1" + ['P'] == "BD1P";
  }

  lemma BDMachineExample()
    ensures MachineBarcode(New(Prefixes.PrefixText("BD"), 1, None, None).value) == Ok(580000001806)
  {
    BDBodyExample();
    Ean13.CalculateExamples();
  }

  lemma BDBodyExample()
    ensures Body(New(Prefixes.PrefixText("BD"), 1, None, None).value) == Ok(58000000180)
  {
    Checksums.BDLetterExample();
    Prefixes.EncodeExamples();
    SharedBarcode.PowersUsed();
    assert NatToS(1) == "1";
  }

  /** PR12345678: eight digits are one too many; the barcode is not valid and
      has no body. */
  lemma TooLongExample()
    ensures var b := New(Prefixes.PrefixText("PR"), 12345678, None, None).value;
            Valid(b) == Ok(false) && HumanBarcode(b) == Ok(None) && Body(b) == Err(ArgumentError)
  {
    NatToSLength(12345678, NumberLength);
    SharedBarcode.PowersUsed();
  }
}
