/** The two-letter barcode prefix and its base-27 numeral.

    A prefix is known by its human form (e.g. "PR"), its machine form
    (e.g. 450) or both; the missing form is derived. Encoding clamps a byte
    below '@' to 0, decoding adds 64 back, so the two directions are inverse
    on upper-case letters only.
 */
module Prefixes {
  import opened Errors
  import opened Decimal
  import opened Chars
  import opened Formats

  datatype PrefixState = PrefixState(human: Option<string>, machine: Option<int>)

  /** A prefix always carries at least one of its two forms. */
  type Prefix = p: PrefixState | p.human.Some? || p.machine.Some?
    witness PrefixState(Some("AA"), None)

  /** The constructor: raises BarcodeError when given neither form. */
  function New(human: Option<string>, machine: Option<int>): (r: Result<Prefix>)
    ensures r.Err? <==> human.None? && machine.None?
    ensures r.Err? ==> r.error == BarcodeError
    ensures r.Ok? ==> r.value.human == human && r.value.machine == machine
  {
    if human.None? && machine.None? then Err(BarcodeError)
    else Ok(PrefixState(human, machine))
  }

  function FromHuman(human: string): (p: Prefix)
    ensures Human(p) == Ok(human)
  {
    PrefixState(Some(human), None)
  }

  function FromMachine(machine: int): (p: Prefix)
    ensures Machine(p) == Ok(machine)
  {
    PrefixState(None, Some(machine))
  }

  /** What a caller may hand over as a prefix: a Prefix, its human text, or nil. */
  datatype PrefixInput = PrefixObject(prefix: Prefix) | PrefixText(text: string) | PrefixNil

  /** `Prefix.from_input`: a Prefix is kept as it is, anything else goes to
      `from_human`. For nil that asks the constructor for a prefix with
      neither form, which it refuses with BarcodeError. */
  function FromInput(input: PrefixInput): (r: Result<Prefix>)
    ensures r.Err? <==> input.PrefixNil?
    ensures r.Err? ==> r.error == BarcodeError
    ensures input.PrefixObject? ==> r == Ok(input.prefix)
    ensures input.PrefixText? ==> r.Ok? && Human(r.value) == Ok(input.text) && r.value.machine.None?
  {
    match input
    case PrefixObject(prefix) => Ok(prefix)
    case PrefixText(text) => Ok(FromHuman(text))
    case PrefixNil => New(None, None)
  }

  /** `above_zero`: the value, or 0 when it is negative. */
  function AboveZero(v: int): (r: nat)
    ensures r >= v
    ensures r == v || r == 0
  {
    if v < 0 then 0 else v
  }

  /** The base-27 value of a letter: 'A' is 1, 'Z' is 26, anything below '@' is 0. */
  function LetterValue(c: char): nat {
    AboveZero(Byte(c) - AsciiOffset)
  }

  /** Encoding reads the first two bytes; a shorter text has a nil byte, and
      subtracting from nil raises NoMethodError. */
  function CalculateMachine(human: string): (r: Result<int>)
    ensures r.Err? <==> |human| < 2
    ensures r.Err? ==> r.error == NoMethodError
    ensures r.Ok? ==> 0 <= r.value
    ensures r.Ok? && IsUpper(human[0]) && IsUpper(human[1]) ==> 28 <= r.value <= 728
  {
    if |human| < 2 then Err(NoMethodError)
    else Ok(LetterValue(human[0]) * PrefixBase + LetterValue(human[1]))
  }

  /** Decoding: quotient and remainder by 27, each shifted up by 64. Ruby's
      floored `/` and `%` agree with Dafny's for the positive divisor 27. */
  function CalculateHuman(machine: int): (r: Result<string>)
    ensures r.Ok? <==> -64 * PrefixBase <= machine < 192 * PrefixBase
    ensures r.Ok? ==> |r.value| == 2
  {
    var first :- Chr(machine / PrefixBase + AsciiOffset);
    // the remainder lies in 0..26, so the second `chr` never raises
    Ok([first, (machine % PrefixBase + AsciiOffset) as char])
  }

  /** `machine`: the stored numeral, else the one encoded from the human form,
      which raises NoMethodError for text shorter than two characters. */
  function Machine(p: Prefix): (r: Result<int>)
    ensures p.machine.Some? ==> r == Ok(p.machine.value)
    ensures r.Ok? <==> p.machine.Some? || |p.human.value| >= 2
    ensures r.Err? ==> r.error == NoMethodError
    ensures p.machine.None? && r.Ok? ==> r.value >= 0
    ensures p.machine.None? && r.Ok? && IsUpper(p.human.value[0]) && IsUpper(p.human.value[1]) ==> 28 <= r.value <= 728
  {
    if p.machine.Some? then Ok(p.machine.value) else CalculateMachine(p.human.value)
  }

  /** `human`: the stored text, else the two characters decoded from the
      numeral, which raises RangeError when the first is not a byte. */
  function Human(p: Prefix): (r: Result<string>)
    ensures p.human.Some? ==> r == Ok(p.human.value)
    ensures r.Ok? <==> p.human.Some? || -64 * PrefixBase <= p.machine.value < 192 * PrefixBase
    ensures r.Err? ==> r.error == RangeError
    ensures p.human.None? && r.Ok? ==> |r.value| == 2
  {
    if p.human.Some? then Ok(p.human.value) else CalculateHuman(p.machine.value)
  }

  /** `machine_s`: the decimal machine form, zero-padded to at least three characters. */
  function MachineS(p: Prefix): (r: Result<string>)
    ensures r.Ok? <==> Machine(p).Ok?
    ensures r.Ok? ==>
      var digits := IntToS(Machine(p).value);
      && |r.value| == (if |digits| < PrefixLength then PrefixLength else |digits|)
      && r.value[|r.value| - |digits|..] == digits
      && forall i :: 0 <= i < |r.value| - |digits| ==> r.value[i] == '0'
  {
    var m :- Machine(p);
    Ok(LeftPad(IntToS(m), PrefixLength, '0'))
  }

  /** `machine_full`: the machine form shifted past the number and checksum digits. */
  function MachineFull(p: Prefix): (r: Result<int>)
    ensures r.Ok? <==> Machine(p).Ok?
    ensures r.Ok? ==> r.value == Machine(p).value * Pow10(NumberLength + ChecksumLength)
  {
    var m :- Machine(p);
    Ok(m * Pow10(NumberLength + ChecksumLength))
  }

  lemma LetterValueUpper(c: char)
    requires IsUpper(c)
    ensures 1 <= LetterValue(c) <= 26
    ensures (LetterValue(c) + AsciiOffset) as char == c
  {
  }

  lemma DivModPrefixBase(a: int, b: int)
    requires 0 <= b < PrefixBase
    ensures (a * PrefixBase + b) / PrefixBase == a
    ensures (a * PrefixBase + b) % PrefixBase == b
  {
  }

  /** human -> machine -> human is the identity on two upper-case letters. */
  lemma {:induction false} HumanRoundTrip(human: string)
    requires |human| == 2 && AllUpper(human)
    ensures Machine(FromHuman(human)).Ok?
    ensures Human(FromMachine(Machine(FromHuman(human)).value)) == Ok(human)
  {
    var a, b := LetterValue(human[0]), LetterValue(human[1]);
    LetterValueUpper(human[0]);
    LetterValueUpper(human[1]);
    DivModPrefixBase(a, b);
    assert [human[0], human[1]] == human;
  }

  /** machine -> human -> machine is the identity on every numeral whose
      decoding is a byte pair; the clamp never fires on decoded text, whose
      bytes are all at least '@'. */
  lemma {:induction false} MachineRoundTrip(machine: int)
    requires 0 <= machine < 192 * PrefixBase
    ensures Human(FromMachine(machine)).Ok?
    ensures Machine(FromHuman(Human(FromMachine(machine)).value)) == Ok(machine)
  {
    var h := Human(FromMachine(machine)).value;
    assert LetterValue(h[0]) == machine / PrefixBase;
    assert LetterValue(h[1]) == machine % PrefixBase;
  }

  /** The legacy asymmetry: a first byte below '@' encodes as 0 and decodes as '@'. */
  lemma ClampAsymmetry(low: char, letter: char)
    requires Byte(low) < AsciiOffset && IsUpper(letter)
    ensures Machine(FromHuman([low, letter])) == Ok(Byte(letter) - AsciiOffset)
    ensures Human(FromMachine(Byte(letter) - AsciiOffset)) == Ok(['@', letter])
  {
    DivModPrefixBase(0, Byte(letter) - AsciiOffset);
  }

  /** The same clamp on the second byte: it encodes as 0 and decodes as '@'. */
  lemma SecondByteClamp(letter: char, low: char)
    requires IsUpper(letter) && Byte(low) < AsciiOffset
    ensures Machine(FromHuman([letter, low])) == Ok((Byte(letter) - AsciiOffset) * PrefixBase)
    ensures Human(FromMachine((Byte(letter) - AsciiOffset) * PrefixBase)) == Ok([letter, '@'])
  {
    LetterValueUpper(letter);
    DivModPrefixBase(Byte(letter) - AsciiOffset, 0);
  }

  /** For a machine form of at most three digits, `machine_s` is exactly the
      three-digit field a machine barcode carries, and reads back as the numeral. */
  lemma MachineSField(p: Prefix)
    requires Machine(p).Ok? && 0 <= Machine(p).value < Pow10(PrefixLength)
    ensures MachineS(p) == Ok(PadDigits(Machine(p).value, PrefixLength))
    ensures DigitsValue(MachineS(p).value) == Machine(p).value
  {
    var m := Machine(p).value;
    NatToSLength(m, PrefixLength);
    PadDigitsOfNatToS(m, PrefixLength);
    PadDigitsValue(m, PrefixLength);
  }

  lemma EncodeExamples()
    ensures Machine(FromHuman("PR")) == Ok(450)
    ensures Machine(FromHuman("BD")) == Ok(58)
    ensures Human(FromMachine(58)) == Ok("BD")
    ensures Human(FromMachine(450)) == Ok("PR")
  {
  }

  lemma MachineSExamples()
    ensures MachineS(FromMachine(58)) == Ok("058")
    ensures MachineS(FromMachine(450)) == Ok("450")
  {
    assert IntToS(58) == NatToS(5) + ['8'] == "58";
    assert Repeat('0', 1) == "0";
    assert LeftPad("58", PrefixLength, '0') == "0" + "58" == "058";
    assert IntToS(450) == NatToS(45) + ['0'] == NatToS(4) + ['5'] + ['0'] == "450";
  }
}
