/** The internal checksum: one letter in human form, its byte in machine form,
    and the mod-23 letter computed from a barcode's prefix and number.
 */
module Checksums {
  import opened Errors
  import opened Decimal
  import opened Chars
  import opened Formats
  import Prefixes

  datatype ChecksumState = ChecksumState(human: Option<string>, machine: Option<int>)

  /** A checksum always carries at least one of its two forms. */
  type Checksum = c: ChecksumState | c.human.Some? || c.machine.Some?
    witness ChecksumState(Some("A"), None)

  /** The constructor: raises BarcodeError when given neither form. */
  function New(human: Option<string>, machine: Option<int>): (r: Result<Checksum>)
    ensures r.Err? <==> human.None? && machine.None?
    ensures r.Err? ==> r.error == BarcodeError
    ensures r.Ok? ==> r.value.human == human && r.value.machine == machine
  {
    if human.None? && machine.None? then Err(BarcodeError)
    else Ok(ChecksumState(human, machine))
  }

  function FromHuman(human: string): (c: Checksum)
    ensures Human(c) == Ok(human)
  {
    ChecksumState(Some(human), None)
  }

  function FromMachine(machine: int): (c: Checksum)
    ensures Machine(c) == Some(machine)
  {
    ChecksumState(None, Some(machine))
  }

  /** `machine`: the stored value, else the first byte of the human form
      (nil for an empty human form). */
  function Machine(c: Checksum): (r: Option<int>)
    ensures c.machine.Some? ==> r == c.machine
    ensures r.Some? <==> c.machine.Some? || |c.human.value| > 0
    ensures c.machine.None? && r.Some? ==> r.value == Byte(c.human.value[0])
  {
    if c.machine.Some? then Some(c.machine.value)
    else if |c.human.value| > 0 then Some(Byte(c.human.value[0]))
    else None
  }

  /** `human`: the stored text, else `chr` of the machine value. */
  function Human(c: Checksum): (r: Result<string>)
    ensures c.human.Some? ==> r == Ok(c.human.value)
    ensures c.human.None? ==> (r.Ok? <==> 0 <= c.machine.value < 256)
    ensures r.Err? ==> r.error == RangeError
    ensures c.human.None? && r.Ok? ==> |r.value| == 1 && Byte(r.value[0]) == c.machine.value
  {
    if c.human.Some? then Ok(c.human.value)
    else
      var letter :- Chr(c.machine.value);
      Ok([letter])
  }

  /** Sum of each byte times its 1-based position, as `bytes.each_with_index`
      accumulates it: the last character weighs the most. */
  function PositionWeightedSum(s: string): nat {
    if s == [] then 0
    else PositionWeightedSum(s[..|s| - 1]) + Byte(s[|s| - 1]) * |s|
  }

  function Reverse(s: string): (r: string)
    ensures |r| == |s|
    ensures forall i :: 0 <= i < |s| ==> r[i] == s[|s| - 1 - i]
  {
    if s == [] then [] else Reverse(s[1..]) + [s[0]]
  }

  /** Reference reading of the weighting: the i-th character of the unreversed
      text (0-based) weighs |s| - i, so the first character weighs the most. */
  function ReverseRankSum(s: string): nat {
    if s == [] then 0 else Byte(s[0]) * |s| + ReverseRankSum(s[1..])
  }

  /** Weighting the reversed text by position is weighting the text by
      reverse rank. */
  lemma {:induction false} ReversedWeighting(s: string)
    ensures PositionWeightedSum(Reverse(s)) == ReverseRankSum(s)
  {
    if s != [] {
      var r := Reverse(s);
      assert r[..|r| - 1] == Reverse(s[1..]);
      ReversedWeighting(s[1..]);
    }
  }

  /** The checksum letter of a prefix text and a number: the weighted byte
      sum of the reversed `prefix + number.to_s`, mod 23, as a letter from 'A'. */
  function Letter(prefixHuman: string, number: int): (c: char)
    ensures 'A' <= c <= 'W'
    ensures Byte(c) == ReverseRankSum(prefixHuman + IntToS(number)) % 23 + ChecksumAsciiOffset
  {
    var text := prefixHuman + IntToS(number);
    ReversedWeighting(text);
    (PositionWeightedSum(Reverse(text)) % 23 + ChecksumAsciiOffset) as char
  }

  /** `Checksum.from_prefix_and_number`: the computed letter as a human checksum.
      Fails only when the prefix's human form cannot be derived. */
  function FromPrefixAndNumber(prefix: Prefixes.Prefix, number: int): (r: Result<Checksum>)
    ensures r.Ok? <==> Prefixes.Human(prefix).Ok?
    ensures r.Ok? ==> Human(r.value) == Ok([Letter(Prefixes.Human(prefix).value, number)])
    ensures r.Ok? ==> Machine(r.value) == Some(Byte(Letter(Prefixes.Human(prefix).value, number)))
  {
    var human :- Prefixes.Human(prefix);
    Ok(FromHuman([Letter(human, number)]))
  }

  /** Something `==` may be handed: another Checksum, or any other object. */
  datatype Comparand = AChecksum(checksum: Checksum) | NotAChecksum

  /** `==`: equal human forms, whichever way each was built; ArgumentError
      against anything that is not a Checksum. */
  function Equal(c: Checksum, other: Comparand): (r: Result<bool>)
    ensures other.NotAChecksum? ==> r == Err(ArgumentError)
    ensures other.AChecksum? && Human(c).Ok? && Human(other.checksum).Ok? ==>
              r == Ok(Human(c).value == Human(other.checksum).value)
    ensures other.AChecksum? && Human(c).Err? ==> r == Err(Human(c).error)
    ensures other.AChecksum? && Human(c).Ok? && Human(other.checksum).Err? ==>
              r == Err(Human(other.checksum).error)
  {
    match other
    case NotAChecksum => Err(ArgumentError)
    case AChecksum(o) =>
      var mine :- Human(c);
      var theirs :- Human(o);
      Ok(mine == theirs)
  }

  /** A byte value round-trips through the human form. */
  lemma MachineRoundTrip(machine: int)
    requires 0 <= machine < 256
    ensures Human(FromMachine(machine)).Ok?
    ensures Machine(FromHuman(Human(FromMachine(machine)).value)) == Some(machine)
  {
  }

  /** A one-character human form round-trips through the byte value. */
  lemma HumanRoundTrip(letter: char)
    requires Byte(letter) < 256
    ensures Machine(FromHuman([letter])).Some?
    ensures Human(FromMachine(Machine(FromHuman([letter])).value)) == Ok([letter])
  {
  }

  /** A checksum built from a byte equals the one built from its character,
      and vice versa. */
  lemma EqualAcrossForms(letter: char)
    requires Byte(letter) < 256
    ensures Equal(FromMachine(Byte(letter)), AChecksum(FromHuman([letter]))) == Ok(true)
    ensures Equal(FromHuman([letter]), AChecksum(FromMachine(Byte(letter)))) == Ok(true)
  {
  }

  /** Equality is decided by the human forms alone: two checksums with the
      same human form are equal, two with different ones are not. */
  lemma EqualIffSameHuman(c: Checksum, d: Checksum)
    requires Human(c).Ok? && Human(d).Ok?
    ensures Equal(c, AChecksum(d)) == Ok(true) <==> Human(c) == Human(d)
    ensures Equal(c, AChecksum(d)) == Equal(d, AChecksum(c))
  {
  }

  lemma LetterExamples()
    ensures Letter("PR", 1234) == 'K' && Byte('K') == 75
    ensures Letter("BD", 1) == 'P' && Byte('P') == 80
  {
    PRLetterExample();
    BDLetterExample();
  }

  lemma PRLetterExample()
    ensures Letter("PR", 1234) == 'K' && Byte('K') == 75
  {
    PRText();
    PRRankSum();
    assert Byte(Letter("PR", 1234)) == 75;
  }

  lemma BDLetterExample()
    ensures Letter("BD", 1) == 'P' && Byte('P') == 80
  {
    assert IntToS(1) == "1";
    assert "BD" + IntToS(1) == "BD1";
    assert ReverseRankSum("BD1") == 383 by {
      assert ReverseRankSum("1") == 49;
      assert ReverseRankSum("D1") == 68 * 2 + 49;
    }
    assert Byte(Letter("BD", 1)) == 80;
  }

  lemma PRText()
    ensures IntToS(1234) == "1234" && "PR" + IntToS(1234) == "PR1234"
  {
    assert NatToS(1234) == NatToS(123) + ['4'];
    assert NatToS(123) == NatToS(12) + ['3'];
    assert NatToS(12) == NatToS(1) + ['2'];
  }

  lemma PRRankSum()
    ensures ReverseRankSum("PR1234") == 1390
  {
    assert ReverseRankSum("4") == 52;
    assert ReverseRankSum("34") == 51 * 2 + 52;
    assert ReverseRankSum("234") == 50 * 3 + 154;
    assert ReverseRankSum("1234") == 49 * 4 + 304;
    assert ReverseRankSum("R1234") == 82 * 5 + 500;
    assert ReverseRankSum("PR1234") == 80 * 6 + 910;
  }
}
