/** The numeric constants of the barcode layout and the two text formats a
    barcode can be written in, as hand-written recognisers with their group
    extraction.

    - human:   two upper-case letters, 1 to 7 digits, at most one upper-case
               letter, nothing else (e.g. "PR1234K", "PR1234");
    - machine: 12 or 13 digits, split from the right into a 1-digit EAN check
               digit, a 2-digit internal checksum, a 7-digit number and the
               2 or 3 remaining prefix digits.
 */
module Formats {
  import opened Errors
  import opened Decimal

  /** Subtracted from a prefix letter's byte so that 'A' counts 1. */
  const AsciiOffset := 64
  /** Base of the two-letter prefix numeral. */
  const PrefixBase := 27
  const PrefixLength := 3
  const NumberLength := 7
  const ChecksumLength := 2
  /** Digits of the barcode before the EAN check digit. */
  const InternalLength := PrefixLength + NumberLength + ChecksumLength
  /** Added to a checksum remainder so that 0 is 'A'. */
  const ChecksumAsciiOffset := 65

  predicate IsUpper(c: char) {
    'A' <= c <= 'Z'
  }

  predicate AllUpper(s: string) {
    forall i :: 0 <= i < |s| ==> IsUpper(s[i])
  }

  datatype HumanGroups = HumanGroups(prefix: string, number: string, checksum: string)

  datatype MachineGroups = MachineGroups(prefix: string, number: string, checksum: string, ean: string)

  /** End of the digit run of a would-be human barcode: a trailing letter is
      the optional checksum, anything else belongs to the run. */
  function HumanDigitsEnd(s: string): (e: nat)
    requires |s| >= 1
    ensures e == |s| || e == |s| - 1
  {
    if IsUpper(s[|s| - 1]) then |s| - 1 else |s|
  }

  /** HUMAN_BARCODE_FORMAT: `[A-Z]{2}` `\d{1,7}` `[A-Z]{0,1}` anchored at both ends. */
  predicate HumanFormat(s: string) {
    && |s| >= 3
    && IsUpper(s[0]) && IsUpper(s[1])
    && 2 < HumanDigitsEnd(s) <= 2 + NumberLength
    && AllDigits(s[2..HumanDigitsEnd(s)])
  }

  /** The named groups of a HUMAN_BARCODE_FORMAT match, or None for no match. */
  function MatchHuman(s: string): (g: Option<HumanGroups>)
    ensures g.Some? <==> HumanFormat(s)
    ensures g.Some? ==> g.value.prefix + g.value.number + g.value.checksum == s
  {
    if HumanFormat(s) then
      var e := HumanDigitsEnd(s);
      assert s == s[..2] + s[2..e] + s[e..];
      Some(HumanGroups(s[..2], s[2..e], s[e..]))
    else None
  }

  /** The layout HUMAN_BARCODE_FORMAT describes, stated on the three parts. */
  predicate HumanParts(prefix: string, number: string, checksum: string) {
    && |prefix| == 2 && AllUpper(prefix)
    && 1 <= |number| <= NumberLength && AllDigits(number)
    && |checksum| <= 1 && AllUpper(checksum)
  }

  /** Every match splits into parts of the promised shape... */
  lemma MatchHumanSound(s: string)
    requires HumanFormat(s)
    ensures MatchHuman(s).Some?
    ensures var g := MatchHuman(s).value; HumanParts(g.prefix, g.number, g.checksum)
  {
  }

  /** ...and every text assembled from such parts matches, with exactly those
      parts as its groups: the recogniser accepts nothing else and nothing less. */
  lemma MatchHumanComplete(prefix: string, number: string, checksum: string)
    requires HumanParts(prefix, number, checksum)
    ensures MatchHuman(prefix + number + checksum) == Some(HumanGroups(prefix, number, checksum))
  {
    var s := prefix + number + checksum;
    assert s[|s| - 1] == if checksum == [] then number[|number| - 1] else checksum[0];
    assert s[2..HumanDigitsEnd(s)] == number;
    assert s[..2] == prefix;
  }

  /** A number of eight or more digits is never read as a human barcode. */
  lemma HumanRejectsLongNumber(prefix: string, number: string, checksum: string)
    requires |prefix| == 2 && AllUpper(prefix) && AllDigits(number) && |number| > NumberLength
    requires |checksum| <= 1 && AllUpper(checksum)
    ensures !HumanFormat(prefix + number + checksum)
  {
    var s := prefix + number + checksum;
    assert s[|s| - 1] == if checksum == [] then number[|number| - 1] else checksum[0];
  }

  /** MACHINE_BARCODE_FORMAT: `\d{2,3}\d{7}\d{2}\d{1}` anchored at both ends. */
  predicate MachineFormat(s: string) {
    (|s| == InternalLength || |s| == InternalLength + 1) && AllDigits(s)
  }

  /** The four groups of a MACHINE_BARCODE_FORMAT match, taken from the right. */
  function MatchMachine(s: string): (g: Option<MachineGroups>)
    ensures g.Some? <==> MachineFormat(s)
    ensures g.Some? ==> && |g.value.prefix| == |s| - 10
                        && |g.value.number| == NumberLength
                        && |g.value.checksum| == ChecksumLength
                        && |g.value.ean| == 1
                        && g.value.prefix + g.value.number + g.value.checksum + g.value.ean == s
  {
    if MachineFormat(s) then
      var n := |s|;
      assert s == s[..n - 10] + s[n - 10..n - 3] + s[n - 3..n - 1] + s[n - 1..];
      Some(MachineGroups(s[..n - 10], s[n - 10..n - 3], s[n - 3..n - 1], s[n - 1..]))
    else None
  }

  /** The two formats never both match: one needs letters, the other only digits. */
  lemma FormatsDisjoint(s: string)
    ensures !(HumanFormat(s) && MachineFormat(s))
  {
    if |s| >= 1 {
      assert !(IsUpper(s[0]) && IsDigit(s[0]));
    }
  }
}
