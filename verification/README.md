# Sanger barcode codec, modelled in Dafny

This project models the codec at the heart of `sanger_barcode_format`. The
codec converts a laboratory barcode between two written forms:

- a human form: two prefix letters, a number of up to seven digits and an
  optional checksum letter, such as `PR1234K`;
- a machine form: a thirteen-digit EAN-13 numeral, such as `4500001234757`.

The model covers these parts of the library:

- the two-letter prefix and its base-27 numeral (`Prefixes`);
- the mod-23 internal checksum letter (`Checksums`);
- the EAN-13 check digit (`Ean13`);
- composing the twelve-digit body and the full machine barcode, and parsing a
  machine barcode back into prefix, number and checksum (`SharedBarcode`);
- the barcode value object, with its validity rule and human barcode
  (`SangerBarcodes`);
- the two input formats as hand-written recognisers (`Formats`);
- the builders' dispatch on the shape of user input (`Builders`);
- the `EmptyBarcode` matcher (`EmptyBarcodes`).

Everything is an immutable datatype or a pure function. A Ruby exception is
an `Err` of the `Result` type in `Errors`. Its kind is one of:

- the library's own exception classes;
- `ArgumentError`;
- `RangeError`, raised by `Integer#chr` outside 0..255;
- `NoMethodError`, raised by arithmetic on nil.

`Decimal` and `Chars` model the Ruby built-ins the codec relies on:

- `Integer#to_s`;
- `String#to_i` on digit text;
- `String#rjust`;
- `getbyte`;
- `Integer#chr`.

A character's byte is its code point. Every text the two formats accept is
ASCII, so this is exact for those texts.

Ruby's `/` and `%` floor, while Dafny's are Euclidean. Every divisor in the
codec (10, 23, 27) is positive, and for a positive divisor the two agree.

The prefix encoding clamps a byte below `@` to 0, in either position, and
the decoding does not undo this. The model keeps that asymmetry and proves it
for the first byte (`Prefixes.ClampAsymmetry`) and for the second
(`Prefixes.SecondByteClamp`: "A1" encodes as 27, which decodes as "A@"). It
does not correct it.

## Model

| member | source | states |
|---|---|---|
| Formats.MatchHuman | lib/sanger_barcode_format/constants.rb:25-27 | a text matches the human format exactly when it is two upper-case letters, 1 to 7 digits and at most one upper-case letter; the three groups then concatenate back to the text |
| Formats.MatchHumanSound | lib/sanger_barcode_format/constants.rb:27 | every match yields a two-letter prefix, a 1-7 digit number and an optional one-letter checksum |
| Formats.MatchHumanComplete | lib/sanger_barcode_format/constants.rb:27 | every text assembled from such parts matches, and its groups are exactly those parts |
| Formats.HumanRejectsLongNumber | lib/sanger_barcode_format/constants.rb:27 | a number of eight or more digits is never accepted (e.g. PR12345678) |
| Formats.MatchMachine | lib/sanger_barcode_format/constants.rb:29-33 | a text matches the machine format exactly when it is 12 or 13 digits; the groups are the (length-10)-digit prefix, 7 number digits, 2 checksum digits and 1 EAN digit, concatenating back to the text |
| Formats.FormatsDisjoint | lib/sanger_barcode_format/constants.rb:27-33 | no text matches both formats |
| Chars.Chr | lib/sanger_barcode_format/prefix.rb:77 | `chr` succeeds exactly on 0..255 and gives the character with that byte; otherwise RangeError |
| Decimal.NatToSLength | lib/sanger_barcodeable/sanger_barcode.rb:26 | the decimal text of n has at most k digits exactly when n < 10^k, which is the length test `valid?` makes |
| Decimal.PadDigitsValue | lib/sanger_barcodeable/shared_barcode.rb:52-54 | `to_i` of a zero-padded field gives back the number that was written into it |
| Decimal.PadDigitsOfNatToS | lib/sanger_barcode_format/prefix.rb:48-52 | left-padding the decimal text with '0' gives the fixed-width digit field |
| Decimal.PadDigitsSplit | lib/sanger_barcodeable/shared_barcode.rb:98 | place value: a*10^k + b written in j+k digits is a in j digits followed by b in k digits |
| Prefixes.New | lib/sanger_barcode_format/prefix.rb:32-36 | BarcodeError exactly when neither form is supplied; otherwise both supplied forms are kept |
| Prefixes.FromHuman | lib/sanger_barcode_format/prefix.rb:9-11 | the prefix's human form is the text it was built from |
| Prefixes.FromMachine | lib/sanger_barcode_format/prefix.rb:17-19 | the prefix's machine form is the numeral it was built from |
| Prefixes.FromInput | lib/sanger_barcode_format/prefix.rb:21-36 | a Prefix is returned unchanged; text becomes a prefix whose human form is that text; nil goes to `from_human` and fails with BarcodeError, the only failure |
| Prefixes.CalculateMachine | lib/sanger_barcode_format/prefix.rb:70-74 | NoMethodError exactly when the text has fewer than two characters; otherwise a non-negative numeral, in 28..728 for two upper-case letters |
| Prefixes.CalculateHuman | lib/sanger_barcode_format/prefix.rb:76-78 | succeeds exactly when the quotient byte is in range (-64*27 <= m < 192*27), and then gives two characters |
| Prefixes.AboveZero | lib/sanger_barcode_format/prefix.rb:81-83 | the larger of the value and 0 |
| Prefixes.Machine | lib/sanger_barcode_format/prefix.rb:41-43 | the stored numeral when there is one; otherwise the encoded human form, which fails with NoMethodError exactly when the text has fewer than two characters and lies in 28..728 for two upper-case letters |
| Prefixes.Human | lib/sanger_barcode_format/prefix.rb:57-59 | the stored text when there is one; otherwise two decoded characters, failing with RangeError exactly when the numeral is outside -64*27 <= m < 192*27 |
| Prefixes.MachineS | lib/sanger_barcode_format/prefix.rb:48-52 | the decimal machine form, left-padded with '0' to at least three characters and otherwise unchanged |
| Prefixes.MachineFull | lib/sanger_barcode_format/prefix.rb:64-66 | the machine form times 10^(7+2) |
| Prefixes.LetterValueUpper | lib/sanger_barcode_format/constants.rb:4-6 | an upper-case letter counts 1 ('A') to 26 ('Z'), and adding the offset back gives the letter |
| Prefixes.HumanRoundTrip | lib/sanger_barcode_format/prefix.rb:70-78 | human -> machine -> human is the identity on two upper-case letters |
| Prefixes.MachineRoundTrip | lib/sanger_barcode_format/prefix.rb:70-78 | machine -> human -> machine is the identity on every numeral 0 <= m < 192*27 |
| Prefixes.ClampAsymmetry | lib/sanger_barcode_format/prefix.rb:71-77 | a first byte below '@' encodes as 0 and decodes back as '@' |
| Prefixes.SecondByteClamp | lib/sanger_barcode_format/prefix.rb:72-77 | a second byte below '@' encodes as 0 and decodes back as '@' |
| Prefixes.MachineSField | lib/sanger_barcode_format/prefix.rb:48-52 | for a numeral below 1000, `machine_s` is its three-digit field and reads back as the numeral |
| Prefixes.EncodeExamples | spec/sbcf_sanger_barcode_spec.rb:113-137 | PR encodes to 450, BD to 58, and 58 decodes to BD |
| Prefixes.MachineSExamples | spec/sbcf_sanger_barcode_spec.rb:119-137 | `machine_s` of 58 is "058" and of 450 is "450" |
| Checksums.New | lib/sanger_barcode_format/checksum.rb:46-51 | BarcodeError exactly when neither form is supplied; otherwise both supplied forms are kept |
| Checksums.FromHuman | lib/sanger_barcode_format/checksum.rb:14-16 | the checksum's human form is the text it was built from |
| Checksums.FromMachine | lib/sanger_barcode_format/checksum.rb:22-24 | the checksum's machine form is the value it was built from |
| Checksums.Machine | lib/sanger_barcode_format/checksum.rb:56-58 | the stored value when there is one; otherwise the first byte of the human form, and nil exactly when that form is empty |
| Checksums.Human | lib/sanger_barcode_format/checksum.rb:63-65 | the stored text when there is one; otherwise the one character whose byte is the machine value, failing with RangeError exactly when that value is outside 0..255 |
| Checksums.ReversedWeighting | lib/sanger_barcode_format/checksum.rb:31-37 | weighting the reversed text by 1-based position equals weighting the original text by reverse rank |
| Checksums.Letter | lib/sanger_barcode_format/checksum.rb:31-38 | the letter lies in 'A'..'W', and its byte is the reverse-rank weighted byte sum of prefix + number text, mod 23, plus 65 |
| Checksums.FromPrefixAndNumber | lib/sanger_barcode_format/checksum.rb:31-39 | succeeds exactly when the prefix has a human form; the checksum's human form is the computed letter and its machine form is that letter's byte |
| Checksums.Equal | lib/sanger_barcode_format/checksum.rb:73-77 | ArgumentError against a non-Checksum; the RangeError of the first human form that cannot be derived, this checksum's before the other's; otherwise equal exactly when the human forms are equal |
| Checksums.MachineRoundTrip | lib/sanger_barcode_format/checksum.rb:56-65 | a byte value survives machine -> human -> machine |
| Checksums.HumanRoundTrip | lib/sanger_barcode_format/checksum.rb:56-65 | a one-character human form survives human -> machine -> human |
| Checksums.EqualAcrossForms | lib/sanger_barcode_format/checksum.rb:67-77 | a checksum built from a byte equals the one built from its character, in both directions |
| Checksums.EqualIffSameHuman | lib/sanger_barcode_format/checksum.rb:73-77 | equality holds exactly when the human forms agree, and it is symmetric |
| Checksums.LetterExamples | spec/sanger_barcodable_legacy_spec.rb:14-16 | (PR, 1234) gives 'K' (byte 75) and (BD, 1) gives 'P' (byte 80) |
| Ean13.CheckDigit | lib/sanger_barcode_format/ean.rb:32-42 | the result is a digit that brings the loop's weighted sum up to a multiple of ten |
| Ean13.Calculate | lib/sanger_barcode_format/ean.rb:12-14 | the check digit is at most 9 and brings the weight-3 loop sum up to a multiple of ten; it is 0 for a code of 0 or below, where the loop does not run |
| Ean13.Validate | lib/sanger_barcode_format/ean.rb:21-23 | every code of 0 or below passes, since the loop does not run; for other codes `Ean13.ValidateIffAppended` states what passing means |
| Ean13.ComputeCheckDigit | lib/sanger_barcode_format/ean.rb:32-42 | the while loop, as written, computes the check digit |
| Ean13.ReducedSumAgrees | lib/sanger_barcode_format/ean.rb:36-40 | reducing each weighted digit mod 10 leaves the sum mod 10 unchanged |
| Ean13.CalculateIsStandard | lib/sanger_barcode_format/ean.rb:32-42 | `calculate` is the GS1 check digit: ten minus the plain 3-1-weighted digit sum, mod 10 |
| Ean13.ValidateAppended | lib/sanger_barcode_format/ean.rb:12-23 | for every code >= 0, appending its check digit gives a code that `validate?` accepts |
| Ean13.ValidateOnlyAppended | lib/sanger_barcode_format/ean.rb:21-42 | conversely, every non-negative code that `validate?` accepts ends in the check digit of the code before it |
| Ean13.ValidateIffAppended | lib/sanger_barcode_format/ean.rb:12-42 | for a non-negative code, `validate?` holds exactly when its last digit is `calculate` of the rest |
| Ean13.CalculateExamples | spec/sbcf_sanger_barcode_spec.rb:121-139 | the check digit of 450000123475 is 7, of 58000000180 is 6, and of 0 is 0 |
| Ean13.ValidateRejectsExample | spec/sbcf_sanger_barcode_spec.rb:146-158 | 4500101234757 fails validation |
| Ean13.ValidateAcceptsExamples | spec/sbcf_sanger_barcode_spec.rb:121-138 | 4500001234757 and 580000001806 pass validation |
| SharedBarcode.RestoreLeadingZero | lib/sanger_barcodeable/shared_barcode.rb:45-50 | a twelve-character code gains one leading '0'; any other code is unchanged |
| SharedBarcode.ParseBarcode | lib/sanger_barcodeable/shared_barcode.rb:44-58 | InvalidBarcode exactly when the padded code is not in the machine format; fields already set are kept; parsed fields are within their digit widths |
| SharedBarcode.TwelveDigitsParseAsThirteen | lib/sanger_barcodeable/shared_barcode.rb:45-50 | a twelve-digit code parses exactly as the same code with a leading zero |
| SharedBarcode.CalculateChecksum | lib/sanger_barcodeable/shared_barcode.rb:76-84 | succeeds exactly when the prefix has a human form, and gives the one-letter checksum of prefix and number |
| SharedBarcode.SangerBody | lib/sanger_barcodeable/shared_barcode.rb:96-99 | ArgumentError when the number's text exceeds seven characters; otherwise succeeds exactly when the prefix's forms can be derived |
| SharedBarcode.MachineBarcode | lib/sanger_barcodeable/shared_barcode.rb:87-89 | fails exactly when the body fails, with the same error; otherwise the result without its last digit is the body, and it passes EAN validation when the body is non-negative |
| SharedBarcode.CheckEan | lib/sanger_barcodeable/shared_barcode.rb:26-30 | NoMethodError with no provided barcode; otherwise true exactly when the weight-1 loop over it yields 0 |
| SharedBarcode.SplitBarcode | lib/sanger_barcodeable/shared_barcode.rb:37-39 | the padded prefix numeral, the number and the checksum byte |
| SharedBarcode.SplitHumanBarcode | lib/sanger_barcodeable/shared_barcode.rb:33-35 | the prefix letters, the number text and the checksum letter |
| SharedBarcode.BodyFields | lib/sanger_barcodeable/shared_barcode.rb:96-99 | for two upper-case letters and a number below 10^7, the body is (prefix*10^7 + number)*100 + checksum byte |
| SharedBarcode.MachineBarcodeAssembled | lib/sanger_barcodeable/shared_barcode.rb:87-99 | for two upper-case letters and a short number, the machine barcode is the place-value assembly of prefix numeral (28..728), number, checksum byte (below 100) and EAN digit |
| SharedBarcode.FieldDigits | lib/sanger_barcodeable/shared_barcode.rb:88-98 | such an assembled value, written in thirteen digits, is the four zero-padded fields (3, 7, 2 and 1 digits) side by side |
| SharedBarcode.MachineText | lib/sanger_barcodeable/shared_barcode.rb:45-51 | a value of 12 or 13 digits has decimal text in the machine format, and restoring the lost leading zero gives its thirteen-digit form |
| SharedBarcode.MatchFields | lib/sanger_barcode_format/constants.rb:33 | four digit fields of widths 3, 7, 2 and 1 side by side match the machine format, with exactly those fields as its groups |
| SharedBarcode.ParsePaddedFields | lib/sanger_barcodeable/shared_barcode.rb:44-58 | a code that reads, after restoring its leading zero, as four zero-padded fields parses into exactly the values written there |
| SharedBarcode.MachineBarcodeDigits | lib/sanger_barcodeable/shared_barcode.rb:87-99 | the machine barcode's text lays out as 3 prefix digits, 7 number digits, 2 checksum digits and the EAN digit |
| SharedBarcode.ParseInvertsMachineBarcode | lib/sanger_barcodeable/shared_barcode.rb:44-58 | parsing the machine barcode of (letters, number) gives exactly the prefix numeral, the number and the checksum byte; the prefix reads back as the letters and the checksum as the computed letter; the barcode passes EAN validation |
| SharedBarcode.ParseExample | spec/sbcf_sanger_barcode_spec.rb:136-140 | 580000001806 parses as prefix 58, number 1 and checksum byte 80 |
| SharedBarcode.SplitExample | spec/sanger_barcodable_legacy_spec.rb:7-24 | BD1P's fields split as ("058", 1, 80) and ("BD", "1", "P") |
| SharedBarcode.PRSplitExample | spec/sanger_barcodable_legacy_spec.rb:65-78 | PR1234K's fields split as ("450", 1234, 75) and ("PR", "1234", "K") |
| SangerBarcodes.New | lib/sanger_barcodeable/sanger_barcode.rb:18-23 | BarcodeError exactly when the prefix is nil; otherwise a text prefix is read as a human prefix and a Prefix is kept, a supplied checksum text becomes the checksum's human form, and number and provided barcode are kept |
| SangerBarcodes.ChecksumOf | lib/sanger_barcodeable/sanger_barcode.rb:30-33 | the supplied checksum if any; otherwise the letter computed from prefix and number |
| SangerBarcodes.Valid | lib/sanger_barcodeable/sanger_barcode.rb:25-28 | false whenever the number's text exceeds seven characters; true exactly when the number is short and the checksum's human form equals the computed letter |
| SangerBarcodes.CheckEan | lib/sanger_barcodeable/sanger_barcode.rb:35-39 | NoMethodError with no provided barcode; otherwise EAN validation of the provided barcode |
| SangerBarcodes.Body | lib/sanger_barcodeable/sanger_barcode.rb:89-92 | ArgumentError when the number's text exceeds seven characters |
| SangerBarcodes.MachineBarcode | lib/sanger_barcodeable/sanger_barcode.rb:80-82 | defined exactly when the body is; the body followed by a check digit that passes EAN validation |
| SangerBarcodes.HumanBarcode | lib/sanger_barcodeable/sanger_barcode.rb:84-86 | a human barcode only for a valid barcode; nil for one that is not valid (lib/sanger_barcodeable/shared_barcode.rb:91-93 is the same method) |
| SangerBarcodes.ValidWithoutSuppliedChecksum | lib/sanger_barcodeable/sanger_barcode.rb:25-33 | for any prefix input with a human form (letters or a machine-read Prefix), a barcode without a supplied checksum is valid exactly when the number's text has at most seven characters |
| SangerBarcodes.ValidIffShortNumber | lib/sanger_barcodeable/sanger_barcode.rb:25-28 | for a non-negative number, that is exactly number < 10^7 |
| SangerBarcodes.ValidWithSuppliedChecksum | lib/sanger_barcodeable/sanger_barcode.rb:25-28 | for any prefix input with a human form, a supplied checksum is valid exactly when the number is short enough and the checksum is the letter computed from the prefix's human form |
| SangerBarcodes.ValidWithUnreadablePrefix | lib/sanger_barcodeable/sanger_barcode.rb:25-28 | a prefix without a human form makes `valid?` raise the prefix's error, unless the number is too long, when it is false |
| SangerBarcodes.MachineReadMismatchExample | lib/sanger_barcodeable/sanger_barcode.rb:25-28 | a barcode with machine-read prefix 450, number 1234 and supplied checksum X is not valid |
| SangerBarcodes.HumanBarcodeOfValid | lib/sanger_barcodeable/sanger_barcode.rb:84-86 | a valid barcode's human barcode is prefix letters + number text + computed letter; the human barcode is nil exactly when the barcode is not valid |
| SangerBarcodes.HumanBarcodeMatches | lib/sanger_barcodeable/sanger_barcode.rb:84-86 | the human barcode of (letters, short number) matches the human format, with groups exactly the letters, the number text and the checksum letter |
| SangerBarcodes.SamePrefixFormsSameDerivation | lib/sanger_barcodeable/shared_barcode.rb:76-99 | checksum, body and machine barcode depend on the prefix only through its two forms |
| SangerBarcodes.MachineBarcodeRoundTrip | lib/sanger_barcodeable/shared_barcode.rb:44-99 | a barcode rebuilt from its parsed machine barcode is valid, passes `check_EAN`, and has the same human and machine barcodes |
| SangerBarcodes.RebuiltFromMachineRead | lib/sanger_barcodeable/sanger_barcode.rb:18-33 | a barcode rebuilt from the machine numeral of the letters, the number and the computed letter is valid and has the same human and machine barcodes as the one built from the letters |
| SangerBarcodes.SplitsOfMachineBarcode | lib/sanger_barcodeable/sanger_barcode.rb:42-48 | for the fields parsed from the machine barcode of (letters, short number): the human split concatenates to the human barcode, and the machine split is the padded prefix numeral, the number and the checksum letter's byte |
| SangerBarcodes.MismatchExample | spec/sbcf_sanger_barcode_spec.rb:146-158 | XX1234 with the supplied checksum X is not valid |
| SangerBarcodes.PRExample | spec/sbcf_sanger_barcode_spec.rb:112-126 | PR/1234 has human barcode PR1234K and machine barcode 4500001234757 |
| SangerBarcodes.SuppliedChecksumExample | spec/sbcf_sanger_barcode_spec.rb:112-126 | PR/1234 with the supplied checksum K is valid |
| SangerBarcodes.BDExample | spec/sbcf_sanger_barcode_spec.rb:129-143 | BD/1 has human barcode BD1P and machine barcode 580000001806 |
| SangerBarcodes.TooLongExample | spec/sbcf_sanger_barcode_spec.rb:161-167 | PR/12345678 is not valid, has no human barcode and raises ArgumentError for its body |
| Builders.FromHuman | lib/sanger_barcode_format/builders.rb:17-19 | forwards the human text, with `checksum_required` false unless given |
| Builders.FromMachine | lib/sanger_barcode_format/builders.rb:27-29 | forwards the machine barcode unchanged |
| Builders.FromPrefixAndNumber | lib/sanger_barcode_format/builders.rb:37-39 | forwards prefix and number unchanged |
| Builders.FromUserInput | lib/sanger_barcode_format/builders.rb:50-59 | human-format text gives a human barcode, machine-format text a machine barcode, anything else the barcode from empty human text; the original input is forwarded and nothing raises |
| Builders.IntegerInputDispatch | lib/sanger_barcode_format/builders.rb:50-59 | an integer gives a machine barcode exactly when it has 12 or 13 digits, and the empty barcode otherwise, negatives included |
| Builders.BlankInputDispatch | spec/sbcf_sanger_barcode_spec.rb:170-174 | nil, "" and "NOT_VALID" give the barcode from empty human text |
| EmptyBarcodes.StripEmptyIffBlank | lib/sanger_barcode_format/empty_barcode.rb:20-22 | stripping leaves nothing exactly when every character is whitespace |
| EmptyBarcodes.Matches | lib/sanger_barcode_format/empty_barcode.rb:20-22 | true for nil; for text, true exactly when every character is whitespace; NoMethodError for an object without `strip` |
| EmptyBarcodes.Equals | lib/sanger_barcode_format/empty_barcode.rb:29-31 | true exactly when the other object is an EmptyBarcode, so no barcode equals one (`EmptyBarcodes.NeverEqualsABarcode` spells this out for spec/sbcf_empty_barcode_spec.rb:9-13) |
| EmptyBarcodes.ToS | lib/sanger_barcode_format/empty_barcode.rb:37-39 | always "[empty]" |
| EmptyBarcodes.Examples | spec/sbcf_empty_barcode_spec.rb:15-29 | nil, "" and blank text match, "other" does not, and two EmptyBarcodes are equal |

## Left out

- The current `SBCF::SangerBarcode` class is not part of this model. Its constructor, `==`, `=~`, `to_s` and `checksum_required` handling are therefore not modelled. `Builders` returns the constructor call it would make (`Request`) rather than a barcode.
- The human form of a barcode is never parsed into prefix, number and checksum, because that parser belongs to the same class. The human format itself is modelled in `Formats`.
- `ChecksumRequired` and `InvalidBarcodeOperation` are declared but never raised, because only the class above raises them.
- Memoisation with `||=` is not modelled; derived values are pure functions. As a result, the sharing of the `@machine_barcode` slot between `human_barcode` and `machine_barcode` (lib/sanger_barcodeable/sanger_barcode.rb:10-16) is not reproduced. In the source, whichever is read first with a non-nil result answers for both; a nil human barcode or a raised ArgumentError leaves the slot unset.
- SangerBarcodes.Valid: `valid?` never checks the EAN digit of a machine-read barcode (lib/sanger_barcodeable/sanger_barcode.rb:25-28), and neither does the model; `check_EAN` is the separate operation `SangerBarcodes.CheckEan`.
- SangerBarcodes.New: `number.to_i` and `machine_barcode.to_i` on arbitrary objects are not modelled, and the number and machine barcode are taken as integers. `String#to_i` is modelled only on digit text, which is all the parser hands it.
- Builders.FromPrefixAndNumber: the number is forwarded as nil, text or integer. Its coercion happens in the constructor, which is outside this model.
- Characters outside ASCII are not modelled: a character's byte is its code point, whereas Ruby would count a multi-byte character's bytes separately.
- EmptyBarcodes.Matches: whitespace is the fixed set `strip` removes from ASCII text (null, tab, line feed, vertical tab, form feed, carriage return, space).
- The older `sanger_barcodeable` revisions of prefix, checksum, builders and constants, `classes_to_organize.rb` and both `legacy_methods.rb` layers are not modelled. They duplicate the modelled formulas or only forward to them and translate exceptions. Their `human[0]-64` and `human[0]` give a byte only under Ruby 1.8, where indexing a string yields an integer; the modelled `getbyte` forms are what they meant.
- Names that the older `sanger_barcodeable` files use without defining are bound to the lib/sanger_barcode_format definitions. `MachineBarcodeFormat` (lib/sanger_barcodeable/shared_barcode.rb:51) is defined nowhere, and the model uses `MACHINE_BARCODE_FORMAT`. `CHECKSUM_ASCII_OFFSET` (lib/sanger_barcodeable/shared_barcode.rb:83) is absent from the older constants, and the model uses 65 from lib/sanger_barcode_format/constants.rb. `Prefix` and `Checksum` are the lib/sanger_barcode_format classes, because the older prefix file declares the misspelt module `SangerBarcodable`.
- The accessors `prefix`, `number` and `checksum` (lib/sanger_barcodeable/shared_barcode.rb:8-24) are not modelled as separate members. Each calls `parse_barcode` only while its own field is unset. `SharedBarcode.ParseBarcode` takes the already-known fields as arguments and keeps them, which is what these accessors produce once the machine barcode parses. When it does not, `ParseBarcode` fails with InvalidBarcode even if the field asked for was already set, whereas the accessor for a set field never parses and does not fail.
