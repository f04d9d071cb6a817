/** The class-level builders: each forwards its arguments to the barcode
    constructor, and `from_user_input` picks the constructor by the shape of
    the input's text. The constructor itself is described by `Request`, the
    call a builder makes.
 */
module Builders {
  import opened Errors
  import opened Decimal
  import opened Formats
  import Prefixes

  /** What a caller may hand to a builder: nil, a string or an integer. */
  datatype UserInput = NilInput | TextInput(text: string) | IntegerInput(value: int)

  /** `to_s` of a user input. */
  function InputText(input: UserInput): string {
    match input
    case NilInput => ""
    case TextInput(text) => text
    case IntegerInput(value) => IntToS(value)
  }

  /** A call of the barcode constructor with its keyword arguments; an absent
      `checksum_required` leaves the constructor's own default in force. */
  datatype Request =
    | HumanRequest(human: UserInput, checksumRequired: Option<bool>)
    | MachineRequest(machine: UserInput)
    | PrefixAndNumberRequest(prefix: Prefixes.PrefixInput, number: UserInput)

  /** `from_human`: `checksum_required` defaults to false. */
  function FromHuman(human: string, checksumRequired: bool := false): (r: Request)
    ensures r.HumanRequest? && r.human == TextInput(human)
    ensures r.checksumRequired == Some(checksumRequired)
  {
    HumanRequest(TextInput(human), Some(checksumRequired))
  }

  /** `from_machine`: the argument is forwarded as it is. */
  function FromMachine(machine: UserInput): (r: Request)
    ensures r.MachineRequest? && r.machine == machine
  {
    MachineRequest(machine)
  }

  /** `from_prefix_and_number`: both arguments are forwarded as they are. */
  function FromPrefixAndNumber(prefix: Prefixes.PrefixInput, number: UserInput): (r: Request)
    ensures r.PrefixAndNumberRequest? && r.prefix == prefix && r.number == number
  {
    PrefixAndNumberRequest(prefix, number)
  }

  /** `from_user_input`: the human format is tried first, then the machine
      format; anything else becomes a barcode from the empty human text. The
      original input, not its text, is forwarded. It never raises. Because
      the two formats exclude each other, the order of the tests does not
      matter. */
  function FromUserInput(input: UserInput): (r: Request)
    ensures HumanFormat(InputText(input)) ==> r == HumanRequest(input, None)
    ensures MachineFormat(InputText(input)) ==> r == MachineRequest(input)
    ensures !HumanFormat(InputText(input)) && !MachineFormat(InputText(input)) ==>
              r == HumanRequest(TextInput(""), None)
  {
    var text := InputText(input);
    FormatsDisjoint(text);
    if HumanFormat(text) then HumanRequest(input, None)
    else if MachineFormat(text) then MachineRequest(input)
    else HumanRequest(TextInput(""), None)
  }

  /** An integer goes to the machine constructor exactly when it has 12 or 13
      digits; every other integer, negative ones included, becomes the empty
      human barcode. */
  lemma {:induction false} IntegerInputDispatch(value: int)
    ensures FromUserInput(IntegerInput(value))
            == if Pow10(11) <= value < Pow10(13) then MachineRequest(IntegerInput(value))
               else HumanRequest(TextInput(""), None)
  {
    var text := IntToS(value);
    if value < 0 {
      assert !IsDigit(text[0]) && !IsUpper(text[0]);
    } else {
      assert !IsUpper(text[0]);
      NatToSLength(value, 11);
      NatToSLength(value, 12);
      NatToSLength(value, 13);
    }
  }

  /** nil, the empty string and text of neither format become the empty
      human barcode. */
  lemma BlankInputDispatch()
    ensures FromUserInput(NilInput) == HumanRequest(TextInput(""), None)
    ensures FromUserInput(TextInput("")) == HumanRequest(TextInput(""), None)
    ensures FromUserInput(TextInput("NOT_VALID")) == HumanRequest(TextInput(""), None)
  {
    assert !IsDigit("NOT_VALID"[0]) && !IsDigit("NOT_VALID"[2]);
  }
}
