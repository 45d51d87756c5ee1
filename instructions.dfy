/**
 * The HD44780 instruction words the driver issues on the instruction
 * register, as laid out in the controller's instruction table: the position
 * of the highest set bit selects the instruction and the bits below it carry
 * its flags or address.
 */
module Instructions {
  import opened Wrappers
  import opened Bits

  datatype Instruction =
    | ClearDisplay
    | ReturnHome
    | EntryModeSet(decrement: bool, displayShift: bool)
    | DisplayControl(displayOn: bool, cursorOn: bool, blinkOn: bool)
    | FunctionSet(dataLength8Bits: bool, twoLineDisplay: bool, font5x10: bool)
    | SetDdramAddress(address: int)

  /** An instruction whose fields fit its word: a DDRAM address has seven bits. */
  predicate Encodable(i: Instruction)
  {
    i.SetDdramAddress? ==> 0 <= i.address <= 0x7F
  }

  /**
   * The eight-bit word of an instruction. Entry-mode bit 1 is set for
   * increment, the opposite of the `decrement` flag; function-set bits 1 and 0
   * are always clear.
   */
  function Encode(i: Instruction): (w: nat)
    requires Encodable(i)
    ensures w < 256
  {
    match i
    case ClearDisplay => 0x01
    case ReturnHome => 0x02
    case EntryModeSet(decrement, displayShift) => 0x04 + 2 * Digit(!decrement) + Digit(displayShift)
    case DisplayControl(displayOn, cursorOn, blinkOn) => 0x08 + 4 * Digit(displayOn) + 2 * Digit(cursorOn) + Digit(blinkOn)
    case FunctionSet(dataLength8Bits, twoLineDisplay, font5x10) =>
      0x20 + 16 * Digit(dataLength8Bits) + 8 * Digit(twoLineDisplay) + 4 * Digit(font5x10)
    case SetDdramAddress(address) => 0x80 + address
  }

  /**
   * The instruction a word stands for, read from its highest set bit. Words of
   * instructions the driver never issues (cursor or display shift, set CGRAM
   * address, function set with its low bits set, return home with bit 0 set)
   * and zero decode to None.
   */
  function Decode(w: nat): Option<Instruction>
  {
    if w >= 0x100 then None
    else if w >= 0x80 then Some(SetDdramAddress(w - 0x80))
    else if w >= 0x40 then None
    else if w >= 0x20 then
      if w % 4 == 0 then
        var flags := (w - 0x20) / 4;
        Some(FunctionSet(flags / 4 == 1, flags / 2 % 2 == 1, flags % 2 == 1))
      else None
    else if w >= 0x10 then None
    else if w >= 0x08 then
      var flags := w - 0x08;
      Some(DisplayControl(flags / 4 == 1, flags / 2 % 2 == 1, flags % 2 == 1))
    else if w >= 0x04 then
      var flags := w - 0x04;
      Some(EntryModeSet(flags / 2 == 0, flags % 2 == 1))
    else if w == 0x02 then Some(ReturnHome)
    else if w == 0x01 then Some(ClearDisplay)
    else None
  }

  /** Decoding the word of an instruction gives back the instruction, flags and address included. */
  lemma DecodeEncode(i: Instruction)
    requires Encodable(i)
    ensures Decode(Encode(i)) == Some(i)
  {
    match i
    case FunctionSet(dataLength8Bits, twoLineDisplay, font5x10) =>
      var flags := 4 * Digit(dataLength8Bits) + 2 * Digit(twoLineDisplay) + Digit(font5x10);
      assert Encode(i) == 0x20 + 4 * flags;
    case _ =>
  }

  /** Three flag bits are recovered from their value by halving. */
  lemma ThreeFlags(flags: nat)
    requires flags < 8
    ensures flags == 4 * Digit(flags / 4 == 1) + 2 * Digit(flags / 2 % 2 == 1) + Digit(flags % 2 == 1)
  {
  }

  /** Every word that decodes is the encoding of what it decodes to. */
  lemma EncodeDecode(w: nat)
    requires Decode(w).Some?
    ensures Encodable(Decode(w).value) && Encode(Decode(w).value) == w
  {
    if w >= 0x80 {
      assert Decode(w) == Some(SetDdramAddress(w - 0x80));
    } else if w >= 0x20 {
      var flags := (w - 0x20) / 4;
      ThreeFlags(flags);
      assert Decode(w) == Some(FunctionSet(flags / 4 == 1, flags / 2 % 2 == 1, flags % 2 == 1));
    } else if w >= 0x08 {
      var flags := w - 0x08;
      ThreeFlags(flags);
      assert Decode(w) == Some(DisplayControl(flags / 4 == 1, flags / 2 % 2 == 1, flags % 2 == 1));
    } else if w >= 0x04 {
      var flags := w - 0x04;
      assert Decode(w) == Some(EntryModeSet(flags / 2 == 0, flags % 2 == 1));
    }
  }

  /** The words the driver's commands produce with their default arguments. */
  lemma DefaultWords()
    ensures Encode(EntryModeSet(false, false)) == 0x06
    ensures Encode(EntryModeSet(true, true)) == 0x05
    ensures Encode(DisplayControl(true, false, false)) == 0x0C
    ensures Encode(FunctionSet(true, false, false)) == 0x30
    ensures Encode(FunctionSet(true, true, false)) == 0x38
    ensures Encode(SetDdramAddress(0)) == 0x80
  {
  }
}
