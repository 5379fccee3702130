/** PAD parameters of ITU-T X.3 (`x3.rs`): the values each parameter may take, and
    what they mean. Bits of a value are taken by division. */
module X3 {
  import opened Wrappers

  datatype ParamError = Unsupported | InvalidValue | Other

  type Echo = v: Byte | v <= 1
  type Forward = v: Byte | v <= 127
  type Idle = Byte
  type LfInsert = v: Byte | v <= 7
  type Editing = v: Byte | v <= 1

  const CR: Byte := 0x0d
  const LF: Byte := 0x0a

  function Bit(value: Byte, weight: nat): bool
    requires weight > 0
  {
    value / weight % 2 == 1
  }

  predicate IsAsciiAlphanumeric(byte: Byte) {
    0x30 <= byte <= 0x39 || 0x41 <= byte <= 0x5a || 0x61 <= byte <= 0x7a
  }

  /** Does typing `byte` send off what has been typed? */
  predicate IsMatch(forward: Forward, byte: Byte) {
    || (Bit(forward, 1) && IsAsciiAlphanumeric(byte))
    || (Bit(forward, 2) && byte == CR)
    || (Bit(forward, 4) && byte in {0x1b, 0x07, 0x05, 0x06})
    || (Bit(forward, 8) && byte in {0x7f, 0x18, 0x12})
    || (Bit(forward, 16) && byte in {0x04, 0x03})
    || (Bit(forward, 32) && byte in {0x09, 0x0a, 0x0b, 0x0c})
    || (Bit(forward, 64) && byte in {0x00, 0x01, 0x02, 0x08, 0x0e, 0x0f, 0x10, 0x11, 0x13, 0x14,
                                     0x15, 0x16, 0x17, 0x19, 0x1a, 0x1c, 0x1d, 0x1e, 0x1f})
  }

  /** The weight of the bit that forwards a byte, if any does. */
  function ClassOf(byte: Byte): Option<Forward> {
    if IsAsciiAlphanumeric(byte) then Some(1)
    else if byte == CR then Some(2)
    else if byte in {0x1b, 0x07, 0x05, 0x06} then Some(4)
    else if byte in {0x7f, 0x18, 0x12} then Some(8)
    else if byte in {0x04, 0x03} then Some(16)
    else if 0x09 <= byte <= 0x0c then Some(32)
    else if byte < 0x20 then Some(64)
    else None
  }

  /** The classes are disjoint: a byte forwards exactly if the bit of its one class is
      set. They hold the letters, the digits, the two control columns and DEL. */
  lemma ForwardClasses(byte: Byte)
    ensures forall forward: Forward ::
              IsMatch(forward, byte) <==> ClassOf(byte).Some? && Bit(forward, ClassOf(byte).value)
    ensures ClassOf(byte).Some? <==> IsAsciiAlphanumeric(byte) || byte < 0x20 || byte == 0x7f
    ensures ClassOf(byte).Some? ==> ClassOf(byte).value in {1, 2, 4, 8, 16, 32, 64}
  {
  }

  predicate AfterRecv(lfInsert: LfInsert, byte: Byte) {
    byte == CR && Bit(lfInsert, 1)
  }

  predicate AfterSend(lfInsert: LfInsert, byte: Byte) {
    byte == CR && Bit(lfInsert, 2)
  }

  predicate AfterEcho(lfInsert: LfInsert, byte: Byte) {
    byte == CR && Bit(lfInsert, 4)
  }

  /** When a line feed is inserted: the values of the parameter that ask for it, in each
      direction, are 1, 3, 5, 7 on receipt, 2, 3, 6, 7 in what is sent and 4 to 7 in the
      echo. */
  lemma LfInsertValues(lfInsert: LfInsert, byte: Byte)
    ensures AfterRecv(lfInsert, byte) <==> byte == 0x0d && lfInsert % 2 == 1
    ensures AfterSend(lfInsert, byte) <==> byte == 0x0d && lfInsert % 4 >= 2
    ensures AfterEcho(lfInsert, byte) <==> byte == 0x0d && lfInsert >= 4
  {
  }

  /** The idle delay in milliseconds, if there is one. */
  function IdleDelay(idle: Idle): Option<nat> {
    if idle == 0 then None else Some(idle * 50)
  }
}
