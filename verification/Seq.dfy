/** Packet sequence numbering: numbers that wrap at 8 or 128, and the window of
    packets that may be sent before an acknowledgement (`seq.rs`). The numbers
    are bytes; beside them each window carries the totals they stand for. */
module Seq {
  import opened Wrappers

  datatype Modulo = Normal | Extended {
    function Size(): Byte {
      match this
      case Normal => 8
      case Extended => 128
    }
  }

  /** The next number. The sum is a byte, so it must not overflow. */
  function NextSeq(num: Byte, modulo: Modulo): Byte
    requires num < 255
  {
    var sum: Byte := num + 1;
    sum % modulo.Size()
  }

  lemma NextSeqCounts(total: nat, modulo: Modulo)
    ensures NextSeq(total % modulo.Size(), modulo) == (total + 1) % modulo.Size()
  {
    match modulo
    case Normal =>
    case Extended =>
  }

  predicate IsSeqInRange(num: Byte, start: Byte, end: Byte, modulo: Modulo) {
    if num > modulo.Size() - 1 then false
    else if start == end && num == start then true
    else if start < end && num >= start && num <= end then true
    else if start > end && (num >= start || num <= end) then true
    else false
  }

  lemma Remainder8(x: int, q: int)
    requires 0 <= x - 8 * q < 8
    ensures x % 8 == x - 8 * q
  {
  }

  lemma Remainder128(x: int, q: int)
    requires 0 <= x - 128 * q < 128
    ensures x % 128 == x - 128 * q
  {
  }

  /** The least total, at or after `base`, that the number `num` can stand for. */
  function Total(base: nat, num: Byte, modulo: Modulo): (total: nat)
    ensures base <= total < base + modulo.Size()
    ensures num < modulo.Size() ==> total % modulo.Size() == num
  {
    match modulo
    case Normal =>
      Remainder8(base + (num - base) % 8, num / 8 - (num - base) / 8);
      base + (num - base) % 8
    case Extended =>
      Remainder128(base + (num - base) % 128, num / 128 - (num - base) / 128);
      base + (num - base) % 128
  }

  /** Within one cycle after `base`, a number determines its total. */
  lemma TotalIsUnique(base: nat, total: nat, num: Byte, modulo: Modulo)
    requires base <= total < base + modulo.Size()
    requires total % modulo.Size() == num
    ensures Total(base, num, modulo) == total
  {
    match modulo
    case Normal => Remainder8(num - base, -(total / 8));
    case Extended => Remainder128(num - base, -(total / 128));
  }

  /** A number can acknowledge packets exactly when the total it stands for is
      one that has been sent. */
  predicate CanAcknowledge(acked: nat, sent: nat, num: Byte, modulo: Modulo) {
    num < modulo.Size() && Total(acked, num, modulo) <= sent
  }

  /** How far one number lies after another on the cycle. */
  function Distance(from: Byte, to: Byte, modulo: Modulo): int {
    if to >= from then to - from else to - from + modulo.Size()
  }

  lemma TotalByDistance(base: nat, num: Byte, modulo: Modulo)
    requires num < modulo.Size()
    ensures Total(base, num, modulo) == base + Distance(base % modulo.Size(), num, modulo)
  {
    match modulo
    case Normal => Remainder8(num - base, if num >= base % 8 then -(base / 8) else -(base / 8) - 1);
    case Extended => Remainder128(num - base, if num >= base % 128 then -(base / 128) else -(base / 128) - 1);
  }

  lemma SpanByDistance(base: nat, total: nat, modulo: Modulo)
    requires base <= total < base + modulo.Size()
    ensures total == base + Distance(base % modulo.Size(), total % modulo.Size(), modulo)
  {
    TotalIsUnique(base, total, total % modulo.Size(), modulo);
    TotalByDistance(base, total % modulo.Size(), modulo);
  }

  /** The comparison of wrapped numbers decides whether exactly one total between
      `acked` and `sent` has the number `num`. */
  lemma RangeTestIsExact(acked: nat, sent: nat, num: Byte, modulo: Modulo)
    requires acked <= sent < acked + modulo.Size()
    ensures IsSeqInRange(num, acked % modulo.Size(), sent % modulo.Size(), modulo)
       <==> CanAcknowledge(acked, sent, num, modulo)
    ensures CanAcknowledge(acked, sent, num, modulo)
       <==> exists k :: acked <= k <= sent && k % modulo.Size() == num
    ensures forall j, k | acked <= j <= sent && acked <= k <= sent
                          && j % modulo.Size() == num && k % modulo.Size() == num :: j == k
  {
    SpanByDistance(acked, sent, modulo);
    if num < modulo.Size() {
      TotalByDistance(acked, num, modulo);
      assert Total(acked, num, modulo) % modulo.Size() == num;
    }
    forall k | acked <= k <= sent && k % modulo.Size() == num
      ensures Total(acked, num, modulo) == k
    {
      TotalIsUnique(acked, k, num, modulo);
    }
  }

  /** A window is open exactly when fewer than `size` packets are unacknowledged. */
  lemma OpenTestIsExact(acked: nat, sent: nat, size: nat, modulo: Modulo)
    requires 0 < size < modulo.Size()
    requires acked <= sent <= acked + size
    ensures sent % modulo.Size() != (acked % modulo.Size() + size) % modulo.Size()
       <==> sent - acked < size
  {
    match modulo
    case Normal =>
    case Extended =>
  }

  class Window {
    var start: Byte
    const size: Byte
    const modulo: Modulo
    var current: Byte

    ghost var acked: nat
    ghost var sent: nat

    ghost predicate Valid()
      reads this
    {
      && 0 < size < modulo.Size()
      && acked <= sent <= acked + size
      && start == acked % modulo.Size()
      && current == sent % modulo.Size()
    }

    constructor (size: Byte, modulo: Modulo)
      requires 0 < size < modulo.Size()
      ensures Valid()
      ensures this.size == size && this.modulo == modulo
      ensures acked == 0 && sent == 0
    {
      this.start := 0;
      this.size := size;
      this.modulo := modulo;
      this.current := 0;
      this.acked := 0;
      this.sent := 0;
    }

    predicate IsOpen()
      requires Valid()
      reads this
      ensures IsOpen() <==> sent - acked < size
    {
      OpenTestIsExact(acked, sent, size, modulo);
      var sum: Byte := start + size;
      current != sum % modulo.Size()
    }

    function Next(): (num: Byte)
      requires Valid()
      reads this
      ensures num == sent % modulo.Size()
    {
      current
    }

    method Incr() returns (ok: bool)
      requires Valid()
      modifies this
      ensures Valid()
      ensures ok <==> old(sent - acked) < size
      ensures acked == old(acked)
      ensures sent == if ok then old(sent) + 1 else old(sent)
    {
      if !IsOpen() {
        return false;
      }
      NextSeqCounts(sent, modulo);
      current := NextSeq(current, modulo);
      sent := sent + 1;
      return true;
    }

    /** Acknowledges up to `num`: refused unless exactly one total that has been
        sent and not yet acknowledged past has that number. */
    method UpdateStart(num: Byte) returns (ok: bool)
      requires Valid()
      modifies this
      ensures Valid()
      ensures ok <==> exists k :: old(acked) <= k <= sent && k % modulo.Size() == num
      ensures ok <==> CanAcknowledge(old(acked), sent, num, modulo)
      ensures sent == old(sent)
      ensures acked == if ok then Total(old(acked), num, modulo) else old(acked)
    {
      RangeTestIsExact(acked, sent, num, modulo);
      if !IsSeqInRange(num, start, current, modulo) {
        return false;
      }
      start := num;
      acked := Total(acked, num, modulo);
      return true;
    }
  }
}
