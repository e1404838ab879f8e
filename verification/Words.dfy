/** Machine words of the EVM, checked arithmetic, and the shape of a call that may revert. */
module Words {

  const TWO_256: int := 0x1_0000_0000_0000_0000_0000_0000_0000_0000_0000_0000_0000_0000_0000_0000_0000_0000
  const TWO_255: int := 0x8000_0000_0000_0000_0000_0000_0000_0000_0000_0000_0000_0000_0000_0000_0000_0000
  const MAX_UINT256: int := TWO_256 - 1
  const MAX_INT256: int := TWO_255 - 1

  type uint256 = x: int | 0 <= x < TWO_256
  type int256 = x: int | -TWO_255 <= x < TWO_255

  /** 23 hours, the least time between two price updates of either oracle. */
  const MIN_PRICE_UPDATE_WINDOW: nat := 82800

  /** 100% in basis points. */
  const BPS_DENOMINATOR: nat := 10000

  /** Account addresses; 0 is the zero address. */
  type Address = nat

  /** `None` is a call that reverts; `Some` carries the state or value it leaves behind. */
  datatype Option<+T> = None | Some(value: T) {
    predicate IsFailure() { None? }

    function PropagateFailure<U>(): Option<U>
      requires None?
    {
      None
    }

    function Extract(): T
      requires Some?
    {
      value
    }
  }

  /** `require(condition)`. */
  function Require(condition: bool): Option<()> {
    if condition then Some(()) else None
  }

  /** Result of a checked unsigned operation: reverts outside 256 bits. */
  function Unsigned(x: int): Option<uint256> {
    if 0 <= x < TWO_256 then Some(x) else None
  }

  /** Result of a checked signed operation. */
  function Signed(x: int): Option<int256> {
    if -TWO_255 <= x < TWO_255 then Some(x) else None
  }

  /** The cast `uint256(x)`: two's complement. */
  function ToUnsigned(x: int256): uint256 {
    if x < 0 then x + TWO_256 else x
  }

  /** The cast `int256(x)`. */
  function ToSigned(x: uint256): int256 {
    if x < TWO_255 then x else x - TWO_256
  }

  /** What a method that models an external call does to an object's abstract state:
      it ends in the state `spec` prescribes, or reverts and leaves the state as it was. */
  ghost predicate Transacts<S>(ok: bool, before: S, after: S, spec: Option<S>) {
    match spec
    case Some(next) => ok && after == next
    case None => !ok && after == before
  }
}
