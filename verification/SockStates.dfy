/** The flags of TCPListener::SockState and the three operators defined on them. */
module SockStates {

  /** One Boolean per enumerator: New = 1, Read = 2, Shut = 4. */
  datatype SockState = SockState(isNew: bool, isRead: bool, isShut: bool)

  const NONE := SockState(false, false, false)
  const NEW := SockState(true, false, false)
  const READ := SockState(false, true, false)
  const SHUT := SockState(false, false, true)

  /** operator|= */
  function Or(a: SockState, b: SockState): SockState {
    SockState(a.isNew || b.isNew, a.isRead || b.isRead, a.isShut || b.isShut)
  }

  /** operator^= */
  function Xor(a: SockState, b: SockState): SockState {
    SockState(a.isNew != b.isNew, a.isRead != b.isRead, a.isShut != b.isShut)
  }

  /** Every flag of a is also a flag of b. */
  predicate Within(a: SockState, b: SockState) {
    (a.isNew ==> b.isNew) && (a.isRead ==> b.isRead) && (a.isShut ==> b.isShut)
  }

  /** The integer behind the enumeration. */
  function Bits(s: SockState): bv8 {
    (if s.isNew then 1 else 0) | (if s.isRead then 2 else 0) | (if s.isShut then 4 else 0)
  }

  /** The record operations are the bitwise operators on the underlying integers. */
  lemma OperatorsAreBitwise(a: SockState, b: SockState)
    ensures Bits(Or(a, b)) == Bits(a) | Bits(b)
    ensures Bits(Xor(a, b)) == Bits(a) ^ Bits(b)
    ensures a.isNew <==> Bits(a) & Bits(NEW) != 0
    ensures a.isRead <==> Bits(a) & Bits(READ) != 0
    ensures a.isShut <==> Bits(a) & Bits(SHUT) != 0
  {
  }

  /** Exclusive-or clears flags, and sets none, exactly when its right operand is contained in its left one. */
  lemma XorOnlyClears(a: SockState, b: SockState)
    ensures Within(Xor(a, b), a) <==> Within(b, a)
    ensures Within(b, a) ==> Or(Xor(a, b), b) == a
  {
  }
}
