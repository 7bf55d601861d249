/*
 * The 5-byte pipe address value type of the driver (class `address`).
 */
module Addresses {
  import opened Definitions

  /** Exactly five bytes: an address is never shorter, longer or partly set. */
  type AddressBytes = s: seq<byte> | |s| == 5 witness [0, 0, 0, 0, 0]

  datatype Address = Address(bytes: AddressBytes)

  /** Constructor from a byte buffer: copies the first five bytes one by one. */
  method FromArray(byteAddress: array<byte>) returns (a: Address)
    requires byteAddress.Length >= 5
    ensures a.bytes == byteAddress[..5]
  {
    var buffer := new byte[5](_ => 0);
    for i := 0 to 5
      invariant forall k :: 0 <= k < i ==> buffer[k] == byteAddress[k]
    {
      buffer[i] := byteAddress[i];
    }
    a := Address(buffer[..]);
  }

  /** The empty address. */
  function Zero(): (a: Address)
    ensures forall k :: 0 <= k < 5 ==> a.bytes[k] == 0
  {
    Address([0, 0, 0, 0, 0])
  }

  /** Constructor from five separate bytes, first byte first. */
  function Of(b1: byte, b2: byte, b3: byte, b4: byte, b5: byte): (a: Address)
    ensures a.bytes[0] == b1 && a.bytes[1] == b2 && a.bytes[2] == b3
    ensures a.bytes[3] == b4 && a.bytes[4] == b5
  {
    Address([b1, b2, b3, b4, b5])
  }

  /** What the base-plus-end constructor produces: base's first four bytes, then `end`. */
  function Derived(base: Address, end: byte): (a: Address)
    ensures forall k :: 0 <= k < 4 ==> a.bytes[k] == base.bytes[k]
    ensures a.bytes[4] == end
  {
    Address(base.bytes[..4] + [end])
  }

  /** Constructor from a base address and a new fifth byte, filled element by element. */
  method FromBase(base: Address, end: byte) returns (a: Address)
    ensures a == Derived(base, end)
  {
    var buffer := new byte[5](_ => 0);
    for i := 0 to 4
      invariant forall k :: 0 <= k < i ==> buffer[k] == base.bytes[k]
      invariant buffer[4] == 0
    {
      buffer[i] := base.bytes[i];
    }
    buffer[4] := end;
    a := Address(buffer[..]);
  }

  /** Full equality: all five bytes pairwise equal. */
  ghost predicate SameBytes(a: Address, b: Address) {
    forall k :: 0 <= k < 5 ==> a.bytes[k] == b.bytes[k]
  }

  /** `operator==(address)`: compares byte by byte and stops at the first difference. */
  method Equals(a: Address, rhs: Address) returns (eq: bool)
    ensures eq <==> SameBytes(a, rhs)
  {
    for i := 0 to 5
      invariant forall k :: 0 <= k < i ==> a.bytes[k] == rhs.bytes[k]
    {
      if a.bytes[i] != rhs.bytes[i] {
        return false;
      }
    }
    return true;
  }

  /** `operator!=(address)`: the negation of `rhs == a` (note the swapped operands). */
  method NotEquals(a: Address, rhs: Address) returns (ne: bool)
    ensures ne <==> !SameBytes(a, rhs)
  {
    var eq := Equals(rhs, a);
    SameBytesSymmetric(rhs, a);
    ne := !eq;
  }

  /** `operator==(uint8_t)`: only the fifth byte is compared. */
  function EqualsByte(a: Address, rhs: byte): (r: bool)
    ensures r <==> Derived(a, rhs) == a
  {
    a.bytes[4] == rhs
  }

  /** `operator!=(uint8_t)`. */
  function NotEqualsByte(a: Address, rhs: byte): (r: bool)
    ensures r <==> a.bytes[4] != rhs
  {
    !EqualsByte(a, rhs)
  }

  lemma SameBytesIsEquality(a: Address, b: Address)
    ensures SameBytes(a, b) <==> a == b
  {
    if SameBytes(a, b) {
      assert a.bytes == b.bytes;
    }
  }

  lemma SameBytesReflexive(a: Address)
    ensures SameBytes(a, a)
  {
  }

  lemma SameBytesSymmetric(a: Address, b: Address)
    ensures SameBytes(a, b) <==> SameBytes(b, a)
  {
  }

  lemma SameBytesTransitive(a: Address, b: Address, c: Address)
    requires SameBytes(a, b) && SameBytes(b, c)
    ensures SameBytes(a, c)
  {
  }

  /** Byte equality looks at nothing but the fifth byte. */
  lemma EqualsByteOnlyFifth(a: Address, b: Address, x: byte)
    requires a.bytes[4] == b.bytes[4]
    ensures EqualsByte(a, x) == EqualsByte(b, x)
  {
  }

  /** An address derived with fifth byte `end` always equals `end`. */
  lemma DerivedEqualsEnd(base: Address, end: byte)
    ensures EqualsByte(Derived(base, end), end)
    ensures !NotEqualsByte(Derived(base, end), end)
  {
  }

  /** Deriving from a base keeps the prefix: two derivations agree iff their ends agree. */
  lemma DerivedSamePrefix(base: Address, e1: byte, e2: byte)
    ensures SameBytes(Derived(base, e1), Derived(base, e2)) <==> e1 == e2
  {
    if e1 != e2 {
      assert Derived(base, e1).bytes[4] != Derived(base, e2).bytes[4];
    }
  }
}
