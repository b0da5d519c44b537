/**
  Command identifiers of the command-translation layer: a menu group Guid together with
  a range [Id, EndId] of command numbers, and the dictionary equality comparer that treats
  two identifiers as equal when their ranges overlap at a start point.
 */
module CommandIds {

  /** The C# `int` (32-bit signed). */
  newtype int32 = x: int | -0x8000_0000 <= x < 0x8000_0000

  /** A 128-bit Guid. */
  newtype Guid = x: int | 0 <= x < 0x1_0000_0000_0000_0000_0000_0000_0000_0000

  /** A command identifier. Its properties have private setters and are set once, by a constructor. */
  class CommandId {
    const guid: Guid
    const id: int32
    const endId: int32

    /** A single command: the range holds `commandId` alone. */
    constructor Single(menuGroup: Guid, commandId: int32)
      ensures guid == menuGroup && id == commandId && endId == commandId
    {
      guid := menuGroup;
      id := commandId;
      endId := commandId;
    }

    /** A range of commands; nothing requires `startId <= endId`. */
    constructor (menuGroup: Guid, startId: int32, endId: int32)
      ensures guid == menuGroup && id == startId && this.endId == endId
    {
      guid := menuGroup;
      id := startId;
      this.endId := endId;
    }
  }

  /** `x`'s start lies inside `y`'s range. */
  predicate StartsWithin(x: CommandId, y: CommandId)
  {
    y.id <= x.id && y.endId >= x.id
  }

  /** Command number `k` lies in `x`'s closed range [Id, EndId]. */
  predicate InRange(x: CommandId, k: int)
  {
    x.id as int <= k <= x.endId as int
  }

  /** The comparer's Equals: reference identity first, then null checks, then Guid and range overlap. */
  predicate Equals(x: CommandId?, y: CommandId?)
  {
    if x == y then true
    else if x != null then
      if y == null then false
      else if x.guid == y.guid then
        if StartsWithin(x, y) then true
        else if StartsWithin(y, x) then true
        else false
      else false
    else false
  }

  /** The comparer's GetHashCode: the Guid's hash, or 0 for null. */
  function GetHashCode(obj: CommandId?, guidHash: Guid -> int32): (h: int32)
    ensures obj == null ==> h == 0
    ensures obj != null ==> h == guidHash(obj.guid)
  {
    if obj != null then guidHash(obj.guid) else 0
  }

  /** Two nulls are equal, a null and a non-null are not, and every reference equals itself. */
  lemma NullHandling(x: CommandId?, y: CommandId?)
    ensures x == null && y == null ==> Equals(x, y)
    ensures (x == null) != (y == null) ==> !Equals(x, y)
    ensures x == y ==> Equals(x, y)
  {
  }

  /** Identifiers with different Guids are never equal. */
  lemma DifferentGuidsNeverEqual(x: CommandId, y: CommandId)
    requires x.guid != y.guid
    ensures !Equals(x, y)
  {
  }

  /** The comparer is symmetric. */
  lemma EqualsSymmetric(x: CommandId?, y: CommandId?)
    ensures Equals(x, y) == Equals(y, x)
  {
  }

  /**
    For two distinct identifiers with well-formed ranges and the same Guid, Equals holds
    exactly when the two closed ranges share a command number.
   */
  lemma EqualsIffRangesIntersect(x: CommandId, y: CommandId)
    requires x != y && x.guid == y.guid
    requires x.id <= x.endId && y.id <= y.endId
    ensures Equals(x, y) <==> exists k: int :: InRange(x, k) && InRange(y, k)
  {
    if Equals(x, y) {
      var k: int := if x.id <= y.id then y.id as int else x.id as int;
      assert InRange(x, k) && InRange(y, k);
    }
  }

  /**
    A distinct field-for-field copy of an identifier is equal to it exactly when its range is
    not inverted: with `Id > EndId` an identifier equals its own copy only by reference.
   */
  lemma InvertedRangeNotEqualToCopy(x: CommandId, y: CommandId)
    requires x != y && x.guid == y.guid && x.id == y.id && x.endId == y.endId
    ensures Equals(x, y) <==> x.id <= x.endId
  {
  }

  /**
    Only the start of an identifier has to lie in the other's range: an identifier with an
    inverted range still equals a distinct identifier whose range holds its start, even
    though no command number lies in both ranges.
   */
  method InvertedRangeMatchesByStart(g: Guid) returns (x: CommandId, y: CommandId)
    ensures x.guid == g && y.guid == g && x != y
    ensures x.id > x.endId
    ensures Equals(x, y)
    ensures forall k: int :: !(InRange(x, k) && InRange(y, k))
  {
    x := new CommandId(g, 5, 3);
    y := new CommandId(g, 4, 10);
  }

  /** Equal identifiers have equal hash codes, whatever the Guid hash is. */
  lemma HashConsistent(x: CommandId?, y: CommandId?, guidHash: Guid -> int32)
    requires Equals(x, y)
    ensures GetHashCode(x, guidHash) == GetHashCode(y, guidHash)
  {
  }

  /** The relation is not transitive: three identifiers that show it. */
  method EqualsIsNotTransitive(g: Guid) returns (a: CommandId, b: CommandId, c: CommandId)
    ensures a.guid == g && b.guid == g && c.guid == g
    ensures Equals(a, b) && Equals(b, c) && !Equals(a, c)
  {
    a := new CommandId.Single(g, 1);
    b := new CommandId(g, 0, 5);
    c := new CommandId.Single(g, 3);
  }
}
