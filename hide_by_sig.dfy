/**
  FindHideBySigMethod: collect, from a type and (optionally) its base-class chain and its
  base interfaces, every member whose signature matches a given member's. The signature
  test (IsSameSignature) belongs to the compiler and is a parameter here.
 */
module HideBySig {
  import opened Symbols

  /** The members of `ms`, in order, that have the same signature as `member`. */
  function SameSignatureMembers(ms: seq<MemberSymbol>, member: MemberSymbol,
                                sameSignature: (MemberSymbol, MemberSymbol) -> bool): (r: seq<MemberSymbol>)
    ensures |r| <= |ms|
    ensures forall p :: p in r <==> p in ms && sameSignature(member, p)
  {
    if |ms| == 0 then []
    else
      var rest := SameSignatureMembers(ms[..|ms| - 1], member, sameSignature);
      var last := ms[|ms| - 1];
      assert ms == ms[..|ms| - 1] + [last];
      if sameSignature(member, last) then rest + [last] else rest
  }

  /**
    The matches collected from `t`: its own members, then (if `checkBaseTypes`) those of
    its base class, recursively, then (if `includeInheritedInterfaces`) those of each base
    interface, recursively, in order.
   */
  function Matches(t: TypeSymbol, member: MemberSymbol, sameSignature: (MemberSymbol, MemberSymbol) -> bool,
                   checkBaseTypes: bool, includeInheritedInterfaces: bool): seq<MemberSymbol>
    decreases t, |t.baseInterfaces| + 1
  {
    SameSignatureMembers(t.members, member, sameSignature)
    + (if checkBaseTypes && t.baseClass.Some?
       then Matches(t.baseClass.value, member, sameSignature, checkBaseTypes, includeInheritedInterfaces)
       else [])
    + (if includeInheritedInterfaces
       then InterfaceMatches(t, |t.baseInterfaces|, member, sameSignature, checkBaseTypes, includeInheritedInterfaces)
       else [])
  }

  /** The matches collected from the first `n` base interfaces of `t`, in order. */
  function InterfaceMatches(t: TypeSymbol, n: nat, member: MemberSymbol, sameSignature: (MemberSymbol, MemberSymbol) -> bool,
                            checkBaseTypes: bool, includeInheritedInterfaces: bool): seq<MemberSymbol>
    requires n <= |t.baseInterfaces|
    decreases t, n
  {
    if n == 0 then []
    else InterfaceMatches(t, n - 1, member, sameSignature, checkBaseTypes, includeInheritedInterfaces)
         + Matches(t.baseInterfaces[n - 1], member, sameSignature, checkBaseTypes, includeInheritedInterfaces)
  }

  /**
    `u` is one of the types the collector walks from `t`: `t` itself, the types walked from
    its base class when `checkBaseTypes` holds, and those walked from each base interface
    when `includeInheritedInterfaces` holds.
   */
  ghost predicate Visits(t: TypeSymbol, u: TypeSymbol, checkBaseTypes: bool, includeInheritedInterfaces: bool)
    decreases t
  {
    || u == t
    || (checkBaseTypes && t.baseClass.Some? && Visits(t.baseClass.value, u, checkBaseTypes, includeInheritedInterfaces))
    || (includeInheritedInterfaces &&
        exists k :: 0 <= k < |t.baseInterfaces| && Visits(t.baseInterfaces[k], u, checkBaseTypes, includeInheritedInterfaces))
  }

  /** Every collected member has the same signature as `member`. */
  lemma {:induction false} MatchesHaveSameSignature(t: TypeSymbol, member: MemberSymbol,
                                                    sameSignature: (MemberSymbol, MemberSymbol) -> bool,
                                                    checkBaseTypes: bool, includeInheritedInterfaces: bool)
    ensures forall p :: p in Matches(t, member, sameSignature, checkBaseTypes, includeInheritedInterfaces) ==> sameSignature(member, p)
    decreases t, |t.baseInterfaces| + 1
  {
    if checkBaseTypes && t.baseClass.Some? {
      MatchesHaveSameSignature(t.baseClass.value, member, sameSignature, checkBaseTypes, includeInheritedInterfaces);
    }
    if includeInheritedInterfaces {
      InterfaceMatchesHaveSameSignature(t, |t.baseInterfaces|, member, sameSignature, checkBaseTypes, includeInheritedInterfaces);
    }
  }

  lemma {:induction false} InterfaceMatchesHaveSameSignature(t: TypeSymbol, n: nat, member: MemberSymbol,
                                                             sameSignature: (MemberSymbol, MemberSymbol) -> bool,
                                                             checkBaseTypes: bool, includeInheritedInterfaces: bool)
    requires n <= |t.baseInterfaces|
    ensures forall p :: p in InterfaceMatches(t, n, member, sameSignature, checkBaseTypes, includeInheritedInterfaces)
                        ==> sameSignature(member, p)
    decreases t, n
  {
    if n > 0 {
      InterfaceMatchesHaveSameSignature(t, n - 1, member, sameSignature, checkBaseTypes, includeInheritedInterfaces);
      MatchesHaveSameSignature(t.baseInterfaces[n - 1], member, sameSignature, checkBaseTypes, includeInheritedInterfaces);
    }
  }

  /** With both flags off, only the type's own members are searched. */
  lemma OwnMembersOnly(t: TypeSymbol, member: MemberSymbol, sameSignature: (MemberSymbol, MemberSymbol) -> bool)
    ensures Matches(t, member, sameSignature, false, false) == SameSignatureMembers(t.members, member, sameSignature)
  {
  }

  /**
    A member is collected exactly when it is a member of some visited type and has the same
    signature as `member`.
   */
  lemma {:induction false} MatchesExactlyVisitedMembers(t: TypeSymbol, member: MemberSymbol,
                                                        sameSignature: (MemberSymbol, MemberSymbol) -> bool,
                                                        checkBaseTypes: bool, includeInheritedInterfaces: bool, p: MemberSymbol)
    ensures p in Matches(t, member, sameSignature, checkBaseTypes, includeInheritedInterfaces)
            <==> sameSignature(member, p) &&
                 exists u :: Visits(t, u, checkBaseTypes, includeInheritedInterfaces) && p in u.members
    decreases t, |t.baseInterfaces| + 1
  {
    var own := SameSignatureMembers(t.members, member, sameSignature);
    var fromBase := if checkBaseTypes && t.baseClass.Some?
                    then Matches(t.baseClass.value, member, sameSignature, checkBaseTypes, includeInheritedInterfaces)
                    else [];
    var fromInterfaces := if includeInheritedInterfaces
                          then InterfaceMatches(t, |t.baseInterfaces|, member, sameSignature, checkBaseTypes, includeInheritedInterfaces)
                          else [];
    assert Matches(t, member, sameSignature, checkBaseTypes, includeInheritedInterfaces) == own + fromBase + fromInterfaces;
    if checkBaseTypes && t.baseClass.Some? {
      MatchesExactlyVisitedMembers(t.baseClass.value, member, sameSignature, checkBaseTypes, includeInheritedInterfaces, p);
    }
    if includeInheritedInterfaces {
      InterfaceMatchesExactlyVisitedMembers(t, |t.baseInterfaces|, member, sameSignature, checkBaseTypes, includeInheritedInterfaces, p);
    }
    if p in own + fromBase + fromInterfaces {
      if p in own {
        assert Visits(t, t, checkBaseTypes, includeInheritedInterfaces);
      } else if p in fromBase {
        var u :| Visits(t.baseClass.value, u, checkBaseTypes, includeInheritedInterfaces) && p in u.members;
        assert Visits(t, u, checkBaseTypes, includeInheritedInterfaces);
      } else {
        var k, u :| 0 <= k < |t.baseInterfaces| && Visits(t.baseInterfaces[k], u, checkBaseTypes, includeInheritedInterfaces)
                    && p in u.members;
        assert Visits(t, u, checkBaseTypes, includeInheritedInterfaces);
      }
    }
    if sameSignature(member, p) && exists u :: Visits(t, u, checkBaseTypes, includeInheritedInterfaces) && p in u.members {
      var u :| Visits(t, u, checkBaseTypes, includeInheritedInterfaces) && p in u.members;
      if u == t {
        assert p in own;
      } else if checkBaseTypes && t.baseClass.Some? && Visits(t.baseClass.value, u, checkBaseTypes, includeInheritedInterfaces) {
        assert p in fromBase;
      } else {
        var k :| 0 <= k < |t.baseInterfaces| && Visits(t.baseInterfaces[k], u, checkBaseTypes, includeInheritedInterfaces);
        assert p in fromInterfaces;
      }
    }
  }

  lemma {:induction false} InterfaceMatchesExactlyVisitedMembers(t: TypeSymbol, n: nat, member: MemberSymbol,
                                                                 sameSignature: (MemberSymbol, MemberSymbol) -> bool,
                                                                 checkBaseTypes: bool, includeInheritedInterfaces: bool,
                                                                 p: MemberSymbol)
    requires n <= |t.baseInterfaces|
    ensures p in InterfaceMatches(t, n, member, sameSignature, checkBaseTypes, includeInheritedInterfaces)
            <==> sameSignature(member, p) &&
                 exists k, u :: 0 <= k < n && Visits(t.baseInterfaces[k], u, checkBaseTypes, includeInheritedInterfaces)
                                && p in u.members
    decreases t, n
  {
    if n > 0 {
      InterfaceMatchesExactlyVisitedMembers(t, n - 1, member, sameSignature, checkBaseTypes, includeInheritedInterfaces, p);
      MatchesExactlyVisitedMembers(t.baseInterfaces[n - 1], member, sameSignature, checkBaseTypes, includeInheritedInterfaces, p);
      var earlier := InterfaceMatches(t, n - 1, member, sameSignature, checkBaseTypes, includeInheritedInterfaces);
      var last := Matches(t.baseInterfaces[n - 1], member, sameSignature, checkBaseTypes, includeInheritedInterfaces);
      if p in earlier + last {
        if p in last {
          var u :| Visits(t.baseInterfaces[n - 1], u, checkBaseTypes, includeInheritedInterfaces) && p in u.members;
          assert 0 <= n - 1 < n;
        }
      }
      if sameSignature(member, p) &&
         exists k, u :: 0 <= k < n && Visits(t.baseInterfaces[k], u, checkBaseTypes, includeInheritedInterfaces) && p in u.members {
        var k, u :| 0 <= k < n && Visits(t.baseInterfaces[k], u, checkBaseTypes, includeInheritedInterfaces) && p in u.members;
        if k == n - 1 {
          assert p in last;
        } else {
          assert p in earlier;
        }
      }
    }
  }

  /** The list the recursive collector appends to (a List<CSharpMember> shared by all calls). */
  class MemberList {
    var items: seq<MemberSymbol>

    constructor ()
      ensures items == []
    {
      items := [];
    }

    method Add(m: MemberSymbol)
      modifies this
      ensures items == old(items) + [m]
    {
      items := items + [m];
    }
  }

  /** The loop over one type's own members: appends those with the same signature. */
  method AddSameSignatureMembers(results: MemberList, ms: seq<MemberSymbol>, member: MemberSymbol,
                                 sameSignature: (MemberSymbol, MemberSymbol) -> bool)
    modifies results
    ensures results.items == old(results.items) + SameSignatureMembers(ms, member, sameSignature)
  {
    ghost var before := results.items;
    for i := 0 to |ms|
      invariant results.items == before + SameSignatureMembers(ms[..i], member, sameSignature)
    {
      assert ms[..i + 1][..i] == ms[..i];
      var potential := ms[i];
      if !sameSignature(member, potential) {
        continue;
      }
      results.Add(potential);
    }
    assert ms[..|ms|] == ms;
  }

  /** The recursive collector: appends the matches from `t` to `results` and removes nothing. */
  method FindHideBySigMethodInto(results: MemberList, t: TypeSymbol, member: MemberSymbol,
                                 sameSignature: (MemberSymbol, MemberSymbol) -> bool,
                                 checkBaseTypes: bool, includeInheritedInterfaces: bool)
    modifies results
    ensures results.items == old(results.items) + Matches(t, member, sameSignature, checkBaseTypes, includeInheritedInterfaces)
    decreases t, |t.baseInterfaces| + 1
  {
    ghost var before := results.items;
    AddSameSignatureMembers(results, t.members, member, sameSignature);
    ghost var own := results.items;

    if checkBaseTypes {
      var baseType := t.baseClass;
      if baseType.Some? {
        FindHideBySigMethodInto(results, baseType.value, member, sameSignature, checkBaseTypes, includeInheritedInterfaces);
      }
    }
    ghost var withBase := results.items;
    assert withBase == own + (if checkBaseTypes && t.baseClass.Some?
                              then Matches(t.baseClass.value, member, sameSignature, checkBaseTypes, includeInheritedInterfaces)
                              else []);

    if includeInheritedInterfaces {
      AddInterfaceMatches(results, t, member, sameSignature, checkBaseTypes, includeInheritedInterfaces);
    }
  }

  /** The loop over a type's base interfaces: runs the recursive collector on each, in order. */
  method AddInterfaceMatches(results: MemberList, t: TypeSymbol, member: MemberSymbol,
                             sameSignature: (MemberSymbol, MemberSymbol) -> bool,
                             checkBaseTypes: bool, includeInheritedInterfaces: bool)
    modifies results
    ensures results.items == old(results.items)
                             + InterfaceMatches(t, |t.baseInterfaces|, member, sameSignature, checkBaseTypes, includeInheritedInterfaces)
    decreases t, |t.baseInterfaces|
  {
    ghost var before := results.items;
    var interfaces := t.baseInterfaces;
    for j := 0 to |interfaces|
      invariant results.items == before + InterfaceMatches(t, j, member, sameSignature, checkBaseTypes, includeInheritedInterfaces)
    {
      ghost var done := results.items;
      FindHideBySigMethodInto(results, interfaces[j], member, sameSignature, checkBaseTypes, includeInheritedInterfaces);
      assert InterfaceMatches(t, j + 1, member, sameSignature, checkBaseTypes, includeInheritedInterfaces)
          == InterfaceMatches(t, j, member, sameSignature, checkBaseTypes, includeInheritedInterfaces)
             + Matches(interfaces[j], member, sameSignature, checkBaseTypes, includeInheritedInterfaces);
    }
  }

  /** FindHideBySigMethod: a fresh list filled by the recursive collector. */
  method FindHideBySigMethod(t: TypeSymbol, member: MemberSymbol, sameSignature: (MemberSymbol, MemberSymbol) -> bool,
                             checkBaseTypes: bool, includeInheritedInterfaces: bool)
    returns (r: seq<MemberSymbol>)
    ensures r == Matches(t, member, sameSignature, checkBaseTypes, includeInheritedInterfaces)
  {
    var results := new MemberList();
    FindHideBySigMethodInto(results, t, member, sameSignature, checkBaseTypes, includeInheritedInterfaces);
    r := results.items;
  }
}
