/**
  Resolution of a symbolic identifier against an ordered list of compilations, with the
  analyzer's tie-break: the compilation whose main assembly defines the identifier wins
  outright (even when it resolves to null); otherwise the last non-null resolution wins.
 */
module Resolution {
  import opened Wrappers
  import opened Symbols

  /** Index of the first compilation whose main assembly is `definingAssembly`, if any. */
  function FirstDefining(cs: seq<Compilation>, definingAssembly: AssemblyIdentifier): (r: Option<nat>)
    ensures r.Some? ==> r.value < |cs| && cs[r.value].mainAssembly == definingAssembly
    ensures r.Some? ==> forall k :: 0 <= k < r.value ==> cs[k].mainAssembly != definingAssembly
    ensures r.None? ==> forall k :: 0 <= k < |cs| ==> cs[k].mainAssembly != definingAssembly
  {
    if |cs| == 0 then None
    else if cs[0].mainAssembly == definingAssembly then Some(0)
    else match FirstDefining(cs[1..], definingAssembly)
      case None => None
      case Some(i) => Some(i + 1)
  }

  /** Index of the last non-null resolution, if any. */
  function LastResolved<T>(rs: seq<Option<T>>): (r: Option<nat>)
    ensures r.Some? ==> r.value < |rs| && rs[r.value].Some?
    ensures r.Some? ==> forall k :: r.value < k < |rs| ==> rs[k].None?
    ensures r.None? ==> forall k :: 0 <= k < |rs| ==> rs[k].None?
  {
    if |rs| == 0 then None
    else if rs[|rs| - 1].Some? then Some(|rs| - 1)
    else LastResolved(rs[..|rs| - 1])
  }

  /** The resolver applied to every compilation, in order. */
  function Apply<T>(cs: seq<Compilation>, resolver: Compilation -> Option<T>): (rs: seq<Option<T>>)
    ensures |rs| == |cs| && forall k :: 0 <= k < |cs| ==> rs[k] == resolver(cs[k])
  {
    seq(|cs|, k requires 0 <= k < |cs| => resolver(cs[k]))
  }

  /**
    `r` is the result the tie-break prescribes, given the resolution `rs[k]` of every
    compilation `cs[k]`: the pair of the first defining compilation when there is one,
    otherwise the pair of the last compilation that resolved to non-null, otherwise null.
   */
  ghost predicate IsResolution<T>(cs: seq<Compilation>, rs: seq<Option<T>>, definingAssembly: AssemblyIdentifier,
                                  r: Option<(Option<T>, Compilation)>)
    requires |rs| == |cs|
  {
    match FirstDefining(cs, definingAssembly)
    case Some(i) => r == Some((rs[i], cs[i]))
    case None =>
      match LastResolved(rs)
      case Some(j) => r == Some((rs[j], cs[j]))
      case None => r == None
  }

  /**
    Once a defining compilation is present, the compilations after the first one of them
    have no influence on the result: truncating the list right after it changes nothing.
   */
  lemma {:induction false} LaterCompilationsIgnored<T>(cs: seq<Compilation>, rs: seq<Option<T>>,
                                                       definingAssembly: AssemblyIdentifier, i: nat,
                                                       r: Option<(Option<T>, Compilation)>)
    requires |rs| == |cs| && FirstDefining(cs, definingAssembly) == Some(i)
    ensures |rs[..i + 1]| == |cs[..i + 1]|
    ensures IsResolution(cs, rs, definingAssembly, r) <==> IsResolution(cs[..i + 1], rs[..i + 1], definingAssembly, r)
  {
    assert forall k :: 0 <= k <= i ==> cs[..i + 1][k] == cs[k];
    assert FirstDefining(cs[..i + 1], definingAssembly) == Some(i);
  }

  /**
    Resolve<T>. `consulted` counts the compilations the resolver was applied to: the scan
    stops right after the first defining compilation.
   */
  method Resolve<T>(cs: seq<Compilation>, resolver: Compilation -> Option<T>, definingAssembly: AssemblyIdentifier)
    returns (r: Option<(Option<T>, Compilation)>, ghost consulted: nat)
    ensures IsResolution(cs, Apply(cs, resolver), definingAssembly, r)
    ensures consulted == match FirstDefining(cs, definingAssembly) case Some(i) => i + 1 case None => |cs|
    ensures r.Some? && r.value.0.None? ==> FirstDefining(cs, definingAssembly).Some?
  {
    ghost var rs := Apply(cs, resolver);
    var compilation: Option<Compilation> := None;
    var result: Option<T> := None;
    var i := 0;
    consulted := 0;
    while i < |cs|
      invariant 0 <= i <= |cs| && consulted == i
      invariant forall k :: 0 <= k < i ==> cs[k].mainAssembly != definingAssembly
      invariant match LastResolved(rs[..i])
                case None => result.None? && compilation.None?
                case Some(j) => result == rs[j] && compilation == Some(cs[j])
    {
      var t := resolver(cs[i]);
      consulted := consulted + 1;
      assert rs[..i + 1][..i] == rs[..i];
      if t.Some? {
        result := t;
        compilation := Some(cs[i]);
      }
      if cs[i].mainAssembly == definingAssembly {
        r := Some((t, cs[i]));
        return;
      }
      i := i + 1;
    }
    assert rs[..i] == rs;
    if compilation.Some? && result.Some? {
      r := Some((result, compilation.value));
    } else {
      r := None;
    }
  }

  /** ResolveMemberIdentifier: Resolve with the compilation's member lookup and the member's assembly. */
  method ResolveMemberIdentifier(cs: seq<Compilation>, resolveMember: (Compilation, MemberIdentifier) -> Option<MemberSymbol>,
                                 memberId: MemberIdentifier)
    returns (r: Option<(Option<MemberSymbol>, Compilation)>)
    ensures IsResolution(cs, seq(|cs|, k requires 0 <= k < |cs| => resolveMember(cs[k], memberId)), memberId.assembly, r)
  {
    ghost var consulted;
    r, consulted := Resolve(cs, c => resolveMember(c, memberId), memberId.assembly);
    assert Apply(cs, c => resolveMember(c, memberId)) == seq(|cs|, k requires 0 <= k < |cs| => resolveMember(cs[k], memberId));
  }

  /** ResolveTypeIdentifier: Resolve with the compilation's type lookup and the type's assembly. */
  method ResolveTypeIdentifier(cs: seq<Compilation>, resolveType: (Compilation, TypeIdentifier) -> Option<TypeSymbol>,
                               typeId: TypeIdentifier)
    returns (r: Option<(Option<TypeSymbol>, Compilation)>)
    ensures IsResolution(cs, seq(|cs|, k requires 0 <= k < |cs| => resolveType(cs[k], typeId)), typeId.assembly, r)
  {
    ghost var consulted;
    r, consulted := Resolve(cs, c => resolveType(c, typeId), typeId.assembly);
    assert Apply(cs, c => resolveType(c, typeId)) == seq(|cs|, k requires 0 <= k < |cs| => resolveType(cs[k], typeId));
  }
}
