/**
  How the analyzer turns one declaration node and the relationship queries about it into an
  inheritance tag: skip rules, glyph choice, display text, navigation targets and text span.
 */
module Annotations {
  import opened Symbols

  datatype Glyph =
    | HasImplementations
    | Implements
    | ImplementsAndHasImplementations
    | ImplementsAndOverridden
    | Overridden
    | Overrides
    | OverridesAndOverridden

  /** A navigation target of a tag. */
  datatype Target = TypeTarget(name: string, typeId: TypeIdentifier) | MemberTarget(memberId: MemberIdentifier)

  /** A span of the text snapshot: start offset and length. */
  datatype Span = Span(start: int, length: int)

  /** A tag: its span, glyph, display text (one string per line, trailing newline trimmed) and targets. */
  datatype Tag = Tag(span: Span, glyph: Glyph, text: seq<string>, targets: seq<Target>)

  /** The results of the four member relation queries, each in its enumeration order. */
  datatype Relations = Relations(
    implemented: seq<MemberIdentifier>,   // interface members this member implements
    overridden: seq<MemberIdentifier>,    // base members this member overrides
    overriding: seq<MemberIdentifier>,    // members of derived types that override this member
    implementing: seq<MemberIdentifier>)  // members that implement this (interface) member

  /**
    The relationship collector's queries (SpecializedMatchingMemberCollector), whose
    implementation is not part of this model, and its IsSupportedMemberType test.
   */
  datatype Collector = Collector(
    derivedTypes: TypeIdentifier -> seq<DerivedType>,
    implementedInterfaceMembers: MemberIdentifier -> seq<MemberIdentifier>,
    overriddenBaseMembers: MemberIdentifier -> seq<MemberIdentifier>,
    overridersFromDerivedTypes: MemberIdentifier -> seq<MemberIdentifier>,
    implementorsForInterfaceMember: MemberIdentifier -> seq<MemberIdentifier>,
    isSupportedMemberType: MemberSymbol -> bool)

  function Query(c: Collector, id: MemberIdentifier): Relations
  {
    Relations(c.implementedInterfaceMembers(id), c.overriddenBaseMembers(id),
              c.overridersFromDerivedTypes(id), c.implementorsForInterfaceMember(id))
  }

  predicate NoRelations(rel: Relations)
  {
    |rel.implementing| == 0 && |rel.implemented| == 0 && |rel.overridden| == 0 && |rel.overriding| == 0
  }

  // ---------------------------------------------------------------- span

  /**
    The span of a name token: it starts at the snapshot offset of the token's line
    (`lineStart`) plus the token's start column, and its length is the end column minus the
    start column. An end column before the start column yields a negative length, returned
    as is.
   */
  function TokenSpan(tok: Token, lineStart: nat -> nat): (s: Span)
    ensures s.start - lineStart(tok.line) == tok.startColumn
    ensures s.start + s.length == lineStart(tok.line) + tok.endColumn
  {
    Span(lineStart(tok.line) + tok.startColumn, tok.endColumn - tok.startColumn)
  }

  // ---------------------------------------------------------------- glyphs

  function TypeGlyph(t: TypeSymbol): (g: Glyph)
    ensures g == HasImplementations <==> t.isInterface
    ensures g == Overridden <==> !t.isInterface
  {
    if t.isInterface then HasImplementations else Overridden
  }

  /** The member glyph: the first rule that applies, in the source's order. */
  function MemberGlyph(rel: Relations): Glyph
  {
    if |rel.implemented| > 0 then
      if |rel.overriding| > 0 then ImplementsAndOverridden
      else if |rel.implementing| > 0 then ImplementsAndHasImplementations
      else Implements
    else if |rel.implementing| > 0 then HasImplementations
    else if |rel.overridden| > 0 then
      if |rel.overriding| > 0 then OverridesAndOverridden else Overrides
    else Overridden
  }

  /** The glyph shows "implements an interface member". */
  predicate ShowsImplements(g: Glyph)
  {
    g.Implements? || g.ImplementsAndHasImplementations? || g.ImplementsAndOverridden?
  }

  /** The glyph shows "has implementations". */
  predicate ShowsImplementations(g: Glyph)
  {
    g.HasImplementations? || g.ImplementsAndHasImplementations?
  }

  /** The glyph shows "overrides a base member". */
  predicate ShowsOverrides(g: Glyph)
  {
    g.Overrides? || g.OverridesAndOverridden?
  }

  /** The glyph shows "is overridden". */
  predicate ShowsOverridden(g: Glyph)
  {
    g.Overridden? || g.ImplementsAndOverridden? || g.OverridesAndOverridden?
  }

  /**
    For a member that is annotated at all, the glyph never shows a relation that is absent,
    it shows "implements" exactly when the member implements something, and it shows
    "is overridden" exactly when it is overridden, except that "has implementations" hides it.
   */
  lemma MemberGlyphSound(rel: Relations)
    requires !NoRelations(rel)
    ensures ShowsImplements(MemberGlyph(rel)) <==> |rel.implemented| > 0
    ensures ShowsImplementations(MemberGlyph(rel)) ==> |rel.implementing| > 0
    ensures ShowsOverrides(MemberGlyph(rel)) ==> |rel.overridden| > 0
    ensures ShowsOverridden(MemberGlyph(rel)) ==> |rel.overriding| > 0
    ensures !MemberGlyph(rel).HasImplementations? ==> (ShowsOverridden(MemberGlyph(rel)) <==> |rel.overriding| > 0)
  {
  }

  /** Each glyph of the decision table, with the exact condition under which it is chosen. */
  lemma MemberGlyphPriority(rel: Relations)
    ensures MemberGlyph(rel) == ImplementsAndOverridden <==> |rel.implemented| > 0 && |rel.overriding| > 0
    ensures MemberGlyph(rel) == ImplementsAndHasImplementations <==>
              |rel.implemented| > 0 && |rel.overriding| == 0 && |rel.implementing| > 0
    ensures MemberGlyph(rel) == Implements <==>
              |rel.implemented| > 0 && |rel.overriding| == 0 && |rel.implementing| == 0
    ensures MemberGlyph(rel) == HasImplementations <==> |rel.implemented| == 0 && |rel.implementing| > 0
    ensures ShowsOverrides(MemberGlyph(rel)) <==> |rel.implemented| == 0 && |rel.implementing| == 0 && |rel.overridden| > 0
    ensures MemberGlyph(rel) == Overridden <==> |rel.implemented| == 0 && |rel.implementing| == 0 && |rel.overridden| == 0
    ensures MemberGlyph(rel) == OverridesAndOverridden <==>
              |rel.implemented| == 0 && |rel.implementing| == 0 && |rel.overridden| > 0 && |rel.overriding| > 0
    ensures MemberGlyph(rel) == Overrides <==>
              |rel.implemented| == 0 && |rel.implementing| == 0 && |rel.overridden| > 0 && |rel.overriding| == 0
  {
  }

  // ---------------------------------------------------------------- display text

  function Indented(items: seq<string>): (r: seq<string>)
    ensures |r| == |items| && forall k :: 0 <= k < |items| ==> r[k] == "    " + items[k]
  {
    seq(|items|, k requires 0 <= k < |items| => "    " + items[k])
  }

  /** A header line followed by one indented line per item. */
  function Block(header: string, items: seq<string>): (r: seq<string>)
    ensures |r| == |items| + 1 && r[0] == header
  {
    [header] + Indented(items)
  }

  function IdentifierTexts(ids: seq<MemberIdentifier>): (r: seq<string>)
    ensures |r| == |ids| && forall k :: 0 <= k < |ids| ==> r[k] == ids[k].text
  {
    seq(|ids|, k requires 0 <= k < |ids| => ids[k].text)
  }

  function TypeNames(derived: seq<DerivedType>): (r: seq<string>)
    ensures |r| == |derived| && forall k :: 0 <= k < |derived| ==> r[k] == derived[k].fullName
  {
    seq(|derived|, k requires 0 <= k < |derived| => derived[k].fullName)
  }

  /** The word used in member headers. */
  function KindLabel(kind: MemberKind): (word: string)
    ensures word == "properties" <==> kind == Property
    ensures word == "events" <==> kind == Event
    ensures word == "methods" <==> kind == Method || kind == Field
  {
    assert "properties"[0] != "methods"[0] && "events"[0] != "methods"[0] && "properties"[0] != "events"[0];
    match kind
    case Property => "properties"
    case Event => "events"
    case Method => "methods"
    case Field => "methods"
  }

  function TypeText(derived: seq<DerivedType>): seq<string>
  {
    Block("Derived types:", TypeNames(derived))
  }

  /** A block when the set is non-empty, nothing otherwise. */
  function OptionalBlock(header: string, ids: seq<MemberIdentifier>): seq<string>
  {
    if |ids| > 0 then Block(header, IdentifierTexts(ids)) else []
  }

  /** One block per non-empty relation set: implemented, overridden, implementing, overriding. */
  function MemberText(kind: MemberKind, rel: Relations): seq<string>
  {
    var kindName := KindLabel(kind);
    OptionalBlock("Implemented " + kindName + ":", rel.implemented)
    + OptionalBlock("Overridden " + kindName + ":", rel.overridden)
    + OptionalBlock("Implementing " + kindName + " in derived types:", rel.implementing)
    + OptionalBlock("Overriding " + kindName + " in derived types:", rel.overriding)
  }

  /** The number of header lines a set contributes: one when it is non-empty, none otherwise. */
  function HeaderLines(ids: seq<MemberIdentifier>): nat
  {
    if |ids| > 0 then 1 else 0
  }

  /** The member text has one header line per non-empty set and one line per related member. */
  lemma MemberTextLength(kind: MemberKind, rel: Relations)
    ensures |MemberText(kind, rel)|
         == |rel.implemented| + |rel.overridden| + |rel.implementing| + |rel.overriding|
            + HeaderLines(rel.implemented) + HeaderLines(rel.overridden) + HeaderLines(rel.implementing) + HeaderLines(rel.overriding)
  {
  }

  /** The first line of the member text is the header of the first non-empty set. */
  lemma MemberTextFirstHeader(kind: MemberKind, rel: Relations)
    requires !NoRelations(rel)
    ensures |MemberText(kind, rel)| > 0
    ensures MemberText(kind, rel)[0]
         == if |rel.implemented| > 0 then "Implemented " + KindLabel(kind) + ":"
            else if |rel.overridden| > 0 then "Overridden " + KindLabel(kind) + ":"
            else if |rel.implementing| > 0 then "Implementing " + KindLabel(kind) + " in derived types:"
            else "Overriding " + KindLabel(kind) + " in derived types:"
  {
  }

  // ---------------------------------------------------------------- targets

  function TypeTargets(derived: seq<DerivedType>): (r: seq<Target>)
    ensures |r| == |derived|
    ensures forall k :: 0 <= k < |derived| ==> r[k] == TypeTarget(derived[k].fullName, derived[k].id)
  {
    seq(|derived|, k requires 0 <= k < |derived| => TypeTarget(derived[k].fullName, derived[k].id))
  }

  function MemberTargetsOf(ids: seq<MemberIdentifier>): (r: seq<Target>)
    ensures |r| == |ids| && forall k :: 0 <= k < |ids| ==> r[k] == MemberTarget(ids[k])
  {
    seq(|ids|, k requires 0 <= k < |ids| => MemberTarget(ids[k]))
  }

  /** The member targets: the four sets concatenated in the fixed order, without deduplication. */
  function MemberTargets(rel: Relations): seq<Target>
  {
    MemberTargetsOf(rel.implemented + rel.overridden + rel.implementing + rel.overriding)
  }

  /**
    Every related member yields its own target: the targets are those of the four sets one
    after the other, so there are as many as the sum of the four counts and a member found
    by two queries is a target twice.
   */
  lemma MemberTargetsKeepDuplicates(rel: Relations)
    ensures MemberTargets(rel) == MemberTargetsOf(rel.implemented) + MemberTargetsOf(rel.overridden)
                                  + MemberTargetsOf(rel.implementing) + MemberTargetsOf(rel.overriding)
    ensures |MemberTargets(rel)| == |rel.implemented| + |rel.overridden| + |rel.implementing| + |rel.overriding|
    ensures multiset(MemberTargets(rel)) == multiset(MemberTargetsOf(rel.implemented)) + multiset(MemberTargetsOf(rel.overridden))
                                            + multiset(MemberTargetsOf(rel.implementing)) + multiset(MemberTargetsOf(rel.overriding))
  {
    var all := rel.implemented + rel.overridden + rel.implementing + rel.overriding;
    var parts := MemberTargetsOf(rel.implemented) + MemberTargetsOf(rel.overridden)
                 + MemberTargetsOf(rel.implementing) + MemberTargetsOf(rel.overriding);
    assert |parts| == |all|;
    forall k | 0 <= k < |all| ensures MemberTargets(rel)[k] == parts[k] {
      var a, b, c := |rel.implemented|, |rel.overridden|, |rel.implementing|;
      if k < a {
      } else if k < a + b {
        assert all[k] == rel.overridden[k - a];
      } else if k < a + b + c {
        assert all[k] == rel.implementing[k - a - b];
      } else {
        assert all[k] == rel.overriding[k - a - b - c];
      }
    }
  }

  // ---------------------------------------------------------------- one node

  /** What processing one node does to the pass. */
  datatype NodeStep =
    | Skip           // no tag, the pass goes on
    | Emit(tag: Tag) // one tag, the pass goes on
    | MarkDirty      // the pass marks itself dirty and returns without publishing
    | Throw          // the pass marks itself dirty and rethrows InvalidOperationException

  function TypeTag(tok: Token, t: TypeSymbol, derived: seq<DerivedType>, lineStart: nat -> nat): Tag
  {
    Tag(TokenSpan(tok, lineStart), TypeGlyph(t), TypeText(derived), TypeTargets(derived))
  }

  function MemberTag(tok: Token, m: MemberSymbol, rel: Relations, lineStart: nat -> nat): Tag
  {
    Tag(TokenSpan(tok, lineStart), MemberGlyph(rel), MemberText(m.kind, rel), MemberTargets(rel))
  }

  /** The type pass on one node. */
  function TypeStep(n: TypeDeclarationNode, c: Collector, lineStart: nat -> nat): (s: NodeStep)
    ensures s.Throw? <==> n.resolution.TypeInvalidOperation?
    ensures s.MarkDirty? <==> n.resolution.TypeNull?
    ensures s.Emit? <==> n.resolution.TypeResolved? && !n.resolution.symbol.isSealed
                         && |c.derivedTypes(n.resolution.symbol.id)| > 0
    ensures s.Emit? ==> s.tag.glyph == TypeGlyph(n.resolution.symbol)
                        && s.tag.span == TokenSpan(n.token, lineStart)
                        && s.tag.targets == TypeTargets(c.derivedTypes(n.resolution.symbol.id))
                        && s.tag.text == TypeText(c.derivedTypes(n.resolution.symbol.id))
  {
    match n.resolution
    case TypeInvalidOperation => Throw
    case TypeNull => MarkDirty
    case TypeResolved(t) =>
      if t.isSealed then Skip
      else
        var derived := c.derivedTypes(t.id);
        if |derived| == 0 then Skip else Emit(TypeTag(n.token, t, derived, lineStart))
  }

  /** The member pass on one node. */
  function MemberStep(n: DeclarationNode, c: Collector, lineStart: nat -> nat): (s: NodeStep)
    ensures n.AccessorDeclaration? ==> s == Skip
    ensures n.MemberDeclaration? && n.resolution.MemberArgumentException? ==> s == Skip
    ensures s.Throw? <==> n.MemberDeclaration? && n.resolution.MemberInvalidOperation?
    ensures s.MarkDirty? <==> n.MemberDeclaration? && n.resolution.MemberNull?
    ensures s.Emit? <==> n.MemberDeclaration? && n.resolution.MemberResolved?
                         && c.isSupportedMemberType(n.resolution.symbol)
                         && !NoRelations(Query(c, n.resolution.symbol.id))
    ensures s.Emit? ==> s.tag == MemberTag(n.token, n.resolution.symbol, Query(c, n.resolution.symbol.id), lineStart)
  {
    match n
    case AccessorDeclaration(_) => Skip
    case MemberDeclaration(tok, resolution) =>
      match resolution
      case MemberArgumentException => Skip
      case MemberInvalidOperation => Throw
      case MemberNull => MarkDirty
      case MemberResolved(m) =>
        if !c.isSupportedMemberType(m) then Skip
        else
          var rel := Query(c, m.id);
          if NoRelations(rel) then Skip else Emit(MemberTag(tok, m, rel, lineStart))
  }

  // ---------------------------------------------------------------- the builder loops

  /** Appends a header line and then one indented line per item (the StringBuilder loop). */
  method AppendBlock(lines: seq<string>, header: string, items: seq<string>) returns (r: seq<string>)
    ensures r == lines + Block(header, items)
  {
    r := lines + [header];
    for k := 0 to |items|
      invariant r == lines + [header] + Indented(items)[..k]
    {
      assert Indented(items)[..k + 1] == Indented(items)[..k] + ["    " + items[k]];
      r := r + ["    " + items[k]];
    }
    assert Indented(items)[..|items|] == Indented(items);
  }

  /** Builds the tag of one type node, or reports what the node does to the pass. */
  method AnnotateType(n: TypeDeclarationNode, c: Collector, lineStart: nat -> nat) returns (s: NodeStep)
    ensures s == TypeStep(n, c, lineStart)
  {
    match n.resolution {
      case TypeInvalidOperation =>
        return Throw;
      case TypeNull =>
        return MarkDirty;
      case TypeResolved(t) =>
        if t.isSealed {
          return Skip;
        }
        var derived := c.derivedTypes(t.id);
        if |derived| == 0 {
          return Skip;
        }
        var text := AppendBlock([], "Derived types:", TypeNames(derived));
        var span := Span(lineStart(n.token.line) + n.token.startColumn, n.token.endColumn - n.token.startColumn);
        var glyph := if t.isInterface then HasImplementations else Overridden;
        return Emit(Tag(span, glyph, text, TypeTargets(derived)));
    }
  }

  /** The StringBuilder part of the member pass: one block per non-empty relation set. */
  method BuildMemberText(kind: MemberKind, rel: Relations) returns (text: seq<string>)
    ensures text == MemberText(kind, rel)
  {
    var kindName := KindLabel(kind);
    text := AppendOptionalBlock([], "Implemented " + kindName + ":", rel.implemented);
    text := AppendOptionalBlock(text, "Overridden " + kindName + ":", rel.overridden);
    text := AppendOptionalBlock(text, "Implementing " + kindName + " in derived types:", rel.implementing);
    text := AppendOptionalBlock(text, "Overriding " + kindName + " in derived types:", rel.overriding);
  }

  /** One `if (set.Count > 0)` block of the member text. */
  method AppendOptionalBlock(lines: seq<string>, header: string, ids: seq<MemberIdentifier>) returns (r: seq<string>)
    ensures r == lines + OptionalBlock(header, ids)
  {
    r := lines;
    if |ids| > 0 {
      r := AppendBlock(lines, header, IdentifierTexts(ids));
    }
  }

  /** Builds the tag of one member node, or reports what the node does to the pass. */
  method AnnotateMember(n: DeclarationNode, c: Collector, lineStart: nat -> nat) returns (s: NodeStep)
    ensures s == MemberStep(n, c, lineStart)
  {
    if n.AccessorDeclaration? {
      return Skip;
    }
    match n.resolution {
      case MemberArgumentException =>
        return Skip;
      case MemberInvalidOperation =>
        return Throw;
      case MemberNull =>
        return MarkDirty;
      case MemberResolved(m) =>
        if !c.isSupportedMemberType(m) {
          return Skip;
        }
        var implementedMethods := c.implementedInterfaceMembers(m.id);
        var overriddenMethods := c.overriddenBaseMembers(m.id);
        var overridingMethods := c.overridersFromDerivedTypes(m.id);
        var implementingMethods := c.implementorsForInterfaceMember(m.id);
        if |implementingMethods| == 0 && |implementedMethods| == 0 && |overriddenMethods| == 0 && |overridingMethods| == 0 {
          return Skip;
        }
        var rel := Relations(implementedMethods, overriddenMethods, overridingMethods, implementingMethods);
        var text := BuildMemberText(m.kind, rel);
        var span := Span(lineStart(n.token.line) + n.token.startColumn, n.token.endColumn - n.token.startColumn);
        var glyph := MemberGlyph(rel);
        var members := implementedMethods + overriddenMethods + implementingMethods + overridingMethods;
        return Emit(Tag(span, glyph, text, MemberTargetsOf(members)));
    }
  }
}
