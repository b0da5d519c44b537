# Inheritance margin: analysis core in Dafny

This project models the logic core of a Visual Studio inheritance-margin extension for C#.
For each declaration in a source file, the extension works out which types derive from a
type and which members a member implements, overrides, is implemented by or is overridden
by. It then puts a tag on the declaration's name: a glyph, a display text and a list of
navigation targets. The model covers five things:

- **Cross-compilation resolution** (`Resolution`). A symbolic identifier is resolved against an
  ordered list of compilations. The compilation whose main assembly defines the identifier
  wins at once, even if it resolves to null. Otherwise the last non-null resolution wins.
- **Hide-by-signature search** (`HideBySig`). This collects the members with the same signature
  from a type, optionally from its base-class chain, and optionally from its base interfaces.
  The results are appended to one shared list.
- **Annotation rules** (`Annotations`). These cover the skip rules, the glyph decision table,
  the display text blocks, the target list and the span arithmetic for one declaration node.
- **The analysis pass** (`Analysis`, `ReParseImpl`). It finds the document's project and
  source file, walks the type declarations and then the member declarations, and ends in
  one of three ways:
  - it publishes the complete tag list (`Complete`);
  - it aborts as dirty without publishing (`Dirty`);
  - it marks itself dirty and rethrows (`Fatal`).
- **Command identifiers** (`CommandIds`). A command identifier is a Guid plus a command
  range. Its dictionary comparer treats two identifiers as equal when they have the same
  Guid and one's start lies in the other's range. The hash uses only the Guid.

Modules: `Wrappers` (Option), `Symbols` (identifiers, symbols, syntax nodes, compilations),
`CommandIds`, `Resolution`, `HideBySig`, `Annotations`, `Analysis`.

Modelling choices:
- Calls into the compiler and into the relationship collector are inputs. This covers
  `IsSameSignature`, the collector's queries and `IsSupportedMemberType`, the lookups of a
  declaration node's type or member, the resolver passed to `Resolve`, the Guid hash, and
  the snapshot's line-start offsets. They appear as function parameters or function-typed
  fields.
- A syntax node carries the outcome of resolving it against the compilation. A type node
  resolves to null, to `InvalidOperationException`, or to a type. A member node resolves to
  `ArgumentException`, to null, to `InvalidOperationException`, or to a member.
- A type symbol contains its resolved base class and base interfaces. The hierarchy is
  therefore finite and acyclic by construction, and the recursive search terminates on it.
- `CommandId` is a class with constant fields, because its setters are private and set once.
  That way the comparer's `ReferenceEquals` test is reference equality.
- Sets returned by queries are sequences in their enumeration order.

Two facts about the code that the model keeps:
- The header of a type's text is always `Derived types:`, because the kind name is the fixed
  string `types` (CSharpInheritanceAnalyzer.cs:291-294), for classes and interfaces alike.
- Which member kinds are annotated is decided by the collector's `IsSupportedMemberType`
  (CSharpInheritanceAnalyzer.cs:335). Its code is not part of this model, so it is an input
  rather than a fixed list of kinds.

## Model

| member | source | states |
|---|---|---|
| `Resolution.FirstDefining` | Tvl.VisualStudio.InheritanceMargin.CSharp.Legacy/CSharpInheritanceAnalyzer.cs:78-81 | returns the index of the first compilation whose main assembly is the defining assembly, with no earlier one matching; returns none only when no compilation matches |
| `Resolution.LastResolved` | Tvl.VisualStudio.InheritanceMargin.CSharp.Legacy/CSharpInheritanceAnalyzer.cs:71-76 | returns the index of the last non-null resolution, with only nulls after it; returns none only when every resolution is null |
| `Resolution.Resolve` | Tvl.VisualStudio.InheritanceMargin.CSharp.Legacy/CSharpInheritanceAnalyzer.cs:64-90 | result is `(resolver(c_i), c_i)` for the first defining compilation `c_i`, even when that resolution is null, and only `i + 1` compilations are consulted; with no defining compilation it is the pair of the last non-null resolution, or null; a null first component occurs only in the defining case |
| `Resolution.LaterCompilationsIgnored` | Tvl.VisualStudio.InheritanceMargin.CSharp.Legacy/CSharpInheritanceAnalyzer.cs:78-81 | once the first defining compilation is reached, removing every later compilation does not change the prescribed result |
| `Resolution.ResolveMemberIdentifier` | Tvl.VisualStudio.InheritanceMargin.CSharp.Legacy/CSharpInheritanceAnalyzer.cs:54-57 | the tie-break applied to each compilation's member lookup, with the member identifier's assembly as the defining assembly |
| `Resolution.ResolveTypeIdentifier` | Tvl.VisualStudio.InheritanceMargin.CSharp.Legacy/CSharpInheritanceAnalyzer.cs:59-62 | the tie-break applied to each compilation's type lookup, with the type identifier's assembly as the defining assembly |
| `HideBySig.SameSignatureMembers` | Tvl.VisualStudio.InheritanceMargin.CSharp.Legacy/CSharpInheritanceAnalyzer.cs:456-462 | a member is kept exactly when it is in the list and has the same signature; never more results than members |
| `HideBySig.MemberList.constructor` | Tvl.VisualStudio.InheritanceMargin.CSharp.Legacy/CSharpInheritanceAnalyzer.cs:449 | the results list starts empty |
| `HideBySig.MemberList.Add` | Tvl.VisualStudio.InheritanceMargin.CSharp.Legacy/CSharpInheritanceAnalyzer.cs:461 | appends one member at the end |
| `HideBySig.AddSameSignatureMembers` | Tvl.VisualStudio.InheritanceMargin.CSharp.Legacy/CSharpInheritanceAnalyzer.cs:456-462 | the loop over a type's own members appends exactly its signature matches, in order, after the existing entries |
| `HideBySig.FindHideBySigMethodInto` | Tvl.VisualStudio.InheritanceMargin.CSharp.Legacy/CSharpInheritanceAnalyzer.cs:454-480 | the list afterwards is the old list, unchanged, followed by the type's own matches, then those from the base-class chain if `checkBaseTypes`, then those from each base interface if `includeInheritedInterfaces` |
| `HideBySig.AddInterfaceMatches` | Tvl.VisualStudio.InheritanceMargin.CSharp.Legacy/CSharpInheritanceAnalyzer.cs:471-479 | the loop over base interfaces appends each interface's recursive matches in interface order |
| `HideBySig.FindHideBySigMethod` | Tvl.VisualStudio.InheritanceMargin.CSharp.Legacy/CSharpInheritanceAnalyzer.cs:447-452 | returns exactly the recursive collector's matches, starting from an empty list |
| `HideBySig.Matches` | Tvl.VisualStudio.InheritanceMargin.CSharp.Legacy/CSharpInheritanceAnalyzer.cs:454-480 | the definition of what the recursive collector appends: own signature matches, then the base class's matches if `checkBaseTypes`, then the base interfaces' matches if `includeInheritedInterfaces`; characterised by `MatchesHaveSameSignature`, `OwnMembersOnly` and `MatchesExactlyVisitedMembers`, and met by `FindHideBySigMethodInto` |
| `HideBySig.InterfaceMatches` | Tvl.VisualStudio.InheritanceMargin.CSharp.Legacy/CSharpInheritanceAnalyzer.cs:471-479 | the definition of the matches from the first `n` base interfaces, in interface order; characterised by `InterfaceMatchesHaveSameSignature` and `InterfaceMatchesExactlyVisitedMembers`, and met by `AddInterfaceMatches` |
| `HideBySig.MatchesHaveSameSignature` | Tvl.VisualStudio.InheritanceMargin.CSharp.Legacy/CSharpInheritanceAnalyzer.cs:454-480 | every collected member has the same signature as the searched member |
| `HideBySig.InterfaceMatchesHaveSameSignature` | Tvl.VisualStudio.InheritanceMargin.CSharp.Legacy/CSharpInheritanceAnalyzer.cs:471-479 | every member collected through base interfaces has the same signature |
| `HideBySig.OwnMembersOnly` | Tvl.VisualStudio.InheritanceMargin.CSharp.Legacy/CSharpInheritanceAnalyzer.cs:456-479 | with both flags false, only the type's own members are matched |
| `HideBySig.MatchesExactlyVisitedMembers` | Tvl.VisualStudio.InheritanceMargin.CSharp.Legacy/CSharpInheritanceAnalyzer.cs:454-480 | a member is collected if and only if it has the same signature and belongs to a type the walk visits (the type, its base chain when enabled, its base interfaces when enabled, transitively) |
| `HideBySig.InterfaceMatchesExactlyVisitedMembers` | Tvl.VisualStudio.InheritanceMargin.CSharp.Legacy/CSharpInheritanceAnalyzer.cs:471-479 | the same characterisation for the first `n` base interfaces |
| `Annotations.TokenSpan` | Tvl.VisualStudio.InheritanceMargin.CSharp.Legacy/CSharpInheritanceAnalyzer.cs:298-301 | the span starts at the line's start offset plus the start column, and ends at the line's start offset plus the end column |
| `Annotations.TypeGlyph` | Tvl.VisualStudio.InheritanceMargin.CSharp.Legacy/CSharpInheritanceAnalyzer.cs:303 | the glyph is `HasImplementations` exactly for interfaces and `Overridden` exactly for other types |
| `Annotations.MemberGlyph` | Tvl.VisualStudio.InheritanceMargin.CSharp.Legacy/CSharpInheritanceAnalyzer.cs:392-416 | the definition of the member glyph as the source's nested if/else; characterised by `MemberGlyphSound` and `MemberGlyphPriority` |
| `Annotations.MemberGlyphSound` | Tvl.VisualStudio.InheritanceMargin.CSharp.Legacy/CSharpInheritanceAnalyzer.cs:392-416 | for an annotated member: the glyph shows "implements" if and only if something is implemented; it shows "has implementations", "overrides" or "is overridden" only when that relation is present; outside `HasImplementations` it shows "is overridden" exactly when an overrider exists |
| `Annotations.MemberGlyphPriority` | Tvl.VisualStudio.InheritanceMargin.CSharp.Legacy/CSharpInheritanceAnalyzer.cs:392-416 | the complete decision table, each glyph with its exact condition in first-match order: `ImplementsAndOverridden` iff something is implemented and an overrider exists; `ImplementsAndHasImplementations` iff something is implemented, no overrider and an implementor exists; `Implements` iff something is implemented and neither exists; `HasImplementations` iff nothing is implemented and an implementor exists; `OverridesAndOverridden` / `Overrides` iff neither holds, a base member is overridden, and an overrider does / does not exist; `Overridden` iff the implemented, implementing and overridden sets are all empty |
| `Annotations.KindLabel` | Tvl.VisualStudio.InheritanceMargin.CSharp.Legacy/CSharpInheritanceAnalyzer.cs:354-357 | the header word is "properties" exactly for properties, "events" exactly for events, and "methods" otherwise |
| `Annotations.MemberText` | Tvl.VisualStudio.InheritanceMargin.CSharp.Legacy/CSharpInheritanceAnalyzer.cs:353-385 | the definition of the member text: the four optional blocks in the order implemented, overridden, implementing, overriding; characterised by `MemberTextLength` and `MemberTextFirstHeader`, and built by `BuildMemberText` |
| `Annotations.MemberTextLength` | Tvl.VisualStudio.InheritanceMargin.CSharp.Legacy/CSharpInheritanceAnalyzer.cs:359-385 | the member text has one header line per non-empty set plus one line per related member |
| `Annotations.MemberTextFirstHeader` | Tvl.VisualStudio.InheritanceMargin.CSharp.Legacy/CSharpInheritanceAnalyzer.cs:359-385 | the text opens with the header of the first non-empty set, in the order implemented, overridden, implementing, overriding |
| `Annotations.TypeText` | Tvl.VisualStudio.InheritanceMargin.CSharp.Legacy/CSharpInheritanceAnalyzer.cs:290-296 | the definition of the type text: the header `Derived types:` and one indented line per derived type's full name; used by the tag that `TypeStep` states |
| `Annotations.TypeTargets` | Tvl.VisualStudio.InheritanceMargin.CSharp.Legacy/CSharpInheritanceAnalyzer.cs:305 | one type target per derived type, carrying its full name and identifier, in enumeration order |
| `Annotations.MemberTargets` | Tvl.VisualStudio.InheritanceMargin.CSharp.Legacy/CSharpInheritanceAnalyzer.cs:418-424 | the definition of the member targets, the four sets' targets in order; characterised by `MemberTargetsKeepDuplicates` |
| `Annotations.MemberTargetsKeepDuplicates` | Tvl.VisualStudio.InheritanceMargin.CSharp.Legacy/CSharpInheritanceAnalyzer.cs:418-424 | the member targets are implemented ++ overridden ++ implementing ++ overriding, with no deduplication; their number is the sum of the four counts and their multiset is the sum of the four multisets |
| `Annotations.Query` | Tvl.VisualStudio.InheritanceMargin.CSharp.Legacy/CSharpInheritanceAnalyzer.cs:339-348 | the definition of the four relation queries on the member's identifier; used by `MemberStep`, whose tag and emit condition are stated over it |
| `Annotations.NoRelations` | Tvl.VisualStudio.InheritanceMargin.CSharp.Legacy/CSharpInheritanceAnalyzer.cs:350 | the definition of the skip test: all four sets empty; used by `MemberStep`'s emit condition and `MemberGlyphSound` |
| `Annotations.TypeStep` | Tvl.VisualStudio.InheritanceMargin.CSharp.Legacy/CSharpInheritanceAnalyzer.cs:272-306 | a type node rethrows if and only if resolving it threw, marks the pass dirty if and only if it resolved to null, and is tagged if and only if it resolved to a non-sealed type with derived types; the tag has the type glyph, the token span, the derived-type text and targets |
| `Annotations.MemberStep` | Tvl.VisualStudio.InheritanceMargin.CSharp.Legacy/CSharpInheritanceAnalyzer.cs:313-425 | accessor nodes and `ArgumentException` are skipped; a member node rethrows if and only if resolution threw `InvalidOperationException`, marks the pass dirty if and only if it resolved to null, and is tagged if and only if the member is supported and some relation is non-empty |
| `Annotations.AppendBlock` | Tvl.VisualStudio.InheritanceMargin.CSharp.Legacy/CSharpInheritanceAnalyzer.cs:294-296 | the builder loop appends the header and then one indented line per item after the existing lines |
| `Annotations.AppendOptionalBlock` | Tvl.VisualStudio.InheritanceMargin.CSharp.Legacy/CSharpInheritanceAnalyzer.cs:359-364 | a block is appended only for a non-empty set |
| `Annotations.BuildMemberText` | Tvl.VisualStudio.InheritanceMargin.CSharp.Legacy/CSharpInheritanceAnalyzer.cs:353-385 | the built text is the four optional blocks in the fixed order, with the kind's header word |
| `Annotations.AnnotateType` | Tvl.VisualStudio.InheritanceMargin.CSharp.Legacy/CSharpInheritanceAnalyzer.cs:272-306 | the imperative body of the type loop does exactly what `TypeStep` prescribes |
| `Annotations.AnnotateMember` | Tvl.VisualStudio.InheritanceMargin.CSharp.Legacy/CSharpInheritanceAnalyzer.cs:313-425 | the imperative body of the member loop does exactly what `MemberStep` prescribes |
| `Analysis.SelectDeclaratorsFromFields` | Tvl.VisualStudio.InheritanceMargin.CSharp.Legacy/CSharpInheritanceAnalyzer.cs:221-228 | the definition: a field declaration stands for its variable declarators, any other declaration for itself; characterised through `SelectManyMembers` |
| `Analysis.SelectMany` | Tvl.VisualStudio.InheritanceMargin.CSharp.Legacy/CSharpInheritanceAnalyzer.cs:310 | the definition of the member nodes walked, every declaration expanded in order; characterised by `SelectManyMembers` and `SelectManyAppend` |
| `Analysis.SelectManyMembers` | Tvl.VisualStudio.InheritanceMargin.CSharp.Legacy/CSharpInheritanceAnalyzer.cs:221-228 | a node is walked if and only if it is a variable declarator of a field declaration or is one of the other member declarations |
| `Analysis.SelectManyAppend` | Tvl.VisualStudio.InheritanceMargin.CSharp.Legacy/CSharpInheritanceAnalyzer.cs:310 | expanding fields keeps declaration order: the walk of a concatenation is the concatenation of the walks |
| `Analysis.FindProject` | Tvl.VisualStudio.InheritanceMargin.CSharp.Legacy/CSharpInheritanceAnalyzer.cs:243-250 | a project is found only when the language service exists and has a text buffer for the file name, and then it is that buffer's project |
| `Analysis.Fold` | Tvl.VisualStudio.InheritanceMargin.CSharp.Legacy/CSharpInheritanceAnalyzer.cs:269-426 | a stopped pass ends only as dirty or fatal, never as complete |
| `Analysis.PassSteps` | Tvl.VisualStudio.InheritanceMargin.CSharp.Legacy/CSharpInheritanceAnalyzer.cs:269-311 | there is one step per type declaration, then one per walked member node, in order |
| `Analysis.FoldStoppedStays` | Tvl.VisualStudio.InheritanceMargin.CSharp.Legacy/CSharpInheritanceAnalyzer.cs:275-279 | once a pass returns early, no later node changes its result |
| `Analysis.FoldRunning` | Tvl.VisualStudio.InheritanceMargin.CSharp.Legacy/CSharpInheritanceAnalyzer.cs:252-430 | a pass runs to the end if and only if no node stops it, and then its tags are exactly the emitted ones, in order |
| `Analysis.FoldStopsAtFirst` | Tvl.VisualStudio.InheritanceMargin.CSharp.Legacy/CSharpInheritanceAnalyzer.cs:274-279 | the first node that stops the pass decides its result |
| `Analysis.EmittedFromSteps` | Tvl.VisualStudio.InheritanceMargin.CSharp.Legacy/CSharpInheritanceAnalyzer.cs:306 | every emitted tag is the tag of some node's emitting step, and there are at most as many tags as nodes |
| `Analysis.EmittedSnoc` | Tvl.VisualStudio.InheritanceMargin.CSharp.Legacy/CSharpInheritanceAnalyzer.cs:306 | one more node appends its tag at the end of the published list when it emits one, and otherwise leaves the list as it was |
| `Analysis.Pass` | Tvl.VisualStudio.InheritanceMargin.CSharp.Legacy/CSharpInheritanceAnalyzer.cs:230-437 | the definition of the pass's outcome: `Complete([])` without a source file, otherwise the fold over the node steps; characterised by `NothingToAnnotate`, `PassCompletes` and `PassStops`, and met by `ReParseImpl` |
| `Analysis.HasSourceFile` | Tvl.VisualStudio.InheritanceMargin.CSharp.Legacy/CSharpInheritanceAnalyzer.cs:254-258 | the definition of the guards: a project, a non-empty file name and the file in the compilation's source files; used by `NothingToAnnotate`, `PassCompletes` and `PassStops` |
| `Analysis.NothingToAnnotate` | Tvl.VisualStudio.InheritanceMargin.CSharp.Legacy/CSharpInheritanceAnalyzer.cs:254-263 | with no project, no or an empty file name, or a file missing from the compilation, the pass completes with an empty tag list |
| `Analysis.PassCompletes` | Tvl.VisualStudio.InheritanceMargin.CSharp.Legacy/CSharpInheritanceAnalyzer.cs:429-430 | with a source file, the pass completes if and only if no node stops it, and it then publishes the tags emitted by the nodes, in node order |
| `Analysis.PassStops` | Tvl.VisualStudio.InheritanceMargin.CSharp.Legacy/CSharpInheritanceAnalyzer.cs:274-436 | with a source file, the pass is dirty (nothing published) if and only if the first stopping node resolved to null, and fatal (dirty and rethrown) if and only if it threw `InvalidOperationException` |
| `Analysis.RunTypePass` | Tvl.VisualStudio.InheritanceMargin.CSharp.Legacy/CSharpInheritanceAnalyzer.cs:269-307 | the type loop ends in the state the fold over the type steps prescribes, returning early on a stop |
| `Analysis.RunMemberPass` | Tvl.VisualStudio.InheritanceMargin.CSharp.Legacy/CSharpInheritanceAnalyzer.cs:309-426 | the member loop, continuing from the tags of the type loop, ends in the state the fold over all steps prescribes |
| `Analysis.ReParseImpl` | Tvl.VisualStudio.InheritanceMargin.CSharp.Legacy/CSharpInheritanceAnalyzer.cs:230-437 | the pass's result is exactly `Pass`, the outcome the lemmas above characterise |
| `CommandIds.CommandId.Single` | Tvl.VisualStudio.InheritanceMargin/CommandTranslation/CommandId.cs:14-17 | the single-id constructor sets `Id == EndId == commandID` |
| `CommandIds.CommandId.constructor` | Tvl.VisualStudio.InheritanceMargin/CommandTranslation/CommandId.cs:19-24 | the range constructor stores the Guid, start and end as given, with no ordering check |
| `CommandIds.Equals` | Tvl.VisualStudio.InheritanceMargin/CommandTranslation/CommandId.cs:46-67 | the definition of the comparer's Equals, branch for branch; characterised by `NullHandling`, `DifferentGuidsNeverEqual`, `EqualsSymmetric`, `EqualsIffRangesIntersect`, `InvertedRangeNotEqualToCopy`, `InvertedRangeMatchesByStart` and `EqualsIsNotTransitive` |
| `CommandIds.GetHashCode` | Tvl.VisualStudio.InheritanceMargin/CommandTranslation/CommandId.cs:69-75 | null hashes to 0, anything else to the hash of its Guid |
| `CommandIds.NullHandling` | Tvl.VisualStudio.InheritanceMargin/CommandTranslation/CommandId.cs:48-54 | two nulls are equal, exactly one null gives false, and the same reference is always equal to itself |
| `CommandIds.DifferentGuidsNeverEqual` | Tvl.VisualStudio.InheritanceMargin/CommandTranslation/CommandId.cs:56-66 | identifiers with different Guids are never equal |
| `CommandIds.EqualsSymmetric` | Tvl.VisualStudio.InheritanceMargin/CommandTranslation/CommandId.cs:58-62 | `Equals(x, y) == Equals(y, x)` |
| `CommandIds.EqualsIffRangesIntersect` | Tvl.VisualStudio.InheritanceMargin/CommandTranslation/CommandId.cs:56-62 | for distinct identifiers with the same Guid and well-formed ranges, equal if and only if the two closed ranges share a command number |
| `CommandIds.InvertedRangeNotEqualToCopy` | Tvl.VisualStudio.InheritanceMargin/CommandTranslation/CommandId.cs:48-62 | a distinct field-for-field copy of an identifier is equal to it if and only if its range is not inverted; with `Id > EndId` an identifier equals its own copy only by reference |
| `CommandIds.InvertedRangeMatchesByStart` | Tvl.VisualStudio.InheritanceMargin/CommandTranslation/CommandId.cs:56-62 | an identifier with an inverted range (5, 3) still equals a distinct identifier (4, 10) whose range holds its start, although no command number lies in both ranges: only the start is tested |
| `CommandIds.HashConsistent` | Tvl.VisualStudio.InheritanceMargin/CommandTranslation/CommandId.cs:46-75 | equal identifiers have equal hash codes, for every Guid hash |
| `CommandIds.EqualsIsNotTransitive` | Tvl.VisualStudio.InheritanceMargin/CommandTranslation/CommandId.cs:46-67 | builds three identifiers with one Guid where a equals b and b equals c but a does not equal c |

## Left out

- `NavigateToType`, `NavigateToMember`, `ResolveType`, `ResolveMember` and `LangService_GetInstance` are not modelled. They obtain compilations from the IDE host and open files through native interop.
- The analyzer's constructor, its `Name` property and the `DictionaryEqualityComparer` field are not modelled. The constructor only rejects a null `serviceProvider` with `ArgumentNullException` and stores its arguments. `Name` is a constant. The comparer field holds one comparer instance.
- `SpecializedMatchingMemberCollector` is not part of this model. Its queries (derived types, implemented, overridden, overriding, implementing members) and `IsSupportedMemberType` are given functions.
- `IsSameSignature`, `GetTypeFromTypeDeclaration`, `GetMemberFromMemberDeclaration`, `IDECompilerHost.CreateCompiler` and `Compilation.SourceFiles` are compiler calls. They are inputs: a signature predicate, the outcome carried on each node, and the project's compilation with its source-file map.
- `SelectTypes`, `TypeCollector` and `SelectMethodsPropertiesAndFields` are not modelled. The source file gives the type nodes and member declarations directly. The empty walk for a null parse tree is not modelled.
- `GetTypeDeclarationNodes` is not modelled. The pass does not use it.
- The pass's timing and scheduling are not modelled: the stopwatch, `BackgroundParser` scheduling, `MarkDirty` and `OnParseComplete`. The three ways the pass can end are the `PassResult` values: publish, dirty with no publish, and dirty then rethrow.
- `InvalidOperationException` is modelled only when it comes from resolving a declaration node. The same exception from the collector's queries or other calls is not modelled. Other exception types pass through without marking the pass dirty, and they are not modelled either.
- `TokenSpan` does not model the exceptions the editor raises for a line number outside the snapshot or a negative span length. It does not model the snapshot itself or token lookup by index.
- `AnnotateType`, `AnnotateMember`: the display text is a list of lines. `TrimEnd` removing trailing white space from the last member or type name is not modelled.
- `HideBySig.FindHideBySigMethodInto`: a null `BaseInterfaces` list, or null entries that `OfType` would filter out, are represented by a list without them.
- `CommandIds.GetHashCode`: the Guid's own hash function is a parameter.
- `CommandIds.Equals` is not transitive, so no transitivity is claimed. `EqualsIsNotTransitive` exhibits this.
- The glyph-to-image mapping in `InheritanceGlyphFactory.cs` is not modelled. It is WPF rendering.
- `InheritanceTagFactory.cs` is not modelled. It only wraps the tag constructor.
