/**
  One analysis pass of the inheritance analyzer (ReParseImpl): find the document's project
  and compilation, walk its type declarations and then its member declarations, and either
  publish the complete tag list, abort as dirty without publishing, or rethrow.
 */
module Analysis {
  import opened Wrappers
  import opened Symbols
  import opened Annotations

  // ---------------------------------------------------------------- declaration walker

  /** A field declaration stands for its variable declarators; any other declaration for itself. */
  function SelectDeclaratorsFromFields(n: MemberSyntax): seq<DeclarationNode>
  {
    match n
    case FieldDeclaration(declarators) => declarators
    case OtherMemberDeclaration(node) => [node]
  }

  /** The member nodes of the pass: every declaration expanded by SelectDeclaratorsFromFields, in order. */
  function SelectMany(ns: seq<MemberSyntax>): seq<DeclarationNode>
  {
    if |ns| == 0 then [] else SelectMany(ns[..|ns| - 1]) + SelectDeclaratorsFromFields(ns[|ns| - 1])
  }

  /**
    A node is walked exactly when it is a variable declarator of one of the field
    declarations or is itself one of the other declarations.
   */
  lemma {:induction false} SelectManyMembers(ns: seq<MemberSyntax>, d: DeclarationNode)
    ensures d in SelectMany(ns) <==>
            exists i :: 0 <= i < |ns| &&
                        ((ns[i].FieldDeclaration? && d in ns[i].declarators) ||
                         (ns[i].OtherMemberDeclaration? && d == ns[i].node))
  {
    if |ns| > 0 {
      var init := ns[..|ns| - 1];
      SelectManyMembers(init, d);
      assert forall i :: 0 <= i < |init| ==> init[i] == ns[i];
      if d in SelectDeclaratorsFromFields(ns[|ns| - 1]) {
        assert (ns[|ns| - 1].FieldDeclaration? && d in ns[|ns| - 1].declarators) ||
               (ns[|ns| - 1].OtherMemberDeclaration? && d == ns[|ns| - 1].node);
      }
    }
  }

  /** The walk keeps the order of the declarations: concatenating lists concatenates walks. */
  lemma {:induction false} SelectManyAppend(ns: seq<MemberSyntax>, ms: seq<MemberSyntax>)
    ensures SelectMany(ns + ms) == SelectMany(ns) + SelectMany(ms)
    decreases |ms|
  {
    if |ms| == 0 {
      assert ns + ms == ns;
    } else {
      var init := ms[..|ms| - 1];
      assert (ns + ms)[..|ns + ms| - 1] == ns + init;
      SelectManyAppend(ns, init);
    }
  }

  // ---------------------------------------------------------------- environment

  /** The project that owns a C# text buffer (the compilation the host creates for it is part of it). */
  datatype Project = Project(compilation: Compilation)

  /** The language service's text buffers by file name; a buffer's project may be absent. */
  datatype LanguageService = LanguageService(textBuffers: map<Option<string>, Option<Project>>)

  /** What a pass finds when it starts: the document's file name and the language service. */
  datatype PassInput = PassInput(fileName: Option<string>, languageService: Option<LanguageService>)

  /** The project of the document's text buffer, when the service and the buffer exist. */
  function FindProject(languageService: Option<LanguageService>, fileName: Option<string>): (p: Option<Project>)
    ensures p.Some? ==> languageService.Some? && fileName in languageService.value.textBuffers
    ensures languageService.Some? && fileName in languageService.value.textBuffers
            ==> p == languageService.value.textBuffers[fileName]
  {
    match languageService
    case None => None
    case Some(service) => if fileName in service.textBuffers then service.textBuffers[fileName] else None
  }

  /** The pass has a source file to walk: a project, a non-empty file name, and the file in the compilation. */
  predicate HasSourceFile(input: PassInput)
  {
    var project := FindProject(input.languageService, input.fileName);
    project.Some? && input.fileName.Some? && |input.fileName.value| > 0
    && input.fileName.value in project.value.compilation.sourceFiles
  }

  function SourceFileOf(input: PassInput): SourceFile
    requires HasSourceFile(input)
  {
    FindProject(input.languageService, input.fileName).value.compilation.sourceFiles[input.fileName.value]
  }

  // ---------------------------------------------------------------- the pass as a fold

  /** How a pass ends: the published tags, dirty without publishing, or dirty and rethrown. */
  datatype PassResult = Complete(tags: seq<Tag>) | Dirty | Fatal

  /** The state of a pass after some nodes: still running with the tags so far, or stopped. */
  datatype Progress = Running(tags: seq<Tag>) | Stopped(result: PassResult)

  predicate Stops(s: NodeStep)
  {
    s.MarkDirty? || s.Throw?
  }

  function StopResult(s: NodeStep): PassResult
    requires Stops(s)
  {
    if s.MarkDirty? then Dirty else Fatal
  }

  /** Processing the steps in order: the first step that stops the pass decides the end. */
  function Fold(steps: seq<NodeStep>): (p: Progress)
    ensures p.Stopped? ==> p.result == Dirty || p.result == Fatal
  {
    if |steps| == 0 then Running([])
    else
      match Fold(steps[..|steps| - 1])
      case Stopped(r) => Stopped(r)
      case Running(tags) =>
        match steps[|steps| - 1]
        case Skip => Running(tags)
        case Emit(tag) => Running(tags + [tag])
        case MarkDirty => Stopped(Dirty)
        case Throw => Stopped(Fatal)
  }

  /** The tags of the emitting steps, in order. */
  function Emitted(steps: seq<NodeStep>): seq<Tag>
  {
    if |steps| == 0 then [] else (if steps[0].Emit? then [steps[0].tag] else []) + Emitted(steps[1..])
  }

  /** Every step of the pass: one per type declaration, then one per walked member node. */
  function PassSteps(sf: SourceFile, c: Collector, lineStart: nat -> nat): (steps: seq<NodeStep>)
    ensures |steps| == |sf.typeDeclarations| + |SelectMany(sf.memberDeclarations)|
    ensures forall i :: 0 <= i < |sf.typeDeclarations| ==> steps[i] == TypeStep(sf.typeDeclarations[i], c, lineStart)
    ensures forall j :: 0 <= j < |SelectMany(sf.memberDeclarations)| ==>
              steps[|sf.typeDeclarations| + j] == MemberStep(SelectMany(sf.memberDeclarations)[j], c, lineStart)
  {
    var types := sf.typeDeclarations;
    var members := SelectMany(sf.memberDeclarations);
    seq(|types|, i requires 0 <= i < |types| => TypeStep(types[i], c, lineStart))
    + seq(|members|, j requires 0 <= j < |members| => MemberStep(members[j], c, lineStart))
  }

  /** The outcome of a pass. */
  function Pass(input: PassInput, c: Collector, lineStart: nat -> nat): PassResult
  {
    if !HasSourceFile(input) then Complete([])
    else
      match Fold(PassSteps(SourceFileOf(input), c, lineStart))
      case Running(tags) => Complete(tags)
      case Stopped(r) => r
  }

  // ---------------------------------------------------------------- lemmas about the fold

  lemma {:induction false} EmittedSnoc(steps: seq<NodeStep>, s: NodeStep)
    ensures Emitted(steps + [s]) == Emitted(steps) + (if s.Emit? then [s.tag] else [])
    decreases |steps|
  {
    if |steps| == 0 {
      assert steps + [s] == [s];
    } else {
      assert (steps + [s])[1..] == steps[1..] + [s];
      EmittedSnoc(steps[1..], s);
    }
  }

  /** Once stopped, a pass stays stopped with the same result whatever follows. */
  lemma {:induction false} FoldStoppedStays(steps: seq<NodeStep>, more: seq<NodeStep>)
    requires Fold(steps).Stopped?
    ensures Fold(steps + more) == Fold(steps)
    decreases |more|
  {
    if |more| == 0 {
      assert steps + more == steps;
    } else {
      var init := more[..|more| - 1];
      assert (steps + more)[..|steps + more| - 1] == steps + init;
      FoldStoppedStays(steps, init);
    }
  }

  /** A pass runs to the end exactly when no step stops it, and then it has every emitted tag. */
  lemma {:induction false} FoldRunning(steps: seq<NodeStep>)
    ensures Fold(steps).Running? <==> forall k :: 0 <= k < |steps| ==> !Stops(steps[k])
    ensures Fold(steps).Running? ==> Fold(steps).tags == Emitted(steps)
  {
    if |steps| > 0 {
      var init := steps[..|steps| - 1];
      var last := steps[|steps| - 1];
      FoldRunning(init);
      assert init + [last] == steps;
      EmittedSnoc(init, last);
      assert forall k :: 0 <= k < |init| ==> init[k] == steps[k];
    }
  }

  /** The first step that stops the pass decides its result. */
  lemma {:induction false} FoldStopsAtFirst(steps: seq<NodeStep>, i: nat)
    requires i < |steps| && Stops(steps[i])
    requires forall k :: 0 <= k < i ==> !Stops(steps[k])
    ensures Fold(steps) == Stopped(StopResult(steps[i]))
  {
    var prefix := steps[..i + 1];
    assert prefix[..i] == steps[..i];
    FoldRunning(steps[..i]);
    assert Fold(prefix) == Stopped(StopResult(steps[i]));
    FoldStoppedStays(prefix, steps[i + 1..]);
    assert prefix + steps[i + 1..] == steps;
  }

  // ---------------------------------------------------------------- lemmas about the pass

  /**
    Without a language service, a text buffer, a project or a non-empty file name, or when
    the file is not part of the compilation, the pass completes with no tags.
   */
  lemma NothingToAnnotate(input: PassInput, c: Collector, lineStart: nat -> nat)
    requires !HasSourceFile(input)
    ensures Pass(input, c, lineStart) == Complete([])
  {
  }

  /**
    With a source file, the pass completes exactly when no node stops it, and then it
    publishes the tags of the emitting nodes, in node order.
   */
  lemma PassCompletes(input: PassInput, c: Collector, lineStart: nat -> nat)
    requires HasSourceFile(input)
    ensures var steps := PassSteps(SourceFileOf(input), c, lineStart);
            && (Pass(input, c, lineStart).Complete? <==> forall k :: 0 <= k < |steps| ==> !Stops(steps[k]))
            && (Pass(input, c, lineStart).Complete? ==> Pass(input, c, lineStart).tags == Emitted(steps))
  {
    FoldRunning(PassSteps(SourceFileOf(input), c, lineStart));
  }

  /**
    With a source file, the pass ends dirty (without publishing) exactly when the first node
    that stops it resolved to null, and ends by rethrowing exactly when that node threw
    InvalidOperationException.
   */
  lemma PassStops(input: PassInput, c: Collector, lineStart: nat -> nat, i: nat)
    requires HasSourceFile(input)
    requires var steps := PassSteps(SourceFileOf(input), c, lineStart);
             i < |steps| && Stops(steps[i]) && forall k :: 0 <= k < i ==> !Stops(steps[k])
    ensures var steps := PassSteps(SourceFileOf(input), c, lineStart);
            && (Pass(input, c, lineStart) == Dirty <==> steps[i].MarkDirty?)
            && (Pass(input, c, lineStart) == Fatal <==> steps[i].Throw?)
  {
    FoldStopsAtFirst(PassSteps(SourceFileOf(input), c, lineStart), i);
  }

  /** Every published tag is the tag of one node's emitting step, so there are at most as many tags as nodes. */
  lemma {:induction false} EmittedFromSteps(steps: seq<NodeStep>)
    ensures |Emitted(steps)| <= |steps|
    ensures forall tag :: tag in Emitted(steps) ==> exists k :: 0 <= k < |steps| && steps[k] == Emit(tag)
  {
    if |steps| > 0 {
      EmittedFromSteps(steps[1..]);
      forall tag | tag in Emitted(steps) ensures exists k :: 0 <= k < |steps| && steps[k] == Emit(tag) {
        if steps[0].Emit? && tag == steps[0].tag {
          assert steps[0] == Emit(tag);
        } else {
          var k :| 0 <= k < |steps[1..]| && steps[1..][k] == Emit(tag);
          assert steps[k + 1] == Emit(tag);
        }
      }
    }
  }

  // ---------------------------------------------------------------- the pass

  /** The loop over the type declarations: `steps` holds one step per node, then possibly more. */
  method RunTypePass(nodes: seq<TypeDeclarationNode>, c: Collector, lineStart: nat -> nat, ghost steps: seq<NodeStep>)
    returns (p: Progress)
    requires |nodes| <= |steps|
    requires forall i :: 0 <= i < |nodes| ==> steps[i] == TypeStep(nodes[i], c, lineStart)
    ensures p == Fold(steps[..|nodes|])
  {
    var tags: seq<Tag> := [];
    for i := 0 to |nodes|
      invariant Fold(steps[..i]) == Running(tags)
    {
      var step := AnnotateType(nodes[i], c, lineStart);
      assert steps[..i + 1][..i] == steps[..i];
      match step {
        case Skip =>
        case Emit(tag) =>
          tags := tags + [tag];
        case MarkDirty =>
          FoldStoppedStays(steps[..i + 1], steps[i + 1..|nodes|]);
          assert steps[..i + 1] + steps[i + 1..|nodes|] == steps[..|nodes|];
          return Stopped(Dirty);
        case Throw =>
          FoldStoppedStays(steps[..i + 1], steps[i + 1..|nodes|]);
          assert steps[..i + 1] + steps[i + 1..|nodes|] == steps[..|nodes|];
          return Stopped(Fatal);
      }
    }
    return Running(tags);
  }

  /** The loop over the walked member nodes, which come after the `done` type steps. */
  method RunMemberPass(tags: seq<Tag>, members: seq<DeclarationNode>, c: Collector, lineStart: nat -> nat,
                       ghost steps: seq<NodeStep>, ghost done: nat)
    returns (p: Progress)
    requires done + |members| == |steps| && Fold(steps[..done]) == Running(tags)
    requires forall j :: 0 <= j < |members| ==> steps[done + j] == MemberStep(members[j], c, lineStart)
    ensures p == Fold(steps)
  {
    var acc := tags;
    for j := 0 to |members|
      invariant Fold(steps[..done + j]) == Running(acc)
    {
      var step := AnnotateMember(members[j], c, lineStart);
      ghost var at := done + j;
      assert steps[..at + 1][..at] == steps[..at];
      match step {
        case Skip =>
        case Emit(tag) =>
          acc := acc + [tag];
        case MarkDirty =>
          FoldStoppedStays(steps[..at + 1], steps[at + 1..]);
          assert steps[..at + 1] + steps[at + 1..] == steps;
          return Stopped(Dirty);
        case Throw =>
          FoldStoppedStays(steps[..at + 1], steps[at + 1..]);
          assert steps[..at + 1] + steps[at + 1..] == steps;
          return Stopped(Fatal);
      }
    }
    assert steps[..done + |members|] == steps;
    return Running(acc);
  }

  /** ReParseImpl: one pass, as the analyzer runs it. */
  method ReParseImpl(input: PassInput, c: Collector, lineStart: nat -> nat) returns (r: PassResult)
    ensures r == Pass(input, c, lineStart)
  {
    var fileName := input.fileName;
    var project: Option<Project> := None;
    var languageService := input.languageService;
    if languageService.Some? {
      if fileName in languageService.value.textBuffers {
        project := languageService.value.textBuffers[fileName];
      }
    }
    var tags: seq<Tag> := [];
    if project.Some? && fileName.Some? && |fileName.value| > 0 {
      var compilation := project.value.compilation;
      if fileName.value !in compilation.sourceFiles {
        return Complete(tags);
      }
      var sourceFile := compilation.sourceFiles[fileName.value];
      ghost var steps := PassSteps(sourceFile, c, lineStart);
      var nodes := sourceFile.typeDeclarations;
      var afterTypes := RunTypePass(nodes, c, lineStart, steps);
      if afterTypes.Stopped? {
        FoldStoppedStays(steps[..|nodes|], steps[|nodes|..]);
        assert steps[..|nodes|] + steps[|nodes|..] == steps;
        return afterTypes.result;
      }
      var members := SelectMany(sourceFile.memberDeclarations);
      var afterMembers := RunMemberPass(afterTypes.tags, members, c, lineStart, steps, |nodes|);
      if afterMembers.Stopped? {
        return afterMembers.result;
      }
      tags := afterMembers.tags;
    }
    return Complete(tags);
  }
}
