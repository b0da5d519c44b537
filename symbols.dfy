/**
  The read-only symbol and syntax model the inheritance analyzer consumes.
  Everything here is produced by the compiler: the analyzer only reads it.
 */
module Symbols {
  import opened Wrappers

  /** Stable identity of a compiled module (an assembly). */
  datatype AssemblyIdentifier = AssemblyIdentifier(name: string)

  /** Cross-compilation identity of a type: the defining assembly and the declaration path. */
  datatype TypeIdentifier = TypeIdentifier(assembly: AssemblyIdentifier, path: string)

  /** Cross-compilation identity of a member; `text` is what its ToString() prints. */
  datatype MemberIdentifier = MemberIdentifier(assembly: AssemblyIdentifier, text: string)

  datatype MemberKind = Method | Property | Event | Field

  datatype MemberSymbol = MemberSymbol(id: MemberIdentifier, kind: MemberKind)

  /**
    A resolved type. Its base class and base interfaces are resolved types themselves,
    so a value of this datatype is a finite, acyclic type hierarchy.
   */
  datatype TypeSymbol = TypeSymbol(
    id: TypeIdentifier,
    isSealed: bool,
    isInterface: bool,
    baseClass: Option<TypeSymbol>,
    baseInterfaces: seq<TypeSymbol>,
    members: seq<MemberSymbol>)

  /** A type that a query reports as derived: its full name and its identifier. */
  datatype DerivedType = DerivedType(fullName: string, id: TypeIdentifier)

  /** Position of a declaration's name token: line number and start/end columns. */
  datatype Token = Token(line: nat, startColumn: nat, endColumn: nat)

  /** What resolving a type declaration node against the compilation yields. */
  datatype TypeOutcome =
    | TypeNull                 // the compiler returned null
    | TypeInvalidOperation     // the compiler threw InvalidOperationException
    | TypeResolved(symbol: TypeSymbol)

  datatype TypeDeclarationNode = TypeDeclarationNode(token: Token, resolution: TypeOutcome)

  /** What resolving a member declaration node against the compilation yields. */
  datatype MemberOutcome =
    | MemberArgumentException  // the compiler threw ArgumentException
    | MemberNull               // the compiler returned null
    | MemberInvalidOperation   // the compiler threw InvalidOperationException
    | MemberResolved(symbol: MemberSymbol)

  /** A node of the member pass: an accessor declaration, or any other member-like declaration. */
  datatype DeclarationNode =
    | AccessorDeclaration(token: Token)
    | MemberDeclaration(token: Token, resolution: MemberOutcome)

  /** A member declaration as the parse tree lists it; a field holds its variable declarators. */
  datatype MemberSyntax =
    | FieldDeclaration(declarators: seq<DeclarationNode>)
    | OtherMemberDeclaration(node: DeclarationNode)

  datatype SourceFile = SourceFile(
    typeDeclarations: seq<TypeDeclarationNode>,
    memberDeclarations: seq<MemberSyntax>)

  /** A compilation: its main assembly and its source files by file name. */
  datatype Compilation = Compilation(
    mainAssembly: AssemblyIdentifier,
    sourceFiles: map<string, SourceFile>)
}
