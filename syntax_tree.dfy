/**
 * The parts of a SystemVerilog parse tree (IEEE 1800-2017, Annex A) that the
 * extraction listener reads. Every child the listener asks for and tests
 * before use is an `Option` (the accessor may return no node); a rule the
 * listener iterates over is a `seq`, in document order. A subtree that the
 * listener only turns into text is a `TextNode`, whose `text` stands for what
 * the parser runtime's getText() returns for it.
 */
module SyntaxTree {
  import opened Wrappers

  /** A subtree read only through its text. */
  datatype TextNode = TextNode(text: string)

  /**
   * The first token of a rule; `line` is the line the lexer reports for it.
   * A context's `start` is None when the context has no `start` attribute.
   */
  datatype Token = Token(line: nat)

  // ----- module_declaration, with ANSI (23.2.2.2) and non-ANSI (23.2.2.1) port lists

  datatype ModuleDeclaration = ModuleDeclaration(start: Option<Token>, header: Option<ModuleHeader>)

  datatype ModuleHeader = ModuleHeader(
    identifier: Option<TextNode>,
    portList: Option<ListOfPortDeclarations>)

  /** Holds the `port_decl` children (ANSI shape) and the `port` children (non-ANSI shape). */
  datatype ListOfPortDeclarations = ListOfPortDeclarations(portDecls: seq<PortDecl>, ports: seq<PortEntry>)

  datatype PortDecl = PortDecl(ansi: Option<AnsiPortDeclaration>)

  datatype AnsiPortDeclaration = AnsiPortDeclaration(
    direction: Option<TextNode>,
    identifier: Option<TextNode>,
    dataType: Option<TextNode>,
    implicitDataType: Option<TextNode>)

  /** A `port` entry of a non-ANSI list. */
  datatype PortEntry = PortEntry(implicit: Option<PortImplicit>)

  datatype PortImplicit = PortImplicit(expression: Option<PortExpression>)

  datatype PortExpression = PortExpression(identifier: Option<TextNode>)

  // ----- interface_declaration, its modports (25.5) and its data declarations

  datatype InterfaceDeclaration = InterfaceDeclaration(
    start: Option<Token>,
    header: Option<InterfaceHeader>,
    items: seq<InterfaceItem>)

  datatype InterfaceHeader = InterfaceHeader(identifier: Option<TextNode>)

  datatype InterfaceItem = InterfaceItem(
    modport: Option<ModportDeclaration>,
    commonItem: Option<ModuleCommonItem>)

  datatype ModportDeclaration = ModportDeclaration(
    identifier: Option<TextNode>,
    clauses: seq<ModportPortsDeclaration>)

  /** One `modport_ports_declaration` clause; the listener reads its identifier unchecked. */
  datatype ModportPortsDeclaration = ModportPortsDeclaration(
    direction: Option<TextNode>,
    identifier: Option<TextNode>)

  datatype ModuleCommonItem = ModuleCommonItem(itemDeclaration: Option<ModuleItemDeclaration>)

  datatype ModuleItemDeclaration = ModuleItemDeclaration(dataDeclaration: Option<DataDeclaration>)

  datatype DataDeclaration = DataDeclaration(
    dataType: Option<TextNode>,
    variables: Option<ListOfVariableDeclAssignments>)

  datatype ListOfVariableDeclAssignments = ListOfVariableDeclAssignments(assignments: seq<VariableDeclAssignment>)

  datatype VariableDeclAssignment = VariableDeclAssignment(identifier: Option<TextNode>)

  // ----- program_declaration and the four declarations named without a header

  datatype ProgramDeclaration = ProgramDeclaration(start: Option<Token>, header: Option<ProgramHeader>)

  datatype ProgramHeader = ProgramHeader(identifier: Option<TextNode>)

  /** class, package, checker and covergroup declarations: the identifier is a direct child. */
  datatype DirectlyNamedDeclaration = DirectlyNamedDeclaration(start: Option<Token>, identifier: Option<TextNode>)

  /** A node for which the tree walker calls one of the listener's seven enter hooks. */
  datatype Declaration =
    | ModuleDecl(moduleCtx: ModuleDeclaration)
    | InterfaceDecl(interfaceCtx: InterfaceDeclaration)
    | ProgramDecl(programCtx: ProgramDeclaration)
    | ClassDecl(classCtx: DirectlyNamedDeclaration)
    | PackageDecl(packageCtx: DirectlyNamedDeclaration)
    | CheckerDecl(checkerCtx: DirectlyNamedDeclaration)
    | CovergroupDecl(covergroupCtx: DirectlyNamedDeclaration)
}
