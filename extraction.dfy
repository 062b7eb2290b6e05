/**
 * What the listener extracts, as pure functions of the parse tree: the
 * identifier resolution, the port, modport and signal lists, the record each
 * enter hook appends, and the whole list a walk produces. The listener's
 * methods (module Listener) are proved to compute exactly these; the lemmas
 * here state the defaulting and selection rules they follow.
 */
module Extraction {
  import opened Wrappers
  import opened Sequences
  import opened SyntaxTree
  import opened Records

  // ===== identifiers and record emission

  /**
   * Python truthiness of an identifier: a record is added only for an
   * identifier that is present and is not the empty string.
   */
  predicate Admits(identifier: Option<string>)
  {
    identifier.Some? && identifier.value != ""
  }

  /** The record's line: the start token's line, or 0 when the context has no `start` attribute. */
  function LineOf(start: Option<Token>): nat
  {
    if start.Some? then start.value.line else 0
  }

  /** The text of an optional node, or `default` when the node is absent. */
  function TextOr(node: Option<TextNode>, default: string): string
  {
    if node.Some? then node.value.text else default
  }

  /**
   * Resolves an identifier nested one level inside a header: the identifier's
   * text when both the header and the identifier inside it exist, None
   * otherwise.
   */
  function ExtractIdentifier<C, H>(ctx: C, header: C -> Option<H>, identifier: H -> Option<TextNode>): (r: Option<string>)
    ensures r.Some? <==> header(ctx).Some? && identifier(header(ctx).value).Some?
    ensures r.Some? ==> r.value == identifier(header(ctx).value).value.text
  {
    match header(ctx)
    case None => None
    case Some(h) =>
      match identifier(h)
      case None => None
      case Some(id) => Some(id.text)
  }

  /** module_header, then module_identifier. */
  function ModuleIdentifier(ctx: ModuleDeclaration): (r: Option<string>)
    ensures r.Some? <==> ctx.header.Some? && ctx.header.value.identifier.Some?
    ensures r.Some? ==> r.value == ctx.header.value.identifier.value.text
  {
    ExtractIdentifier(ctx, (c: ModuleDeclaration) => c.header, (h: ModuleHeader) => h.identifier)
  }

  /** interface_header, then interface_identifier. */
  function InterfaceIdentifier(ctx: InterfaceDeclaration): (r: Option<string>)
    ensures r.Some? <==> ctx.header.Some? && ctx.header.value.identifier.Some?
    ensures r.Some? ==> r.value == ctx.header.value.identifier.value.text
  {
    ExtractIdentifier(ctx, (c: InterfaceDeclaration) => c.header, (h: InterfaceHeader) => h.identifier)
  }

  /** program_header, then program_identifier. */
  function ProgramIdentifier(ctx: ProgramDeclaration): (r: Option<string>)
    ensures r.Some? <==> ctx.header.Some? && ctx.header.value.identifier.Some?
    ensures r.Some? ==> r.value == ctx.header.value.identifier.value.text
  {
    ExtractIdentifier(ctx, (c: ProgramDeclaration) => c.header, (h: ProgramHeader) => h.identifier)
  }

  /** class, package, checker and covergroup: the identifier child's text, or None. */
  function DirectIdentifier(ctx: DirectlyNamedDeclaration): Option<string>
  {
    if ctx.identifier.Some? then Some(ctx.identifier.value.text) else None
  }

  /** The one record `_add_component` appends, or none when the identifier is not admitted. */
  function Record(kind: Kind, identifier: Option<string>, filename: string, start: Option<Token>, details: Details): seq<Component>
  {
    if Admits(identifier) then [Component(kind, identifier.value, filename, LineOf(start), details)] else []
  }

  // ===== direction and type defaults

  /** A direction child's text, or "inout" when there is none. */
  function DirectionText(direction: Option<TextNode>): string
  {
    TextOr(direction, "inout")
  }

  // ===== ports of a module

  /** The port built from an ANSI port declaration. */
  function AnsiPort(a: AnsiPortDeclaration): Port
  {
    var dataType :=
      if a.dataType.Some? then a.dataType.value.text
      else if a.implicitDataType.Some? then a.implicitDataType.value.text
      else "";
    Port(DirectionText(a.direction), TextOr(a.identifier, ""), dataType)
  }

  /** A `port_decl` yields its ANSI port, or nothing when it holds no ANSI declaration. */
  function AnsiEntry(d: PortDecl): (r: seq<Port>)
    ensures |r| <= 1
  {
    if d.ansi.Some? then [AnsiPort(d.ansi.value)] else []
  }

  /** A non-ANSI `port` yields an "inout" port of unknown type when it has an implicit port expression. */
  function NonAnsiEntry(p: PortEntry): (r: seq<Port>)
    ensures |r| <= 1
  {
    if p.implicit.Some? && p.implicit.value.expression.Some? then
      [Port("inout", TextOr(p.implicit.value.expression.value.identifier, ""), "")]
    else []
  }

  /** The port list is ANSI-shaped: a list of port declarations with at least one `port_decl`. */
  predicate AnsiShaped(ctx: ModuleDeclaration)
  {
    ctx.header.Some? && ctx.header.value.portList.Some? && |ctx.header.value.portList.value.portDecls| > 0
  }

  /** The port list is non-ANSI-shaped: no `port_decl` and at least one `port`. */
  predicate NonAnsiShaped(ctx: ModuleDeclaration)
  {
    ctx.header.Some? && ctx.header.value.portList.Some?
    && |ctx.header.value.portList.value.portDecls| == 0
    && |ctx.header.value.portList.value.ports| > 0
  }

  /**
   * The ports of a module. Only the two shapes produce ports: with no module
   * header, no list of port declarations, or a list with neither entry kind,
   * the list is empty.
   */
  function Ports(ctx: ModuleDeclaration): (r: seq<Port>)
    ensures !AnsiShaped(ctx) && !NonAnsiShaped(ctx) ==> r == []
  {
    if AnsiShaped(ctx) then FlatMap(ctx.header.value.portList.value.portDecls, AnsiEntry)
    else if NonAnsiShaped(ctx) then FlatMap(ctx.header.value.portList.value.ports, NonAnsiEntry)
    else []
  }

  /**
   * ANSI branch: the ports are those of the ANSI `port_decl` entries, in
   * order, and no other. Each one's direction is the explicit direction or
   * "inout"; its type is the data type, else the implicit data type, else "";
   * its name is the identifier, or "" when there is none.
   */
  lemma AnsiPortsFollowDeclarations(ctx: ModuleDeclaration)
    requires AnsiShaped(ctx)
    ensures var decls := ctx.header.value.portList.value.portDecls;
      var r, idx := Ports(ctx), Kept(decls, AnsiEntry);
      && |r| == |idx|
      && (forall k, l | 0 <= k < l < |idx| :: idx[k] < idx[l])
      && (forall i | 0 <= i < |decls| && decls[i].ansi.Some? :: i in idx)
      && (forall k | 0 <= k < |r| ::
            && idx[k] < |decls|
            && decls[idx[k]].ansi.Some?
            && var a := decls[idx[k]].ansi.value;
            && (a.direction.Some? ==> r[k].direction == a.direction.value.text)
            && (a.direction.None? ==> r[k].direction == "inout")
            && (a.dataType.Some? ==> r[k].dataType == a.dataType.value.text)
            && (a.dataType.None? && a.implicitDataType.Some? ==> r[k].dataType == a.implicitDataType.value.text)
            && (a.dataType.None? && a.implicitDataType.None? ==> r[k].dataType == "")
            && r[k].name == TextOr(a.identifier, ""))
  {
    var decls := ctx.header.value.portList.value.portDecls;
    assert forall a | a in decls :: |AnsiEntry(a)| <= 1;
    KeptSelects(decls, AnsiEntry);
  }

  /**
   * Non-ANSI branch: every port is "inout" with type "", and the ports are
   * those of the entries that have an implicit port expression, in order.
   */
  lemma NonAnsiPortsFollowEntries(ctx: ModuleDeclaration)
    requires NonAnsiShaped(ctx)
    ensures var entries := ctx.header.value.portList.value.ports;
      var r, idx := Ports(ctx), Kept(entries, NonAnsiEntry);
      && |r| == |idx|
      && (forall k, l | 0 <= k < l < |idx| :: idx[k] < idx[l])
      && (forall i | 0 <= i < |entries| && entries[i].implicit.Some? && entries[i].implicit.value.expression.Some? :: i in idx)
      && (forall k | 0 <= k < |r| ::
            && idx[k] < |entries|
            && entries[idx[k]].implicit.Some?
            && entries[idx[k]].implicit.value.expression.Some?
            && r[k] == Port("inout", TextOr(entries[idx[k]].implicit.value.expression.value.identifier, ""), ""))
  {
    var entries := ctx.header.value.portList.value.ports;
    assert forall a | a in entries :: |NonAnsiEntry(a)| <= 1;
    KeptSelects(entries, NonAnsiEntry);
  }

  // ===== modports of an interface

  /** Every clause names its port (the listener reads that name without checking). */
  predicate ClausesNamed(clauses: seq<ModportPortsDeclaration>)
  {
    forall k | 0 <= k < |clauses| :: clauses[k].identifier.Some?
  }

  /** Every modport that has an identifier has named clauses. */
  predicate ModportClausesNamed(items: seq<InterfaceItem>)
  {
    forall item | item in items :: ItemModportNamed(item)
  }

  predicate ItemModportNamed(item: InterfaceItem)
  {
    item.modport.Some? && item.modport.value.identifier.Some? ==> ClausesNamed(item.modport.value.clauses)
  }

  /** One port per clause, in clause order; a clause without a direction is "inout". */
  function ModportPorts(clauses: seq<ModportPortsDeclaration>): (r: seq<ModportPort>)
    requires ClausesNamed(clauses)
    ensures |r| == |clauses|
    ensures forall k | 0 <= k < |r| ::
      r[k] == ModportPort(DirectionText(clauses[k].direction), clauses[k].identifier.value.text)
  {
    if clauses == [] then []
    else
      var init, last := clauses[..|clauses| - 1], clauses[|clauses| - 1];
      ModportPorts(init) + [ModportPort(DirectionText(last.direction), last.identifier.value.text)]
  }

  /** An interface item yields a modport record when it is a modport declaration with an identifier. */
  function ItemModports(item: InterfaceItem): (r: seq<Modport>)
    requires ItemModportNamed(item)
    ensures |r| <= 1
  {
    if item.modport.Some? && item.modport.value.identifier.Some? then
      [Modport(item.modport.value.identifier.value.text, ModportPorts(item.modport.value.clauses))]
    else []
  }

  function Modports(items: seq<InterfaceItem>): seq<Modport>
    requires ModportClausesNamed(items)
  {
    FlatMap(items, ItemModports)
  }

  /**
   * The modport records are those of the modport declarations that have an
   * identifier, in interface-item order, and no other; each has one port
   * per clause (so none for a modport with no clauses), and a clause with no
   * direction is "inout".
   */
  lemma ModportsFollowItems(items: seq<InterfaceItem>)
    requires ModportClausesNamed(items)
    ensures var r, idx := Modports(items), Kept(items, ItemModports);
      && |r| == |idx|
      && (forall k, l | 0 <= k < l < |idx| :: idx[k] < idx[l])
      && (forall i | 0 <= i < |items| && items[i].modport.Some? && items[i].modport.value.identifier.Some? :: i in idx)
      && (forall k | 0 <= k < |r| ::
            && idx[k] < |items|
            && items[idx[k]].modport.Some?
            && var m := items[idx[k]].modport.value;
            && m.identifier.Some?
            && ClausesNamed(m.clauses)
            && r[k].name == m.identifier.value.text
            && |r[k].ports| == |m.clauses|
            && (forall j | 0 <= j < |m.clauses| ::
                  && r[k].ports[j].name == m.clauses[j].identifier.value.text
                  && (m.clauses[j].direction.None? ==> r[k].ports[j].direction == "inout")
                  && (m.clauses[j].direction.Some? ==> r[k].ports[j].direction == m.clauses[j].direction.value.text)))
  {
    assert forall a | a in items :: ItemModportNamed(a) && |ItemModports(a)| <= 1;
    KeptSelects(items, ItemModports);
  }

  // ===== signals of an interface

  /** A data declaration's type text, or "logic" when it has no data type. */
  function DeclaredType(d: DataDeclaration): string
  {
    TextOr(d.dataType, "logic")
  }

  /** One signal per variable assignment, in order, all of type `t`; a missing identifier gives name "". */
  function AssignmentSignals(t: string, vs: seq<VariableDeclAssignment>): (r: seq<Signal>)
    ensures |r| == |vs|
    ensures forall k | 0 <= k < |r| :: r[k] == Signal(t, TextOr(vs[k].identifier, ""))
  {
    if vs == [] then []
    else AssignmentSignals(t, vs[..|vs| - 1]) + [Signal(t, TextOr(vs[|vs| - 1].identifier, ""))]
  }

  /**
   * The data declaration reached through interface item, module common item
   * and module item declaration, when every step of that path exists.
   */
  function ItemDataDeclaration(item: InterfaceItem): Option<DataDeclaration>
  {
    if item.commonItem.Some? && item.commonItem.value.itemDeclaration.Some?
       && item.commonItem.value.itemDeclaration.value.dataDeclaration.Some?
    then item.commonItem.value.itemDeclaration.value.dataDeclaration
    else None
  }

  /** What one interface item contributes to the signal list. */
  function ItemSignals(item: InterfaceItem): seq<Signal>
  {
    match ItemDataDeclaration(item)
    case None => []
    case Some(d) =>
      if d.variables.Some? then AssignmentSignals(DeclaredType(d), d.variables.value.assignments) else []
  }

  /**
   * An item holding a data declaration with a variable list yields one signal
   * per variable, in order, all sharing the declaration's type ("logic" when
   * none is given); a variable without identifier still yields a signal,
   * named "". Every other item yields nothing.
   */
  lemma ItemSignalsShareType(item: InterfaceItem)
    ensures ItemDataDeclaration(item).None? || ItemDataDeclaration(item).value.variables.None? ==>
      ItemSignals(item) == []
    ensures ItemDataDeclaration(item).Some? && ItemDataDeclaration(item).value.variables.Some? ==>
      var r, d := ItemSignals(item), ItemDataDeclaration(item).value;
      var vs := d.variables.value.assignments;
      && |r| == |vs|
      && forall k | 0 <= k < |r| ::
           && r[k].name == TextOr(vs[k].identifier, "")
           && (d.dataType.Some? ==> r[k].dataType == d.dataType.value.text)
           && (d.dataType.None? ==> r[k].dataType == "logic")
  {
  }

  function Signals(items: seq<InterfaceItem>): seq<Signal>
  {
    FlatMap(items, ItemSignals)
  }

  /** The signals of a list of items are those of each item, in item order. */
  lemma {:induction false} SignalsFollowItems(items: seq<InterfaceItem>, more: seq<InterfaceItem>)
    ensures Signals(items + more) == Signals(items) + Signals(more)
    ensures |items| == 1 ==> Signals(items) == ItemSignals(items[0])
  {
    FlatMapAppend(items, more, ItemSignals);
    if |items| == 1 {
      assert items[..0] == [];
    }
  }

  // ===== the record each enter hook appends

  /** The walk can run the hook for `d`: an interface's named modports name all their clauses. */
  predicate HookDefined(d: Declaration)
  {
    d.InterfaceDecl? ==> ModportClausesNamed(d.interfaceCtx.items)
  }

  function KindOf(d: Declaration): Kind
  {
    match d
    case ModuleDecl(_) => Module
    case InterfaceDecl(_) => Interface
    case ProgramDecl(_) => Program
    case ClassDecl(_) => Class
    case PackageDecl(_) => Package
    case CheckerDecl(_) => Checker
    case CovergroupDecl(_) => Covergroup
  }

  /** The identifier node the hook for `d` resolves, following that hook's path. */
  function IdentifierNode(d: Declaration): Option<TextNode>
  {
    match d
    case ModuleDecl(m) => if m.header.Some? then m.header.value.identifier else None
    case InterfaceDecl(i) => if i.header.Some? then i.header.value.identifier else None
    case ProgramDecl(p) => if p.header.Some? then p.header.value.identifier else None
    case ClassDecl(c) => c.identifier
    case PackageDecl(c) => c.identifier
    case CheckerDecl(c) => c.identifier
    case CovergroupDecl(c) => c.identifier
  }

  function StartOf(d: Declaration): Option<Token>
  {
    match d
    case ModuleDecl(m) => m.start
    case InterfaceDecl(i) => i.start
    case ProgramDecl(p) => p.start
    case ClassDecl(c) => c.start
    case PackageDecl(c) => c.start
    case CheckerDecl(c) => c.start
    case CovergroupDecl(c) => c.start
  }

  /**
   * What the hook for `d` appends: nothing unless its identifier node exists
   * and has non-empty text; otherwise exactly one record of the hook's kind,
   * named by that text, at the start token's line, carrying the module's
   * ports or the interface's signals and modports.
   */
  function Emitted(filename: string, d: Declaration): (r: seq<Component>)
    requires HookDefined(d)
    ensures |r| <= 1
    ensures r != [] <==> IdentifierNode(d).Some? && IdentifierNode(d).value.text != ""
    ensures r != [] ==>
      && r[0].kind == KindOf(d)
      && r[0].name == IdentifierNode(d).value.text
      && r[0].filename == filename
      && r[0].line == LineOf(StartOf(d))
      && (d.ModuleDecl? ==> r[0].details == ModuleDetails(Ports(d.moduleCtx)))
      && (d.InterfaceDecl? ==>
            r[0].details == InterfaceDetails(Signals(d.interfaceCtx.items), Modports(d.interfaceCtx.items)))
      && (!d.ModuleDecl? && !d.InterfaceDecl? ==> r[0].details == NoDetails)
  {
    match d
    case ModuleDecl(m) => Record(Module, ModuleIdentifier(m), filename, m.start, ModuleDetails(Ports(m)))
    case InterfaceDecl(i) =>
      Record(Interface, InterfaceIdentifier(i), filename, i.start,
             InterfaceDetails(Signals(i.items), Modports(i.items)))
    case ProgramDecl(p) => Record(Program, ProgramIdentifier(p), filename, p.start, NoDetails)
    case ClassDecl(c) => Record(Class, DirectIdentifier(c), filename, c.start, NoDetails)
    case PackageDecl(c) => Record(Package, DirectIdentifier(c), filename, c.start, NoDetails)
    case CheckerDecl(c) => Record(Checker, DirectIdentifier(c), filename, c.start, NoDetails)
    case CovergroupDecl(c) => Record(Covergroup, DirectIdentifier(c), filename, c.start, NoDetails)
  }

  /** The hooks of one listener, as one function over declarations. */
  function EmitterFor(filename: string): Declaration --> seq<Component>
  {
    d requires HookDefined(d) => Emitted(filename, d)
  }

  predicate Walkable(decls: seq<Declaration>)
  {
    forall d | d in decls :: HookDefined(d)
  }

  /** The component list after the walker calls the hooks for `decls`, in that order, on a fresh listener. */
  function Extract(filename: string, decls: seq<Declaration>): seq<Component>
    requires Walkable(decls)
  {
    FlatMap(decls, EmitterFor(filename))
  }

  /** Walking one declaration yields what its hook appends. */
  lemma ExtractOne(filename: string, d: Declaration)
    requires HookDefined(d)
    ensures Extract(filename, [d]) == Emitted(filename, d)
  {
    var emit := EmitterFor(filename);
    assert [d][..0] == [];
    assert FlatMap([d], emit) == FlatMap([d][..0], emit) + emit([d][0]);
    assert emit(d) == Emitted(filename, d);
  }

  /** Walking more declarations only appends: hook-call order is list order. */
  lemma ExtractAppend(filename: string, decls: seq<Declaration>, more: seq<Declaration>)
    requires Walkable(decls) && Walkable(more)
    ensures Walkable(decls + more)
    ensures Extract(filename, decls + more) == Extract(filename, decls) + Extract(filename, more)
  {
    FlatMapAppend(decls, more, EmitterFor(filename));
  }

  /**
   * The component list holds exactly one record per declaration whose
   * identifier resolves to non-empty text, in the order of the hook calls;
   * each record is of its declaration's kind, carries its name and the line
   * of its first token.
   */
  lemma {:induction false} ComponentsFollowDeclarations(filename: string, decls: seq<Declaration>)
    requires Walkable(decls)
    ensures var r, idx := Extract(filename, decls), Kept(decls, EmitterFor(filename));
      && |r| == |idx|
      && (forall k, l | 0 <= k < l < |idx| :: idx[k] < idx[l])
      && (forall i | 0 <= i < |decls| && IdentifierNode(decls[i]).Some? && IdentifierNode(decls[i]).value.text != "" ::
            i in idx)
      && (forall k | 0 <= k < |r| ::
            && idx[k] < |decls|
            && IdentifierNode(decls[idx[k]]).Some?
            && IdentifierNode(decls[idx[k]]).value.text != ""
            && r[k].name == IdentifierNode(decls[idx[k]]).value.text
            && r[k].kind == KindOf(decls[idx[k]])
            && r[k].filename == filename
            && r[k].line == LineOf(StartOf(decls[idx[k]])))
  {
    assert forall a | a in decls :: HookDefined(a) && |EmitterFor(filename)(a)| <= 1;
    KeptSelects(decls, EmitterFor(filename));
  }
}
