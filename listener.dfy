/**
 * The extraction listener: an object that owns the ordered component list of
 * one source file and appends to it from one enter hook per declaration kind.
 * The tree walker is modelled by `Walk`, which calls the hooks for a sequence
 * of declaration nodes given in pre-order.
 */
module Listener {
  import opened Wrappers
  import opened Sequences
  import opened SyntaxTree
  import opened Records
  import opened Extraction

  class UVMComponentListener {
    const filename: string
    var components: seq<Component>

    /** A fresh listener for `filename` holds no components. */
    constructor (filename: string)
      ensures this.filename == filename
      ensures components == []
    {
      this.filename := filename;
      components := [];
    }

    /**
     * Appends one record at the end when the identifier is present and
     * non-empty, and leaves the list unchanged otherwise.
     */
    method AddComponent(kind: Kind, identifier: Option<string>, start: Option<Token>, details: Details)
      modifies this
      ensures Admits(identifier) ==>
        components == old(components) + [Component(kind, identifier.value, filename, LineOf(start), details)]
      ensures !Admits(identifier) ==> components == old(components)
    {
      if identifier.Some? && identifier.value != "" {
        var line := if start.Some? then start.value.line else 0;
        components := components + [Component(kind, identifier.value, filename, line, details)];
      }
    }

    method EnterModuleDeclaration(ctx: ModuleDeclaration)
      modifies this
      ensures components == old(components) + Emitted(filename, ModuleDecl(ctx))
    {
      var identifier := ModuleIdentifier(ctx);
      var ports := ExtractPorts(ctx);
      AddComponent(Module, identifier, ctx.start, ModuleDetails(ports));
    }

    method EnterInterfaceDeclaration(ctx: InterfaceDeclaration)
      requires ModportClausesNamed(ctx.items)
      modifies this
      ensures components == old(components) + Emitted(filename, InterfaceDecl(ctx))
    {
      var identifier := InterfaceIdentifier(ctx);
      var signals := ExtractSignals(ctx);
      var modports := ExtractModports(ctx);
      AddComponent(Interface, identifier, ctx.start, InterfaceDetails(signals, modports));
    }

    method EnterProgramDeclaration(ctx: ProgramDeclaration)
      modifies this
      ensures components == old(components) + Emitted(filename, ProgramDecl(ctx))
    {
      var identifier := ProgramIdentifier(ctx);
      AddComponent(Program, identifier, ctx.start, NoDetails);
    }

    method EnterClassDeclaration(ctx: DirectlyNamedDeclaration)
      modifies this
      ensures components == old(components) + Emitted(filename, ClassDecl(ctx))
    {
      AddComponent(Class, DirectIdentifier(ctx), ctx.start, NoDetails);
    }

    method EnterPackageDeclaration(ctx: DirectlyNamedDeclaration)
      modifies this
      ensures components == old(components) + Emitted(filename, PackageDecl(ctx))
    {
      AddComponent(Package, DirectIdentifier(ctx), ctx.start, NoDetails);
    }

    method EnterCheckerDeclaration(ctx: DirectlyNamedDeclaration)
      modifies this
      ensures components == old(components) + Emitted(filename, CheckerDecl(ctx))
    {
      AddComponent(Checker, DirectIdentifier(ctx), ctx.start, NoDetails);
    }

    method EnterCovergroupDeclaration(ctx: DirectlyNamedDeclaration)
      modifies this
      ensures components == old(components) + Emitted(filename, CovergroupDecl(ctx))
    {
      AddComponent(Covergroup, DirectIdentifier(ctx), ctx.start, NoDetails);
    }

    /** Builds the port list of a module, entry by entry. */
    method ExtractPorts(ctx: ModuleDeclaration) returns (ports: seq<Port>)
      ensures ports == Ports(ctx)
    {
      ports := [];
      if ctx.header.Some? && ctx.header.value.portList.Some? {
        var list := ctx.header.value.portList.value;
        if |list.portDecls| > 0 {
          var decls := list.portDecls;
          for i := 0 to |decls|
            invariant ports == FlatMap(decls[..i], AnsiEntry)
          {
            if decls[i].ansi.Some? {
              var ansi := decls[i].ansi.value;
              var direction := if ansi.direction.Some? then ansi.direction.value.text else "inout";
              var name := if ansi.identifier.Some? then ansi.identifier.value.text else "";
              var dataType := "";
              if ansi.dataType.Some? {
                dataType := ansi.dataType.value.text;
              } else if ansi.implicitDataType.Some? {
                dataType := ansi.implicitDataType.value.text;
              }
              ports := ports + [Port(direction, name, dataType)];
            }
            assert decls[..i + 1][..i] == decls[..i];
          }
          assert decls[..|decls|] == decls;
        } else if |list.ports| > 0 {
          var entries := list.ports;
          for i := 0 to |entries|
            invariant ports == FlatMap(entries[..i], NonAnsiEntry)
          {
            if entries[i].implicit.Some? {
              var implicit := entries[i].implicit.value;
              if implicit.expression.Some? {
                var identifier := implicit.expression.value.identifier;
                var name := if identifier.Some? then identifier.value.text else "";
                ports := ports + [Port("inout", name, "")];
              }
            }
            assert entries[..i + 1][..i] == entries[..i];
          }
          assert entries[..|entries|] == entries;
        }
      }
    }

    /** Builds the modport list of an interface, item by item and clause by clause. */
    method ExtractModports(ctx: InterfaceDeclaration) returns (modports: seq<Modport>)
      requires ModportClausesNamed(ctx.items)
      ensures modports == Modports(ctx.items)
    {
      modports := [];
      var items := ctx.items;
      for i := 0 to |items|
        invariant modports == FlatMap(items[..i], ItemModports)
      {
        if items[i].modport.Some? {
          var modport := items[i].modport.value;
          if modport.identifier.Some? {
            assert items[i] in items;
            var name := modport.identifier.value.text;
            var portDecls: seq<ModportPort> := [];
            var clauses := modport.clauses;
            for j := 0 to |clauses|
              invariant portDecls == ModportPorts(clauses[..j])
            {
              var direction := if clauses[j].direction.Some? then clauses[j].direction.value.text else "inout";
              portDecls := portDecls + [ModportPort(direction, clauses[j].identifier.value.text)];
            }
            assert clauses[..|clauses|] == clauses;
            modports := modports + [Modport(name, portDecls)];
          }
        }
        assert items[..i + 1][..i] == items[..i];
      }
      assert items[..|items|] == items;
    }

    /** Builds the signal list of an interface, item by item and variable by variable. */
    method ExtractSignals(ctx: InterfaceDeclaration) returns (signals: seq<Signal>)
      ensures signals == Signals(ctx.items)
    {
      signals := [];
      var items := ctx.items;
      for i := 0 to |items|
        invariant signals == FlatMap(items[..i], ItemSignals)
      {
        var item := items[i];
        ghost var before := signals;
        if item.commonItem.Some? {
          var moduleItem := item.commonItem.value;
          if moduleItem.itemDeclaration.Some? {
            var moduleItemDecl := moduleItem.itemDeclaration.value;
            if moduleItemDecl.dataDeclaration.Some? {
              var dataDecl := moduleItemDecl.dataDeclaration.value;
              var dataType := if dataDecl.dataType.Some? then dataDecl.dataType.value.text else "logic";
              if dataDecl.variables.Some? {
                signals := AppendSignals(signals, dataType, dataDecl.variables.value.assignments);
              }
              assert ItemDataDeclaration(item) == Some(dataDecl);
              assert dataType == DeclaredType(dataDecl);
            }
          }
        }
        assert signals == before + ItemSignals(item);
        assert items[..i + 1][..i] == items[..i];
      }
      assert items[..|items|] == items;
    }

    /** Appends one signal per variable assignment, in order, all of type `dataType`. */
    method AppendSignals(signals: seq<Signal>, dataType: string, vars: seq<VariableDeclAssignment>)
      returns (extended: seq<Signal>)
      ensures extended == signals + AssignmentSignals(dataType, vars)
    {
      extended := signals;
      for j := 0 to |vars|
        invariant extended == signals + AssignmentSignals(dataType, vars[..j])
      {
        var name := if vars[j].identifier.Some? then vars[j].identifier.value.text else "";
        assert vars[..j + 1][..j] == vars[..j];
        extended := extended + [Signal(dataType, name)];
      }
      assert vars[..|vars|] == vars;
    }

    /** The accumulated list, in hook-call order. */
    method GetComponents() returns (r: seq<Component>)
      ensures r == components
    {
      r := components;
    }
  }

  /**
   * The tree walker: calls the matching enter hook for each declaration node,
   * in the given (pre-order) sequence. The listener's list grows by exactly
   * the records of those declarations, in that order.
   */
  method Walk(listener: UVMComponentListener, decls: seq<Declaration>)
    requires Walkable(decls)
    modifies listener
    ensures listener.components == old(listener.components) + Extract(listener.filename, decls)
  {
    for i := 0 to |decls|
      invariant listener.components == old(listener.components) + Extract(listener.filename, decls[..i])
    {
      assert decls[i] in decls;
      assert decls[..i + 1][..i] == decls[..i];
      assert Extract(listener.filename, decls[..i + 1])
          == Extract(listener.filename, decls[..i]) + Emitted(listener.filename, decls[i]);
      match decls[i]
      case ModuleDecl(m) => listener.EnterModuleDeclaration(m);
      case InterfaceDecl(x) => listener.EnterInterfaceDeclaration(x);
      case ProgramDecl(p) => listener.EnterProgramDeclaration(p);
      case ClassDecl(c) => listener.EnterClassDeclaration(c);
      case PackageDecl(c) => listener.EnterPackageDeclaration(c);
      case CheckerDecl(c) => listener.EnterCheckerDeclaration(c);
      case CovergroupDecl(c) => listener.EnterCovergroupDeclaration(c);
    }
    assert decls[..|decls|] == decls;
  }

  /**
   * One extraction run: a fresh listener for `filename`, one walk over the
   * tree's declarations, then the accumulated list. The result is the
   * records of the declarations whose identifiers resolve, in walk order.
   */
  method ExtractComponents(filename: string, decls: seq<Declaration>) returns (components: seq<Component>)
    requires Walkable(decls)
    ensures components == Extract(filename, decls)
  {
    var listener := new UVMComponentListener(filename);
    Walk(listener, decls);
    components := listener.GetComponents();
  }
}
