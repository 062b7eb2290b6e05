/** Concrete trees and what the extraction yields for them. */
module Scenarios {
  import opened Wrappers
  import opened Sequences
  import opened SyntaxTree
  import opened Records
  import opened Extraction

  function Text(s: string): Option<TextNode>
  {
    Some(TextNode(s))
  }

  /**
   * `module m(input logic a, output b);` has two ANSI ports: "a" is an
   * input of type "logic", "b" an output whose type is left empty.
   */
  lemma AnsiModuleScenario()
    ensures var a := AnsiPortDeclaration(Text("input"), Text("a"), Text("logic"), None);
      var b := AnsiPortDeclaration(Text("output"), Text("b"), None, None);
      var list := ListOfPortDeclarations([PortDecl(Some(a)), PortDecl(Some(b))], []);
      var m := ModuleDeclaration(Some(Token(1)), Some(ModuleHeader(Text("m"), Some(list))));
      Extract("top.sv", [ModuleDecl(m)])
        == [Component(Module, "m", "top.sv", 1,
                      ModuleDetails([Port("input", "a", "logic"), Port("output", "b", "")]))]
  {
    var a := AnsiPortDeclaration(Text("input"), Text("a"), Text("logic"), None);
    var b := AnsiPortDeclaration(Text("output"), Text("b"), None, None);
    var decls := [PortDecl(Some(a)), PortDecl(Some(b))];
    assert decls[..1][..0] == [];
    assert FlatMap(decls[..1], AnsiEntry) == [Port("input", "a", "logic")];
    assert decls[..1] == decls[..|decls| - 1];
    assert FlatMap(decls, AnsiEntry) == [Port("input", "a", "logic"), Port("output", "b", "")];
    var list := ListOfPortDeclarations(decls, []);
    var m := ModuleDeclaration(Some(Token(1)), Some(ModuleHeader(Text("m"), Some(list))));
    assert [ModuleDecl(m)][..0] == [];
  }

  /** An interface X followed by a program without identifier gives only X's record. */
  lemma NamedInterfaceUnnamedProgram()
    ensures var x := InterfaceDeclaration(Some(Token(1)), Some(InterfaceHeader(Text("X"))), []);
      var p := ProgramDeclaration(Some(Token(3)), Some(ProgramHeader(None)));
      Extract("top.sv", [InterfaceDecl(x), ProgramDecl(p)])
        == [Component(Interface, "X", "top.sv", 1, InterfaceDetails([], []))]
  {
    var x := InterfaceDeclaration(Some(Token(1)), Some(InterfaceHeader(Text("X"))), []);
    var p := ProgramDeclaration(Some(Token(3)), Some(ProgramHeader(None)));
    assert Signals([]) == [] && Modports([]) == [];
    assert Emitted("top.sv", ProgramDecl(p)) == [];
    ExtractOne("top.sv", InterfaceDecl(x));
    ExtractOne("top.sv", ProgramDecl(p));
    ExtractAppend("top.sv", [InterfaceDecl(x)], [ProgramDecl(p)]);
    assert [InterfaceDecl(x)] + [ProgramDecl(p)] == [InterfaceDecl(x), ProgramDecl(p)];
  }

  /** A module Y followed by a class Z gives Y's record, then Z's. */
  lemma ModuleThenClass()
    ensures var y := ModuleDeclaration(Some(Token(5)), Some(ModuleHeader(Text("Y"), None)));
      var z := DirectlyNamedDeclaration(Some(Token(9)), Text("Z"));
      Extract("top.sv", [ModuleDecl(y), ClassDecl(z)])
        == [Component(Module, "Y", "top.sv", 5, ModuleDetails([])), Component(Class, "Z", "top.sv", 9, NoDetails)]
  {
    var y := ModuleDeclaration(Some(Token(5)), Some(ModuleHeader(Text("Y"), None)));
    var z := DirectlyNamedDeclaration(Some(Token(9)), Text("Z"));
    ExtractOne("top.sv", ModuleDecl(y));
    ExtractOne("top.sv", ClassDecl(z));
    ExtractAppend("top.sv", [ModuleDecl(y)], [ClassDecl(z)]);
    assert [ModuleDecl(y)] + [ClassDecl(z)] == [ModuleDecl(y), ClassDecl(z)];
  }

  /**
   * An interface X, a module Y and a class Z, in that order, give records in
   * that order, whatever their kinds; an unnamed program between them gives
   * none.
   */
  lemma MixedKindsScenario()
    ensures var x := InterfaceDeclaration(Some(Token(1)), Some(InterfaceHeader(Text("X"))), []);
      var p := ProgramDeclaration(Some(Token(3)), Some(ProgramHeader(None)));
      var y := ModuleDeclaration(Some(Token(5)), Some(ModuleHeader(Text("Y"), None)));
      var z := DirectlyNamedDeclaration(Some(Token(9)), Text("Z"));
      Extract("top.sv", [InterfaceDecl(x), ProgramDecl(p), ModuleDecl(y), ClassDecl(z)])
        == [Component(Interface, "X", "top.sv", 1, InterfaceDetails([], [])),
            Component(Module, "Y", "top.sv", 5, ModuleDetails([])),
            Component(Class, "Z", "top.sv", 9, NoDetails)]
  {
    var x := InterfaceDeclaration(Some(Token(1)), Some(InterfaceHeader(Text("X"))), []);
    var p := ProgramDeclaration(Some(Token(3)), Some(ProgramHeader(None)));
    var y := ModuleDeclaration(Some(Token(5)), Some(ModuleHeader(Text("Y"), None)));
    var z := DirectlyNamedDeclaration(Some(Token(9)), Text("Z"));
    NamedInterfaceUnnamedProgram();
    ModuleThenClass();
    ExtractAppend("top.sv", [InterfaceDecl(x), ProgramDecl(p)], [ModuleDecl(y), ClassDecl(z)]);
    assert [InterfaceDecl(x), ProgramDecl(p)] + [ModuleDecl(y), ClassDecl(z)]
        == [InterfaceDecl(x), ProgramDecl(p), ModuleDecl(y), ClassDecl(z)];
  }
}
