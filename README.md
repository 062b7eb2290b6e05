# UVM component extraction listener, modelled in Dafny

This project models the parse-tree listener `UVMComponentListener`. The listener walks a SystemVerilog
syntax tree (node kinds from IEEE 1800-2017 Annex A) and builds an ordered list of component records.
The kinds are module, interface, program, class, package, checker and covergroup. Module records carry
their ports: ANSI lists (IEEE 1800-2017 section 23.2.2.2) and non-ANSI lists (section 23.2.2.1).
Interface records carry their signals and their modports (section 25.5).

Modules:

- `Wrappers`: `Option`, which stands for Python's `None` and for a child node that is absent.
- `Sequences`: `FlatMap` is the result of a loop that appends what each child yields. `Kept` gives the
  positions that loop keeps. `KeptSelects` proves that selection keeps input order.
- `SyntaxTree`: the parse-tree nodes the listener reads. An accessor that may return no node is an
  `Option` field. A rule the listener iterates over is a `seq`. A subtree the listener only turns into
  text is a `TextNode`, whose `text` stands for `getText()`.
- `Records`: the component, port, modport and signal records (dictionaries in the source).
- `Extraction`: pure definitions of what the listener computes, with the lemmas that state its
  defaulting and selection rules.
- `Listener`: the class `UVMComponentListener` with a `components: seq<Component>` field and one method
  per enter hook. Its extraction methods build their lists with loops, and each is proved equal to its
  pure definition. The inner loop of the signal extraction is the separate method `AppendSignals`,
  which keeps each proof small. `Walk` stands for the tree walker: it calls the hooks for a pre-order sequence of
  declaration nodes.
- `Scenarios`: two concrete trees and their results.

The model follows the code in these choices:

- A directionless ANSI port is `"inout"`. The code does not let it inherit the previous port's
  direction, which section 23.2.2.3 of IEEE 1800-2017 allows.
- Directions and types are the node texts, not an enumeration.
- A record's line is 0 when the context has no `start` attribute.
- A signal whose variable has no identifier is kept, with name `""`.

## Model

| member | source | states |
|---|---|---|
| `Listener.UVMComponentListener.constructor` | uvm_component_function_for_extraction.py:18-21 | a fresh listener keeps its filename and holds no components |
| `Listener.UVMComponentListener.AddComponent` | uvm_component_function_for_extraction.py:23-33 | if the identifier is present and non-empty, exactly one record (kind, name, filename, start line or 0, details) is appended at the end; otherwise the list is unchanged |
| `Records.TypeNameIdentifiesKind` | uvm_component_function_for_extraction.py:10-16 | each kind's record "type" is its own one of the seven constant strings, so the string determines the kind |
| `Extraction.ExtractIdentifier` | uvm_component_function_for_extraction.py:35-45 | returns the identifier text exactly when the header and the identifier inside it both exist, and None otherwise |
| `Extraction.ModuleIdentifier` | uvm_component_function_for_extraction.py:49-54 | a module is named through module_header, then module_identifier; None if either is missing |
| `Extraction.InterfaceIdentifier` | uvm_component_function_for_extraction.py:60-65 | an interface is named through interface_header, then interface_identifier; None if either is missing |
| `Extraction.ProgramIdentifier` | uvm_component_function_for_extraction.py:72-77 | a program is named through program_header, then program_identifier; None if either is missing |
| `Extraction.Emitted` | uvm_component_function_for_extraction.py:47-94 | each hook appends at most one record. It appends one exactly when its identifier node exists with non-empty text. The record has the hook's kind, that text, the filename and the start line. It carries the module's ports, the interface's signals and modports, or nothing for the other five kinds |
| `Listener.UVMComponentListener.EnterModuleDeclaration` | uvm_component_function_for_extraction.py:47-56 | appends exactly the module's record (with its ports) after the existing ones |
| `Listener.UVMComponentListener.EnterInterfaceDeclaration` | uvm_component_function_for_extraction.py:58-68 | appends exactly the interface's record (with its signals and modports) after the existing ones |
| `Listener.UVMComponentListener.EnterProgramDeclaration` | uvm_component_function_for_extraction.py:70-78 | appends exactly the program's record after the existing ones |
| `Listener.UVMComponentListener.EnterClassDeclaration` | uvm_component_function_for_extraction.py:80-82 | appends the class record, named by its direct class_identifier, after the existing ones |
| `Listener.UVMComponentListener.EnterPackageDeclaration` | uvm_component_function_for_extraction.py:84-86 | appends the package record, named by its direct package_identifier, after the existing ones |
| `Listener.UVMComponentListener.EnterCheckerDeclaration` | uvm_component_function_for_extraction.py:88-90 | appends the checker record, named by its direct checker_identifier, after the existing ones |
| `Listener.UVMComponentListener.EnterCovergroupDeclaration` | uvm_component_function_for_extraction.py:92-94 | appends the covergroup record, named by its direct covergroup_identifier, after the existing ones |
| `Extraction.Ports` | uvm_component_function_for_extraction.py:103-137 | the port list is empty when there is no module header, no port-declaration list, or a list with neither port_decl nor port entries |
| `Listener.UVMComponentListener.ExtractPorts` | uvm_component_function_for_extraction.py:96-137 | the loop over port_decl entries (ANSI) or port entries (non-ANSI) returns exactly `Ports(ctx)` |
| `Extraction.AnsiPortsFollowDeclarations` | uvm_component_function_for_extraction.py:107-123 | ANSI shape: one port per port_decl with an ANSI declaration, in order; other entries are skipped. Direction is the explicit text, else "inout". Type is data_type, else implicit_data_type, else "". Name is "" when there is no identifier |
| `Extraction.NonAnsiPortsFollowEntries` | uvm_component_function_for_extraction.py:125-134 | non-ANSI shape: an order-preserving selection of exactly the entries that have port_implicit and port_expression; every port is "inout" with type "" |
| `Extraction.ModportPorts` | uvm_component_function_for_extraction.py:159-165 | one modport port per clause, in clause order; direction is the clause's direction text, else "inout" |
| `Listener.UVMComponentListener.ExtractModports` | uvm_component_function_for_extraction.py:139-173 | the nested loop over interface items and modport clauses returns exactly `Modports(items)` |
| `Extraction.ModportsFollowItems` | uvm_component_function_for_extraction.py:148-171 | one modport record per modport declaration that has an identifier, in item order; a modport with no identifier gives no record. Each record has one port per clause, so none for zero clauses, and a missing direction is "inout" |
| `Extraction.AssignmentSignals` | uvm_component_function_for_extraction.py:194-196 | one signal per variable_decl_assignment, in order, all of the given type; a missing identifier gives name "" |
| `Listener.UVMComponentListener.AppendSignals` | uvm_component_function_for_extraction.py:194-196 | the loop over one declaration's variables appends exactly `AssignmentSignals(type, vars)` |
| `Extraction.ItemSignalsShareType` | uvm_component_function_for_extraction.py:184-196 | an item whose path reaches a data declaration with variables gives one signal per variable, all with the declaration's type text, else "logic". Every other item gives none |
| `Extraction.SignalsFollowItems` | uvm_component_function_for_extraction.py:184-197 | the signal list of several items is the concatenation of each item's signals, in item order |
| `Listener.UVMComponentListener.ExtractSignals` | uvm_component_function_for_extraction.py:175-197 | the loop over interface items returns exactly `Signals(items)` |
| `Listener.UVMComponentListener.GetComponents` | uvm_component_function_for_extraction.py:200-201 | returns the accumulated list |
| `Listener.Walk` | uvm_component_extraction.py:39-40 | calling the hooks for a sequence of declarations appends exactly their records, in that order |
| `Listener.ExtractComponents` | uvm_component_extraction.py:38-42 | a fresh listener walked over the declarations yields `Extract(filename, decls)`; with no declarations this is empty |
| `Extraction.ExtractOne` | uvm_component_function_for_extraction.py:33 | walking a single declaration gives exactly what its hook appends |
| `Extraction.ExtractAppend` | uvm_component_function_for_extraction.py:33 | walking more declarations only appends after the earlier records, which stay untouched |
| `Extraction.ComponentsFollowDeclarations` | uvm_component_function_for_extraction.py:23-33 | the final list has exactly one record per declaration whose identifier resolves to non-empty text, in hook-call order. Each record has that declaration's kind, name, filename and start line |
| `Scenarios.AnsiModuleScenario` | uvm_component_function_for_extraction.py:107-123 | `module m(input logic a, output b);` gives ports input a of type "logic" and output b of type "" |
| `Scenarios.NamedInterfaceUnnamedProgram` | uvm_component_function_for_extraction.py:23-33 | interface X then a program without identifier give X's record only, with no signals and no modports |
| `Scenarios.ModuleThenClass` | uvm_component_function_for_extraction.py:23-33 | module Y (no port list) then class Z give Y's record with no ports, then Z's record |
| `Scenarios.MixedKindsScenario` | uvm_component_function_for_extraction.py:23-33 | interface X, an unnamed program, module Y and class Z give the records X, Y, Z in that order |

## Left out

- The lexer, the parser, `getText()` and the tree walker are generated parser-runtime code and are not part of this model. The tree is an input value, node text is a stored string, and the walk is a given pre-order sequence of declaration nodes.
- The syntax-error listener in uvm_component_extraction.py:9-12 is left out. It raises on the first lexical or syntax error, so the listener never runs and no component list is produced.
- The entry point in uvm_component_extraction.py:15-57 is left out: file existence and read checks, and printing of the results. This is input and output only.
- The DEBUG and warning prints are left out, along with the hook's `ctx.getText()` debug output. They are console output with no effect on the records.
- `Listener.UVMComponentListener.ExtractModports`: requires every clause of a named modport to have a port identifier. The source reads that identifier without a check (line 164) and would raise otherwise. The interface hook and `Walk` inherit this precondition.
- `Listener.UVMComponentListener.GetComponents`: returns the list as a value. The source returns the live list object, and aliasing of that object is not modelled.
- Each accessor yields at most one node, as the code reads it. A grammar rule that names a child twice, where the runtime would return a list, is not part of this model.
