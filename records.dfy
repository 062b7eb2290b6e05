/**
 * The records the listener produces. In the source each is a dictionary; here
 * each is a datatype whose fields are the dictionary's keys.
 */
module Records {

  /** The seven component kinds. */
  datatype Kind = Module | Interface | Program | Class | Package | Checker | Covergroup

  /** The string stored under the record's "type" key for each kind. */
  function TypeName(k: Kind): string
  {
    match k
    case Module => "module"
    case Interface => "interface"
    case Program => "program"
    case Class => "class"
    case Package => "package"
    case Checker => "checker"
    case Covergroup => "covergroup"
  }

  /**
   * The record's "type" string identifies its kind: each kind has its own
   * string, so the string determines the kind.
   */
  lemma TypeNameIdentifiesKind(k: Kind, k': Kind)
    ensures TypeName(k) == TypeName(k') <==> k == k'
    ensures TypeName(k) in {"module", "interface", "program", "class", "package", "checker", "covergroup"}
  {
    if k != k' {
      assert TypeName(k)[0] != TypeName(k')[0] || TypeName(k)[1] != TypeName(k')[1];
    }
  }

  /** A module port: {"direction", "name", "type"}. */
  datatype Port = Port(direction: string, name: string, dataType: string)

  /** One port of a modport: {"direction", "name"}. */
  datatype ModportPort = ModportPort(direction: string, name: string)

  /** A modport: {"name", "ports"}. */
  datatype Modport = Modport(name: string, ports: seq<ModportPort>)

  /** An interface signal: {"type", "name"}. */
  datatype Signal = Signal(dataType: string, name: string)

  /** The extra keys merged into a record: "ports" for a module, "signals" and "modports" for an interface. */
  datatype Details =
    | NoDetails
    | ModuleDetails(ports: seq<Port>)
    | InterfaceDetails(signals: seq<Signal>, modports: seq<Modport>)

  /** A component record: {"type", "name", "filename", "line"} plus its details. */
  datatype Component = Component(kind: Kind, name: string, filename: string, line: nat, details: Details)
}
