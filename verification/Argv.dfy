/** The system the commands of a plan act on, and what an argument vector does to it. The meaning of a command is
    read off its words alone, the way `swanctl`, `vppctl` and `ip` read them (src/render_commands.c). */
module Argv {
  import opened Model
  import opened Render

  /** What names a GRE tunnel to the forwarder. */
  datatype Gre = Gre(local: Id, remote: Id, instance: int)

  datatype Block = Block(inbound: bool, src: Id, dst: Id)

  /** A forwarding entry; the default table is table 0. */
  datatype Fib = Fib(table: nat, prefix: Id, nextHop: Id, interfaceName: Id)

  datatype Resource = TunnelUp(id: Id) | Interface(name: Id) | Blocked(block: Block) | Routed(fib: Fib)

  /** The settings of an interface; of no meaning for the other resources. */
  datatype Settings = Settings(address: Id, mtu: int, up: bool)

  type Resources = map<Resource, Settings>

  /** The files given to the connection daemon, and what there is. */
  datatype System = System(loaded: set<seq<string>>, resources: Resources)

  /** What an argument vector asks for. */
  datatype Act =
    | Load(files: seq<string>)
    | Make(resource: Resource)
    | Drop(resource: Resource)
    | DropPrefix(prefix: Id)
    | MakeGre(gre: Gre)
    | DropGre(gre: Gre)
    | SetAddress(name: Id, address: Id)
    | SetMtu(name: Id, mtu: int)
    | SetUp(name: Id)

  // ----- reading -----

  function Read(words: seq<string>): Option<Act> {
    if |words| == 0 then None
    else match words[0]
      case "swanctl" => ReadSwanctl(words[1..])
      case "vppctl" => ReadVppctl(words[1..])
      case "ip" => ReadIp(words[1..])
      case _ => None
  }

  function ReadSwanctl(args: seq<string>): Option<Act> {
    if |args| >= 2 && args[0] == "--load-conns" && args[1] == "--file" then Some(Load(args[2..]))
    else if |args| == 3 && args[0] == "--initiate" && args[1] == "--child" then Some(Make(TunnelUp(args[2])))
    else if |args| == 3 && args[0] == "--terminate" && args[1] == "--child" then Some(Drop(TunnelUp(args[2])))
    else None
  }

  function ReadVppctl(args: seq<string>): Option<Act> {
    if |args| < 2 then None
    else if args[0] == "create" && args[1] == "gre" then ReadGre(args[2..])
    else if args[0] == "set" && args[1] == "interface" then ReadInterface(args[2..])
    else if args[0] == "ip" && args[1] == "route" then ReadRoute(args[2..])
    else None
  }

  /** `tunnel src A dst B [instance N] [del]` */
  function ReadGre(args: seq<string>): Option<Act> {
    if |args| < 5 || args[0] != "tunnel" || args[1] != "src" || args[3] != "dst" then None
    else
      var rest := args[5..];
      var del := |rest| > 0 && rest[|rest| - 1] == "del";
      var options := if del then rest[..|rest| - 1] else rest;
      if |options| == 0 then Some(GreAct(del, Gre(args[2], args[4], -1)))
      else if |options| == 2 && options[0] == "instance" then Some(GreAct(del, Gre(args[2], args[4], Number(options[1]))))
      else None
  }

  function GreAct(del: bool, gre: Gre): Act { if del then DropGre(gre) else MakeGre(gre) }

  /** `ip address I A`, `mtu N I` or `state I up` */
  function ReadInterface(args: seq<string>): Option<Act> {
    if |args| == 4 && args[0] == "ip" && args[1] == "address" then Some(SetAddress(args[2], args[3]))
    else if |args| == 3 && args[0] == "mtu" then Some(SetMtu(args[2], Number(args[1])))
    else if |args| == 3 && args[0] == "state" && args[2] == "up" then Some(SetUp(args[1]))
    else None
  }

  /** `del P`, or `add` or `del` with `P [table N] [preference N] via H [I]` */
  function ReadRoute(args: seq<string>): Option<Act> {
    if |args| == 2 && args[0] == "del" then Some(DropPrefix(args[1]))
    else
      var route := Parse(["vppctl", "ip", "route"] + args);
      if route.None? then None
      else
        var r := route.value;
        var fib := Fib(if r.table >= 0 then r.table else 0, r.prefix, r.nextHop, r.interfaceName);
        if r.verb == "add" then Some(Make(Routed(fib))) else if r.verb == "del" then Some(Drop(Routed(fib))) else None
  }

  /** `xfrm policy add dir D src S dst T priority P action block`, or `delete` without the action */
  function ReadIp(args: seq<string>): Option<Act> {
    if |args| < 11 || args[..2] != ["xfrm", "policy"] || args[3] != "dir" || args[5] != "src" || args[7] != "dst" || args[9] != "priority" then None
    else if args[4] != "in" && args[4] != "out" then None
    else
      var block := Blocked(Block(args[4] == "in", args[6], args[8]));
      if args[2] == "add" && args[11..] == ["action", "block"] then Some(Make(block))
      else if args[2] == "delete" && |args| == 11 then Some(Drop(block))
      else None
  }

  // ----- acting -----

  /** What there is once a resource was asked for; one that is there already is left alone. */
  function Made(s: Resources, r: Resource): Resources {
    if r in s then s else s[r := Settings("", 0, false)]
  }

  /** What an act does. `names` says which interface the forwarder gives a GRE tunnel; setting up an interface
      that is not there does nothing. */
  function Enact(names: Gre -> Id, s: System, act: Act): System {
    match act
    case Load(files) => s.(loaded := s.loaded + {files})
    case Make(r) => s.(resources := Made(s.resources, r))
    case Drop(r) => s.(resources := s.resources - {r})
    case DropPrefix(p) =>
      s.(resources := map r | r in s.resources && !(r.Routed? && r.fib.table == 0 && r.fib.prefix == p) :: s.resources[r])
    case MakeGre(g) => s.(resources := Made(s.resources, Interface(names(g))))
    case DropGre(g) => s.(resources := s.resources - {Interface(names(g))})
    case SetAddress(i, a) => if Interface(i) in s.resources then s.(resources := s.resources[Interface(i) := s.resources[Interface(i)].(address := a)]) else s
    case SetMtu(i, n) => if Interface(i) in s.resources then s.(resources := s.resources[Interface(i) := s.resources[Interface(i)].(mtu := n)]) else s
    case SetUp(i) => if Interface(i) in s.resources then s.(resources := s.resources[Interface(i) := s.resources[Interface(i)].(up := true)]) else s
  }

  /** What a whole command line does: nothing if nobody can read it. */
  function Heard(names: Gre -> Id, s: System, text: string): System {
    var act := Read(Split(text));
    if act.Some? then Enact(names, s, act.value) else s
  }
}
