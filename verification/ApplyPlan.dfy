/** The commands of an apply plan, what each does to the system, and running a plan with compensation
    (src/apply_plan.c, src/render_commands.c). */
module ApplyPlan {
  import opened Model
  import opened Text
  import opened Render
  import opened Argv

  const MAX_PLAN_COMMANDS: nat := 128

  datatype Command =
    | LoadConnections(file: string)
    | Initiate(tunnel: Tunnel)
    | Terminate(tunnel: Tunnel)
    | GreCreate(tunnel: Tunnel)
    | GreDelete(tunnel: Tunnel)
    | GreSetAddress(tunnel: Tunnel)
    | GreSetMtu(tunnel: Tunnel)
    | GreSetUp(tunnel: Tunnel)
    | BlockAdd(block: Block)
    | BlockDelete(block: Block)
    | RouteAdd(route: Route)
    | RouteDelete(route: Route)
    | GreRouteDelete(prefix: Id, tunnel: Tunnel)
    | RouteDeletePrefix(prefix: Id)

  /** A command of a plan and, if it has one, the command that undoes it. */
  datatype Step = Step(command: Command, undo: Option<Command>)

  // ----- rendering -----

  predicate IsGre(t: Tunnel) { t.tunnelType == "gre_over_ipsec" }

  predicate ValidGre(t: Tunnel) {
    && IsGre(t)
    && IsToken(t.localEndpoint) && IsToken(t.remoteEndpoint)
    && OptionalToken(t.greOuterLocal) && OptionalToken(t.greOuterRemote)
    && IsToken(t.greInterface) && IsToken(t.greLocalAddress) && IsToken(t.greRemoteAddress)
    && -1 <= t.greInstance <= 1048575 && 0 <= t.greMtu <= 65535
  }

  function GreOf(t: Tunnel): Gre {
    Gre(if t.greOuterLocal == "" then t.localEndpoint else t.greOuterLocal,
        if t.greOuterRemote == "" then t.remoteEndpoint else t.greOuterRemote,
        t.greInstance)
  }

  function GreWords(t: Tunnel): seq<string> {
    var g := GreOf(t);
    ["vppctl", "create", "gre", "tunnel", "src", g.local, "dst", g.remote] +
    OptionsOf(g)
  }

  function OptionsOf(g: Gre): seq<string> { if g.instance >= 0 then ["instance", Decimal(g.instance)] else [] }

  function BlockWords(verb: string, b: Block): seq<string> {
    ["ip", "xfrm", "policy", verb, "dir", if b.inbound then "in" else "out", "src", b.src, "dst", b.dst, "priority", "10000"]
  }

  /** The route entry `en_render_vpp_gre_route_delete` names. */
  function GreRoute(prefix: Id, t: Tunnel): Route {
    Route("", "", prefix, t.greRemoteAddress, t.greInterface, -1, -1)
  }

  /** The words of a command that is not a route command. */
  function Words(c: Command): seq<string>
    requires !c.RouteAdd? && !c.RouteDelete? && !c.GreRouteDelete?
  {
    match c
    case LoadConnections(file) => ["swanctl", "--load-conns", "--file", file]
    case Initiate(t) => ["swanctl", "--initiate", "--child", t.tunnelId]
    case Terminate(t) => ["swanctl", "--terminate", "--child", t.tunnelId]
    case GreCreate(t) => GreWords(t)
    case GreDelete(t) => GreWords(t) + ["del"]
    case GreSetAddress(t) => ["vppctl", "set", "interface", "ip", "address", t.greInterface, t.greLocalAddress]
    case GreSetMtu(t) => ["vppctl", "set", "interface", "mtu", Decimal(if t.greMtu >= 0 then t.greMtu else 0), t.greInterface]
    case GreSetUp(t) => ["vppctl", "set", "interface", "state", t.greInterface, "up"]
    case BlockAdd(b) => BlockWords("add", b) + ["action", "block"]
    case BlockDelete(b) => BlockWords("delete", b)
    case RouteDeletePrefix(prefix) => ["vppctl", "ip", "route", "del", prefix]
  }

  /** What a renderer demands before it writes anything. */
  predicate Accepts(c: Command) {
    match c
    case LoadConnections(_) => true
    case Initiate(t) => IsToken(t.tunnelId)
    case Terminate(t) => IsToken(t.tunnelId)
    case GreCreate(t) => ValidGre(t)
    case GreDelete(t) => ValidGre(t)
    case GreSetAddress(t) => ValidGre(t)
    case GreSetMtu(t) => ValidGre(t) && t.greMtu > 0
    case GreSetUp(t) => ValidGre(t)
    case BlockAdd(b) => IsToken(b.src) && IsToken(b.dst)
    case BlockDelete(b) => IsToken(b.src) && IsToken(b.dst)
    case RouteAdd(_) => true
    case RouteDelete(_) => true
    case GreRouteDelete(prefix, t) => ValidGre(t) && IsToken(prefix)
    case RouteDeletePrefix(prefix) => IsToken(prefix)
  }

  /** The text of a command, unless its renderer refuses it. */
  function CommandText(c: Command): Option<string> {
    if !Accepts(c) then None
    else if c.RouteAdd? then RenderAdd(c.route)
    else if c.RouteDelete? then RenderDelete(c.route)
    else if c.GreRouteDelete? then RenderDelete(GreRoute(c.prefix, c.tunnel))
    else Fit(Join(Words(c)))
  }

  /** A route to delete names its next hop, as every route of a plan does. */
  predicate Legible(c: Command) { c.RouteDelete? ==> c.route.nextHop != "" }

  lemma LiteralsAreTokens()
    ensures IsToken("swanctl") && IsToken("--initiate") && IsToken("--terminate") && IsToken("--child") && IsToken("vppctl")
    ensures IsToken("create") && IsToken("gre") && IsToken("tunnel") && IsToken("src") && IsToken("dst") && IsToken("instance")
    ensures IsToken("set") && IsToken("interface") && IsToken("ip") && IsToken("address") && IsToken("mtu") && IsToken("state") && IsToken("up")
  {
  }

  lemma MoreLiteralsAreTokens()
    ensures IsToken("xfrm") && IsToken("policy") && IsToken("dir") && IsToken("in") && IsToken("out") && IsToken("priority")
    ensures IsToken("10000") && IsToken("action") && IsToken("block") && IsToken("add") && IsToken("delete") && IsToken("del") && IsToken("route")
  {
  }

  predicate AreTokens(words: seq<string>) { forall i :: 0 <= i < |words| ==> IsToken(words[i]) }

  lemma WordsAreTokens(c: Command)
    requires Accepts(c) && !c.LoadConnections? && !c.RouteAdd? && !c.RouteDelete? && !c.GreRouteDelete?
    ensures 0 < |Words(c)| < MAX_ARGV && AreTokens(Words(c))
  {
    LiteralsAreTokens();
    MoreLiteralsAreTokens();
    hide IsToken, Decimal;
    match c
    case GreCreate(t) => GreWordsAreTokens(t);
    case GreDelete(t) => GreWordsAreTokens(t);
    case GreSetMtu(t) => NumberIsToken(t.greMtu);
    case _ =>
  }

  lemma NumberIsToken(n: nat)
    ensures IsToken(Decimal(n))
  {
    DigitsAreToken(Decimal(n));
  }

  lemma GreWordsAreTokens(t: Tunnel)
    requires ValidGre(t)
    ensures 0 < |GreWords(t)| <= 10 && AreTokens(GreWords(t))
  {
    LiteralsAreTokens();
    if t.greInstance >= 0 { NumberIsToken(t.greInstance); }
    hide IsToken, Decimal;
  }

  /** The tokeniser would run this command. */
  predicate Executable(c: Command) {
    CommandText(c).Some? && |CommandText(c).value| > 0 && Runnable(Split(CommandText(c).value))
  }

  lemma RunnableIsNotEmpty(text: string)
    requires Runnable(Split(text))
    ensures |text| > 0
  {
  }

  /** Every command whose text was rendered is accepted by the tokeniser that runs it, without the shell. */
  lemma RenderedCommandsRun(c: Command)
    requires Legible(c) && CommandText(c).Some? && (c.LoadConnections? ==> IsPlanToken(c.file))
    ensures Executable(c)
  {
    RenderedCommandsSplit(c);
    RunnableIsNotEmpty(CommandText(c).value);
  }

  lemma RenderedCommandsSplit(c: Command)
    requires Legible(c) && CommandText(c).Some? && (c.LoadConnections? ==> IsPlanToken(c.file))
    ensures Runnable(Split(CommandText(c).value))
  {
    hide Split, Join, Runnable, Words;
    match c
    case RouteAdd(r) => AddReadsBack(r);
    case RouteDelete(r) => DeleteReadsBack(r);
    case GreRouteDelete(prefix, t) => DeleteReadsBack(GreRoute(prefix, t));
    case LoadConnections(file) => LoadRuns(file);
    case _ =>
      WordsAreTokens(c);
      TokensSplit(Words(c));
  }

  lemma LoadRuns(file: string)
    requires IsPlanToken(file)
    ensures var c := LoadConnections(file); Split(Join(Words(c))) == Words(c) && Runnable(Words(c))
  {
    var words := Words(LoadConnections(file));
    assert forall i :: 0 <= i < |words| ==> Word(words[i]);
    SplitJoin(words);
  }

  /** The builder does not look at the file name of the load command (src/apply_plan.c:135-137). The runner takes
      the command exactly if the blank-separated parts of the name are plan tokens and few enough; it loads
      the one file of that name exactly if the whole name is a plan token. */
  lemma LoadRunsExactly(file: string)
    requires CommandText(LoadConnections(file)).Some?
    ensures Executable(LoadConnections(file)) <==>
            |Split(file)| + 3 < MAX_ARGV && forall i :: 0 <= i < |Split(file)| ==> IsPlanToken(Split(file)[i])
    ensures Executable(LoadConnections(file)) && Split(CommandText(LoadConnections(file)).value) == Words(LoadConnections(file)) <==>
            IsPlanToken(file)
  {
    var text, words := CommandText(LoadConnections(file)).value, ["swanctl", "--load-conns", "--file"];
    LoadText(file);
    var split := words + Split(file);
    assert Split(text) == split;
    LoadWords();
    forall i | 0 <= i < |Split(file)| ensures Split(file)[i] == split[i + 3] {}
    assert Runnable(split) <==> |split| < MAX_ARGV && forall i :: 0 <= i < |Split(file)| ==> IsPlanToken(Split(file)[i]) by {
      if forall i :: 0 <= i < |Split(file)| ==> IsPlanToken(Split(file)[i]) {
        forall k | 0 <= k < |split| ensures IsPlanToken(split[k]) {
          if k >= 3 { assert split[k] == Split(file)[k - 3]; } else { assert split[k] == words[k]; }
        }
      }
    }
    if IsPlanToken(file) {
      LoadRuns(file);
    } else if split == Words(LoadConnections(file)) {
      assert Split(file) == split[3..] == [file];
      assert Split(file)[0] == file;
    }
  }

  lemma LoadText(file: string)
    ensures Split(Join(Words(LoadConnections(file)))) == ["swanctl", "--load-conns", "--file"] + Split(file)
  {
    hide Split, Join;
    LoadWords();
    var last := "--file" + " " + file;
    var rest := "--load-conns" + " " + last;
    assert Words(LoadConnections(file)) == ["swanctl"] + (["--load-conns"] + ["--file", file]);
    TwoWords("--file", file);
    JoinFirst("--load-conns", ["--file", file]);
    JoinFirst("swanctl", ["--load-conns"] + ["--file", file]);
    SplitWord("--file", file);
    SplitWord("--load-conns", last);
    SplitWord("swanctl", rest);
  }

  lemma LoadWords()
    ensures Word("swanctl") && Word("--load-conns") && Word("--file")
    ensures IsPlanToken("swanctl") && IsPlanToken("--load-conns") && IsPlanToken("--file")
  {
  }

  // ----- effects -----

  function FibOf(r: Route): Fib {
    Fib(if r.tableId >= 0 then r.tableId else 0, r.destinationPrefix, r.nextHop, r.interfaceName)
  }

  /** The resource a command brings up. `names` says which interface the forwarder gives a GRE tunnel. */
  function Creates(names: Gre -> Id, c: Command): Option<Resource> {
    match c
    case Initiate(t) => Some(TunnelUp(t.tunnelId))
    case GreCreate(t) => Some(Interface(names(GreOf(t))))
    case BlockAdd(b) => Some(Blocked(b))
    case RouteAdd(r) => Some(Routed(FibOf(r)))
    case _ => None
  }

  predicate Removes(names: Gre -> Id, c: Command, r: Resource) {
    match c
    case Terminate(t) => r == TunnelUp(t.tunnelId)
    case GreDelete(t) => r == Interface(names(GreOf(t)))
    case BlockDelete(b) => r == Blocked(b)
    case RouteDelete(route) => r == Routed(FibOf(route))
    case GreRouteDelete(prefix, t) => r == Routed(FibOf(GreRoute(prefix, t)))
    case RouteDeletePrefix(prefix) => r.Routed? && r.fib.table == 0 && r.fib.prefix == prefix
    case _ => false
  }

  /** The interface whose settings a command changes. */
  function Configures(c: Command): Option<Resource> {
    if c.GreSetAddress? || c.GreSetMtu? || c.GreSetUp? then Some(Interface(c.tunnel.greInterface)) else None
  }

  function Configured(c: Command, s: Settings): Settings {
    match c
    case GreSetAddress(t) => s.(address := t.greLocalAddress)
    case GreSetMtu(t) => s.(mtu := t.greMtu)
    case GreSetUp(t) => s.(up := true)
    case _ => s
  }

  /** A command that takes effect. Bringing up what is up, and removing what is absent, change nothing. */
  function Effect(names: Gre -> Id, s: System, c: Command): System {
    var made := if Creates(names, c).Some? then {Creates(names, c).value} else {};
    System(if c.LoadConnections? then s.loaded + {Split(c.file)} else s.loaded,
           map r | r in s.resources.Keys + made && !Removes(names, c, r) ::
             if r !in s.resources then Settings("", 0, false)
             else if Configures(c) == Some(r) then Configured(c, s.resources[r])
             else s.resources[r])
  }

  // ----- what the texts of the commands do -----

  /** What a command is meant to ask for. */
  function ActOf(c: Command): Act {
    match c
    case LoadConnections(file) => Load(Split(file))
    case Initiate(t) => Make(TunnelUp(t.tunnelId))
    case Terminate(t) => Drop(TunnelUp(t.tunnelId))
    case GreCreate(t) => MakeGre(GreOf(t))
    case GreDelete(t) => DropGre(GreOf(t))
    case GreSetAddress(t) => SetAddress(t.greInterface, t.greLocalAddress)
    case GreSetMtu(t) => SetMtu(t.greInterface, t.greMtu)
    case GreSetUp(t) => SetUp(t.greInterface)
    case BlockAdd(b) => Make(Blocked(b))
    case BlockDelete(b) => Drop(Blocked(b))
    case RouteAdd(r) => Make(Routed(FibOf(r)))
    case RouteDelete(r) => Drop(Routed(FibOf(r)))
    case GreRouteDelete(prefix, t) => Drop(Routed(FibOf(GreRoute(prefix, t))))
    case RouteDeletePrefix(prefix) => DropPrefix(prefix)
  }

  lemma EnactIsEffect(names: Gre -> Id, s: System, c: Command)
    ensures Enact(names, s, ActOf(c)) == Effect(names, s, c)
  {
    if Configures(c).Some? { SettingIsEffect(names, s, c); } else { MakingIsEffect(names, s, c); }
  }

  lemma MakingIsEffect(names: Gre -> Id, s: System, c: Command)
    requires Configures(c).None?
    ensures Enact(names, s, ActOf(c)) == Effect(names, s, c)
  {
    hide FibOf, GreOf, GreRoute;
    assert Enact(names, s, ActOf(c)).resources == Effect(names, s, c).resources;
  }

  lemma SettingIsEffect(names: Gre -> Id, s: System, c: Command)
    requires Configures(c).Some?
    ensures Enact(names, s, ActOf(c)) == Effect(names, s, c)
  {
    hide FibOf, GreOf, GreRoute;
    assert Enact(names, s, ActOf(c)).resources == Effect(names, s, c).resources;
  }

  lemma WordsSplit(c: Command)
    requires CommandText(c).Some? && !c.RouteAdd? && !c.RouteDelete? && !c.GreRouteDelete?
    ensures Split(CommandText(c).value) == if c.LoadConnections? then ["swanctl", "--load-conns", "--file"] + Split(c.file) else Words(c)
  {
    hide Split, Join, Words;
    if c.LoadConnections? {
      LoadText(c.file);
    } else {
      WordsAreTokens(c);
      TokensSplit(Words(c));
    }
  }

  lemma ReadLoad(file: string)
    ensures Read(["swanctl", "--load-conns", "--file"] + Split(file)) == Some(Load(Split(file)))
  {
    var words := ["swanctl", "--load-conns", "--file"] + Split(file);
    assert words[1..][2..] == Split(file);
  }

  lemma ReadGreWords(t: Tunnel)
    requires ValidGre(t)
    ensures Read(GreWords(t)) == Some(MakeGre(GreOf(t)))
    ensures Read(GreWords(t) + ["del"]) == Some(DropGre(GreOf(t)))
  {
    hide GreOf, Read, ReadGre;
    var g := GreOf(t);
    GreOptions(t);
    var options := OptionsOf(g);
    var head := ["vppctl", "create", "gre", "tunnel", "src", g.local, "dst", g.remote];
    assert GreWords(t) == head + options && GreWords(t) + ["del"] == head + (options + ["del"]);
    ReadGreHead(g.local, g.remote, options);
    ReadGreHead(g.local, g.remote, options + ["del"]);
    ReadGreOptions(g);
  }

  lemma ReadGreOptions(g: Gre)
    requires g.instance >= -1 && (g.instance >= 0 ==> Decimal(g.instance) != "del")
    ensures ReadGre(["tunnel", "src", g.local, "dst", g.remote] + OptionsOf(g)) == Some(MakeGre(g))
    ensures ReadGre(["tunnel", "src", g.local, "dst", g.remote] + (OptionsOf(g) + ["del"])) == Some(DropGre(g))
  {
    hide OptionsOf, ReadGre, Decimal;
    var options := OptionsOf(g);
    OptionsShape(g);
    ReadGreRest(g, options);
    ReadGreRest(g, options + ["del"]);
    assert (options + ["del"])[..|options + ["del"]| - 1] == options;
  }

  lemma OptionsShape(g: Gre)
    requires g.instance >= -1 && (g.instance >= 0 ==> Decimal(g.instance) != "del")
    ensures var options := OptionsOf(g);
            && (options == [] || options[|options| - 1] != "del")
            && (options == [] ==> g.instance == -1)
            && (options != [] ==> |options| == 2 && options[0] == "instance" && Number(options[1]) == g.instance)
  {
    if g.instance >= 0 { DecimalRoundTrip(g.instance); }
  }

  /** What the words after the endpoints amount to. */
  lemma ReadGreRest(g: Gre, rest: seq<string>)
    ensures var del := |rest| > 0 && rest[|rest| - 1] == "del";
            var options := if del then rest[..|rest| - 1] else rest;
            && (options == [] && g.instance == -1 ==>
                  ReadGre(["tunnel", "src", g.local, "dst", g.remote] + rest) == Some(if del then DropGre(g) else MakeGre(g)))
            && (|options| == 2 && options[0] == "instance" && Number(options[1]) == g.instance ==>
                  ReadGre(["tunnel", "src", g.local, "dst", g.remote] + rest) == Some(if del then DropGre(g) else MakeGre(g)))
  {
    hide Number;
    assert (["tunnel", "src", g.local, "dst", g.remote] + rest)[5..] == rest;
  }

  lemma GreOptions(t: Tunnel)
    requires ValidGre(t)
    ensures GreOf(t).instance >= -1
    ensures GreOf(t).instance >= 0 ==> Decimal(GreOf(t).instance) != "del"
  {
    if t.greInstance >= 0 {
      assert AllDigits(Decimal(t.greInstance));
      assert !IsDigit("del"[0]);
    }
  }

  lemma ReadGreHead(local: Id, remote: Id, rest: seq<string>)
    ensures Read(["vppctl", "create", "gre", "tunnel", "src", local, "dst", remote] + rest) ==
            ReadGre(["tunnel", "src", local, "dst", remote] + rest)
    ensures (["tunnel", "src", local, "dst", remote] + rest)[5..] == rest
  {
    var words := ["vppctl", "create", "gre", "tunnel", "src", local, "dst", remote] + rest;
    assert words[1..][2..] == ["tunnel", "src", local, "dst", remote] + rest;
  }

  lemma ReadInterfaceWords(t: Tunnel)
    ensures Read(["vppctl", "set", "interface", "ip", "address", t.greInterface, t.greLocalAddress]) == Some(SetAddress(t.greInterface, t.greLocalAddress))
    ensures t.greMtu > 0 ==> Read(["vppctl", "set", "interface", "mtu", Decimal(t.greMtu), t.greInterface]) == Some(SetMtu(t.greInterface, t.greMtu))
    ensures Read(["vppctl", "set", "interface", "state", t.greInterface, "up"]) == Some(SetUp(t.greInterface))
  {
    assert ["vppctl", "set", "interface", "ip", "address", t.greInterface, t.greLocalAddress][1..][2..] == ["ip", "address", t.greInterface, t.greLocalAddress];
    assert ["vppctl", "set", "interface", "state", t.greInterface, "up"][1..][2..] == ["state", t.greInterface, "up"];
    if t.greMtu > 0 {
      DecimalRoundTrip(t.greMtu);
      assert ["vppctl", "set", "interface", "mtu", Decimal(t.greMtu), t.greInterface][1..][2..] == ["mtu", Decimal(t.greMtu), t.greInterface];
    }
  }

  lemma ReadBlockWords(b: Block)
    ensures Read(BlockWords("add", b) + ["action", "block"]) == Some(Make(Blocked(b)))
    ensures Read(BlockWords("delete", b)) == Some(Drop(Blocked(b)))
  {
    var add, delete := BlockWords("add", b) + ["action", "block"], BlockWords("delete", b);
    assert add[1..][..2] == ["xfrm", "policy"] && add[1..][11..] == ["action", "block"];
    assert delete[1..][..2] == ["xfrm", "policy"] && |delete[1..]| == 11;
    assert (if b.inbound then "in" else "out") == "in" <==> b.inbound;
  }

  lemma ReadPrefix(prefix: Id)
    ensures Read(["vppctl", "ip", "route", "del", prefix]) == Some(DropPrefix(prefix))
  {
    assert ["vppctl", "ip", "route", "del", prefix][1..][2..] == ["del", prefix];
  }

  /** The words of a route command are read by `Parse`. */
  lemma ReadRouteWords(words: seq<string>, r: RouteCommand)
    requires Parse(words) == Some(r) && r.verb in {"add", "del"}
    ensures var fib := Fib(if r.table >= 0 then r.table else 0, r.prefix, r.nextHop, r.interfaceName);
            Read(words) == Some(if r.verb == "add" then Make(Routed(fib)) else Drop(Routed(fib)))
  {
    hide Number;
    assert words[..3] == ["vppctl", "ip", "route"];
    assert words[0] == words[..3][0] && words[1] == words[..3][1] && words[2] == words[..3][2];
    assert words[1..][2..] == words[3..];
    assert ["vppctl", "ip", "route"] + words[3..] == words;
    assert "add" != "del";
  }

  /** The words of every command that was rendered say what the command is meant to ask for: verb and operands. */
  lemma CommandReadsBack(c: Command)
    requires CommandText(c).Some? && Legible(c)
    ensures Read(Split(CommandText(c).value)) == Some(ActOf(c))
  {
    hide Read, Split, Join, GreWords, BlockWords, GreOf, Parse, RenderAdd, RenderDelete;
    match c
    case RouteAdd(r) =>
      AddReadsBack(r);
      ReadRouteWords(Split(CommandText(c).value), RouteCommand("add", r.destinationPrefix, Printed(r.tableId), Printed(r.metric), r.nextHop, r.interfaceName));
    case RouteDelete(r) =>
      DeleteReadsBack(r);
      ReadRouteWords(Split(CommandText(c).value), RouteCommand("del", r.destinationPrefix, Printed(r.tableId), -1, r.nextHop, r.interfaceName));
    case GreRouteDelete(prefix, t) =>
      var r := GreRoute(prefix, t);
      DeleteReadsBack(r);
      ReadRouteWords(Split(CommandText(c).value), RouteCommand("del", r.destinationPrefix, Printed(r.tableId), -1, r.nextHop, r.interfaceName));
    case LoadConnections(file) =>
      WordsSplit(c);
      ReadLoad(file);
    case GreCreate(t) =>
      WordsSplit(c);
      ReadGreWords(t);
    case GreDelete(t) =>
      WordsSplit(c);
      ReadGreWords(t);
    case GreSetAddress(t) =>
      WordsSplit(c);
      ReadInterfaceWords(t);
    case GreSetMtu(t) =>
      WordsSplit(c);
      ReadInterfaceWords(t);
    case GreSetUp(t) =>
      WordsSplit(c);
      ReadInterfaceWords(t);
    case BlockAdd(b) =>
      WordsSplit(c);
      ReadBlockWords(b);
    case BlockDelete(b) =>
      WordsSplit(c);
      ReadBlockWords(b);
    case RouteDeletePrefix(prefix) =>
      WordsSplit(c);
      ReadPrefix(prefix);
    case Initiate(t) =>
      WordsSplit(c);
      ReadTunnelWords(t.tunnelId);
    case Terminate(t) =>
      WordsSplit(c);
      ReadTunnelWords(t.tunnelId);
  }

  lemma ReadTunnelWords(id: Id)
    ensures Read(["swanctl", "--initiate", "--child", id]) == Some(Make(TunnelUp(id)))
    ensures Read(["swanctl", "--terminate", "--child", id]) == Some(Drop(TunnelUp(id)))
  {
    assert ["swanctl", "--initiate", "--child", id][1..] == ["--initiate", "--child", id];
    assert ["swanctl", "--terminate", "--child", id][1..] == ["--terminate", "--child", id];
  }

  /** So its text does what the command is meant to do. */
  lemma HeardIsEffect(names: Gre -> Id, s: System, c: Command)
    requires CommandText(c).Some? && Legible(c)
    ensures Heard(names, s, CommandText(c).value) == Effect(names, s, c)
  {
    hide Read, Split, Effect, CommandText, Enact;
    CommandReadsBack(c);
    EnactIsEffect(names, s, c);
  }

  function Effects(names: Gre -> Id, s: System, commands: seq<Command>): System
    decreases |commands|
  {
    if |commands| == 0 then s
    else Effect(names, Effects(names, s, commands[..|commands| - 1]), commands[|commands| - 1])
  }

  lemma {:induction false} EffectsConcat(names: Gre -> Id, s: System, a: seq<Command>, b: seq<Command>)
    ensures Effects(names, s, a + b) == Effects(names, Effects(names, s, a), b)
    decreases |b|
  {
    if |b| == 0 {
      assert a + b == a;
    } else {
      EffectsConcat(names, s, a, b[..|b| - 1]);
      assert (a + b)[..|a + b| - 1] == a + b[..|b| - 1];
    }
  }

  function Commands(steps: seq<Step>): seq<Command> {
    seq(|steps|, i requires 0 <= i < |steps| => steps[i].command)
  }

  /** The undo commands of these steps, last step first, of those that worked. */
  function Undone(steps: seq<Step>, worked: seq<bool>): seq<Command>
    requires |worked| == |steps|
    decreases |steps|
  {
    if |steps| == 0 then []
    else
      var n := |steps| - 1;
      (if steps[n].undo.Some? && worked[n] then [steps[n].undo.value] else []) + Undone(steps[..n], worked[..n])
  }

  function AllWorked(n: nat): seq<bool> { seq(n, i => true) }

  /** What the text of a command does. */
  function Said(names: Gre -> Id, s: System, c: Command): System {
    if CommandText(c).Some? then Heard(names, s, CommandText(c).value) else s
  }

  /** What the texts of these commands do, one after the other. */
  function AllSaid(names: Gre -> Id, s: System, commands: seq<Command>): System
    decreases |commands|
  {
    if |commands| == 0 then s
    else Said(names, AllSaid(names, s, commands[..|commands| - 1]), commands[|commands| - 1])
  }

  /** The command is rendered, and can be read. */
  predicate Readable(c: Command) { CommandText(c).Some? && Legible(c) }

  /** The texts of readable commands do what the commands are meant to do. */
  lemma {:induction false} AllSaidIsEffects(names: Gre -> Id, s: System, commands: seq<Command>)
    requires forall c :: c in commands ==> Readable(c)
    ensures AllSaid(names, s, commands) == Effects(names, s, commands)
    decreases |commands|
  {
    hide Readable, Effect, CommandText, Legible;
    if |commands| > 0 {
      var n := |commands| - 1;
      AllSaidIsEffects(names, s, commands[..n]);
      SaidIsEffect(names, AllSaid(names, s, commands[..n]), commands[n]);
    }
  }

  lemma SaidIsEffect(names: Gre -> Id, s: System, c: Command)
    requires Readable(c)
    ensures Said(names, s, c) == Effect(names, s, c)
  {
    HeardIsEffect(names, s, c);
  }

  /** What undoes readable steps is readable. */
  lemma {:induction false} UndoneReadable(steps: seq<Step>, worked: seq<bool>)
    requires |worked| == |steps| && forall k :: 0 <= k < |steps| && steps[k].undo.Some? ==> Readable(steps[k].undo.value)
    ensures forall c :: c in Undone(steps, worked) ==> Readable(c)
    decreases |steps|
  {
    hide Readable;
    if |steps| > 0 { UndoneReadable(steps[..|steps| - 1], worked[..|steps| - 1]); }
  }

  // ----- the saga, on values -----

  /** Everything of `s0` is still there as it was, and anything else is one of `owned`. */
  ghost predicate Within(s0: Resources, s: Resources, owned: set<Resource>) {
    && (forall r :: r in s0 ==> r in s && s[r] == s0[r])
    && (forall r :: r in s ==> r in s0 || r in owned)
  }

  function Created(names: Gre -> Id, steps: seq<Step>): (owned: set<Resource>)
    decreases |steps|
  {
    if |steps| == 0 then {}
    else
      var c := Creates(names, steps[|steps| - 1].command);
      Created(names, steps[..|steps| - 1]) + (if c.Some? then {c.value} else {})
  }

  lemma {:induction false} CreatedMember(names: Gre -> Id, steps: seq<Step>, r: Resource)
    ensures r in Created(names, steps) <==> exists k :: 0 <= k < |steps| && Creates(names, steps[k].command) == Some(r)
    decreases |steps|
  {
    if |steps| > 0 {
      var n := |steps| - 1;
      CreatedMember(names, steps[..n], r);
      if r in Created(names, steps[..n]) {
        var k :| 0 <= k < n && Creates(names, steps[..n][k].command) == Some(r);
        assert Creates(names, steps[k].command) == Some(r);
      }
      if exists k :: 0 <= k < |steps| && Creates(names, steps[k].command) == Some(r) {
        var k :| 0 <= k < |steps| && Creates(names, steps[k].command) == Some(r);
        if k < n { assert Creates(names, steps[..n][k].command) == Some(r); }
      }
    }
  }

  /** A step removes nothing, and neither makes nor sets up anything that was there before. */
  ghost predicate Clean(names: Gre -> Id, s0: Resources, step: Step) {
    && (forall r :: r in s0 ==> Creates(names, step.command) != Some(r) && Configures(step.command) != Some(r))
    && (forall r :: !Removes(names, step.command, r))
  }

  /** A command that only removes. */
  ghost predicate OnlyRemoves(names: Gre -> Id, c: Command) {
    Creates(names, c).None? && Configures(c).None?
  }

  /** Undoing a step only removes, and nothing that was there before. */
  ghost predicate Undoable(names: Gre -> Id, s0: Resources, step: Step) {
    step.undo.Some? ==> OnlyRemoves(names, step.undo.value) && forall r :: r in s0 ==> !Removes(names, step.undo.value, r)
  }

  /** Undoing a step removes what the step made. */
  ghost predicate Reversible(names: Gre -> Id, step: Step) {
    var c := Creates(names, step.command);
    c.Some? ==> step.undo.Some? && Removes(names, step.undo.value, c.value)
  }

  ghost predicate AllClean(names: Gre -> Id, s0: Resources, steps: seq<Step>) {
    forall k :: 0 <= k < |steps| ==> Clean(names, s0, steps[k])
  }

  ghost predicate AllUndoable(names: Gre -> Id, s0: Resources, steps: seq<Step>) {
    forall k :: 0 <= k < |steps| ==> Undoable(names, s0, steps[k])
  }

  ghost predicate AllReversible(names: Gre -> Id, steps: seq<Step>) {
    forall k :: 0 <= k < |steps| ==> Reversible(names, steps[k])
  }

  /** Going forward: what was there is untouched, and exactly what the steps make has been added. */
  lemma {:induction false} ForwardAdds(names: Gre -> Id, s0: System, steps: seq<Step>)
    requires AllClean(names, s0.resources, steps)
    ensures var s := Effects(names, s0, Commands(steps));
            Within(s0.resources, s.resources, Created(names, steps)) && Created(names, steps) <= s.resources.Keys
    decreases |steps|
  {
    if |steps| > 0 {
      var n := |steps| - 1;
      ForwardAdds(names, s0, steps[..n]);
      assert Commands(steps)[..n] == Commands(steps[..n]);
      assert Clean(names, s0.resources, steps[n]);
    }
  }

  /** Going back one step after another: whatever the steps made is gone, and nothing else. */
  lemma {:induction false} BackwardRestores(names: Gre -> Id, s0: Resources, s: System, steps: seq<Step>)
    requires AllUndoable(names, s0, steps) && AllReversible(names, steps)
    requires Within(s0, s.resources, Created(names, steps))
    ensures Effects(names, s, Undone(steps, AllWorked(|steps|))).resources == s0
    decreases |steps|
  {
    if |steps| == 0 {
    } else {
      var n := |steps| - 1;
      assert Undoable(names, s0, steps[n]) && Reversible(names, steps[n]);
      assert AllWorked(|steps|)[..n] == AllWorked(n);
      var rest := Undone(steps[..n], AllWorked(n));
      if steps[n].undo.Some? {
        var undo := steps[n].undo.value;
        var s' := Effect(names, s, undo);
        OneStepBack(names, s0, s, steps);
        BackwardRestores(names, s0, s', steps[..n]);
        EffectsConcat(names, s, [undo], rest);
        OneEffect(names, s, undo);
      } else {
        assert [] + rest == rest;
        BackwardRestores(names, s0, s, steps[..n]);
      }
    }
  }

  lemma OneEffect(names: Gre -> Id, s: System, c: Command)
    ensures Effects(names, s, [c]) == Effect(names, s, c)
  {
    assert [c][..0] == [];
  }

  lemma OneStepBack(names: Gre -> Id, s0: Resources, s: System, steps: seq<Step>)
    requires |steps| > 0 && steps[|steps| - 1].undo.Some?
    requires Undoable(names, s0, steps[|steps| - 1]) && Reversible(names, steps[|steps| - 1])
    requires Within(s0, s.resources, Created(names, steps))
    ensures Within(s0, Effect(names, s, steps[|steps| - 1].undo.value).resources, Created(names, steps[..|steps| - 1]))
  {
  }

  lemma RemovalKeeps(names: Gre -> Id, s0: Resources, s: System, c: Command, owned: set<Resource>)
    requires OnlyRemoves(names, c) && (forall r :: r in s0 ==> !Removes(names, c, r)) && Within(s0, s.resources, owned)
    ensures Within(s0, Effect(names, s, c).resources, owned)
  {
  }

  /** Whichever undo commands work, nothing that was there before is lost or changed and nothing appears
      that the steps did not make. */
  lemma {:induction false} BackwardKeeps(names: Gre -> Id, s0: Resources, s: System, steps: seq<Step>, worked: seq<bool>, owned: set<Resource>)
    requires |worked| == |steps| && AllUndoable(names, s0, steps) && Within(s0, s.resources, owned)
    ensures Within(s0, Effects(names, s, Undone(steps, worked)).resources, owned)
    decreases |steps|
  {
    hide Effect, Within;
    if |steps| == 0 {
    } else {
      var n := |steps| - 1;
      assert Undoable(names, s0, steps[n]);
      var rest := Undone(steps[..n], worked[..n]);
      if steps[n].undo.Some? && worked[n] {
        var undo := steps[n].undo.value;
        RemovalKeeps(names, s0, s, undo, owned);
        BackwardKeeps(names, s0, Effect(names, s, undo), steps[..n], worked[..n], owned);
        EffectsConcat(names, s, [undo], rest);
        OneEffect(names, s, undo);
      } else {
        assert [] + rest == rest;
        BackwardKeeps(names, s0, s, steps[..n], worked[..n], owned);
      }
    }
  }

  /** All or nothing: running the first `n` commands and then their undo commands in reverse restores every
      tunnel, interface, policy and route. The last step of the plan need not be reversible, since it is
      never undone. */
  lemma SagaRestores(names: Gre -> Id, s0: System, steps: seq<Step>, n: nat)
    requires n < |steps| && AllClean(names, s0.resources, steps)
    requires AllUndoable(names, s0.resources, steps[..|steps| - 1]) && AllReversible(names, steps[..|steps| - 1])
    ensures Effects(names, Effects(names, s0, Commands(steps[..n])), Undone(steps[..n], AllWorked(n))).resources == s0.resources
  {
    assert forall k :: 0 <= k < n ==> steps[..n][k] == steps[..|steps| - 1][k];
    ForwardAdds(names, s0, steps[..n]);
    BackwardRestores(names, s0.resources, Effects(names, s0, Commands(steps[..n])), steps[..n]);
  }

  // ----- running -----

  /** The host the commands run on. It sees nothing but argument vectors; a command either does what its words
      say or fails without a trace of it. */
  class Host {
    const names: Gre -> Id
    var state: System
    ghost var trace: seq<Command>

    constructor (names: Gre -> Id, state: System)
      ensures this.names == names && this.state == state && trace == []
    {
      this.names, this.state, trace := names, state, [];
    }

    method Execute(c: Command) returns (ok: bool)
      modifies this
      ensures state == if ok then Said(names, old(state), c) else old(state)
      ensures ok ==> Executable(c)
      ensures trace == old(trace) + [c]
    {
      trace := trace + [c];
      var text := CommandText(c);
      if text.None? { return false; }
      var argv := Tokenise(text.value);
      if argv.None? { return false; }
      ok := *;
      if ok {
        var act := Read(argv.value);
        if act.Some? { state := Enact(names, state, act.value); }
      }
    }
  }

  class Plan {
    /** The commands, each with its undo command if it has one. */
    var steps: seq<Step>
    /** The list of commands that would take the whole plan back. */
    var rollbacks: seq<Command>
    var hasUndos: bool

    constructor ()
      ensures steps == [] && rollbacks == [] && !hasUndos
    {
      steps, rollbacks, hasUndos := [], [], false;
    }

    method AppendCommand(c: Command) returns (ok: bool)
      modifies this`steps
      ensures ok <==> |old(steps)| < MAX_PLAN_COMMANDS
      ensures steps == if ok then old(steps) + [Step(c, None)] else old(steps)
    {
      ok := |steps| < MAX_PLAN_COMMANDS;
      if ok { steps := steps + [Step(c, None)]; }
    }

    method AppendCommandWithRollback(c: Command, undo: Command) returns (ok: bool)
      modifies this`steps, this`hasUndos
      ensures ok <==> |old(steps)| < MAX_PLAN_COMMANDS
      ensures steps == if ok then old(steps) + [Step(c, Some(undo))] else old(steps)
      ensures hasUndos == (old(hasUndos) || ok)
    {
      ok := AppendCommand(c);
      if !ok { return; }
      var last := |steps| - 1;
      steps := steps[last := steps[last].(undo := Some(undo))];
      hasUndos := true;
    }

    method AppendRollback(c: Command) returns (ok: bool)
      modifies this`rollbacks
      ensures ok <==> |old(rollbacks)| < MAX_PLAN_COMMANDS
      ensures rollbacks == if ok then old(rollbacks) + [c] else old(rollbacks)
    {
      ok := |rollbacks| < MAX_PLAN_COMMANDS;
      if ok { rollbacks := rollbacks + [c]; }
    }
  }

  /** The rollback list as steps that are their own undo. */
  function AsSteps(commands: seq<Command>): seq<Step> {
    seq(|commands|, i requires 0 <= i < |commands| => Step(commands[i], Some(commands[i])))
  }

  predicate AllUndosWorked(steps: seq<Step>, worked: seq<bool>)
    requires |worked| == |steps|
  {
    forall k :: 0 <= k < |steps| && steps[k].undo.Some? ==> worked[k]
  }

  lemma {:induction false} UndoneWhenAllWorked(steps: seq<Step>, worked: seq<bool>)
    requires |worked| == |steps| && AllUndosWorked(steps, worked)
    ensures Undone(steps, worked) == Undone(steps, AllWorked(|steps|))
    decreases |steps|
  {
    if |steps| > 0 {
      UndoneWhenAllWorked(steps[..|steps| - 1], worked[..|steps| - 1]);
      assert AllWorked(|steps|)[..|steps| - 1] == AllWorked(|steps| - 1);
    }
  }

  lemma UndoneLast(steps: seq<Step>, worked: seq<bool>)
    requires |worked| == |steps| > 0
    ensures var n := |steps| - 1;
            Undone(steps, worked) ==
            (if steps[n].undo.Some? && worked[n] then [steps[n].undo.value] else []) + Undone(steps[..n], worked[..n])
  {
  }

  lemma {:induction false} UndoneSplit(steps: seq<Step>, worked: seq<bool>, j: nat)
    requires |worked| == |steps| && j <= |steps|
    ensures Undone(steps, worked) == Undone(steps[j..], worked[j..]) + Undone(steps[..j], worked[..j])
    decreases |steps|
  {
    hide Undone;
    if j == |steps| {
      UndoneNone(steps[j..], worked[j..]);
      assert steps[..j] == steps && worked[..j] == worked;
      assert [] + Undone(steps, worked) == Undone(steps, worked);
    } else {
      var n := |steps| - 1;
      UndoneLast(steps, worked);
      UndoneLast(steps[j..], worked[j..]);
      UndoneSplit(steps[..n], worked[..n], j);
      assert steps[..n][j..] == steps[j..][..n - j] && worked[..n][j..] == worked[j..][..n - j];
      assert steps[..n][..j] == steps[..j] && worked[..n][..j] == worked[..j];
      var head := if steps[n].undo.Some? && worked[n] then [steps[n].undo.value] else [];
      assert head + (Undone(steps[j..][..n - j], worked[j..][..n - j]) + Undone(steps[..j], worked[..j])) ==
             (head + Undone(steps[j..][..n - j], worked[j..][..n - j])) + Undone(steps[..j], worked[..j]);
    }
  }

  lemma UndoneOne(steps: seq<Step>, worked: seq<bool>, j: nat)
    requires |worked| == |steps| && j < |steps|
    ensures Undone(steps[j..], worked[j..]) ==
            Undone(steps[j + 1..], worked[j + 1..]) + (if steps[j].undo.Some? && worked[j] then [steps[j].undo.value] else [])
  {
    UndoneSplit(steps[j..], worked[j..], 1);
    assert steps[j..][1..] == steps[j + 1..] && worked[j..][1..] == worked[j + 1..];
    assert steps[j..][..1] == [steps[j]] && worked[j..][..1] == [worked[j]];
    assert [steps[j]][..0] == [] && [worked[j]][..0] == [];
  }

  /** Runs the undo commands of the given steps, last step first, going on past failures. */
  method Undo(host: Host, steps: seq<Step>) returns (failed: bool, ghost worked: seq<bool>)
    modifies host
    ensures |worked| == |steps| && (failed <==> !AllUndosWorked(steps, worked))
    ensures host.state == AllSaid(host.names, old(host.state), Undone(steps, worked))
    ensures host.trace == old(host.trace) + Undone(steps, AllWorked(|steps|))
  {
    hide Said, AllSaid, Undone, Executable;
    failed := false;
    ghost var all := AllWorked(|steps|);
    worked := all;
    var j := |steps|;
    SaidNone(host.names, host.state);
    UndoneNone(steps[j..], worked[j..]);
    while j > 0
      invariant 0 <= j <= |steps| == |worked|
      invariant failed <==> exists k :: j <= k < |steps| && steps[k].undo.Some? && !worked[k]
      invariant host.state == AllSaid(host.names, old(host.state), Undone(steps[j..], worked[j..]))
      invariant host.trace == old(host.trace) + Undone(steps[j..], all[j..])
      invariant forall k :: 0 <= k < j ==> worked[k]
    {
      j := j - 1;
      ghost var ran, tried := Undone(steps[j + 1..], worked[j + 1..]), Undone(steps[j + 1..], all[j + 1..]);
      ghost var before := worked;
      if steps[j].undo.Some? {
        var undo := steps[j].undo.value;
        var ok := host.Execute(undo);
        worked := worked[j := ok];
        failed := failed || !ok;
        SaidOneMore(host.names, old(host.state), ran, undo);
        assert old(host.trace) + tried + [undo] == old(host.trace) + (tried + [undo]);
      } else {
        SaidOneMore(host.names, old(host.state), ran, LoadConnections(""));
      }
      assert worked[j + 1..] == before[j + 1..];
      UndoneOne(steps, worked, j);
      UndoneOne(steps, all, j);
      assert old(host.trace) + (tried + []) == old(host.trace) + tried;
      assert ran + [] == ran;
    }
    assert steps[0..] == steps && worked[0..] == worked && all[0..] == all;
  }

  lemma UndoneNone(steps: seq<Step>, worked: seq<bool>)
    requires |worked| == |steps| == 0
    ensures Undone(steps, worked) == []
  {
  }

  lemma EffectsNone(names: Gre -> Id, s: System)
    ensures Effects(names, s, []) == s
  {
  }

  lemma EffectsOneMore(names: Gre -> Id, s: System, commands: seq<Command>, c: Command)
    ensures Effects(names, s, commands + [c]) == Effect(names, Effects(names, s, commands), c)
    ensures Effects(names, s, commands + []) == Effects(names, s, commands)
  {
    assert (commands + [c])[..|commands|] == commands;
    assert commands + [] == commands;
  }

  lemma SaidNone(names: Gre -> Id, s: System)
    ensures AllSaid(names, s, []) == s
  {
  }

  lemma SaidOneMore(names: Gre -> Id, s: System, commands: seq<Command>, c: Command)
    ensures AllSaid(names, s, commands + [c]) == Said(names, AllSaid(names, s, commands), c)
    ensures AllSaid(names, s, commands + []) == AllSaid(names, s, commands)
  {
    assert (commands + [c])[..|commands|] == commands;
    assert commands + [] == commands;
  }

  /** `en_apply_plan_run`: the commands in order; at the first failure, after `ran` of them, the undo commands
      of those that ran in reverse, and the error says whether any of those failed. */
  method Run(plan: Plan, host: Host, dryRun: bool) returns (err: ErrorCode, ghost ran: nat, ghost worked: seq<bool>)
    modifies host
    ensures err == ErrInvalidArgument <==> |plan.steps| > MAX_PLAN_COMMANDS || |plan.rollbacks| > MAX_PLAN_COMMANDS
    ensures err in {ErrInvalidArgument, ErrNone, ErrStateConflict, ErrRollbackFailed}
    ensures err == ErrInvalidArgument || dryRun ==> host.state == old(host.state) && host.trace == old(host.trace)
    ensures dryRun ==> err in {ErrNone, ErrInvalidArgument}
    ensures err == ErrNone && !dryRun ==>
              && host.state == AllSaid(host.names, old(host.state), Commands(plan.steps))
              && host.trace == old(host.trace) + Commands(plan.steps)
              && forall k :: 0 <= k < |plan.steps| ==> Executable(plan.steps[k].command)
    ensures ran < |plan.steps| || err in {ErrNone, ErrInvalidArgument}
    ensures err in {ErrStateConflict, ErrRollbackFailed} ==>
              var undoing := if plan.hasUndos then plan.steps[..ran] else AsSteps(plan.rollbacks);
              && |worked| == |undoing|
              && host.state == AllSaid(host.names, AllSaid(host.names, old(host.state), Commands(plan.steps[..ran])), Undone(undoing, worked))
              && host.trace == old(host.trace) + Commands(plan.steps[..ran + 1]) + Undone(undoing, AllWorked(|undoing|))
              && (err == ErrRollbackFailed <==> !AllUndosWorked(undoing, worked))
  {
    hide Said, AllSaid, Undone, Executable;
    ran, worked := 0, [];
    if |plan.steps| > MAX_PLAN_COMMANDS || |plan.rollbacks| > MAX_PLAN_COMMANDS { return ErrInvalidArgument, ran, worked; }
    var i := 0;
    SaidNone(host.names, host.state);
    assert Commands(plan.steps[..0]) == [];
    while i < |plan.steps|
      invariant 0 <= i <= |plan.steps|
      invariant dryRun ==> host.state == old(host.state) && host.trace == old(host.trace)
      invariant !dryRun ==> host.state == AllSaid(host.names, old(host.state), Commands(plan.steps[..i]))
      invariant !dryRun ==> host.trace == old(host.trace) + Commands(plan.steps[..i])
      invariant !dryRun ==> forall k :: 0 <= k < i ==> Executable(plan.steps[k].command)
    {
      var command := plan.steps[i].command;
      if !dryRun {
        var ok := host.Execute(command);
        assert Commands(plan.steps[..i + 1]) == Commands(plan.steps[..i]) + [command];
        assert old(host.trace) + Commands(plan.steps[..i]) + [command] == old(host.trace) + Commands(plan.steps[..i + 1]);
        if !ok {
          ran := i;
          var failed;
          if plan.hasUndos {
            failed, worked := Undo(host, plan.steps[..i]);
          } else {
            failed, worked := Undo(host, AsSteps(plan.rollbacks));
          }
          return if failed then ErrRollbackFailed else ErrStateConflict, ran, worked;
        }
        SaidOneMore(host.names, old(host.state), Commands(plan.steps[..i]), command);
      }
      i := i + 1;
    }
    assert plan.steps[..i] == plan.steps;
    err := ErrNone;
  }
}
