/** Route commands as text (src/render_commands.c) against the tokeniser that runs them
    (src/apply_plan.c): what is rendered is split back into exactly the intended words. */
module Render {
  import opened Model
  import opened Text

  const MAX_COMMAND_LEN := 512
  const MAX_ARGV := 32

  // ----- rendering -----

  function TableText(table: int): string { if table >= 0 then " table " + Decimal(table) else "" }

  function MetricText(metric: int): string { if metric >= 0 then " preference " + Decimal(metric) else "" }

  function InterfaceText(name: Id): string { if name != "" then " " + name else "" }

  /** The buffer takes the text only if it fits with its terminator. */
  function Fit(text: string): Option<string> {
    if |text| < MAX_COMMAND_LEN then Some(text) else None
  }

  predicate OptionalToken(s: Id) { s == "" || IsToken(s) }

  /** `en_render_vpp_route_replace_entry` */
  function RenderAdd(r: Route): Option<string> {
    if IsToken(r.destinationPrefix) && IsToken(r.nextHop) && OptionalToken(r.interfaceName) then
      Fit("vppctl ip route add " + r.destinationPrefix + TableText(r.tableId) + MetricText(r.metric) + " via " + r.nextHop +
          InterfaceText(r.interfaceName))
    else None
  }

  /** `en_render_vpp_route_delete_entry` */
  function RenderDelete(r: Route): Option<string> {
    if IsToken(r.destinationPrefix) && OptionalToken(r.nextHop) && OptionalToken(r.interfaceName) then
      if r.nextHop != "" then
        Fit("vppctl ip route del " + r.destinationPrefix + TableText(r.tableId) + " via " + r.nextHop + InterfaceText(r.interfaceName))
      else
        Fit("vppctl ip route del " + r.destinationPrefix + InterfaceText(r.interfaceName) + TableText(r.tableId))
    else None
  }

  // ----- tokenising -----

  predicate IsDelimiter(c: char) { c == ' ' || c == '\t' || c == '\r' || c == '\n' }

  /** The characters a word of a plan command may have. */
  predicate IsPlanChar(c: char) { IsTokenChar(c) || c == '=' || c == '%' }

  predicate IsPlanToken(s: string) { |s| > 0 && forall i :: 0 <= i < |s| ==> IsPlanChar(s[i]) }

  /** The length of the word at the front of `s`. */
  function WordLength(s: string): (n: nat)
    ensures n <= |s|
    ensures forall i :: 0 <= i < n ==> !IsDelimiter(s[i])
    ensures n < |s| ==> IsDelimiter(s[n])
  {
    if |s| == 0 || IsDelimiter(s[0]) then 0 else 1 + WordLength(s[1..])
  }

  /** The words of a command, the way `strtok` finds them. */
  function Split(s: string): seq<string>
    decreases |s|
  {
    if |s| == 0 then []
    else if IsDelimiter(s[0]) then Split(s[1..])
    else [s[..WordLength(s)]] + Split(s[WordLength(s)..])
  }

  /** The tokeniser of the plan runner: the argument vector, or nothing if the command is refused. */
  method Tokenise(command: string) returns (argv: Option<seq<string>>)
    ensures argv.Some? <==> 0 < |command| < MAX_COMMAND_LEN && Runnable(Split(command))
    ensures argv.Some? ==> argv.value == Split(command)
  {
    if |command| == 0 || |command| >= MAX_COMMAND_LEN { return None; }
    var rest, words := command, [];
    while |rest| > 0
      invariant Split(command) == words + Split(rest)
      invariant |words| + 1 <= MAX_ARGV && forall i :: 0 <= i < |words| ==> IsPlanToken(words[i])
      decreases |rest|
    {
      if IsDelimiter(rest[0]) {
        rest := rest[1..];
      } else {
        var n := WordLength(rest);
        var word := rest[..n];
        assert Split(command)[|words|] == word;
        if |words| + 1 >= MAX_ARGV || !IsPlanToken(word) { return None; }
        assert words + ([word] + Split(rest[n..])) == (words + [word]) + Split(rest[n..]);
        words, rest := words + [word], rest[n..];
      }
    }
    assert words == Split(command);
    if |words| == 0 { return None; }
    return Some(words);
  }

  /** At least one word, no more than fit the argument vector, and each of plan characters only. */
  predicate Runnable(words: seq<string>) {
    0 < |words| < MAX_ARGV && forall i :: 0 <= i < |words| ==> IsPlanToken(words[i])
  }

  // ----- words joined by blanks -----

  function Join(words: seq<string>): string {
    if |words| == 0 then "" else if |words| == 1 then words[0] else words[0] + " " + Join(words[1..])
  }

  predicate Word(s: string) { |s| > 0 && forall i :: 0 <= i < |s| ==> !IsDelimiter(s[i]) }

  lemma {:induction false} WordLengthIs(w: string, rest: string)
    requires forall i :: 0 <= i < |w| ==> !IsDelimiter(w[i])
    requires rest == "" || IsDelimiter(rest[0])
    ensures WordLength(w + rest) == |w|
  {
    if |w| > 0 {
      assert (w + rest)[1..] == w[1..] + rest;
      WordLengthIs(w[1..], rest);
    } else {
      assert w + rest == rest;
    }
  }

  /** A word and a blank in front of a text is one more word. */
  lemma SplitWord(w: string, text: string)
    requires Word(w)
    ensures Split(w + " " + text) == [w] + Split(text)
  {
    var rest := " " + text;
    assert w + " " + text == w + rest;
    WordLengthIs(w, rest);
    assert (w + rest)[..|w|] == w && (w + rest)[|w|..] == rest && rest[1..] == text;
    assert Split(rest) == Split(text);
  }

  /** Splitting what was joined returns the words. */
  lemma {:induction false} SplitJoin(words: seq<string>)
    requires forall i :: 0 <= i < |words| ==> Word(words[i])
    ensures Split(Join(words)) == words
  {
    if |words| == 0 {
    } else {
      var w := words[0];
      var rest := if |words| == 1 then "" else " " + Join(words[1..]);
      assert Join(words) == w + rest;
      WordLengthIs(w, rest);
      assert (w + rest)[..|w|] == w && (w + rest)[|w|..] == rest;
      if |words| > 1 {
        SplitJoin(words[1..]);
        assert rest[1..] == Join(words[1..]);
        assert Split(rest) == Split(rest[1..]);
      }
      assert words == [w] + words[1..];
    }
  }

  lemma {:induction false} JoinAppend(a: seq<string>, b: seq<string>)
    requires |a| > 0 && |b| > 0
    ensures Join(a + b) == Join(a) + " " + Join(b)
  {
    if |a| == 1 {
      assert (a + b)[1..] == b;
    } else {
      assert (a + b)[1..] == a[1..] + b;
      JoinAppend(a[1..], b);
    }
  }

  lemma TokenIsWord(s: string)
    requires IsToken(s)
    ensures Word(s) && IsPlanToken(s)
  {
  }

  // ----- the words of a route command -----

  function TableWords(table: int): seq<string> { if table >= 0 then ["table", Decimal(table)] else [] }

  function MetricWords(metric: int): seq<string> { if metric >= 0 then ["preference", Decimal(metric)] else [] }

  function HopWords(nextHop: Id, name: Id): seq<string> { ["via", nextHop] + (if name != "" then [name] else []) }

  function AddWords(r: Route): seq<string> {
    ["vppctl", "ip", "route", "add", r.destinationPrefix] + TableWords(r.tableId) + MetricWords(r.metric) + HopWords(r.nextHop, r.interfaceName)
  }

  function DeleteWords(r: Route): seq<string> {
    ["vppctl", "ip", "route", "del", r.destinationPrefix] + TableWords(r.tableId) + HopWords(r.nextHop, r.interfaceName)
  }

  lemma AppendText(a: seq<string>, b: seq<string>, text: string)
    requires |a| > 0
    requires if b == [] then text == "" else text == " " + Join(b)
    ensures Join(a + b) == Join(a) + text
  {
    if b == [] { assert a + b == a; } else { JoinAppend(a, b); }
  }

  lemma TwoWords(x: string, y: string)
    ensures Join([x, y]) == x + " " + y
  {
    assert [x, y][1..] == [y];
  }

  lemma JoinFirst(w: string, rest: seq<string>)
    requires |rest| > 0
    ensures Join([w] + rest) == w + " " + Join(rest)
  {
    assert ([w] + rest)[1..] == rest;
  }

  lemma Assoc3(a: string, b: string, c: string, d: string)
    ensures a + (b + c + d) == a + b + c + d
  {
  }

  lemma HopText(nextHop: Id, name: Id)
    ensures " " + Join(HopWords(nextHop, name)) == " via " + nextHop + InterfaceText(name)
  {
    TwoWords("via", nextHop);
    AppendText(["via", nextHop], if name != "" then [name] else [], InterfaceText(name));
    assert " " + ("via" + " ") == " via ";
    Regroup(" ", "via", " ", nextHop, InterfaceText(name));
  }

  lemma Regroup(a: string, b: string, c: string, d: string, e: string)
    ensures a + (b + c + d + e) == (a + (b + c)) + d + e
  {
  }

  lemma JoinFive(a: string, b: string, c: string, d: string, e: string)
    ensures Join([a, b, c, d, e]) == (a + " " + b + " " + c + " " + d + " ") + e
  {
    hide Join;
    assert [c] + [d, e] == [c, d, e] && [b] + [c, d, e] == [b, c, d, e] && [a] + [b, c, d, e] == [a, b, c, d, e];
    TwoWords(d, e);
    SameText(a, b, c, d);
    JoinFront(c, [d, e], d + " ", e);
    JoinFront(b, [c, d, e], c + " " + d + " ", e);
    JoinFront(a, [b, c, d, e], b + " " + c + " " + d + " ", e);
  }

  lemma JoinFront(w: string, rest: seq<string>, head: string, tail: string)
    requires |rest| > 0 && Join(rest) == head + tail
    ensures Join([w] + rest) == (w + " " + head) + tail
  {
    JoinFirst(w, rest);
  }

  lemma SameText(a: string, b: string, c: string, d: string)
    ensures c + " " + (d + " ") == c + " " + d + " "
    ensures b + " " + (c + " " + d + " ") == b + " " + c + " " + d + " "
    ensures a + " " + (b + " " + c + " " + d + " ") == a + " " + b + " " + c + " " + d + " "
  {
  }

  lemma HeadText(prefix: Id)
    ensures Join(["vppctl", "ip", "route", "add", prefix]) == "vppctl ip route add " + prefix
    ensures Join(["vppctl", "ip", "route", "del", prefix]) == "vppctl ip route del " + prefix
  {
    JoinFive("vppctl", "ip", "route", "add", prefix);
    JoinFive("vppctl", "ip", "route", "del", prefix);
    assert "vppctl" + " " + "ip" + " " + "route" + " " + "add" + " " == "vppctl ip route add ";
    assert "vppctl" + " " + "ip" + " " + "route" + " " + "del" + " " == "vppctl ip route del ";
  }

  lemma NumberText(keyword: string, n: nat)
    ensures " " + Join([keyword, Decimal(n)]) == " " + keyword + " " + Decimal(n)
  {
    TwoWords(keyword, Decimal(n));
  }

  lemma TableTextJoins(table: int)
    ensures if TableWords(table) == [] then TableText(table) == "" else TableText(table) == " " + Join(TableWords(table))
  {
    if table >= 0 { NumberText("table", table); }
  }

  lemma MetricTextJoins(metric: int)
    ensures if MetricWords(metric) == [] then MetricText(metric) == "" else MetricText(metric) == " " + Join(MetricWords(metric))
  {
    if metric >= 0 { NumberText("preference", metric); }
  }

  /** The rendered add command is its words joined by blanks. */
  lemma AddTextJoins(r: Route)
    ensures Join(AddWords(r)) ==
            "vppctl ip route add " + r.destinationPrefix + TableText(r.tableId) + MetricText(r.metric) + " via " + r.nextHop + InterfaceText(r.interfaceName)
  {
    hide Join, TableWords, MetricWords, HopWords, TableText, MetricText, InterfaceText;
    var head := ["vppctl", "ip", "route", "add", r.destinationPrefix];
    HeadText(r.destinationPrefix);
    TableTextJoins(r.tableId);
    MetricTextJoins(r.metric);
    HopText(r.nextHop, r.interfaceName);
    HopWordsSome(r.nextHop, r.interfaceName);
    var hop := " via " + r.nextHop + InterfaceText(r.interfaceName);
    AppendText(head, TableWords(r.tableId), TableText(r.tableId));
    AppendText(head + TableWords(r.tableId), MetricWords(r.metric), MetricText(r.metric));
    AppendText(head + TableWords(r.tableId) + MetricWords(r.metric), HopWords(r.nextHop, r.interfaceName), hop);
    Assoc3(Join(head + TableWords(r.tableId) + MetricWords(r.metric)), " via ", r.nextHop, InterfaceText(r.interfaceName));
  }

  lemma DeleteTextJoins(r: Route)
    ensures Join(DeleteWords(r)) ==
            "vppctl ip route del " + r.destinationPrefix + TableText(r.tableId) + " via " + r.nextHop + InterfaceText(r.interfaceName)
  {
    hide Join, TableWords, HopWords, TableText, InterfaceText;
    var head := ["vppctl", "ip", "route", "del", r.destinationPrefix];
    HeadText(r.destinationPrefix);
    TableTextJoins(r.tableId);
    HopText(r.nextHop, r.interfaceName);
    HopWordsSome(r.nextHop, r.interfaceName);
    AppendText(head, TableWords(r.tableId), TableText(r.tableId));
    AppendText(head + TableWords(r.tableId), HopWords(r.nextHop, r.interfaceName), " via " + r.nextHop + InterfaceText(r.interfaceName));
    Assoc3(Join(head + TableWords(r.tableId)), " via ", r.nextHop, InterfaceText(r.interfaceName));
  }

  lemma HopWordsSome(nextHop: Id, name: Id)
    ensures HopWords(nextHop, name) != []
  {
  }

  // ----- never refused, never truncated, and read back -----

  /** The identifiers fit their buffers and the numbers are C integers no smaller than -1. */
  predicate Storable(r: Route) {
    && |r.destinationPrefix| < MAX_ID_LEN && |r.nextHop| < MAX_ID_LEN && |r.interfaceName| < MAX_ID_LEN
    && -1 <= r.tableId < 0x8000_0000 && -1 <= r.metric < 0x8000_0000
  }

  predicate Renderable(r: Route) {
    IsToken(r.destinationPrefix) && IsToken(r.nextHop) && OptionalToken(r.interfaceName)
  }

  lemma NumberFits(n: int)
    requires 0 <= n < 0x8000_0000
    ensures 0 < |Decimal(n)| <= 10 && IsToken(Decimal(n))
  {
    assert Pow10(10) == 10_000_000_000 by {
      assert Pow10(5) == 100_000;
      assert Pow10(10) == 100_000 * Pow10(5);
    }
    DecimalLength(n, 10);
    DigitsAreToken(Decimal(n));
  }

  lemma AddTextShort(r: Route)
    requires Storable(r)
    ensures |"vppctl ip route add " + r.destinationPrefix + TableText(r.tableId) + MetricText(r.metric) + " via " + r.nextHop + InterfaceText(r.interfaceName)| < MAX_COMMAND_LEN
  {
    if r.tableId >= 0 { NumberFits(r.tableId); }
    if r.metric >= 0 { NumberFits(r.metric); }
    assert |TableText(r.tableId)| <= 17;
    assert |MetricText(r.metric)| <= 22;
    assert |InterfaceText(r.interfaceName)| <= 64;
  }

  lemma WordsOfNumbers(table: int, metric: int)
    ensures forall i :: 0 <= i < |TableWords(table)| ==> IsToken(TableWords(table)[i])
    ensures forall i :: 0 <= i < |MetricWords(metric)| ==> IsToken(MetricWords(metric)[i])
  {
    if table >= 0 { DigitsAreToken(Decimal(table)); }
    if metric >= 0 { DigitsAreToken(Decimal(metric)); }
  }

  lemma AddWordsAreTokens(r: Route)
    requires Renderable(r)
    ensures forall i :: 0 <= i < |AddWords(r)| ==> IsToken(AddWords(r)[i])
    ensures 0 < |AddWords(r)| < MAX_ARGV
  {
    WordsOfNumbers(r.tableId, r.metric);
    var head := ["vppctl", "ip", "route", "add", r.destinationPrefix];
    assert forall i :: 0 <= i < |head| ==> IsToken(head[i]);
    assert forall i :: 0 <= i < |HopWords(r.nextHop, r.interfaceName)| ==> IsToken(HopWords(r.nextHop, r.interfaceName)[i]);
    AllTokens(head, TableWords(r.tableId));
    AllTokens(head + TableWords(r.tableId), MetricWords(r.metric));
    AllTokens(head + TableWords(r.tableId) + MetricWords(r.metric), HopWords(r.nextHop, r.interfaceName));
  }

  lemma AllTokens(a: seq<string>, b: seq<string>)
    requires forall i :: 0 <= i < |a| ==> IsToken(a[i])
    requires forall i :: 0 <= i < |b| ==> IsToken(b[i])
    ensures forall i :: 0 <= i < |a + b| ==> IsToken((a + b)[i])
  {
  }

  /** What a route command says. */
  datatype RouteCommand = RouteCommand(verb: string, prefix: Id, table: int, metric: int, nextHop: Id, interfaceName: Id)

  function Number(s: string): int {
    if AllDigits(s) then ParseDecimal(s) else -1
  }

  /** Reads the words of a route command back. */
  function Parse(words: seq<string>): Option<RouteCommand> {
    if |words| < 7 || words[..3] != ["vppctl", "ip", "route"] then None
    else
      var afterPrefix := words[5..];
      var table := if afterPrefix[0] == "table" then Number(afterPrefix[1]) else -1;
      var afterTable := if afterPrefix[0] == "table" then afterPrefix[2..] else afterPrefix;
      var hasMetric := |afterTable| >= 2 && afterTable[0] == "preference";
      var metric := if hasMetric then Number(afterTable[1]) else -1;
      var hop := if hasMetric then afterTable[2..] else afterTable;
      if |hop| in {2, 3} && hop[0] == "via" then
        Some(RouteCommand(words[3], words[4], table, metric, hop[1], if |hop| == 3 then hop[2] else ""))
      else None
  }

  /** A number that is not printed reads as -1. */
  function Printed(n: int): int { if n >= 0 then n else -1 }

  lemma ParseWords(verb: string, prefix: Id, table: int, metric: int, nextHop: Id, name: Id)
    ensures Parse(["vppctl", "ip", "route", verb, prefix] + TableWords(table) + MetricWords(metric) + HopWords(nextHop, name)) ==
            Some(RouteCommand(verb, prefix, Printed(table), Printed(metric), nextHop, name))
  {
    var hop := HopWords(nextHop, name);
    var tail := MetricWords(metric) + hop;
    var words := ["vppctl", "ip", "route", verb, prefix] + TableWords(table) + MetricWords(metric) + hop;
    assert words[..3] == ["vppctl", "ip", "route"];
    assert words[5..] == TableWords(table) + tail;
    if table >= 0 {
      DecimalRoundTrip(table);
      assert words[5..][2..] == tail;
    } else {
      assert words[5..] == tail;
    }
    if metric >= 0 {
      DecimalRoundTrip(metric);
      assert tail[2..] == hop;
    } else {
      assert tail == hop;
    }
  }

  lemma {:induction false} TokensSplit(words: seq<string>)
    requires forall i :: 0 <= i < |words| ==> IsToken(words[i])
    ensures Split(Join(words)) == words
    ensures 0 < |words| < MAX_ARGV ==> Runnable(words)
  {
    forall i | 0 <= i < |words| ensures Word(words[i]) && IsPlanToken(words[i]) { TokenIsWord(words[i]); }
    SplitJoin(words);
  }

  /** Whatever add command is rendered, its words say what the route says. */
  lemma AddReadsBack(r: Route)
    requires RenderAdd(r).Some?
    ensures var text := RenderAdd(r).value;
            && Runnable(Split(text))
            && Parse(Split(text)) == Some(RouteCommand("add", r.destinationPrefix, Printed(r.tableId), Printed(r.metric), r.nextHop, r.interfaceName))
  {
    hide Split, Join, Parse, TableText, MetricText, InterfaceText, TableWords, MetricWords, HopWords, Runnable;
    AddTextJoins(r);
    AddWordsAreTokens(r);
    TokensSplit(AddWords(r));
    ParseWords("add", r.destinationPrefix, r.tableId, r.metric, r.nextHop, r.interfaceName);
  }

  lemma DeleteReadsBack(r: Route)
    requires RenderDelete(r).Some? && r.nextHop != ""
    ensures var text := RenderDelete(r).value;
            && Runnable(Split(text))
            && Parse(Split(text)) == Some(RouteCommand("del", r.destinationPrefix, Printed(r.tableId), -1, r.nextHop, r.interfaceName))
  {
    hide Split, Join, Parse, TableText, MetricText, InterfaceText, TableWords, MetricWords, HopWords, Runnable;
    DeleteTextJoins(r);
    DeleteWordsAreTokens(r);
    TokensSplit(DeleteWords(r));
    NoMetricWords(r);
    ParseWords("del", r.destinationPrefix, r.tableId, -1, r.nextHop, r.interfaceName);
  }

  /** Rendering then tokenising: for every storable, token-valid route the add command is rendered, is
      accepted by the tokeniser with room to spare, and its words say prefix, table, metric, next hop and
      interface exactly. */
  lemma RenderedAddReadsBack(r: Route)
    requires Storable(r) && Renderable(r)
    ensures RenderAdd(r).Some?
    ensures var text := RenderAdd(r).value;
            && 0 < |text| < MAX_COMMAND_LEN && Runnable(Split(text))
            && Parse(Split(text)) == Some(RouteCommand("add", r.destinationPrefix, r.tableId, r.metric, r.nextHop, r.interfaceName))
  {
    hide Split, Parse, TableText, MetricText, InterfaceText, Runnable;
    AddTextShort(r);
    AddReadsBack(r);
  }

  /** Hence two routes with the same add command agree on everything the command says. */
  lemma RenderAddInjective(r: Route, s: Route)
    requires Storable(r) && Renderable(r) && Storable(s) && Renderable(s)
    requires RenderAdd(r) == RenderAdd(s)
    ensures r.(routeId := s.routeId, nodeId := s.nodeId) == s
  {
    RenderedAddReadsBack(r);
    RenderedAddReadsBack(s);
  }

  /** The delete command of the same route names the very entry its add command made: same prefix, table,
      next hop and interface. */
  lemma RenderedDeleteReadsBack(r: Route)
    requires Storable(r) && Renderable(r)
    ensures RenderDelete(r).Some?
    ensures Runnable(Split(RenderDelete(r).value))
    ensures Parse(Split(RenderDelete(r).value)) == Some(RouteCommand("del", r.destinationPrefix, r.tableId, -1, r.nextHop, r.interfaceName))
  {
    hide Split, Parse, TableText, MetricText, InterfaceText, Runnable;
    DeleteTextShort(r);
    DeleteReadsBack(r);
  }

  lemma NoMetricWords(r: Route)
    ensures DeleteWords(r) ==
            ["vppctl", "ip", "route", "del", r.destinationPrefix] + TableWords(r.tableId) + MetricWords(-1) + HopWords(r.nextHop, r.interfaceName)
  {
  }

  lemma DeleteTextShort(r: Route)
    requires Storable(r)
    ensures |"vppctl ip route del " + r.destinationPrefix + TableText(r.tableId) + " via " + r.nextHop + InterfaceText(r.interfaceName)| < MAX_COMMAND_LEN
  {
    if r.tableId >= 0 { NumberFits(r.tableId); }
    assert |TableText(r.tableId)| <= 17;
    assert |InterfaceText(r.interfaceName)| <= 64;
  }

  lemma DeleteWordsAreTokens(r: Route)
    requires Renderable(r)
    ensures forall i :: 0 <= i < |DeleteWords(r)| ==> IsToken(DeleteWords(r)[i])
    ensures 0 < |DeleteWords(r)| < MAX_ARGV
  {
    WordsOfNumbers(r.tableId, -1);
    var head := ["vppctl", "ip", "route", "del", r.destinationPrefix];
    assert forall i :: 0 <= i < |head| ==> IsToken(head[i]);
    assert forall i :: 0 <= i < |HopWords(r.nextHop, r.interfaceName)| ==> IsToken(HopWords(r.nextHop, r.interfaceName)[i]);
    AllTokens(head, TableWords(r.tableId));
    AllTokens(head + TableWords(r.tableId), HopWords(r.nextHop, r.interfaceName));
  }
}
