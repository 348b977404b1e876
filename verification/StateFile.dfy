/** The daemon's state file (examples/eventnetd.c): one line with the traffic key and the selected path,
    written after a successful submission and read back into a fresh controller. */
module StateFile {
  import opened Model
  import opened Text
  import opened TrafficKeys
  import opened Backends
  import opened ControllerState
  import opened PathSelection
  import opened SelectionLaws
  import opened Tables

  /** The characters of a state field; the traffic key may also have those of its own punctuation. */
  predicate IsStateChar(c: char, pathField: bool) {
    IsTokenChar(c) || (!pathField && (c == '>' || c == '|' || c == '='))
  }

  predicate ValidStateField(s: string, pathField: bool) {
    |s| > 0 && forall i :: 0 <= i < |s| ==> IsStateChar(s[i], pathField)
  }

  predicate IntentReferencesPath(intent: Intent, id: Id) {
    && id != ""
    && (|| (intent.selection.mode == Explicit && intent.selection.pathId == id)
        || id in intent.selection.candidates
        || intent.fallback == Some(id))
  }

  // ----- lines -----

  const LINE_BUFFER := MAX_TRAFFIC_KEY_LEN + MAX_ID_LEN + 4

  /** The position of the first `c`, or the length if there is none. */
  function Find(s: string, c: char): (n: nat)
    ensures n <= |s| && (n < |s| ==> s[n] == c) && forall i :: 0 <= i < n ==> s[i] != c
  {
    if |s| == 0 || s[0] == c then 0
    else
      var n := Find(s[1..], c);
      assert forall i :: 1 <= i < n + 1 ==> s[i] == s[1..][i - 1];
      n + 1
  }

  /** What `fgets` takes from the rest of a file: up to a newline, or as much as the buffer holds. */
  function LineLength(rest: string): (n: nat)
    ensures n <= |rest| && (|rest| > 0 ==> n > 0)
  {
    var newline := Find(rest, '\n');
    var wanted := if newline < |rest| then newline + 1 else |rest|;
    if wanted < LINE_BUFFER then wanted else LINE_BUFFER - 1
  }

  /** The part of a field before the end of its line. */
  function Trimmed(s: string): string {
    var n := if Find(s, '\r') < Find(s, '\n') then Find(s, '\r') else Find(s, '\n');
    s[..n]
  }

  /** The key and the path of a line, if it has that shape: it is complete, and has exactly one tab. */
  function ParseLine(line: string): Option<(string, string)> {
    var tab := Find(line, '\t');
    if Find(line, '\n') == |line| && |line| >= LINE_BUFFER - 1 then None
    else if tab == |line| then None
    else if Find(line[tab + 1..], '\t') < |line[tab + 1..]| then None
    else Some((line[..tab], Trimmed(line[tab + 1..])))
  }

  /** The line `persist_state` writes. */
  function StateLine(key: Id, path: Id): string {
    key + "\t" + path + "\n"
  }

  // ----- restoring -----

  /** The path exists, is enabled, and runs over enabled nodes. */
  predicate Usable(nodes: seq<Node>, paths: seq<Path>, id: Id) {
    var p := FindPath(paths, id);
    p.Some? && paths[p.value].admin == AdminEnabled && PathNodesEnabled(nodes, paths[p.value])
  }

  /** The operational states after a path was made active. */
  function Activate(paths: seq<Path>, opState: seq<PathState>, id: Id): seq<PathState> {
    var p := FindPath(paths, id);
    if p.Some? && p.value < |opState| then opState[p.value := PathActive] else opState
  }

  /** `en_controller_restore_applied_path` */
  method RestoreAppliedPath(c: Controller, key: Id, path: Id) returns (err: ErrorCode, ghost now: int)
    requires c.Shape() && c.Backing()
    modifies c`opState, c.net`trace, c.applied, c.applied.trafficKeys, c.applied.appliedPaths, c.applied.appliedSinceMs
    ensures c.Shape() && c.Backing()
    ensures err == (if key == "" || path == "" then ErrInvalidArgument
                    else if FindPath(c.paths, path).None? then ErrNotFound
                    else if Usable(c.nodes, c.paths, path) then ErrNone
                    else ErrStateConflict)
    ensures c.applied.paths == if err == ErrNone then Stored(old(c.applied.paths), c.applied.capacity, key, path) else old(c.applied.paths)
    ensures c.opState == if err == ErrNone then Activate(c.paths, old(c.opState), path) else old(c.opState)
    ensures err == ErrNone ==>
              && c.net.trace == old(c.net.trace) + [Stamped(now)]
              && c.applied.since == StampedAt(old(c.applied.paths), old(c.applied.since), c.applied.capacity, key, now)
    ensures err != ErrNone ==> c.net.trace == old(c.net.trace) && c.applied.since == old(c.applied.since)
  {
    hide Represents;
    now := 0;
    if key == "" || path == "" { return ErrInvalidArgument, now; }
    var p := FindPath(c.paths, path);
    if p.None? { return ErrNotFound, now; }
    if c.paths[p.value].admin != AdminEnabled || !PathNodesEnabled(c.nodes, c.paths[p.value]) { return ErrStateConflict, now; }
    c.opState := c.opState[p.value := PathActive];
    var stamp := c.net.Stamp();
    now := stamp;
    c.applied.Set(key, path, stamp);
    err := ErrNone;
  }

  /** The line may be restored into a controller that has nothing applied for the key yet. */
  predicate Restorable(nodes: seq<Node>, paths: seq<Path>, intent: Intent, line: string) {
    var fields := ParseLine(line);
    && fields.Some?
    && ValidStateField(fields.value.0, false) && ValidStateField(fields.value.1, true)
    && fields.value.0 == TrafficKey(intent.traffic)
    && IntentReferencesPath(intent, fields.value.1)
    && Usable(nodes, paths, fields.value.1)
  }

  /** Reads the file line by line. Whatever it contains, the applied table changes at most at the intent's own
      key, and there only to a usable path that the intent names; and the file is accepted exactly if it is
      empty or a single restorable line. */
  method RestoreState(c: Controller, intent: Intent, content: string) returns (ok: bool, restored: nat, ghost now: int)
    requires c.Shape() && c.Backing() && TrafficKey(intent.traffic) !in c.applied.paths
    requires |c.applied.paths| < c.applied.capacity
    modifies c`opState, c.net`trace, c.applied, c.applied.trafficKeys, c.applied.appliedPaths, c.applied.appliedSinceMs
    ensures c.Shape() && c.Backing()
    ensures restored == 0 ==> c.applied.paths == old(c.applied.paths) && c.applied.since == old(c.applied.since) && c.opState == old(c.opState)
    ensures restored > 0 ==>
              var line := content[..LineLength(content)];
              && restored == 1 && Restorable(c.nodes, c.paths, intent, line)
              && c.applied.paths == old(c.applied.paths)[TrafficKey(intent.traffic) := ParseLine(line).value.1]
              && c.applied.since == old(c.applied.since)[TrafficKey(intent.traffic) := now] && Stamped(now) in c.net.trace
              && c.opState == Activate(c.paths, old(c.opState), ParseLine(line).value.1)
    ensures ok <==> content == "" || (LineLength(content) == |content| && Restorable(c.nodes, c.paths, intent, content))
    ensures ok ==> restored == if content == "" then 0 else 1
  {
    hide Represents, ParseLine, LineLength, TrafficKey, Usable, IntentReferencesPath;
    var key := TrafficKey(intent.traffic);
    ok, restored, now := true, 0, 0;
    var rest := content;
    while ok && |rest| > 0
      invariant c.Shape() && c.Backing()
      invariant restored == 0 && ok ==> rest == content
      invariant restored == 0 ==> c.applied.paths == old(c.applied.paths) && c.applied.since == old(c.applied.since) && c.opState == old(c.opState)
      invariant !ok && restored == 0 ==> content != "" && !Restorable(c.nodes, c.paths, intent, content[..LineLength(content)])
      invariant restored > 0 ==>
                  var line := content[..LineLength(content)];
                  && restored == 1 && |content| > 0 && Restorable(c.nodes, c.paths, intent, line)
                  && c.applied.paths == old(c.applied.paths)[key := ParseLine(line).value.1]
                  && c.applied.since == old(c.applied.since)[key := now] && Stamped(now) in c.net.trace
                  && c.opState == Activate(c.paths, old(c.opState), ParseLine(line).value.1)
                  && (if ok then rest == content[LineLength(content)..] else LineLength(content) < |content|)
      decreases ok, |rest|
    {
      var n := LineLength(rest);
      LineLengthPositive(rest);
      var line := rest[..n];
      var fields := ParseLine(line);
      if fields.None? || !ValidStateField(fields.value.0, false) || !ValidStateField(fields.value.1, true) ||
         fields.value.0 != key || !IntentReferencesPath(intent, fields.value.1) || !Usable(c.nodes, c.paths, fields.value.1)
      {
        ok := false;
      } else {
        var applied, since := c.applied.Get(key);
        if applied.Some? {
          ok := false;
        } else {
          UsableIsKnown(c.nodes, c.paths, fields.value.1);
          var err;
          err, now := RestoreAppliedPath(c, key, fields.value.1);
          restored := restored + 1;
          rest := rest[n..];
        }
      }
    }
    if LineLength(content) == |content| { assert content[..LineLength(content)] == content; }
  }

  lemma LineLengthPositive(rest: string)
    ensures |rest| > 0 ==> 0 < LineLength(rest) <= |rest|
  {
  }

  lemma UsableIsKnown(nodes: seq<Node>, paths: seq<Path>, id: Id)
    requires Usable(nodes, paths, id)
    ensures FindPath(paths, id).Some?
  {
  }

  /** A line with this key and this path: they are separated by the only tab of the line, and nothing follows but a
      line end. The line is complete: it has its newline, or is shorter than what one read takes. */
  ghost predicate IsLineOf(line: string, key: Id, id: Id) {
    && (exists tail :: line == key + "\t" + id + tail && (tail == "" || tail[0] in {'\r', '\n'}) && Free(tail, '\t'))
    && (!Free(line, '\n') || |line| < LINE_BUFFER - 1)
  }

  /** The intent asks for this path: outright, as a candidate, or to fall back to. */
  predicate AsksFor(intent: Intent, id: Id) {
    || (intent.selection.mode == Explicit && intent.selection.pathId == id)
    || (exists i :: 0 <= i < |intent.selection.candidates| && intent.selection.candidates[i] == id)
    || intent.fallback == Some(id)
  }

  /** The path of that name is enabled, and so are all nodes it touches. */
  ghost predicate RunsOn(nodes: seq<Node>, paths: seq<Path>, id: Id) {
    exists i :: 0 <= i < |paths| && paths[i].pathId == id && (forall j :: 0 <= j < i ==> paths[j].pathId != id) &&
      paths[i].admin == AdminEnabled && (nodes == [] || forall n :: IsEnd(paths[i], n) || n in paths[i].waypoints ==> IsEnabled(nodes, n))
  }

  lemma UsableRunsOn(nodes: seq<Node>, paths: seq<Path>, id: Id)
    ensures Usable(nodes, paths, id) <==> RunsOn(nodes, paths, id)
  {
    hide PathNodesEnabled, IsEnd, IsEnabled;
    var p := FindPath(paths, id);
    if p.Some? { NodesRule(nodes, paths[p.value]); }
  }

  lemma StateCharsAreFree(s: string)
    ensures forall pathField :: ValidStateField(s, pathField) ==> Free(s, '\t') && Free(s, '\n') && Free(s, '\r')
  {
  }

  lemma ParsedIsLine(line: string, key: Id, id: Id)
    requires ValidStateField(key, false) && ValidStateField(id, true)
    ensures ParseLine(line) == Some((key, id)) <==> IsLineOf(line, key, id)
  {
    hide ValidStateField;
    StateCharsAreFree(key);
    StateCharsAreFree(id);
    if IsLineOf(line, key, id) { LineParses(line, key, id); }
    if ParseLine(line) == Some((key, id)) { ParsedLine(line, key, id); }
  }

  lemma LineParses(line: string, key: Id, id: Id)
    requires Free(key, '\t') && Free(id, '\t') && Free(id, '\n') && Free(id, '\r') && IsLineOf(line, key, id)
    ensures ParseLine(line) == Some((key, id))
  {
    var tail :| line == key + "\t" + id + tail && (tail == "" || tail[0] in {'\r', '\n'}) && Free(tail, '\t');
    FindIs(line, '\t', |key|);
    var rest := line[|key| + 1..];
    assert rest == id + tail && line[..|key|] == key;
    FindIs(rest, '\t', |rest|);
    TrimmedTo(rest, id, tail);
    assert Find(line, '\n') == |line| ==> Free(line, '\n');
  }

  lemma TrimmedTo(s: string, id: string, tail: string)
    requires s == id + tail && Free(id, '\n') && Free(id, '\r') && (tail == "" || tail[0] in {'\r', '\n'})
    ensures Trimmed(s) == id
  {
    if tail == "" {
      FindIs(s, '\n', |s|);
      FindIs(s, '\r', |s|);
    } else {
      assert s[|id|] == tail[0];
      if tail[0] == '\r' { FindIs(s, '\r', |id|); } else { FindIs(s, '\n', |id|); }
      assert forall i :: 0 <= i < |id| ==> s[i] == id[i];
    }
  }

  lemma ParsedLine(line: string, key: Id, id: Id)
    requires ParseLine(line) == Some((key, id))
    ensures IsLineOf(line, key, id)
  {
    var tab := Find(line, '\t');
    var rest := line[tab + 1..];
    var tail := TrimmedLeaves(rest);
    assert line[..tab] == key && line == line[..tab] + "\t" + rest;
    LineFromParts(line, key, id, rest, tail);
    assert Find(line, '\n') < |line| ==> line[Find(line, '\n')] == '\n';
  }

  lemma LineFromParts(line: string, key: Id, id: Id, rest: string, tail: string)
    requires line == key + "\t" + rest && rest == id + tail && Free(rest, '\t')
    requires tail == "" || tail[0] in {'\r', '\n'}
    ensures line == key + "\t" + id + tail && Free(tail, '\t')
  {
    assert forall i :: 0 <= i < |tail| ==> tail[i] == rest[|id| + i];
  }

  lemma TrimmedLeaves(s: string) returns (tail: string)
    ensures s == Trimmed(s) + tail && (tail == "" || tail[0] in {'\r', '\n'})
  {
    tail := s[|Trimmed(s)|..];
  }

  /** A line is restorable exactly if it is a line of the intent's own traffic key and of an enabled path over
      enabled nodes that the intent asks for, and both are made of characters a state file may have. */
  lemma RestorableMeans(nodes: seq<Node>, paths: seq<Path>, intent: Intent, line: string)
    ensures Restorable(nodes, paths, intent, line) <==>
              && StateEndpoints(intent.traffic)
              && exists id :: IsLineOf(line, TrafficKey(intent.traffic), id) && IsToken(id) && AsksFor(intent, id) && RunsOn(nodes, paths, id)
  {
    hide ParseLine, TrafficKey, Usable, RunsOn, IsLineOf, StateEndpoints;
    var key := TrafficKey(intent.traffic);
    StateKey(intent.traffic);
    forall id ensures IsToken(id) <==> ValidStateField(id, true) {}
    forall id | IsToken(id) && ValidStateField(key, false) ensures ParseLine(line) == Some((key, id)) <==> IsLineOf(line, key, id) {
      ParsedIsLine(line, key, id);
    }
    forall id ensures Usable(nodes, paths, id) <==> RunsOn(nodes, paths, id) { UsableRunsOn(nodes, paths, id); }
    forall id ensures IsToken(id) ==> (AsksFor(intent, id) <==> IntentReferencesPath(intent, id)) {}
  }

  // ----- the round trip -----

  lemma {:induction false} FindIs(s: string, c: char, n: nat)
    requires n <= |s| && (n < |s| ==> s[n] == c) && forall i :: 0 <= i < n ==> s[i] != c
    ensures Find(s, c) == n
  {
    if n > 0 { FindIs(s[1..], c, n - 1); }
  }

  lemma StateLineShape(key: string, path: string)
    ensures var line := StateLine(key, path);
            && |line| == |key| + |path| + 2
            && line[..|key|] == key && line[|key|] == '\t'
            && line[|key| + 1..] == path + "\n" && line[|line| - 1] == '\n'
            && (forall i :: 0 <= i < |key| ==> line[i] == key[i])
            && (forall i :: |key| < i < |line| - 1 ==> line[i] == path[i - |key| - 1])
  {
  }

  lemma PathFieldTrims(path: string)
    requires Free(path, '\t') && Free(path, '\n') && Free(path, '\r')
    ensures Find(path + "\n", '\t') == |path + "\n"| && Trimmed(path + "\n") == path
  {
    FindIs(path + "\n", '\t', |path| + 1);
    FindIs(path + "\n", '\n', |path|);
    FindIs(path + "\n", '\r', |path| + 1);
  }

  /** The line of a key and a path that fit their buffers, and contain no tab or line end, is one complete
      line and splits into just these two fields. */
  lemma StateLineParses(key: string, path: string)
    requires Free(key, '\t') && Free(key, '\n')
    requires Free(path, '\t') && Free(path, '\n') && Free(path, '\r')
    requires |key| < MAX_TRAFFIC_KEY_LEN && |path| < MAX_ID_LEN
    ensures LineLength(StateLine(key, path)) == |StateLine(key, path)|
    ensures ParseLine(StateLine(key, path)) == Some((key, path))
  {
    hide StateLine, Find, Trimmed;
    var line := StateLine(key, path);
    StateLineShape(key, path);
    PathFieldTrims(path);
    FindIs(line, '\n', |line| - 1);
    FindIs(line, '\t', |key|);
  }

  /** Every character may stand in a key field. */
  predicate AllKeyChars(s: string) { forall i :: 0 <= i < |s| ==> IsStateChar(s[i], false) }

  /** Every character of the endpoints may stand in a state field. */
  predicate StateEndpoints(t: Traffic) { AllKeyChars(t.source) && AllKeyChars(t.destination) }

  lemma KeyCharsConcat(a: string, b: string)
    ensures AllKeyChars(a + b) <==> AllKeyChars(a) && AllKeyChars(b)
  {
    hide IsStateChar;
    assert forall i :: 0 <= i < |a| ==> (a + b)[i] == a[i];
    assert forall i :: 0 <= i < |b| ==> (a + b)[|a| + i] == b[i];
  }

  lemma VlanSuffixIsState(vlan: Option<int>)
    ensures AllKeyChars(VlanSuffix(vlan))
  {
    if vlan.Some? { assert forall i :: 0 <= i < 6 ==> IsStateChar("|vlan="[i], false); }
  }

  lemma StateKey(t: Traffic)
    ensures ValidStateField(TrafficKey(t), false) <==> StateEndpoints(t)
  {
    VlanSuffixIsState(t.vlan);
    assert AllKeyChars("->");
    KeyCharsConcat(t.source, "->");
    KeyCharsConcat(t.source + "->", t.destination);
    KeyCharsConcat(t.source + "->" + t.destination, VlanSuffix(t.vlan));
    hide IsStateChar, VlanSuffix;
  }

  /** What a configuration guarantees about a selector and a path identifier. */
  predicate Storable(t: Traffic, path: Id) {
    && |t.source| < MAX_ID_LEN && |t.destination| < MAX_ID_LEN && |path| < MAX_ID_LEN
    && (t.vlan.Some? ==> -0x8000_0000 <= t.vlan.value < 0x8000_0000)
    && IsToken(path)
  }

  /** The line written for a usable path that the intent names is restorable exactly if the endpoints of the
      intent consist of state characters; token-valid endpoints always do. */
  lemma StateLineRestorable(nodes: seq<Node>, paths: seq<Path>, intent: Intent, path: Id)
    requires Storable(intent.traffic, path)
    requires Usable(nodes, paths, path) && IntentReferencesPath(intent, path)
    ensures var line := StateLine(TrafficKey(intent.traffic), path);
            (LineLength(line) == |line| && Restorable(nodes, paths, intent, line)) <==> StateEndpoints(intent.traffic)
    ensures StateEndpoints(intent.traffic) ==>
              ParseLine(StateLine(TrafficKey(intent.traffic), path)) == Some((TrafficKey(intent.traffic), path))
    ensures IsToken(intent.traffic.source) && IsToken(intent.traffic.destination) ==> StateEndpoints(intent.traffic)
  {
    hide TrafficKey, LineLength, ParseLine, StateLine, Usable, IntentReferencesPath;
    var key := TrafficKey(intent.traffic);
    KeyNeverTruncated(intent.traffic);
    StateKey(intent.traffic);
    if ValidStateField(key, false) { StateLineParses(key, path); }
  }

  /** A path that selection chose is usable and named by the intent. */
  lemma ChosenIsStorable(v: View, clock: Clock, intent: Intent, path: Id)
    requires v.Valid() && path != "" && Choose(v, clock, intent.selection) == Chosen(path)
    ensures Usable(v.nodes, v.paths, path) && IntentReferencesPath(intent, path)
  {
    ChosenIsSound(v, clock, intent.selection, path);
  }

  /** State-file round trip: after a submission that selected `path`, the line written is accepted by a fresh
      controller of the same configuration and makes it apply the same path, for all token-valid endpoints. */
  method PersistThenRestore(ghost v: View, ghost clock: Clock, intent: Intent, path: Id, c: Controller) returns (ok: bool, ghost now: int)
    requires v.Valid() && Choose(v, clock, intent.selection) == Chosen(path)
    requires Storable(intent.traffic, path)
    requires IsToken(intent.traffic.source) && IsToken(intent.traffic.destination)
    requires c.Shape() && c.Backing() && c.nodes == v.nodes && c.paths == v.paths
    requires c.applied.paths == map[] && c.applied.since == map[] && c.applied.capacity > 0
    modifies c`opState, c.net`trace, c.applied, c.applied.trafficKeys, c.applied.appliedPaths, c.applied.appliedSinceMs
    ensures c.Shape() && c.Backing()
    ensures ok && c.applied.paths == map[TrafficKey(intent.traffic) := path]
    ensures c.applied.since == map[TrafficKey(intent.traffic) := now] && Stamped(now) in c.net.trace
    ensures c.opState == Activate(c.paths, old(c.opState), path)
  {
    hide Represents, TrafficKey, ParseLine, LineLength, StateLine, Usable, IntentReferencesPath, Restorable, Choose, StateEndpoints, AllKeyChars;
    ChosenIsStorable(v, clock, intent, path);
    StateLineRestorable(v.nodes, v.paths, intent, path);
    var line := StateLine(TrafficKey(intent.traffic), path);
    StateLineNonEmpty(TrafficKey(intent.traffic), path);
    assert line[..|line|] == line;
    var restored;
    ok, restored, now := RestoreState(c, intent, line);
  }

  lemma StateLineNonEmpty(key: Id, path: Id)
    ensures StateLine(key, path) != ""
  {
  }
}
