/**
 * The service manager of home_server.php: the registry operations over
 * services.conf and the start/stop controller over the PID file.
 *
 * Both files are held as their lines. The port probe (`ss -tuln`) is the
 * set of listening ports passed to each call; what the spawn and `lsof`
 * print is passed in as well; spawning, killing and the audit log are
 * recorded in a ghost event log instead of being performed.
 */
module HomeServer {
  import opened Wrappers
  import opened PhpStrings
  import opened ServiceStore
  import opened PidStore

  datatype Status = UP | DOWN

  /** A service as `getServices` returns it: the stored record and its probed status. */
  datatype ServiceView = ServiceView(service: Service, status: Status)

  /** Which of the two kill paths of `stopService` signalled a process. */
  datatype KillPath = ByPid | ByPort

  /** The effects on the host that the model records instead of performing. */
  datatype Event =
    | Spawned(command: string)               // background `exec` of the command
    | Signalled(pid: string, path: KillPath) // `kill -15 pid || kill -9 pid`
    | PortQueried(port: string)              // `lsof -i:port -t`
    | Logged(message: string)                // one line appended by `logAction`

  /** The `['success' => ..., 'message' => ...]` array every operation returns. */
  datatype Reply = Reply(success: bool, message: string)

  /** The allow-list shipped with the program. */
  const DefaultAllowedCommands: seq<string> := ["php -S 0.0.0.0:8000", "python3 -m http.server 8000"]

  /** The one service name start and stop refuse to manage. */
  const ProtectedName := "SSH"

  const InvalidPort := Reply(false, "Invalid port number")
  const NotAllowed := Reply(false, "Command is not allowed")
  const NotFound := Reply(false, "Service not found")
  const Disabled := Reply(false, "SSH management is disabled for security reasons")

  function Quoted(name: string): string
  {
    "Service '" + name + "'"
  }

  /** `isPortInUse((int)$port) ? 'UP' : 'DOWN'`, with the listening ports as the probe. */
  function StatusOf(listening: set<int>, port: string): Status
  {
    if IntCast(port) in listening then UP else DOWN
  }

  /** One port-path signal per pid `lsof` printed, in order. */
  function PortKills(portPids: seq<string>): seq<Event>
  {
    seq(|portPids|, k requires 0 <= k < |portPids| => Signalled(portPids[k], ByPort))
  }

  /**
   * `addService` appends exactly one line for a record without `|` or line
   * breaks, and `getServices` then returns the earlier records, in order,
   * followed by exactly that record.
   */
  lemma AddAppendsRecord(lines: seq<string>, s: Service)
    requires Clean(s)
    ensures Split(EncodeLine(s), '\n') == [EncodeLine(s)]
    ensures Parsed(lines + [EncodeLine(s)]) == Parsed(lines) + [s]
  {
    LineRoundTrip(s);
    ParsedSnoc(lines, EncodeLine(s));
    assert [EncodeLine(s)][..0] == [];
  }

  /**
   * A record with `|` in its name or command is appended as one line that
   * `getServices` never returns: the store reads exactly as before.
   */
  lemma AddWithPipeIsInvisible(lines: seq<string>, s: Service)
    requires '\n' !in s.name && '\n' !in s.command && '\n' !in s.port
    requires '|' in s.name || '|' in s.command
    ensures Split(EncodeLine(s), '\n') == [EncodeLine(s)]
    ensures Parsed(lines + [EncodeLine(s)]) == Parsed(lines)
  {
    EncodeLineOneLine(s);
    PipeRecordUnreadable(s);
    ParsedSnoc(lines, EncodeLine(s));
    assert [EncodeLine(s)][..0] == [];
  }

  /**
   * `updateService` with a record free of `|` and line breaks: the store
   * then reads as before with exactly element `i` replaced.
   */
  lemma UpdateReplacesOne(lines: seq<string>, i: int, s: Service)
    requires LinesOnly(lines)
    requires 0 <= i < |Parsed(lines)|
    requires Clean(s)
    ensures Parsed(Encoded(Parsed(lines)[i := s])) == Parsed(lines)[i := s]
  {
    ParsedClean(lines);
    StoreRoundTrip(Parsed(lines)[i := s]);
  }

  /**
   * With the shipped allow-list, an update that passes both checks and
   * has a name free of `|` and line breaks is read back exactly: the port
   * is all digits and neither shipped command holds `|` or a line break.
   */
  lemma ShippedUpdateReadsBack(lines: seq<string>, i: int, name: string, command: string, port: string)
    requires LinesOnly(lines)
    requires 0 <= i < |Parsed(lines)|
    requires CleanField(name) && IsDigits(port) && command in DefaultAllowedCommands
    ensures var s := Service(name, command, port);
            Parsed(Encoded(Parsed(lines)[i := s])) == Parsed(lines)[i := s]
  {
    assert CleanField(port) by {
      assert forall k :: 0 <= k < |port| ==> port[k] != '|' && port[k] != '\n';
    }
    assert CleanField(command) by {
      assert command == DefaultAllowedCommands[0] || command == DefaultAllowedCommands[1];
    }
    UpdateReplacesOne(lines, i, Service(name, command, port));
  }

  /**
   * `updateService` with `|` in the new name or command: the line is
   * written, but the updated record disappears from the store as read, and
   * every later record moves up one place.
   */
  lemma UpdateWithPipeDropsRecord(lines: seq<string>, i: int, s: Service)
    requires LinesOnly(lines)
    requires 0 <= i < |Parsed(lines)|
    requires '\n' !in s.name && '\n' !in s.command && '\n' !in s.port
    requires '|' in s.name || '|' in s.command
    ensures var d := Parsed(lines); Parsed(Encoded(d[i := s])) == d[..i] + d[i + 1..]
  {
    var d := Parsed(lines);
    var before, after := d[..i], d[i + 1..];
    var line := EncodeLine(s);
    ParsedClean(lines);
    assert d[i := s] == before + [s] + after;
    assert Encoded(d[i := s]) == Encoded(before) + [line] + Encoded(after) by {
      EncodedAppend(before + [s], after);
      EncodedSnoc(before, s);
      EncodeLineOneLine(s);
    }
    assert Parsed(Encoded(before) + [line]) == before by {
      PipeRecordUnreadable(s);
      ParsedSnoc(Encoded(before), line);
      assert [line][..0] == [];
      StoreRoundTrip(before);
    }
    ParsedAppend(Encoded(before) + [line], Encoded(after));
    StoreRoundTrip(after);
  }

  /** The three-field lines of a store, split around the line of record `i`. */
  lemma WellFormedAround(lines: seq<string>, i: int)
    requires LinesOnly(lines)
    requires 0 <= i < |Parsed(lines)|
    ensures var d := Parsed(lines);
            && WellFormed(lines) == Encoded(d[..i]) + [EncodeLine(d[i])] + Encoded(d[i + 1..])
            && |Encoded(d[..i])| == i
  {
    ParsedClean(lines);
    RewriteKeepsWellFormed(lines);
    EncodedAround(Parsed(lines), i);
  }

  /** Saving records with record `i` replaced by a clean one changes exactly its line. */
  lemma EncodedReplace(d: seq<Service>, i: int, s: Service)
    requires 0 <= i < |d|
    requires Clean(s)
    ensures Encoded(d[i := s]) == Encoded(d[..i]) + [EncodeLine(s)] + Encoded(d[i + 1..])
  {
    assert d[i := s] == d[..i] + [s] + d[i + 1..];
    EncodedAppend(d[..i] + [s], d[i + 1..]);
    EncodedSnoc(d[..i], s);
    LineRoundTrip(s);
  }

  /**
   * `updateService` rewrites the store as its three-field lines, verbatim
   * and in order, with line `i` replaced: every malformed line is erased.
   */
  lemma UpdateErasesMalformed(lines: seq<string>, i: int, s: Service)
    requires LinesOnly(lines)
    requires 0 <= i < |Parsed(lines)|
    requires Clean(s)
    ensures Encoded(Parsed(lines)[i := s]) == WellFormed(lines)[i := EncodeLine(s)]
  {
    var d := Parsed(lines);
    WellFormedAround(lines, i);
    EncodedReplace(d, i, s);
    ReplaceMiddle(Encoded(d[..i]), EncodeLine(d[i]), EncodeLine(s), Encoded(d[i + 1..]));
  }

  lemma ReplaceMiddle<T>(a: seq<T>, x: T, y: T, b: seq<T>)
    ensures (a + [x] + b)[|a| := y] == a + [y] + b
  {
  }

  /**
   * `deleteService` rewrites the store as its three-field lines, verbatim
   * and in order, without line `i`: every malformed line is erased.
   */
  lemma DeleteErasesMalformed(lines: seq<string>, i: int)
    requires LinesOnly(lines)
    requires 0 <= i < |Parsed(lines)|
    ensures var d := Parsed(lines);
            Encoded(d[..i] + d[i + 1..]) == WellFormed(lines)[..i] + WellFormed(lines)[i + 1..]
  {
    var d := Parsed(lines);
    var w := WellFormed(lines);
    ParsedClean(lines);
    RewriteKeepsWellFormed(lines);
    EncodedAround(d, i);
    EncodedAppend(d[..i], d[i + 1..]);
    assert w[..i] == Encoded(d[..i]);
    assert w[i + 1..] == Encoded(d[i + 1..]);
  }

  /**
   * After `deleteService(i)` the store reads as before without record `i`:
   * earlier records keep their index, later ones move down by one.
   */
  lemma DeleteShiftsLater(lines: seq<string>, i: int)
    requires LinesOnly(lines)
    requires 0 <= i < |Parsed(lines)|
    ensures var d := Parsed(lines);
            var after := Parsed(Encoded(d[..i] + d[i + 1..]));
            && |after| == |d| - 1
            && (forall j :: 0 <= j < i ==> after[j] == d[j])
            && (forall j :: i <= j < |after| ==> after[j] == d[j + 1])
  {
    var d := Parsed(lines);
    var rest := d[..i] + d[i + 1..];
    ParsedClean(lines);
    assert forall k :: 0 <= k < |rest| ==> rest[k] == d[if k < i then k else k + 1];
    StoreRoundTrip(rest);
  }

  class Server {
    /** `$allowedCommands`. */
    const allowedCommands: seq<string>
    /** The lines of services.conf. */
    var config: seq<string>
    /** The lines of the PID file. */
    var pids: seq<string>
    /** Processes spawned and signalled, and audit lines written, oldest first. */
    ghost var events: seq<Event>

    /** Both stores are files read line by line, so no element holds a line break. */
    ghost predicate Valid()
      reads this
    {
      LinesOnly(config) && LinesOnly(pids)
    }

    /** `isAllowedCommand`: strict membership in the allow-list, no normalisation. */
    predicate IsAllowedCommand(command: string)
    {
      command in allowedCommands
    }

    constructor(allowedCommands: seq<string>, config: seq<string>, pids: seq<string>)
      requires LinesOnly(config) && LinesOnly(pids)
      ensures Valid()
      ensures this.allowedCommands == allowedCommands && this.config == config && this.pids == pids
      ensures events == []
    {
      this.allowedCommands := allowedCommands;
      this.config := config;
      this.pids := pids;
      events := [];
    }

    /** `getServices`: the three-field lines of the store, each with its port's status. */
    method GetServices(listening: set<int>) returns (views: seq<ServiceView>)
      ensures |views| == |Parsed(config)|
      ensures forall i :: 0 <= i < |views| ==>
                views[i].service == Parsed(config)[i] && views[i].status == StatusOf(listening, Parsed(config)[i].port)
    {
      var defs := ParseStore(config);
      views := seq(|defs|, i requires 0 <= i < |defs| => ServiceView(defs[i], StatusOf(listening, defs[i].port)));
    }

    /** `saveServices`: overwrites the store with one line per record. */
    method SaveServices(defs: seq<Service>)
      requires Valid()
      modifies this`config
      ensures Valid()
      ensures config == Encoded(defs)
    {
      var content: seq<string> := [];
      for i := 0 to |defs|
        invariant content == Encoded(defs[..i])
      {
        EncodedSnoc(defs[..i], defs[i]);
        content := content + Split(EncodeLine(defs[i]), '\n');
        assert defs[..i + 1] == defs[..i] + [defs[i]];
      }
      assert defs[..|defs|] == defs;
      EncodedLinesOnly(defs);
      config := content;
    }

    /** `addService`: validates the port, then the command, then appends one encoded line. */
    method AddService(name: string, command: string, port: string) returns (r: Reply)
      requires Valid()
      modifies this`config, this`events
      ensures Valid()
      ensures if !IsDigits(port) then
                r == InvalidPort && config == old(config) && events == old(events)
              else if !IsAllowedCommand(command) then
                r == NotAllowed && config == old(config) && events == old(events)
              else
                && r == Reply(true, Quoted(name) + " added successfully")
                && config == old(config) + Split(EncodeLine(Service(name, command, port)), '\n')
                && events == old(events) + [Logged(Quoted(name) + " added")]
    {
      if !IsDigits(port) {
        return InvalidPort;
      }
      if !IsAllowedCommand(command) {
        return NotAllowed;
      }
      var line := EncodeLine(Service(name, command, port));
      SplitParts(line, '\n');
      config := config + Split(line, '\n');
      events := events + [Logged(Quoted(name) + " added")];
      r := Reply(true, Quoted(name) + " added successfully");
    }

    /**
     * `updateService`: validates the port, then the command, then the index
     * into what `getServices` returns; replaces that record and rewrites the
     * store from the parsed records.
     */
    method UpdateService(index: int, name: string, command: string, port: string) returns (r: Reply)
      requires Valid()
      modifies this`config, this`events
      ensures Valid()
      ensures var defs := Parsed(old(config));
              if !IsDigits(port) then
                r == InvalidPort && config == old(config) && events == old(events)
              else if !IsAllowedCommand(command) then
                r == NotAllowed && config == old(config) && events == old(events)
              else if !(0 <= index < |defs|) then
                r == NotFound && config == old(config) && events == old(events)
              else
                && r == Reply(true, Quoted(name) + " updated successfully")
                && config == Encoded(defs[index := Service(name, command, port)])
                && events == old(events) + [Logged(Quoted(name) + " updated")]
    {
      if !IsDigits(port) {
        return InvalidPort;
      }
      if !IsAllowedCommand(command) {
        return NotAllowed;
      }
      var services := ParseStore(config);
      if !(0 <= index < |services|) {
        return NotFound;
      }
      services := services[index := Service(name, command, port)];
      SaveServices(services);
      events := events + [Logged(Quoted(name) + " updated")];
      r := Reply(true, Quoted(name) + " updated successfully");
    }

    /** `deleteService`: splices the record at `index` out of what `getServices` returns and rewrites the store. */
    method DeleteService(index: int) returns (r: Reply)
      requires Valid()
      modifies this`config, this`events
      ensures Valid()
      ensures var defs := Parsed(old(config));
              if !(0 <= index < |defs|) then
                r == NotFound && config == old(config) && events == old(events)
              else
                && r == Reply(true, Quoted(defs[index].name) + " deleted successfully")
                && config == Encoded(defs[..index] + defs[index + 1..])
                && events == old(events) + [Logged(Quoted(defs[index].name) + " deleted")]
    {
      var services := ParseStore(config);
      if !(0 <= index < |services|) {
        return NotFound;
      }
      var name := services[index].name;
      services := services[..index] + services[index + 1..];
      SaveServices(services);
      events := events + [Logged(Quoted(name) + " deleted")];
      r := Reply(true, Quoted(name) + " deleted successfully");
    }

    /**
     * `startService`: refuses an unknown index, a running service, the
     * protected name and a command off the allow-list, in that order;
     * otherwise spawns the command and records a truthy pid.
     */
    method StartService(index: int, listening: set<int>, spawnOutput: seq<string>) returns (r: Reply)
      requires Valid()
      modifies this`pids, this`events
      ensures Valid()
      ensures var defs := Parsed(config);
              if !(0 <= index < |defs|) then
                r == NotFound && pids == old(pids) && events == old(events)
              else if StatusOf(listening, defs[index].port) == UP then
                r == Reply(false, Quoted(defs[index].name) + " is already running")
                && pids == old(pids) && events == old(events)
              else if defs[index].name == ProtectedName then
                r == Disabled && pids == old(pids) && events == old(events)
              else if !IsAllowedCommand(defs[index].command) then
                r == NotAllowed && pids == old(pids) && events == old(events)
              else
                && r == Reply(true, Quoted(defs[index].name) + " started")
                && pids == RecordPid(old(pids), defs[index].name, SpawnedPid(spawnOutput))
                && events == old(events) + [Spawned(defs[index].command), Logged(Quoted(defs[index].name) + " started")]
    {
      var services := GetServices(listening);
      if !(0 <= index < |services|) {
        return NotFound;
      }
      var service := services[index].service;
      if services[index].status == UP {
        return Reply(false, Quoted(service.name) + " is already running");
      }
      if service.name == ProtectedName {
        return Disabled;
      }
      if !IsAllowedCommand(service.command) {
        return NotAllowed;
      }
      events := events + [Spawned(service.command)];
      var pid := SpawnedPid(spawnOutput);
      if Truthy(pid) {
        var line := PidLine(service.name, pid);
        SplitParts(line, '\n');
        pids := pids + Split(line, '\n');
      }
      events := events + [Logged(Quoted(service.name) + " started")];
      r := Reply(true, Quoted(service.name) + " started");
    }

    /**
     * The PID-file part of `stopService`: takes out the first line that
     * starts with `name:` and rewrites the file, or leaves it untouched.
     */
    method TakePidRecord(name: string) returns (pid: Option<string>)
      requires Valid()
      modifies this`pids
      ensures Valid()
      ensures (pid, pids) == TakePid(old(pids), name)
    {
      pid := None;
      var found := FindPidLine(pids, name + ":");
      if found.Some? {
        var i := found.value;
        PrefixColon(pids[i], name);
        pid := Some(PidField(pids[i]));
        ghost var rest := pids[..i] + pids[i + 1..];
        assert forall j :: 0 <= j < |rest| ==> rest[j] == pids[if j < i then j else j + 1];
        pids := Rewritten(pids[..i] + pids[i + 1..]);
      }
    }

    /** The port part of `stopService`: signals every pid `lsof` printed for the port. */
    method SignalPortPids(portPids: seq<string>)
      modifies this`events
      ensures events == old(events) + PortKills(portPids)
    {
      for k := 0 to |portPids|
        invariant events == old(events) + PortKills(portPids[..k])
      {
        events := events + [Signalled(portPids[k], ByPort)];
        assert PortKills(portPids[..k + 1]) == PortKills(portPids[..k]) + [Signalled(portPids[k], ByPort)];
      }
      assert portPids[..|portPids|] == portPids;
    }

    /**
     * `stopService`: refuses an unknown index, a stopped service and the
     * protected name, in that order; otherwise takes the service's first
     * record out of the PID file, signals that pid when it is truthy, and
     * signals every pid `lsof` reports on the port.
     */
    method StopService(index: int, listening: set<int>, portPids: seq<string>) returns (r: Reply)
      requires Valid()
      modifies this`pids, this`events
      ensures Valid()
      ensures var defs := Parsed(config);
              if !(0 <= index < |defs|) then
                r == NotFound && pids == old(pids) && events == old(events)
              else if StatusOf(listening, defs[index].port) == DOWN then
                r == Reply(false, Quoted(defs[index].name) + " is not running")
                && pids == old(pids) && events == old(events)
              else if defs[index].name == ProtectedName then
                r == Disabled && pids == old(pids) && events == old(events)
              else
                var taken := TakePid(old(pids), defs[index].name);
                && r == Reply(true, Quoted(defs[index].name) + " stopped")
                && pids == taken.1
                && events == old(events)
                             + (if TruthyPid(taken.0) then [Signalled(taken.0.value, ByPid)] else [])
                             + [PortQueried(defs[index].port)]
                             + PortKills(portPids)
                             + [Logged(Quoted(defs[index].name) + " stopped")]
    {
      var services := GetServices(listening);
      if !(0 <= index < |services|) {
        return NotFound;
      }
      var service := services[index].service;
      if services[index].status == DOWN {
        return Reply(false, Quoted(service.name) + " is not running");
      }
      if service.name == ProtectedName {
        return Disabled;
      }
      var pid := TakePidRecord(service.name);
      if TruthyPid(pid) {
        events := events + [Signalled(pid.value, ByPid)];
      }
      events := events + [PortQueried(service.port)];
      SignalPortPids(portPids);
      events := events + [Logged(Quoted(service.name) + " stopped")];
      r := Reply(true, Quoted(service.name) + " stopped");
    }
  }
}
