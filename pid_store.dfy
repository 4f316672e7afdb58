/**
 * The PID file: one `name:pid` line per started service. `startService`
 * appends a line; `stopService` takes out the first line that starts with
 * `name:` and rewrites the file.
 */
module PidStore {
  import opened Wrappers
  import opened PhpStrings

  /** The line `startService` appends, without its line break. */
  function PidLine(name: string, pid: string): string
  {
    name + ":" + pid
  }

  /** `$output[0] ?? ''`: the first line the spawn printed, or "" when it printed none. */
  function SpawnedPid(output: seq<string>): string
  {
    if output == [] then "" else output[0]
  }

  /** `if ($pid)` on what the PID file gave: `null`, "" and "0" are all false. */
  predicate TruthyPid(pid: Option<string>)
  {
    pid.Some? && Truthy(pid.value)
  }

  /** The PID file after `startService`: the record is appended only for a truthy pid. */
  function RecordPid(lines: seq<string>, name: string, pid: string): seq<string>
  {
    if Truthy(pid) then lines + Split(PidLine(name, pid), '\n') else lines
  }

  /** The index of the first line that starts with `prefix`, if any. */
  function FirstWithPrefix(lines: seq<string>, prefix: string): (r: Option<nat>)
    ensures r.Some? ==> r.value < |lines| && StartsWith(lines[r.value], prefix)
    ensures r.Some? ==> forall j :: 0 <= j < r.value ==> !StartsWith(lines[j], prefix)
    ensures r.None? ==> forall j :: 0 <= j < |lines| ==> !StartsWith(lines[j], prefix)
  {
    if lines == [] then None
    else if StartsWith(lines[0], prefix) then Some(0)
    else match FirstWithPrefix(lines[1..], prefix)
      case None => None
      case Some(i) => Some(i + 1)
  }

  /** The `foreach` of `stopService` that looks for the service's line. */
  method FindPidLine(lines: seq<string>, prefix: string) returns (found: Option<nat>)
    ensures found == FirstWithPrefix(lines, prefix)
  {
    var i := 0;
    while i < |lines|
      invariant 0 <= i <= |lines|
      invariant forall j :: 0 <= j < i ==> !StartsWith(lines[j], prefix)
    {
      if StartsWith(lines[i], prefix) {
        return Some(i);
      }
      i := i + 1;
    }
    return None;
  }

  lemma PrefixColon(line: string, name: string)
    requires StartsWith(line, name + ":")
    ensures ':' in line
  {
    assert line[|name|] == (name + ":")[|name|];
  }

  /** `list(, $pid) = explode(':', $line)`: the field after the line's first colon. */
  function PidField(line: string): string
    requires ':' in line
  {
    CountPositive(line, ':');
    Split(line, ':')[1]
  }

  /**
   * The PID file written as `implode("\n", $lines) . "\n"` and read back
   * line by line: an empty remainder leaves a single empty line.
   */
  function Rewritten(lines: seq<string>): seq<string>
  {
    if lines == [] then [""] else lines
  }

  /** The pid `stopService` takes from the PID file, and the file it leaves behind. */
  function TakePid(lines: seq<string>, name: string): (Option<string>, seq<string>)
  {
    match FirstWithPrefix(lines, name + ":")
    case None => (None, lines)
    case Some(i) =>
      PrefixColon(lines[i], name);
      (Some(PidField(lines[i])), Rewritten(lines[..i] + lines[i + 1..]))
  }

  /** The field after the first colon of `name:pid` is the pid when neither holds a colon. */
  lemma PidFieldOfLine(name: string, pid: string)
    requires ':' !in name && ':' !in pid
    ensures PidField(PidLine(name, pid)) == pid
  {
    SplitAt(name, pid, ':');
    SplitWhole(pid, ':');
  }

  /**
   * Stopping right after starting takes back exactly the pid that was
   * recorded and leaves the PID file as it was, except that a file emptied
   * this way keeps one empty line.
   */
  lemma StartThenStop(lines: seq<string>, name: string, pid: string)
    requires Truthy(pid)
    requires ':' !in name && ':' !in pid && '\n' !in name && '\n' !in pid
    requires forall j :: 0 <= j < |lines| ==> !StartsWith(lines[j], name + ":")
    ensures RecordPid(lines, name, pid) == lines + [PidLine(name, pid)]
    ensures TakePid(RecordPid(lines, name, pid), name) == (Some(pid), Rewritten(lines))
  {
    var line := PidLine(name, pid);
    SplitWhole(line, '\n');
    var after := lines + [line];
    assert StartsWith(line, name + ":") by {
      assert line[..|name + ":"|] == name + ":";
    }
    assert FirstWithPrefix(after, name + ":") == Some(|lines|) by {
      var r := FirstWithPrefix(after, name + ":");
      assert forall j :: 0 <= j < |lines| ==> after[j] == lines[j];
      assert after[|lines|] == line;
    }
    PidFieldOfLine(name, pid);
    assert after[..|lines|] + after[|lines| + 1..] == lines;
  }

  /**
   * A name holding a colon makes `stopService` read the wrong field: the
   * record `a:b:42` of service `a:b` yields the pid `b`.
   */
  lemma ColonInNameMisreadsPid()
    ensures TakePid(["a:b:42"], "a:b") == (Some("b"), [""])
  {
    var line := "a:b:42";
    assert StartsWith(line, "a:b:");
    assert FirstWithPrefix([line], "a:b:") == Some(0);
    SplitAt("a", "b:42", ':');
    SplitAt("b", "42", ':');
    assert line == "a" + [':'] + ("b" + [':'] + "42");
    assert Split(line, ':')[1] == "b";
  }

  /**
   * Nothing keeps one record per service: starting a service again while a
   * stale record of it remains appends a second one, and the next stop takes
   * the stale pid and leaves the current record behind.
   */
  lemma RestartKeepsStaleRecord(name: string, stale: string, current: string)
    requires Truthy(current)
    requires ':' !in name && ':' !in stale && '\n' !in name && '\n' !in current
    ensures RecordPid([PidLine(name, stale)], name, current) == [PidLine(name, stale), PidLine(name, current)]
    ensures TakePid([PidLine(name, stale), PidLine(name, current)], name) == (Some(stale), [PidLine(name, current)])
  {
    SplitWhole(PidLine(name, current), '\n');
    var lines := [PidLine(name, stale), PidLine(name, current)];
    assert StartsWith(lines[0], name + ":") by {
      assert lines[0][..|name + ":"|] == name + ":";
    }
    assert FirstWithPrefix(lines, name + ":") == Some(0);
    PidFieldOfLine(name, stale);
    assert lines[..0] + lines[1..] == [PidLine(name, current)];
  }
}
