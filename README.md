# home_server service manager, in Dafny

A model of the service-management core of `home_server.php`, a single-file
PHP web panel that registers, starts, stops and monitors commands bound to
TCP ports on one host. The model has four parts, one module each, plus two
support modules:

- **ServiceStore**: the `services.conf` codec.
  - Records are written as `name|command|port` lines, with `|` in the name or command escaped as `\|` (`escapePipe`, `saveServices`).
  - Records are read back by `explode('|', …)`, keeping only lines with exactly three parts (`getServices`).
- **HomeServer**: a `Server` class.
  - It holds the lines of `services.conf` and of the PID file (`/tmp/home_server_pids`) as `seq<string>` fields.
  - It implements `getServices`, `saveServices`, `addService`, `updateService`, `deleteService`, `isAllowedCommand`, `startService` and `stopService`, with their guards in the source's order and their exact reply messages.
  - The effects on the host are recorded in a ghost event log instead of being performed: the background spawn, the `kill -15 || kill -9` signals on both kill paths, the `lsof` port query, and one `logAction` line per successful action.
- **PidStore**: the `name:pid` PID file.
  - A start appends a record when the pid is truthy in PHP's sense.
  - A stop takes out the first line starting with `name:` and rewrites the file as `implode("\n", rest) . "\n"`.
- **ServiceStats**: `getServiceStats` over the status log and the usage log.
  - Each log is an optional sequence of lines; an absent log stands for a missing file.
  - The uptime is an integer number of hundredths of a percent.
- **PhpStrings** and **Wrappers**: PHP's `explode` and `implode` on one character, `ctype_digit`, `strpos(…) === 0`, the `(int)` cast and string truthiness, plus an `Option` type.

The host is replaced by parameters:

- The `ss -tuln` probe becomes the set of ports that are listening. A service is `UP` exactly when `(int)$port` is in that set.
- What the spawn printed, and what `lsof` printed, are passed to `StartService` and `StopService`.
- A file is its sequence of lines. Every writer ends each line with `"\n"`, so the model assumes every file ends with a line break.

### Where the code falls short of its evident purpose (the model follows the code)

- **The codec loses data.** `escapePipe` escapes every `|`, and `Unescape(EscapePipe(s)) == s` holds, so the writer loses nothing and evidently aims at a lossless store. The reader never unescapes, though: a record with `|` in its name or command reads as four or more parts and is dropped. Update and delete rewrite the store from what was read, so they erase every such line, and every other malformed line, for good.
- **The port check is digits only.** A TCP port lies in 1–65535, but the code checks only that the port is a non-empty string of digits, so `0` and `99999` are accepted.
- **A service can hold two PID records.** Stop takes out one record per call, as if there were at most one per service. Start never checks for one, so starting a service again while a stale record remains appends a second, and the next stop takes the stale pid.
- **`totalRecords` counts every line.** It includes malformed and empty status lines, so those lines lower the uptime.

## Model

| member | source | states |
|---|---|---|
| PhpStrings.Split | home_server.php:70 | `explode` on one character always returns at least one part: exactly one more part than the separator's occurrences |
| PhpStrings.CountAppend | home_server.php:70 | occurrences of a character in a concatenation add up |
| PhpStrings.CountPositive | home_server.php:242 | a character occurs a positive number of times iff it is in the string, so a line holding `:` explodes into at least two fields |
| PhpStrings.JoinSplit | home_server.php:70 | `implode(c, explode(c, s)) == s` for every string |
| PhpStrings.SplitParts | home_server.php:70 | no part of `explode(c, s)` holds `c`, and every character of a part occurs in `s` |
| PhpStrings.SplitAvoids | home_server.php:70 | a character absent from `s` is absent from every part of `explode(c, s)` |
| PhpStrings.SplitWhole | home_server.php:70 | a string without the separator explodes into itself alone |
| PhpStrings.SplitAt | home_server.php:242 | exploding `a . c . t` with `a` free of `c` gives `a` followed by the parts of `t` |
| PhpStrings.SplitJoin | home_server.php:110 | exploding the implosion of separator-free parts gives those parts back |
| ServiceStore.EscapePipe | home_server.php:174-176 | a single `\|` becomes backslash-pipe and any other single character stays; one character longer per pipe, the same number of pipes and line breaks, and the identity on pipe-free strings |
| ServiceStore.EscapePipeAppend | home_server.php:174-176 | `str_replace` works character by character: escaping a concatenation concatenates the escapings (with the single-character case of `EscapePipe`, this fixes its every output) |
| ServiceStore.UnescapeEscape | home_server.php:174-176 | dropping the backslash in front of each pipe undoes `escapePipe` on every string, backslashes included: the writer loses nothing |
| ServiceStore.WellFormed | home_server.php:69-71 | the lines `getServices` keeps are as many as the records it returns |
| ServiceStore.ParseStore | home_server.php:63-84 | the `foreach` of `getServices` returns, in file order, the record of every line with exactly three `\|`-parts and nothing else |
| ServiceStore.EncodeLineUnfold | home_server.php:110 | the stored line is the escaped name, `\|`, the escaped command, `\|`, the port |
| ServiceStore.LineRoundTrip | home_server.php:68-77 | a record free of `\|` and line breaks is written as one line that reads back as exactly that record |
| ServiceStore.PipeRecordUnreadable | home_server.php:70-71 | a record with `\|` in its name or command is written as a line of four or more parts that `getServices` skips |
| ServiceStore.ReencodeParsedLine | home_server.php:167 | a line `getServices` accepts is rewritten by `saveServices` verbatim |
| ServiceStore.ParsedClean | home_server.php:68-77 | every record read from a file holds no `\|` and no line break |
| ServiceStore.EncodedSnoc | home_server.php:166-168 | saving one more record appends the lines of that record's encoding |
| ServiceStore.ParsedSnoc | home_server.php:69-80 | reading one more line appends at most that line's record |
| ServiceStore.ParsedAppend | home_server.php:69-80 | reading two files one after the other gives the records of each in order |
| ServiceStore.EncodedAppend | home_server.php:166-168 | saving two record sequences gives the lines of each in order |
| ServiceStore.EncodedLinesOnly | home_server.php:162-171 | what `saveServices` writes reads back as lines free of line breaks |
| ServiceStore.RewriteKeepsWellFormed | home_server.php:129-170 | rewriting the store from `getServices` keeps exactly the three-part lines, verbatim and in order, and erases every other line |
| ServiceStore.StoreRoundTrip | home_server.php:162-170 | records free of `\|` and line breaks are saved and read back unchanged, in order |
| ServiceStore.EncodeLineOneLine | home_server.php:110 | a record without line breaks is written as exactly one line |
| ServiceStore.EncodedClean | home_server.php:166-168 | clean records are saved as one line each, line `k` being record `k`'s encoding |
| ServiceStore.EncodedAround | home_server.php:166-168 | the saved store splits around record `i`: the lines before it, its line, the lines after it |
| PidStore.FirstWithPrefix | home_server.php:240-246 | the index of the first PID line starting with the prefix: it starts with it, no earlier line does, and none at all when there is no index |
| PidStore.FindPidLine | home_server.php:240-246 | the `foreach … break` of `stopService` finds exactly the first line starting with `name:` |
| PidStore.PrefixColon | home_server.php:241-242 | a line that starts with `name:` holds a colon, so the pid field exists |
| PidStore.PidFieldOfLine | home_server.php:209-242 | for a name and pid without colons, the field after the first colon of `name:pid` is the pid |
| PidStore.StartThenStop | home_server.php:208-248 | a start with a truthy pid appends exactly `name:pid`; the following stop takes back that pid and leaves the other lines in order, an emptied file keeping one empty line |
| PidStore.ColonInNameMisreadsPid | home_server.php:241-242 | a service named `a:b` with record `a:b:42` is stopped with pid `b` |
| PidStore.RestartKeepsStaleRecord | home_server.php:208-246 | a second start while a stale record remains appends a second record; the next stop takes the stale pid and leaves the current record |
| HomeServer.AddAppendsRecord | home_server.php:110-111 | `addService` with a clean record appends one line, and the store then reads as before followed by exactly that record |
| HomeServer.AddWithPipeIsInvisible | home_server.php:110-111 | a record with `\|` in its name or command is appended as one line, and the store reads exactly as before |
| HomeServer.UpdateReplacesOne | home_server.php:129-141 | after `updateService(i, …)` with a clean record, the store reads as before with only element `i` replaced |
| HomeServer.ShippedUpdateReadsBack | home_server.php:17-21 | with the shipped allow-list, an update that passes the port and command checks and has a name free of `\|` and line breaks is read back exactly |
| HomeServer.UpdateWithPipeDropsRecord | home_server.php:129-141 | updating element `i` to a record with `\|` removes it from the store as read; every later record moves up one place |
| HomeServer.WellFormedAround | home_server.php:129-170 | the three-part lines of a store are those before record `i`'s line, that line, and those after it, with exactly `i` lines before |
| HomeServer.EncodedReplace | home_server.php:134-141 | saving the records with record `i` replaced by a clean one changes exactly its line and keeps all others in place |
| HomeServer.UpdateErasesMalformed | home_server.php:129-141 | the store `updateService` writes is the three-part lines of the old store with line `i` replaced; every malformed line is gone |
| HomeServer.DeleteErasesMalformed | home_server.php:148-155 | the store `deleteService` writes is the three-part lines of the old store without line `i`; every malformed line is gone |
| HomeServer.DeleteShiftsLater | home_server.php:148-155 | after deleting record `i`, the store has one record fewer, earlier records keep their index, and later ones move down by one in order |
| HomeServer.Server.constructor | home_server.php:8-21 | a server over the given allow-list, store and PID file, with no events yet |
| HomeServer.Server.GetServices | home_server.php:63-90 | one view per three-part line, in order, each with its record and the status the port probe gives for `(int)$port` |
| HomeServer.Server.SaveServices | home_server.php:162-171 | overwrites the store with the encodings of the records, in order, one line per clean record |
| HomeServer.Server.AddService | home_server.php:93-115 | port not all digits gives `Invalid port number`, then a command off the allow-list gives `Command is not allowed`, neither writing nor logging; otherwise appends the encoded record, logs once and replies `Service '<name>' added successfully` |
| HomeServer.Server.UpdateService | home_server.php:118-144 | checks port, then command, then index into the parsed store, each failure writing nothing; otherwise rewrites the store as the parsed records with element `index` replaced and logs once |
| HomeServer.Server.DeleteService | home_server.php:147-159 | an index outside the parsed store gives `Service not found` and writes nothing; otherwise rewrites the store as the parsed records without element `index` and reports that record's name |
| HomeServer.Server.StartService | home_server.php:179-214 | refuses, in order, an unknown index, a service already UP, the name `SSH` and a command off the allow-list, leaving the PID file and events untouched; otherwise spawns once, appends `name:pid` only for a truthy pid, and logs |
| HomeServer.Server.TakePidRecord | home_server.php:236-248 | takes out the first line starting with `name:` and returns the field after its first colon; without such a line the PID file is unchanged |
| HomeServer.Server.SignalPortPids | home_server.php:256-261 | signals every pid `lsof` printed, in order, on the port path |
| HomeServer.Server.StopService | home_server.php:217-265 | refuses, in order, an unknown index, a service DOWN and the name `SSH`, with no signal and the PID file untouched; otherwise removes the first PID record, signals its pid only when truthy, always queries the port and signals every pid found there, then logs |
| ServiceStats.Hundredths | home_server.php:370-372 | `round(up / total * 100, 2)` in hundredths, the nearest integer with halves rounded up, and at most 10000 when `up <= total` |
| ServiceStats.GetServiceStats | home_server.php:331-385 | the two `foreach` loops of `getServiceStats` compute exactly the summary of the two logs |
| ServiceStats.StatusSeries | home_server.php:356-367 | one timestamp and one 0/1 flag per status line with two or more fields; the flags sum to the up count, which never exceeds the number of lines |
| ServiceStats.UsageSeries | home_server.php:376-382 | CPU and memory series of equal length, one entry per usage line with four or more fields |
| ServiceStats.StatsSummary | home_server.php:331-385 | a missing log gives `hasData` false and all-zero fields, and conversely; otherwise `totalRecords` counts every status line, the status series are aligned 0/1 flags summing to the up count, the uptime is their rounded share (0 for an empty log, at most 100 %), and the usage series are aligned |
| ServiceStats.MalformedLineDilutes | home_server.php:352-372 | a status line with fewer than two fields adds to no series and not to the up count, but raises `totalRecords` by one and never raises the uptime |
| ServiceStats.HundredthsNoHigher | home_server.php:370-372 | with the same up count, one more status line never raises the rounded uptime |
| ServiceStats.SampleFields | home_server.php:357-360 | a sample `timestamp,status` without further commas splits into exactly its timestamp and its status |
| ServiceStats.UpCountSnoc | home_server.php:356-366 | one more status line raises the up count by its flag when it has two or more fields, and by nothing otherwise |
| ServiceStats.UpCountSample | home_server.php:362-365 | one more `timestamp,status` sample raises the up count exactly when its status is `UP` |
| ServiceStats.FiveOfSevenUp | home_server.php:356-367 | seven samples of which two are `DOWN` give an up count of 5 |
| ServiceStats.SevenSamplesFiveUp | home_server.php:370-372 | seven status samples, five of them `UP`, give an uptime of 71.43 % |

## Left out

- The local-IP lookup through `ip address` (home_server.php:10) is host I/O. The model has no use for it.
- `isPortInUse` runs `ss -tuln | grep :port` (home_server.php:87-90). It becomes a set of listening ports. The grep's substring matching is not modelled: port 80 also matching `8080`, for instance.
- `escapeshellcmd`, the background spawn, `kill` and `lsof` (home_server.php:204, 252, 256-260) are shell calls. Their output is passed in as parameters, and the spawn and signals are ghost events. Whether a signal reaches a process, and its timing, are not modelled.
- The `logAction` line's timestamp, user and IP and the log file (home_server.php:268-276) use the clock, the session and the file system. Only the action message is kept, as a ghost event.
- Authentication, sessions and password hashing (home_server.php:12-60), the HTTP dispatch with `filter_input` and JSON output (home_server.php:279-329), the security headers and the HTML/JavaScript page are transport and presentation.
- Every file read and write is taken to succeed. The code ignores a `false` from `file_put_contents` and still replies with success (home_server.php:111, 170, 209, 244). An unreadable log makes `file()` return `false`, and `count(false)` then throws (home_server.php:352-353). So the success branches of AddService, UpdateService, DeleteService, StartService and TakePidRecord always change their store.
- Concurrent requests racing on the unlocked files are out of scope. Each operation is atomic on its stores.
- `floatval` of the CPU and memory fields (home_server.php:379-380) is floating point. The series keep the selected fields as strings.
- ServiceStats.Hundredths: PHP computes the uptime in floating point and then calls `round`. The model uses the exact rational value rounded half up, so a binary rounding error at an exact half is not modelled.
- A file whose last line lacks a line break, and `\r\n` line endings, are not modelled. Every writer in the program ends each line with `\n`.
- The `(int)` cast of a port with a sign, leading whitespace, an exponent or a value past the integer range is not modelled. It reads the leading digits only. Ports stored through `addService` and `updateService` are digit strings.
- The per-service log file names `.server_data/<name>_status.log` and `.server_data/<name>_usage.log` (home_server.php:332-333) are replaced by the logs' contents being passed in, with an absent log for a missing file. The background collector that writes those logs is not part of this model.
