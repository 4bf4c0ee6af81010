# cpm-process-shell: route scan, argument handling and report texts

`pshell/bin/cpm-process-shell.py` is a shim that runs one shell command and
reports its completion to a coordinator over a ZeroMQ PUSH socket. Around its
I/O it does a little deterministic string work, and that is what this project
models and proves things about:

1. **Routing-table scan** (`Routes`). The `netstat -r` text is split on
   newlines; each line is split on single spaces, so runs of spaces leave empty
   fields. The first line with exactly one field ends the table. On a line whose
   first field is `default` or `0.0.0.0`, the first non-empty field after the
   first becomes `host`. There is no `break` after a match, so the last matching
   line wins. A matching line with nothing but empty fields after the first
   raises IndexError. `ScanRoutes` is the loop as the script writes it: an outer
   loop with a `break`, an inner cursor loop, and a mutable optional `host`. It is
   proved equal to the recursive specification `Scan`. The lemmas about `Scan`
   state the source's behaviour in three cases: IndexError, `host` left unbound,
   or `host` bound to the gateway of the last default route.
2. **Argument and host resolution** (`Shell.ParseArgs`, `Shell.ResolveHost`).
   `args` stands for `sys.argv[1:]`, so `len(sys.argv) > 5` becomes `|args| >= 5`.
   A flag other than exactly `"true"` forces `localhost`. Otherwise `host` is
   whatever the scan left, and an unbound `host` is the NameError at line 36.
   The command is `args[4..]` joined with single spaces.
3. **Output texts** (`Shell`). These are the connection string
   `tcp://host:port`, the three artifact paths `/tmp/pinfo<pid>`,
   `/tmp/out<pid>` and `/tmp/err<pid>`, the status-file text
   `cmd + "\n" + str(exitval)` and the message
   `name + "\nFINISHED\n" + str(exitval)`.

`Shell.Invoke` puts the three together as one run of the script. It takes the
text `netstat -r` prints, the positional arguments and the exit code the
subprocess returns. It yields one of four outcomes: the IndexError of the scan,
the quiet exit, the NameError, or the finished report.

`PyText` models the Python built-ins the script uses: `str.split` with a
one-character separator, `str.join`, and `str` on an integer (with a `-` sign
for the negative codes of signal-killed processes). It adds `ParseInt`, the
decimal reader that inverts `str`. Nothing in the script uses `ParseInt`; it
serves to state that the exit code can be read back from the texts.

Two behaviours of the code are worth stating plainly, and the model keeps
both. Line 13 splits each line on a single space, so a run of spaces gives
empty fields, which the cursor loop of lines 17-18 skips; fields are not
collapsed. Lines 19-20 assign `host` on every default route with no `break`,
so the *last* default route of the table wins.

## Model

| member | source | states |
|---|---|---|
| Routes.Scan | pshell/bin/cpm-process-shell.py:12-20 | the specification of the scan, with `host` starting unbound; what it yields is stated by `ScanCases`, `ScanUnbound`, `ScanIndexError`, `ScanLastGateway` and `StopIgnoresRest` |
| Routes.ScanFrom | pshell/bin/cpm-process-shell.py:12-20 | the scan from line `k` on with `host` holding a given value; `NoRouteFrom`, `FirstBrokenFrom`, `LastRouteFrom` and `StopIgnoresRestFrom` state its behaviour, and it is the loop invariant of `ScanRoutes` |
| Routes.ScanRoutes | pshell/bin/cpm-process-shell.py:12-20 | the scan loop, with its `break`, its inner cursor loop and a `host` that later matches overwrite, returns exactly `Scan` of the lines |
| Routes.FirstNonEmpty | pshell/bin/cpm-process-shell.py:16-18 | the cursor stops at the first non-empty field at or after its start, or at the number of fields; every field it passes is empty |
| Routes.Gateway | pshell/bin/cpm-process-shell.py:16-20 | the field line 20 reads exists exactly when some field after the first is non-empty; it is then non-empty, at an index of at least 1, with only empty fields between index 0 and it |
| Routes.TableEnd | pshell/bin/cpm-process-shell.py:12-15 | the table ends at the first single-field line, or at the end of the output; no earlier line is a single-field line |
| Routes.StopIffNoSpace | pshell/bin/cpm-process-shell.py:13-15 | a line ends the table exactly when it contains no space; the empty line after the final newline is such a line |
| Routes.StopIgnoresRest | pshell/bin/cpm-process-shell.py:12-15 | nothing after the first single-field line changes the scan's result |
| Routes.ScanCases | pshell/bin/cpm-process-shell.py:12-20 | the scan ends with the IndexError of the first broken default route, or else with `host` bound to the gateway of the last default route, or else with `host` unbound |
| Routes.ScanUnbound | pshell/bin/cpm-process-shell.py:19-20 | `host` stays unbound if and only if no line of the table is a `default` or `0.0.0.0` route |
| Routes.ScanIndexError | pshell/bin/cpm-process-shell.py:17-20 | the scan raises IndexError on line `b` if and only if `b` is in the table, a default route with only empty fields after the first, and the first such line |
| Routes.ScanLastGateway | pshell/bin/cpm-process-shell.py:12-20 | `host` ends bound to `g` if and only if `g` is the gateway of the last default route of the table and no earlier default route is broken |
| PyText.Split | pshell/bin/cpm-process-shell.py:11-13 | `str.split` with one separator gives at least one piece, and exactly `[s]` when the separator does not occur |
| PyText.Join | pshell/bin/cpm-process-shell.py:31 | `sep.join(xs)`; `SplitJoin` proves splitting the join gives back the pieces, and `JoinSplit` that joining a split gives back the text |
| PyText.IntToString | pshell/bin/cpm-process-shell.py:53 | `str` on an integer; `IntToStringRoundTrip` proves it reads back as the integer, `IntToStringNoSeparator` that it holds no newline or space, and `NoLeadingZero` that its digits have no leading zero |
| PyText.NoLeadingZero | pshell/bin/cpm-process-shell.py:58 | the decimal text of a positive number does not start with `0` |
| PyText.SplitPiecesAvoid | pshell/bin/cpm-process-shell.py:13 | no piece of a split contains the separator |
| PyText.SplitSingleIff | pshell/bin/cpm-process-shell.py:14 | a split has exactly one piece if and only if the separator does not occur |
| PyText.JoinSplit | pshell/bin/cpm-process-shell.py:13 | joining the pieces of a split with the separator gives back the original text |
| PyText.SplitJoin | pshell/bin/cpm-process-shell.py:31 | splitting a join of at least one separator-free piece gives back the pieces |
| PyText.IntToStringRoundTrip | pshell/bin/cpm-process-shell.py:53 | `str(n)` of any integer, negative ones included, reads back as `n` |
| PyText.IntToStringNoSeparator | pshell/bin/cpm-process-shell.py:58 | `str(n)` contains no newline and no space |
| Shell.Invoke | pshell/bin/cpm-process-shell.py:10-58 | one run of the script: the scan first, so its IndexError comes before the argument check, then the quiet exit, the NameError or the finished report; `TooFewArgs`, `LocalRunIgnoresRoutes`, `DockerizedUsesGateway`, `DockerizedWithoutRoute` and `ExitCodeAgrees` state its outcomes |
| Shell.ResolveHost | pshell/bin/cpm-process-shell.py:25-27 | the host choice; `LocalRunIgnoresRoutes`, `DockerizedUsesGateway` and `DockerizedWithoutRoute` state that it is `localhost` without the flag `"true"`, the gateway with it, and unbound with it when there is no default route |
| Shell.ParseArgs | pshell/bin/cpm-process-shell.py:24-33 | a request is formed if and only if there are at least five positional arguments |
| Shell.CommandRecoversArgs | pshell/bin/cpm-process-shell.py:31 | when no command argument contains a space, splitting the joined command on spaces gives back the arguments from the fifth on |
| Shell.TooFewArgs | pshell/bin/cpm-process-shell.py:24-33 | with fewer than five positional arguments, nothing is built: the run is a quiet exit exactly when the scan did not fail, and otherwise the scan's IndexError |
| Shell.LocalRunIgnoresRoutes | pshell/bin/cpm-process-shell.py:26-27 | without the flag `"true"`, any two routing tables whose scans succeed give the same outcome, a finished report addressed to `localhost` |
| Shell.DockerizedUsesGateway | pshell/bin/cpm-process-shell.py:26-36 | with the flag `"true"` and a gateway found, the run finishes and the connection string names that gateway |
| Shell.DockerizedWithoutRoute | pshell/bin/cpm-process-shell.py:24-36 | with the flag `"true"` and no default route in the table, the run ends in the NameError of line 36 |
| Shell.ConnectionString | pshell/bin/cpm-process-shell.py:36 | `tcp://host:port`; `ConnectionStringFields` proves that host and port can be read back from it |
| Shell.ConnectionStringFields | pshell/bin/cpm-process-shell.py:36 | for a host without `:`, the connection string splits on `:` into `tcp`, `//host`, then the pieces of the port |
| Shell.ArtifactPaths | pshell/bin/cpm-process-shell.py:43-45 | the status, stdout and stderr paths of one process id are pairwise distinct |
| Shell.ArtifactPathsInjective | pshell/bin/cpm-process-shell.py:43-45 | two process ids with the same paths are the same id |
| Shell.StatusText | pshell/bin/cpm-process-shell.py:47-53 | the status file's text; `StatusTextLines` and `StatusTextLastLine` prove its lines are the command's lines and then the exit code |
| Shell.StatusTextLines | pshell/bin/cpm-process-shell.py:47-53 | the status text's lines are the command's lines followed by one line holding the exit code |
| Shell.StatusTextLastLine | pshell/bin/cpm-process-shell.py:47-53 | the last line of the status text is `str(exitval)` |
| Shell.Message | pshell/bin/cpm-process-shell.py:58 | the completion message; `MessageLines` and `MessageLastLine` prove its lines are the job name, `FINISHED` and the exit code |
| Shell.MessageLines | pshell/bin/cpm-process-shell.py:58 | for a job name without a newline, the message has exactly three lines: the name, `FINISHED` and the exit code |
| Shell.MessageLastLine | pshell/bin/cpm-process-shell.py:58 | the last line of the message is `str(exitval)`, whatever the job name holds |
| Shell.ExitCodeAgrees | pshell/bin/cpm-process-shell.py:47-58 | in a finished run, the status file and the message end in the same exit-code text, and that text reads back as the subprocess's exit code |
| Scenarios.DockerTableScan | pshell/bin/cpm-process-shell.py:12-20 | a header, a default route through 172.17.0.1 padded with runs of spaces, another route and the empty last line bind `host` to 172.17.0.1 |
| Scenarios.DockerTableLines | pshell/bin/cpm-process-shell.py:12-20 | the table of `DockerTableScan`, written as lines of space-joined fields, binds `host` to 172.17.0.1 |
| Scenarios.BrokenDefaultRoute | pshell/bin/cpm-process-shell.py:17-20 | a `default ` line with nothing after the destination raises IndexError on that line |
| Scenarios.LaterRouteWins | pshell/bin/cpm-process-shell.py:12-20 | of two default routes, the later one's gateway is the result |
| Scenarios.DockerizedEcho | pshell/bin/cpm-process-shell.py:24-58 | flag `true`, pid 42, job `buildJob`, port 5555, command `echo hello` and exit code 0, with gateway 172.17.0.1, give `tcp://172.17.0.1:5555`, `echo hello\n0` and `buildJob\nFINISHED\n0` |
| Scenarios.LocalExit3 | pshell/bin/cpm-process-shell.py:24-58 | flag `false`, pid 7, job `jobX`, port 6000, command `exit 3` and exit code 3 give `tcp://localhost:6000`, `exit 3\n3` and `jobX\nFINISHED\n3`, whatever routing table the scan does not fail on |

## Left out

- Running `netstat -r` (line 10): the model takes its output text as a parameter.
- The ZeroMQ context, the PUSH socket, `connect` and `send` (lines 38-41, 59): the model stops at the connection string and the message text. It does not model delivery, which is fire-and-forget.
- Opening, writing and closing the three files, and `subprocess.call` with redirection (lines 43-56): the model gives the paths and the full status-file text. The exit code is a parameter.
- The bytes of the captured stdout and stderr: they never pass through the script.
- Python 2 `str`/bytes distinctions: text is `seq<char>`.
- `exit()` on too few arguments: it is the `Exited` outcome.
- The order of the side effects: the socket connects before the files are opened and the status file's first line is written before the command runs. A run that fails between those steps is not modelled.
