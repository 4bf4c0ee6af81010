/**
 * One run of the process shell (pshell/bin/cpm-process-shell.py):
 * scan the routing table, read the positional arguments, pick the host,
 * then build the connection string, the three artifact paths, the status
 * file text and the completion message.  The socket, the files and the
 * subprocess are not modelled; the command's exit code is a parameter.
 */
module Shell {
  import opened Wrappers
  import opened PyText
  import opened Routes

  /** The positional arguments `sys.argv[1..5]` and the joined command. */
  datatype Request = Request(dockerized: string, pid: string, name: string, port: string, cmd: string)

  /** Lines 24-33 with `args` standing for `sys.argv[1:]`: at least five
      positional arguments are needed, otherwise the script exits quietly. */
  function ParseArgs(args: seq<string>): (r: Option<Request>)
    ensures r.Some? <==> |args| >= 5
  {
    if |args| >= 5 then Some(Request(args[0], args[1], args[2], args[3], Join(args[4..], ' ')))
    else None
  }

  /** Lines 26-27: unless the flag is exactly `"true"`, `host` becomes
      `"localhost"`; otherwise it is what the scan left, possibly unbound. */
  function ResolveHost(dockerized: string, scanned: Option<string>): Option<string>
  {
    if dockerized != "true" then Some("localhost") else scanned
  }

  /** Line 36. */
  function ConnectionString(host: string, port: string): string
  {
    "tcp://" + host + ":" + port
  }

  /** The status file, the captured stdout and the captured stderr of a run. */
  datatype Artifacts = Artifacts(statusPath: string, outPath: string, errPath: string)

  /** Lines 43-45: three paths under /tmp keyed by the process id. */
  function ArtifactPaths(pid: string): (a: Artifacts)
    ensures a.statusPath != a.outPath && a.statusPath != a.errPath && a.outPath != a.errPath
  {
    var a := Artifacts("/tmp/pinfo" + pid, "/tmp/out" + pid, "/tmp/err" + pid);
    assert a.statusPath[5] == 'p' && a.outPath[5] == 'o' && a.errPath[5] == 'e';
    a
  }

  /** Lines 47 and 53: the status file holds the command, a newline, then the exit code. */
  function StatusText(cmd: string, exitval: int): string
  {
    cmd + "\n" + IntToString(exitval)
  }

  /** Line 58: the completion message. */
  function Message(name: string, exitval: int): string
  {
    name + "\nFINISHED\n" + IntToString(exitval)
  }

  /** What a run that reaches the end leaves behind. */
  datatype Report = Report(connection: string, artifacts: Artifacts, statusText: string, message: string)

  /** How one run of the script ends. */
  datatype Outcome =
    | RouteIndexError(line: nat)   // line 20 indexed past the fields of route line `line`
    | Exited                       // line 33: too few arguments, quiet exit
    | HostUnbound                  // line 36: NameError, `host` was never assigned
    | Finished(report: Report)     // the message of line 58 is ready to send

  /** The whole script, given the text `netstat -r` prints, `sys.argv[1:]` and the
      exit code the subprocess of line 50 returns. */
  function Invoke(netstat: string, args: seq<string>, exitval: int): Outcome
  {
    match Scan(Split(netstat, '\n'))
    case IndexError(line) => RouteIndexError(line)
    case Bound(scanned) =>
      match ParseArgs(args)
      case None => Exited
      case Some(req) =>
        match ResolveHost(req.dockerized, scanned)
        case None => HostUnbound
        case Some(host) =>
          Finished(Report(ConnectionString(host, req.port), ArtifactPaths(req.pid),
                          StatusText(req.cmd, exitval), Message(req.name, exitval)))
  }

  /** The command `" ".join(sys.argv[5:])` splits back into those arguments
      when none of them contains a space. */
  lemma CommandRecoversArgs(args: seq<string>)
    requires |args| >= 5
    requires forall k :: 4 <= k < |args| ==> ' ' !in args[k]
    ensures Split(ParseArgs(args).value.cmd, ' ') == args[4..]
  {
    SplitJoin(args[4..], ' ');
  }

  /** The connection string splits on `:` into the scheme, `//host`, and the port's pieces. */
  lemma ConnectionStringFields(host: string, port: string)
    requires ':' !in host
    ensures Split(ConnectionString(host, port), ':') == ["tcp", "//" + host] + Split(port, ':')
  {
    var slashed := "//" + host;
    assert ':' !in slashed;
    SplitTwoThen("tcp", slashed, port, ':');
    assert "tcp" + [':'] + slashed + [':'] + port == ConnectionString(host, port);
  }

  /** Different process ids give different paths for each artifact. */
  lemma ArtifactPathsInjective(pid1: string, pid2: string)
    requires ArtifactPaths(pid1) == ArtifactPaths(pid2)
    ensures pid1 == pid2
  {
    var a1, a2 := ArtifactPaths(pid1), ArtifactPaths(pid2);
    assert pid1 == a1.outPath[8..] && pid2 == a2.outPath[8..];
  }

  /** The status file reads back as the command's lines followed by the exit code. */
  lemma StatusTextLines(cmd: string, exitval: int)
    ensures Split(StatusText(cmd, exitval), '\n') == Split(cmd, '\n') + [IntToString(exitval)]
  {
    IntToStringNoSeparator(exitval);
    SplitAppendAll(cmd, IntToString(exitval), '\n');
    assert cmd + [ '\n' ] + IntToString(exitval) == StatusText(cmd, exitval);
  }

  /** The message has exactly three lines when the job name has no newline. */
  lemma MessageLines(name: string, exitval: int)
    requires '\n' !in name
    ensures Split(Message(name, exitval), '\n') == [name, "FINISHED", IntToString(exitval)]
  {
    IntToStringNoSeparator(exitval);
    SplitThree(name, "FINISHED", IntToString(exitval), '\n');
    assert name + ['\n'] + "FINISHED" + ['\n'] + IntToString(exitval) == Message(name, exitval);
  }

  /** The last line of the status text is the exit code. */
  lemma StatusTextLastLine(cmd: string, exitval: int)
    ensures LastPiece(StatusText(cmd, exitval), '\n') == IntToString(exitval)
  {
    IntToStringNoSeparator(exitval);
    SplitAppendAll(cmd, IntToString(exitval), '\n');
    assert cmd + ['\n'] + IntToString(exitval) == StatusText(cmd, exitval);
  }

  /** The last line of the message is the exit code, whatever the job name holds. */
  lemma MessageLastLine(name: string, exitval: int)
    ensures LastPiece(Message(name, exitval), '\n') == IntToString(exitval)
  {
    IntToStringNoSeparator(exitval);
    var head := name + "\nFINISHED";
    SplitAppendAll(head, IntToString(exitval), '\n');
    assert head + ['\n'] + IntToString(exitval) == Message(name, exitval);
  }

  /** The exit code in the status file and in the message is the same value,
      and it is the one the subprocess returned, negative values included. */
  lemma ExitCodeAgrees(netstat: string, args: seq<string>, exitval: int)
    requires Invoke(netstat, args, exitval).Finished?
    ensures var r := Invoke(netstat, args, exitval).report;
      LastPiece(r.statusText, '\n') == LastPiece(r.message, '\n') == IntToString(exitval) &&
      ParseInt(LastPiece(r.statusText, '\n')) == Some(exitval)
  {
    var req := ParseArgs(args).value;
    var r := Invoke(netstat, args, exitval).report;
    assert r.statusText == StatusText(req.cmd, exitval) && r.message == Message(req.name, exitval);
    StatusTextLastLine(req.cmd, exitval);
    MessageLastLine(req.name, exitval);
    IntToStringRoundTrip(exitval);
  }

  /** With fewer than five positional arguments nothing is built: the run
      exits quietly, unless the route scan has already failed. */
  lemma TooFewArgs(netstat: string, args: seq<string>, exitval: int)
    requires |args| < 5
    ensures Invoke(netstat, args, exitval) == Exited <==> Scan(Split(netstat, '\n')).Bound?
    ensures Invoke(netstat, args, exitval).Exited? || Invoke(netstat, args, exitval).RouteIndexError?
  {
  }

  /** Without the `"true"` flag the host is `localhost`, whatever the routing table holds. */
  lemma LocalRunIgnoresRoutes(netstat1: string, netstat2: string, args: seq<string>, exitval: int)
    requires |args| >= 5 && args[0] != "true"
    requires Scan(Split(netstat1, '\n')).Bound? && Scan(Split(netstat2, '\n')).Bound?
    ensures Invoke(netstat1, args, exitval) == Invoke(netstat2, args, exitval)
    ensures Invoke(netstat1, args, exitval).Finished?
    ensures Invoke(netstat1, args, exitval).report.connection == ConnectionString("localhost", args[3])
  {
  }

  /** With the `"true"` flag and a gateway found, the message goes to that gateway. */
  lemma DockerizedUsesGateway(netstat: string, args: seq<string>, exitval: int, g: string)
    requires |args| >= 5 && args[0] == "true"
    requires Scan(Split(netstat, '\n')) == Bound(Some(g))
    ensures Invoke(netstat, args, exitval).Finished?
    ensures Invoke(netstat, args, exitval).report.connection == ConnectionString(g, args[3])
  {
  }

  /** With the `"true"` flag and no default route in the table, line 36 raises NameError. */
  lemma DockerizedWithoutRoute(netstat: string, args: seq<string>, exitval: int)
    requires |args| >= 5 && args[0] == "true"
    requires forall j :: 0 <= j < TableEnd(Split(netstat, '\n')) ==> !IsDefaultRoute(Split(netstat, '\n')[j])
    ensures Invoke(netstat, args, exitval) == HostUnbound
  {
    ScanUnbound(Split(netstat, '\n'));
  }
}
