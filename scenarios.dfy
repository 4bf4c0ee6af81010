/**
 * Concrete runs of the model.  Routing-table lines are given by their
 * fields; `LineFields` shows that joining such fields with spaces gives a
 * line that splits back into them.
 */
module Scenarios {
  import opened Wrappers
  import opened PyText
  import opened Routes
  import opened Shell

  const Header: seq<string> := ["Destination", "", "", "Gateway", "", "", "Iface"]
  const DefaultLine: seq<string> := ["default", "", "", "172.17.0.1", "", "eth0"]
  const SubnetLine: seq<string> := ["172.17.0.0", "", "0.0.0.0", "", "eth0"]
  const BareDefault: seq<string> := ["default", ""]
  const LaterDefault: seq<string> := ["0.0.0.0", "10.0.0.1"]

  /** Fields without spaces, joined by single spaces, form a line that splits back into them. */
  lemma LineFields(fields: seq<string>)
    requires |fields| >= 1
    requires forall k :: 0 <= k < |fields| ==> ' ' !in fields[k]
    ensures Fields(Join(fields, ' ')) == fields
  {
    SplitJoin(fields, ' ');
  }

  /** A header, a default route through 172.17.0.1 padded with runs of spaces,
      another route, and the empty line after the final newline: the scan
      binds `host` to the gateway. */
  lemma DockerTableScan(lines: seq<string>)
    requires |lines| == 4
    requires Fields(lines[0]) == Header && Fields(lines[1]) == DefaultLine
    requires Fields(lines[2]) == SubnetLine && lines[3] == ""
    ensures Scan(lines) == Bound(Some("172.17.0.1"))
  {
    assert !IsStop(lines[0]) && !IsDefaultRoute(lines[0]);
    assert FirstNonEmpty(DefaultLine, 1) == 3;
    assert Gateway(lines[1]) == Some("172.17.0.1");
    assert !IsStop(lines[2]) && !IsDefaultRoute(lines[2]);
    assert IsStop(lines[3]);
    assert ScanFrom(lines, 2, Some("172.17.0.1")) == Bound(Some("172.17.0.1"));
    assert ScanFrom(lines, 1, None) == Bound(Some("172.17.0.1"));
    assert ScanFrom(lines, 0, None) == Bound(Some("172.17.0.1"));
  }

  /** A dockerized run of `echo hello` that exits with 0 reports to the gateway
      the routing table names. */
  lemma DockerizedEcho(netstat: string)
    requires Scan(Split(netstat, '\n')) == Bound(Some("172.17.0.1"))
    ensures Invoke(netstat, ["true", "42", "buildJob", "5555", "echo hello"], 0) ==
      Finished(Report("tcp://172.17.0.1:5555",
                      Artifacts("/tmp/pinfo42", "/tmp/out42", "/tmp/err42"),
                      "echo hello\n0", "buildJob\nFINISHED\n0"))
  {
    var args := ["true", "42", "buildJob", "5555", "echo hello"];
    assert args[4..] == ["echo hello"];
    assert ParseArgs(args) == Some(Request("true", "42", "buildJob", "5555", "echo hello"));
    assert Invoke(netstat, args, 0) ==
      Finished(Report(ConnectionString("172.17.0.1", "5555"), ArtifactPaths("42"),
                      StatusText("echo hello", 0), Message("buildJob", 0)));
    EchoTexts();
  }

  lemma EchoTexts()
    ensures ConnectionString("172.17.0.1", "5555") == "tcp://172.17.0.1:5555"
    ensures ArtifactPaths("42") == Artifacts("/tmp/pinfo42", "/tmp/out42", "/tmp/err42")
    ensures StatusText("echo hello", 0) == "echo hello\n0"
    ensures Message("buildJob", 0) == "buildJob\nFINISHED\n0"
  {
    assert IntToString(0) == "0";
  }

  /** A local run of `exit 3` reports to localhost with exit code 3, whatever
      the routing table, provided its scan does not fail. */
  lemma LocalExit3(netstat: string)
    requires Scan(Split(netstat, '\n')).Bound?
    ensures Invoke(netstat, ["false", "7", "jobX", "6000", "exit 3"], 3) ==
      Finished(Report("tcp://localhost:6000",
                      Artifacts("/tmp/pinfo7", "/tmp/out7", "/tmp/err7"),
                      "exit 3\n3", "jobX\nFINISHED\n3"))
  {
    var args := ["false", "7", "jobX", "6000", "exit 3"];
    assert args[4..] == ["exit 3"];
    assert ParseArgs(args) == Some(Request("false", "7", "jobX", "6000", "exit 3"));
    assert Invoke(netstat, args, 3) ==
      Finished(Report(ConnectionString("localhost", "6000"), ArtifactPaths("7"),
                      StatusText("exit 3", 3), Message("jobX", 3)));
    Exit3Texts();
  }

  lemma Exit3Texts()
    ensures ConnectionString("localhost", "6000") == "tcp://localhost:6000"
    ensures ArtifactPaths("7") == Artifacts("/tmp/pinfo7", "/tmp/out7", "/tmp/err7")
    ensures StatusText("exit 3", 3) == "exit 3\n3"
    ensures Message("jobX", 3) == "jobX\nFINISHED\n3"
  {
    assert IntToString(3) == "3";
  }

  /** A default route with nothing after the destination (`"default "`) makes line 20 fail. */
  lemma BrokenDefaultRoute(lines: seq<string>)
    requires |lines| == 3
    requires Fields(lines[0]) == Header && Fields(lines[1]) == BareDefault && lines[2] == ""
    ensures Scan(lines) == IndexError(1)
  {
    assert !IsStop(lines[0]) && !IsDefaultRoute(lines[0]);
    assert FirstNonEmpty(BareDefault, 1) == 2;
    assert !IsStop(lines[1]) && IsDefaultRoute(lines[1]) && Gateway(lines[1]) == None;
    assert ScanFrom(lines, 1, None) == IndexError(1);
    assert ScanFrom(lines, 0, None) == IndexError(1);
  }

  /** Of two default routes the later one wins. */
  lemma LaterRouteWins(lines: seq<string>)
    requires |lines| == 2
    requires Fields(lines[0]) == DefaultLine && Fields(lines[1]) == LaterDefault
    ensures Scan(lines) == Bound(Some("10.0.0.1"))
  {
    assert FirstNonEmpty(DefaultLine, 1) == 3;
    assert FirstNonEmpty(LaterDefault, 1) == 1;
    assert ScanFrom(lines, 1, Some("172.17.0.1")) == Bound(Some("10.0.0.1"));
  }

  /** The table of `DockerTableScan` written out as lines: each line is its
      fields joined by single spaces. */
  lemma DockerTableLines()
    ensures Scan(DockerTable()) == Bound(Some("172.17.0.1"))
  {
    LineFields(Header);
    LineFields(DefaultLine);
    LineFields(SubnetLine);
    DockerTableScan(DockerTable());
  }

  function DockerTable(): (lines: seq<string>)
    ensures |lines| == 4 && lines[3] == ""
    ensures lines[0] == Join(Header, ' ') && lines[1] == Join(DefaultLine, ' ')
    ensures lines[2] == Join(SubnetLine, ' ')
  {
    [Join(Header, ' '), Join(DefaultLine, ' '), Join(SubnetLine, ' '), ""]
  }
}
