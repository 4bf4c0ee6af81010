/**
 * The scan of the `netstat -r` output that picks the default gateway
 * (pshell/bin/cpm-process-shell.py, lines 10-20).  The output is given as
 * text; running `netstat` is not modelled.
 */
module Routes {
  import opened Wrappers
  import opened PyText

  /** What the scan leaves behind: the variable `host` (possibly unbound),
      or the IndexError raised on route line `line`. */
  datatype ScanResult = Bound(host: Option<string>) | IndexError(line: nat)

  /** `netinfo.split(" ")`: single spaces, so runs of spaces give empty fields. */
  function Fields(line: string): seq<string>
  {
    Split(line, ' ')
  }

  /** A line with exactly one field ends the table (`break`). */
  predicate IsStop(line: string)
  {
    |Fields(line)| == 1
  }

  /** A destination field of exactly `default` or `0.0.0.0`. */
  predicate IsDefaultRoute(line: string)
  {
    var elts := Fields(line);
    elts[0] == "default" || elts[0] == "0.0.0.0"
  }

  /** The index the inner `while` stops at when started at `from`:
      the first non-empty field at or after `from`, or the number of fields. */
  function FirstNonEmpty(elts: seq<string>, from: nat): (i: nat)
    requires from <= |elts|
    ensures from <= i <= |elts|
    ensures forall j :: from <= j < i ==> elts[j] == ""
    ensures i < |elts| ==> elts[i] != ""
    decreases |elts| - from
  {
    if from < |elts| && elts[from] == "" then FirstNonEmpty(elts, from + 1) else from
  }

  /** The field `elts[i]` that line 20 reads, or `None` when `i` runs past the end. */
  function Gateway(line: string): (g: Option<string>)
    requires !IsStop(line)
    ensures g.Some? <==> exists k :: 1 <= k < |Fields(line)| && Fields(line)[k] != ""
    ensures g.Some? ==> g.value != "" && exists i :: 1 <= i < |Fields(line)| && Fields(line)[i] == g.value && forall j :: 0 < j < i ==> Fields(line)[j] == ""
  {
    var elts := Fields(line);
    var i := FirstNonEmpty(elts, 1);
    if i < |elts| then Some(elts[i]) else None
  }

  /** A default route whose fields after the first are all empty: line 20 fails on it. */
  predicate IsBroken(line: string)
  {
    !IsStop(line) && IsDefaultRoute(line) && Gateway(line).None?
  }

  /** The `for` loop of lines 12-20 from line `k` on, with `host` holding `host`. */
  function ScanFrom(lines: seq<string>, k: nat, host: Option<string>): ScanResult
    requires k <= |lines|
    decreases |lines| - k
  {
    if k == |lines| || IsStop(lines[k]) then Bound(host)
    else if IsDefaultRoute(lines[k]) then
      match Gateway(lines[k])
      case None => IndexError(k)
      case Some(g) => ScanFrom(lines, k + 1, Some(g))
    else ScanFrom(lines, k + 1, host)
  }

  /** The whole scan: `host` starts unbound. */
  function Scan(lines: seq<string>): ScanResult
  {
    ScanFrom(lines, 0, None)
  }

  /** The scan as the script runs it: a loop over the lines with a `break`,
      an inner cursor loop, and a `host` that a later match overwrites. */
  method ScanRoutes(netinfos: seq<string>) returns (r: ScanResult)
    ensures r == Scan(netinfos)
  {
    var host: Option<string> := None;
    var k := 0;
    while k < |netinfos|
      invariant k <= |netinfos|
      invariant ScanFrom(netinfos, k, host) == Scan(netinfos)
    {
      var elts := Split(netinfos[k], ' ');
      if |elts| == 1 {
        break;
      }
      var i := 1;
      while i < |elts| && elts[i] == ""
        invariant 1 <= i <= |elts|
        invariant FirstNonEmpty(elts, i) == FirstNonEmpty(elts, 1)
      {
        i := i + 1;
      }
      if elts[0] == "default" || elts[0] == "0.0.0.0" {
        if i == |elts| {
          return IndexError(k);
        }
        host := Some(elts[i]);
      }
      k := k + 1;
    }
    return Bound(host);
  }

  /** Where the table ends: the first line with a single field, or the end of the output. */
  function TableEndFrom(lines: seq<string>, k: nat): (n: nat)
    requires k <= |lines|
    ensures k <= n <= |lines|
    ensures forall j :: k <= j < n ==> !IsStop(lines[j])
    ensures n < |lines| ==> IsStop(lines[n])
    decreases |lines| - k
  {
    if k == |lines| || IsStop(lines[k]) then k else TableEndFrom(lines, k + 1)
  }

  function TableEnd(lines: seq<string>): (n: nat)
    ensures n <= |lines|
    ensures forall j :: 0 <= j < n ==> !IsStop(lines[j])
    ensures n < |lines| ==> IsStop(lines[n])
  {
    TableEndFrom(lines, 0)
  }

  /** `n` is where the table ends as seen from line `k`. */
  predicate EndsAt(lines: seq<string>, k: nat, n: nat)
  {
    k <= n <= |lines| &&
    (forall j :: k <= j < n ==> !IsStop(lines[j])) &&
    (n < |lines| ==> IsStop(lines[n]))
  }

  /** The first broken default route in lines `k` up to `n`, if any. */
  function FindBroken(lines: seq<string>, k: nat, n: nat): (r: Option<nat>)
    requires EndsAt(lines, k, n)
    ensures r.None? ==> forall j :: k <= j < n ==> !IsBroken(lines[j])
    ensures r.Some? ==> (k <= r.value < n && IsBroken(lines[r.value]) &&
      forall j :: k <= j < r.value ==> !IsBroken(lines[j]))
    decreases n - k
  {
    if k == n then None
    else if IsBroken(lines[k]) then Some(k)
    else FindBroken(lines, k + 1, n)
  }

  /** The last default route before line `n`, if any. */
  function FindLastRoute(lines: seq<string>, n: nat): (r: Option<nat>)
    requires n <= |lines|
    ensures r.None? ==> forall j :: 0 <= j < n ==> !IsDefaultRoute(lines[j])
    ensures r.Some? ==> (r.value < n && IsDefaultRoute(lines[r.value]) &&
      forall j :: r.value < j < n ==> !IsDefaultRoute(lines[j]))
  {
    if n == 0 then None
    else if IsDefaultRoute(lines[n - 1]) then Some(n - 1)
    else FindLastRoute(lines, n - 1)
  }

  lemma {:induction false} NoRouteFrom(lines: seq<string>, k: nat, n: nat, host: Option<string>)
    requires EndsAt(lines, k, n)
    requires forall j :: k <= j < n ==> !IsDefaultRoute(lines[j])
    ensures ScanFrom(lines, k, host) == Bound(host)
    decreases n - k
  {
    if k < n {
      NoRouteFrom(lines, k + 1, n, host);
    }
  }

  lemma {:induction false} FirstBrokenFrom(lines: seq<string>, k: nat, n: nat, host: Option<string>, b: nat)
    requires EndsAt(lines, k, n)
    requires k <= b < n && IsBroken(lines[b])
    requires forall j :: k <= j < b ==> !IsBroken(lines[j])
    ensures ScanFrom(lines, k, host) == IndexError(b)
    decreases b - k
  {
    if k < b {
      var next := if IsDefaultRoute(lines[k]) then Gateway(lines[k]) else host;
      FirstBrokenFrom(lines, k + 1, n, next, b);
    }
  }

  lemma {:induction false} LastRouteFrom(lines: seq<string>, k: nat, n: nat, host: Option<string>, last: nat)
    requires EndsAt(lines, k, n)
    requires k <= last < n && IsDefaultRoute(lines[last]) && Gateway(lines[last]).Some?
    requires forall j :: k <= j < last ==> !IsBroken(lines[j])
    requires forall j :: last < j < n ==> !IsDefaultRoute(lines[j])
    ensures ScanFrom(lines, k, host) == Bound(Gateway(lines[last]))
    decreases last - k
  {
    if k < last {
      var next := if IsDefaultRoute(lines[k]) then Gateway(lines[k]) else host;
      LastRouteFrom(lines, k + 1, n, next, last);
    } else {
      NoRouteFrom(lines, k + 1, n, Gateway(lines[last]));
    }
  }

  /** The scan in three cases: the first broken default route raises the
      IndexError; otherwise `host` is the gateway of the last default route,
      or stays unbound when the table has none. */
  lemma ScanCases(lines: seq<string>)
    ensures var n := TableEnd(lines);
      match FindBroken(lines, 0, n)
      case Some(b) => Scan(lines) == IndexError(b)
      case None =>
        match FindLastRoute(lines, n)
        case None => Scan(lines) == Bound(None)
        case Some(last) => Gateway(lines[last]).Some? && Scan(lines) == Bound(Gateway(lines[last]))
  {
    var n := TableEnd(lines);
    match FindBroken(lines, 0, n)
    case Some(b) =>
      FirstBrokenFrom(lines, 0, n, None, b);
    case None =>
      match FindLastRoute(lines, n)
      case None =>
        NoRouteFrom(lines, 0, n, None);
      case Some(last) =>
        assert !IsBroken(lines[last]);
        LastRouteFrom(lines, 0, n, None, last);
  }

  /** `host` stays unbound exactly when no line of the table is a default route. */
  lemma ScanUnbound(lines: seq<string>)
    ensures Scan(lines) == Bound(None) <==>
      forall j :: 0 <= j < TableEnd(lines) ==> !IsDefaultRoute(lines[j])
  {
    var n := TableEnd(lines);
    ScanCases(lines);
    if forall j :: 0 <= j < n ==> !IsDefaultRoute(lines[j]) {
      NoRouteFrom(lines, 0, n, None);
    }
  }

  /** Line 20 raises IndexError on line `b` exactly when `b` is the first broken
      default route of the table (one whose fields after the first are all empty). */
  lemma ScanIndexError(lines: seq<string>, b: nat)
    ensures Scan(lines) == IndexError(b) <==>
      b < TableEnd(lines) && IsBroken(lines[b]) &&
      forall j :: 0 <= j < b ==> !IsBroken(lines[j])
  {
    ScanCases(lines);
  }

  /** Line `last` is the last default route of the table, its gateway is `g`,
      and no default route before it is broken. */
  predicate SetsFinalHost(lines: seq<string>, last: nat, g: string)
  {
    var n := TableEnd(lines);
    last < n && IsDefaultRoute(lines[last]) && Gateway(lines[last]) == Some(g) &&
    (forall j :: last < j < n ==> !IsDefaultRoute(lines[j])) &&
    (forall j :: 0 <= j < last ==> !IsBroken(lines[j]))
  }

  /** `host` is bound to `g` exactly when `g` is the gateway of the last default
      route of the table and no default route before it is broken: a later
      match overwrites an earlier one. */
  lemma ScanLastGateway(lines: seq<string>, g: string)
    ensures Scan(lines) == Bound(Some(g)) <==> exists last :: SetsFinalHost(lines, last, g)
  {
    var n := TableEnd(lines);
    if exists last :: SetsFinalHost(lines, last, g) {
      var last :| SetsFinalHost(lines, last, g);
      LastRouteFrom(lines, 0, n, None, last);
    } else if Scan(lines) == Bound(Some(g)) {
      ScanCases(lines);
      var last := FindLastRoute(lines, n).value;
      assert SetsFinalHost(lines, last, g);
    }
  }

  lemma {:induction false} StopIgnoresRestFrom(pre: seq<string>, stop: string, rest: seq<string>, k: nat, host: Option<string>)
    requires k <= |pre|
    requires forall j :: k <= j < |pre| ==> !IsStop(pre[j])
    requires IsStop(stop)
    ensures ScanFrom(pre + [stop] + rest, k, host) == ScanFrom(pre, k, host)
    decreases |pre| - k
  {
    var lines := pre + [stop] + rest;
    assert lines[k] == if k < |pre| then pre[k] else stop;
    if k < |pre| {
      var next := if IsDefaultRoute(pre[k]) then Gateway(pre[k]) else host;
      StopIgnoresRestFrom(pre, stop, rest, k + 1, next);
    }
  }

  /** Nothing after the first single-field line (an empty line included) is examined. */
  lemma StopIgnoresRest(pre: seq<string>, stop: string, rest: seq<string>)
    requires forall j :: 0 <= j < |pre| ==> !IsStop(pre[j])
    requires IsStop(stop)
    ensures Scan(pre + [stop] + rest) == Scan(pre)
  {
    StopIgnoresRestFrom(pre, stop, rest, 0, None);
  }

  /** A line ends the table exactly when it contains no space; the empty line does. */
  lemma StopIffNoSpace(line: string)
    ensures IsStop(line) <==> ' ' !in line
  {
    SplitSingleIff(line, ' ');
  }
}
