/** The checker of run logs: one pass over each log with counters and vector clocks. Processes and
    messages are numbered from 1 in the logs. */
module Validator {

  /** A log line after splitting: `b msg`, `d sender msg`, or something else. */
  datatype Line = B(msg: int) | D(sender: int, msg: int) | Other

  /** The checker returns true, returns false, or fails with a missing dictionary key. */
  datatype Verdict = Accepted | Rejected | Raised

  /** Reading a dictionary with a default. */
  function Get<K, V>(m: map<K, V>, k: K, default: V): V {
    if k in m then m[k] else default
  }

  function CountB(log: seq<Line>): nat {
    if log == [] then 0 else CountB(log[..|log| - 1]) + (if log[|log| - 1].B? then 1 else 0)
  }

  function CountD(log: seq<Line>, sender: int): nat {
    if log == [] then 0
    else
      var last := log[|log| - 1];
      CountD(log[..|log| - 1], sender) + (if last.D? && last.sender == sender then 1 else 0)
  }

  /** The number in the last delivery from `sender`, or 0. */
  function Last(log: seq<Line>, sender: int): int {
    if log == [] then 0
    else
      var last := log[|log| - 1];
      if last.D? && last.sender == sender then last.msg else Last(log[..|log| - 1], sender)
  }

  /** The line continues the numbering of the lines before it. */
  predicate Continues(prefix: seq<Line>, line: Line) {
    && (line.B? ==> line.msg == CountB(prefix) + 1)
    && (line.D? ==> line.msg == CountD(prefix, line.sender) + 1)
  }

  /** Broadcasts are numbered 1, 2, 3, ... and so are the deliveries of each sender. */
  ghost predicate Contiguous(log: seq<Line>) {
    forall j :: 0 <= j < |log| ==> Continues(log[..j], log[j])
  }

  /** The dictionary that the checker holds after a prefix: dependencies delivered so far. */
  ghost function Clock(prefix: seq<Line>, deps: seq<int>): map<int, int> {
    map s | s in deps && CountD(prefix, s) > 0 :: CountD(prefix, s)
  }

  /** For each broadcast line, the clock of the lines before it, under the message number. */
  ghost predicate IsDependencyTable(log: seq<Line>, deps: seq<int>, table: map<int, map<int, int>>) {
    && (forall m :: m in table <==> 1 <= m <= CountB(log))
    && forall j :: 0 <= j < |log| && log[j].B? ==> log[j].msg in table && table[log[j].msg] == Clock(log[..j], deps)
  }

  lemma CountSnoc(log: seq<Line>, line: Line, s: int)
    ensures CountB(log + [line]) == CountB(log) + (if line.B? then 1 else 0)
    ensures CountD(log + [line], s) == CountD(log, s) + (if line.D? && line.sender == s then 1 else 0)
    ensures Last(log + [line], s) == if line.D? && line.sender == s then line.msg else Last(log, s)
  {
    assert (log + [line])[..|log|] == log;
  }

  lemma PrefixSnoc(log: seq<Line>, j: nat)
    requires j < |log|
    ensures log[..j + 1] == log[..j] + [log[j]]
  {}

  lemma ContiguousSnoc(log: seq<Line>, j: nat)
    requires j < |log| && Contiguous(log[..j])
    ensures Contiguous(log[..j + 1]) <==> Continues(log[..j], log[j])
  {
    var longer := log[..j + 1];
    assert longer[..j] == log[..j] && longer[j] == log[j];
    forall i | 0 <= i < j
      ensures longer[..i] == log[..j][..i] && longer[i] == log[..j][i]
    {}
  }

  lemma ContiguousPrefix(log: seq<Line>, j: nat)
    requires j <= |log| && Contiguous(log)
    ensures Contiguous(log[..j])
  {
    forall i | 0 <= i < j
      ensures Continues(log[..j][..i], log[..j][i])
    {
      assert log[..j][..i] == log[..i];
    }
  }

  lemma TableSnoc(log: seq<Line>, j: nat, deps: seq<int>, table: map<int, map<int, int>>)
    requires j < |log| && IsDependencyTable(log[..j], deps, table) && Continues(log[..j], log[j])
    ensures IsDependencyTable(log[..j + 1], deps,
                              if log[j].B? then table[log[j].msg := Clock(log[..j], deps)] else table)
  {
    var longer := log[..j + 1];
    PrefixSnoc(log, j);
    CountSnoc(log[..j], log[j], 0);
    assert longer[..j] == log[..j];
    forall i | 0 <= i < j
      ensures longer[..i] == log[..j][..i] && longer[i] == log[..j][i]
    {}
  }

  lemma ClockSnoc(log: seq<Line>, j: nat, deps: seq<int>)
    requires j < |log| && Continues(log[..j], log[j])
    ensures var line := log[j];
      Clock(log[..j + 1], deps) ==
      if line.D? && line.sender in deps then Clock(log[..j], deps)[line.sender := line.msg] else Clock(log[..j], deps)
  {
    PrefixSnoc(log, j);
    forall s
      ensures CountD(log[..j + 1], s) == CountD(log[..j], s) + if log[j].D? && log[j].sender == s then 1 else 0
    {
      CountSnoc(log[..j], log[j], s);
    }
  }

  /** The variables of the pass after the lines of `log`. */
  ghost predicate Tracks(log: seq<Line>, deps: seq<int>, i: int, nextMessage: map<int, int>, clock: map<int, int>,
                         table: map<int, map<int, int>>) {
    && i == CountB(log) + 1
    && (forall s :: Get(nextMessage, s, 1) == CountD(log, s) + 1)
    && clock == Clock(log, deps)
    && IsDependencyTable(log, deps, table)
  }

  lemma TrackLine(log: seq<Line>, j: nat, deps: seq<int>, i: int, nextMessage: map<int, int>, clock: map<int, int>,
                  table: map<int, map<int, int>>)
    requires j < |log| && Tracks(log[..j], deps, i, nextMessage, clock, table) && Continues(log[..j], log[j])
    ensures var line := log[j];
      Tracks(log[..j + 1], deps,
             if line.B? then i + 1 else i,
             if line.D? then nextMessage[line.sender := Get(nextMessage, line.sender, 1) + 1] else nextMessage,
             if line.D? && line.sender in deps then clock[line.sender := line.msg] else clock,
             if line.B? then table[line.msg := clock] else table)
  {
    TableSnoc(log, j, deps, table);
    ClockSnoc(log, j, deps);
    PrefixSnoc(log, j);
    forall s
      ensures CountB(log[..j + 1]) == CountB(log[..j]) + (if log[j].B? then 1 else 0)
      ensures CountD(log[..j + 1], s) == CountD(log[..j], s) + (if log[j].D? && log[j].sender == s then 1 else 0)
    {
      CountSnoc(log[..j], log[j], s);
    }
  }

  method CreateMessageDependencies(log: seq<Line>, myDependencies: seq<int>)
    returns (ok: bool, messageDeps: map<int, map<int, int>>)
    ensures ok <==> Contiguous(log)
    ensures ok ==> IsDependencyTable(log, myDependencies, messageDeps)
  {
    var i := 1;
    var nextMessage: map<int, int> := map[];
    var vectorClock: map<int, int> := map[];
    messageDeps := map[];
    for lineNumber := 0 to |log|
      invariant Contiguous(log[..lineNumber])
      invariant Tracks(log[..lineNumber], myDependencies, i, nextMessage, vectorClock, messageDeps)
    {
      var line := log[lineNumber];
      ContiguousSnoc(log, lineNumber);
      if Continues(log[..lineNumber], line) {
        TrackLine(log, lineNumber, myDependencies, i, nextMessage, vectorClock, messageDeps);
      } else {
        NotContiguous(log, lineNumber);
      }
      if line.B? {
        if line.msg != i {
          return false, map[];
        }
        messageDeps := messageDeps[line.msg := vectorClock];
        i := i + 1;
      }
      if line.D? {
        if line.msg != Get(nextMessage, line.sender, 1) {
          return false, map[];
        }
        nextMessage := nextMessage[line.sender := Get(nextMessage, line.sender, 1) + 1];
        if line.sender in myDependencies {
          vectorClock := vectorClock[line.sender := line.msg];
        }
      }
    }
    assert log[..|log|] == log;
    ok := true;
  }

  lemma NotContiguous(log: seq<Line>, j: nat)
    requires j < |log| && !Continues(log[..j], log[j])
    ensures !Contiguous(log)
  {}

  // ------------------------------------------------------------------------------------------
  // One process against the logs of the others
  // ------------------------------------------------------------------------------------------

  /** The delivery of a message of `pid` finds its entry in the table, and nothing in that entry is
      ahead of the last numbers seen. */
  ghost predicate LineOk(prefix: seq<Line>, line: Line, pid: int, table: map<int, map<int, int>>) {
    line.D? && line.sender == pid ==>
      && line.msg in table
      && forall p :: p in table[line.msg] ==> table[line.msg][p] <= Last(prefix, p)
  }

  ghost predicate OnePass(log: seq<Line>, pid: int, table: map<int, map<int, int>>) {
    forall j :: 0 <= j < |log| ==> LineOk(log[..j], log[j], pid, table)
  }

  /** Up to line `j` everything is as it should be, and then a delivery does not find its entry. */
  ghost predicate KeyMissingAt(log: seq<Line>, j: nat, pid: int, table: map<int, map<int, int>>)
    requires j < |log|
  {
    && log[j].D? && log[j].sender == pid && log[j].msg !in table
    && forall i :: 0 <= i < j ==> LineOk(log[..i], log[i], pid, table)
  }

  ghost predicate KeyMissing(log: seq<Line>, pid: int, table: map<int, map<int, int>>) {
    exists j :: 0 <= j < |log| && KeyMissingAt(log, j, pid, table)
  }

  /** The inner loop over one entry of the table. */
  method DependenciesSeen(required: map<int, int>, received: map<int, int>) returns (ok: bool)
    ensures ok <==> forall p :: p in required ==> required[p] <= Get(received, p, 0)
  {
    var rest := required.Keys;
    while true
      invariant rest <= required.Keys
      invariant forall p :: p in required && p !in rest ==> required[p] <= Get(received, p, 0)
      decreases rest
    {
      if p :| p in rest {
        if required[p] > Get(received, p, 0) {
          return false;
        }
        rest := rest - {p};
      } else {
        return true;
      }
    }
  }

  method CheckLog(log: seq<Line>, pid: int, deps: map<int, map<int, int>>) returns (v: Verdict)
    ensures v.Accepted? <==> OnePass(log, pid, deps)
    ensures v.Raised? <==> KeyMissing(log, pid, deps)
  {
    var received: map<int, int> := map[];
    for lineNumber := 0 to |log|
      invariant forall j :: 0 <= j < lineNumber ==> LineOk(log[..j], log[j], pid, deps)
      invariant forall s :: Get(received, s, 0) == Last(log[..lineNumber], s)
    {
      var line := log[lineNumber];
      if line.D? {
        if line.sender == pid {
          if line.msg !in deps {
            NotOnePass(log, lineNumber, pid, deps);
            assert KeyMissingAt(log, lineNumber, pid, deps);
            return Raised;
          }
          var ok := DependenciesSeen(deps[line.msg], received);
          if !ok {
            NotOnePass(log, lineNumber, pid, deps);
            StoppedBefore(log, lineNumber, pid, deps);
            return Rejected;
          }
        }
        received := received[line.sender := line.msg];
      }
      PrefixSnoc(log, lineNumber);
      forall s
        ensures Get(received, s, 0) == Last(log[..lineNumber + 1], s)
      {
        CountSnoc(log[..lineNumber], line, s);
      }
    }
    return Accepted;
  }

  lemma NotOnePass(log: seq<Line>, j: nat, pid: int, table: map<int, map<int, int>>)
    requires j < |log| && !LineOk(log[..j], log[j], pid, table)
    ensures !OnePass(log, pid, table)
  {}

  lemma StoppedBefore(log: seq<Line>, j: nat, pid: int, table: map<int, map<int, int>>)
    requires j < |log| && log[j].D? && log[j].msg in table && !LineOk(log[..j], log[j], pid, table)
    requires forall i :: 0 <= i < j ==> LineOk(log[..i], log[i], pid, table)
    ensures !KeyMissing(log, pid, table)
  {
    forall k | 0 <= k < |log|
      ensures !KeyMissingAt(log, k, pid, table)
    {
      if k < j {
        assert LineOk(log[..k], log[k], pid, table);
      }
    }
  }

  /** The log of process `pid`. */
  function File(logs: seq<seq<Line>>, pid: int): seq<Line>
    requires 1 <= pid <= |logs|
  {
    logs[pid - 1]
  }

  function DependenciesOf(dependencies: map<int, seq<int>>, pid: int): seq<int> {
    Get(dependencies, pid, [])
  }

  /** What the pass for one process establishes, with the table described instead of computed. */
  ghost predicate ProcessOk(dependencies: map<int, seq<int>>, logs: seq<seq<Line>>, pid: int)
    requires 1 <= pid <= |logs|
  {
    && Contiguous(File(logs, pid))
    && forall other, j :: 1 <= other <= |logs| && other != pid && 0 <= j < |File(logs, other)| ==>
         SeenInTime(dependencies, logs, pid, File(logs, other)[..j], File(logs, other)[j])
  }

  /** If the line delivers message `m` of `pid`, then `m` is in the log of `pid`, and the clock at its
      broadcast is not ahead of the last numbers in the prefix. */
  ghost predicate SeenInTime(dependencies: map<int, seq<int>>, logs: seq<seq<Line>>, pid: int, prefix: seq<Line>,
                             line: Line)
    requires 1 <= pid <= |logs|
  {
    line.D? && line.sender == pid ==>
      exists b :: 0 <= b < |File(logs, pid)| && File(logs, pid)[b] == B(line.msg)
        && var clock := Clock(File(logs, pid)[..b], DependenciesOf(dependencies, pid));
           forall p :: p in clock ==> clock[p] <= Last(prefix, p)
  }

  /** Everything that is read before line `j` of the log of `other` is as it should be. */
  ghost predicate SeenBefore(dependencies: map<int, seq<int>>, logs: seq<seq<Line>>, pid: int, other: int, j: nat)
    requires 1 <= pid <= |logs|
  {
    forall o, i :: 1 <= o <= |logs| && o != pid && 0 <= i < |File(logs, o)| && (o < other || (o == other && i < j)) ==>
      SeenInTime(dependencies, logs, pid, File(logs, o)[..i], File(logs, o)[i])
  }

  /** Line `j` of the log of `other` delivers a message of `pid` that `pid` did not broadcast, and it is the
      first line at which something is wrong. */
  ghost predicate UnknownAt(dependencies: map<int, seq<int>>, logs: seq<seq<Line>>, pid: int, other: int, j: nat)
    requires 1 <= pid <= |logs| && 1 <= other <= |logs| && j < |File(logs, other)|
  {
    var line := File(logs, other)[j];
    && line.D? && line.sender == pid && B(line.msg) !in File(logs, pid)
    && SeenBefore(dependencies, logs, pid, other, j)
  }

  ghost predicate ProcessRaises(dependencies: map<int, seq<int>>, logs: seq<seq<Line>>, pid: int)
    requires 1 <= pid <= |logs|
  {
    && Contiguous(File(logs, pid))
    && exists other, j :: 1 <= other <= |logs| && other != pid && 0 <= j < |File(logs, other)|
         && UnknownAt(dependencies, logs, pid, other, j)
  }

  /** The state of the pass for `pid` before it reads the log of `other`. */
  ghost predicate ReadUpTo(dependencies: map<int, seq<int>>, logs: seq<seq<Line>>, pid: int, other: int,
                           table: map<int, map<int, int>>)
    requires 1 <= pid <= |logs|
  {
    && Contiguous(File(logs, pid))
    && IsDependencyTable(File(logs, pid), DependenciesOf(dependencies, pid), table)
    && SeenBefore(dependencies, logs, pid, other, 0)
  }

  lemma LineByLine(dependencies: map<int, seq<int>>, logs: seq<seq<Line>>, pid: int, other: int,
                   table: map<int, map<int, int>>, j: nat)
    requires 1 <= pid <= |logs| && ReadUpTo(dependencies, logs, pid, other, table)
    requires 1 <= other <= |logs| && other != pid && j < |File(logs, other)|
    ensures LineOk(File(logs, other)[..j], File(logs, other)[j], pid, table)
       <==> SeenInTime(dependencies, logs, pid, File(logs, other)[..j], File(logs, other)[j])
    ensures KeyMissingAt(File(logs, other), j, pid, table) <==> UnknownAt(dependencies, logs, pid, other, j)
  {
    var log := File(logs, other);
    forall i | 0 <= i < |log|
      ensures LineOk(log[..i], log[i], pid, table) <==> SeenInTime(dependencies, logs, pid, log[..i], log[i])
    {
      TableLookup(dependencies, logs, pid, log[..i], log[i], table);
    }
    if log[j].D? {
      BroadcastLine(File(logs, pid), log[j].msg);
    }
  }

  /** The verdict on one log is the verdict on the process, or lets the pass go on. */
  lemma VerdictOnLog(dependencies: map<int, seq<int>>, logs: seq<seq<Line>>, pid: int, other: int,
                     table: map<int, map<int, int>>)
    requires 1 <= pid <= |logs| && ReadUpTo(dependencies, logs, pid, other, table)
    requires 1 <= other <= |logs| && other != pid
    ensures OnePass(File(logs, other), pid, table) ==> SeenBefore(dependencies, logs, pid, other + 1, 0)
    ensures !OnePass(File(logs, other), pid, table) ==>
              && !ProcessOk(dependencies, logs, pid)
              && (KeyMissing(File(logs, other), pid, table) <==> ProcessRaises(dependencies, logs, pid))
  {
    var log := File(logs, other);
    forall j | 0 <= j < |log|
      ensures LineOk(log[..j], log[j], pid, table) <==> SeenInTime(dependencies, logs, pid, log[..j], log[j])
      ensures KeyMissingAt(log, j, pid, table) <==> UnknownAt(dependencies, logs, pid, other, j)
    {
      LineByLine(dependencies, logs, pid, other, table, j);
    }
    if !OnePass(log, pid, table) {
      var bad :| 0 <= bad < |log| && !LineOk(log[..bad], log[bad], pid, table);
      OnlyHere(dependencies, logs, pid, other, bad);
    }
  }

  /** The first log with something wrong is where the pass raises, if it does. */
  lemma OnlyHere(dependencies: map<int, seq<int>>, logs: seq<seq<Line>>, pid: int, other: int, bad: nat)
    requires 1 <= pid <= |logs| && SeenBefore(dependencies, logs, pid, other, 0)
    requires 1 <= other <= |logs| && other != pid && bad < |File(logs, other)|
    requires !SeenInTime(dependencies, logs, pid, File(logs, other)[..bad], File(logs, other)[bad])
    ensures forall o, j :: 1 <= o <= |logs| && o != pid && o != other && 0 <= j < |File(logs, o)| ==>
              !UnknownAt(dependencies, logs, pid, o, j)
  {
    forall o, j | 1 <= o <= |logs| && o != pid && o != other && 0 <= j < |File(logs, o)|
      ensures !UnknownAt(dependencies, logs, pid, o, j)
    {
      if UnknownAt(dependencies, logs, pid, o, j) {
        UnknownIsNotSeen(dependencies, logs, pid, o, j);
      }
    }
  }

  lemma UnknownIsNotSeen(dependencies: map<int, seq<int>>, logs: seq<seq<Line>>, pid: int, other: int, j: nat)
    requires 1 <= pid <= |logs| && 1 <= other <= |logs| && j < |File(logs, other)|
    requires UnknownAt(dependencies, logs, pid, other, j)
    ensures !SeenInTime(dependencies, logs, pid, File(logs, other)[..j], File(logs, other)[j])
  {}

  lemma LastOrBefore(log: seq<Line>, line: Line)
    requires log != []
    ensures line in log <==> line == log[|log| - 1] || line in log[..|log| - 1]
  {
    assert log == log[..|log| - 1] + [log[|log| - 1]];
  }

  lemma {:induction false} BroadcastLine(log: seq<Line>, m: int)
    requires Contiguous(log)
    ensures B(m) in log <==> 1 <= m <= CountB(log)
  {
    if log != [] {
      var front := log[..|log| - 1];
      ContiguousPrefix(log, |log| - 1);
      BroadcastLine(front, m);
      assert Continues(log[..|log| - 1], log[|log| - 1]);
      LastOrBefore(log, B(m));
    }
  }

  lemma TableLookup(dependencies: map<int, seq<int>>, logs: seq<seq<Line>>, pid: int, prefix: seq<Line>, line: Line,
                    table: map<int, map<int, int>>)
    requires 1 <= pid <= |logs| && Contiguous(File(logs, pid))
    requires IsDependencyTable(File(logs, pid), DependenciesOf(dependencies, pid), table)
    ensures LineOk(prefix, line, pid, table) <==> SeenInTime(dependencies, logs, pid, prefix, line)
  {
    if line.D? && line.sender == pid {
      var log := File(logs, pid);
      BroadcastLine(log, line.msg);
      if line.msg in table {
        var b :| 0 <= b < |log| && log[b] == B(line.msg);
        assert table[line.msg] == Clock(log[..b], DependenciesOf(dependencies, pid));
      }
    }
  }

  method CheckProcess(dependencies: map<int, seq<int>>, logs: seq<seq<Line>>, pid: int) returns (v: Verdict)
    requires 1 <= pid <= |logs|
    ensures v.Accepted? <==> ProcessOk(dependencies, logs, pid)
    ensures v.Raised? <==> ProcessRaises(dependencies, logs, pid)
  {
    var ok, deps := CreateMessageDependencies(File(logs, pid), DependenciesOf(dependencies, pid));
    if !ok {
      return Rejected;
    }
    for process := 1 to |logs| + 1
      invariant ReadUpTo(dependencies, logs, pid, process, deps)
    {
      if process == pid {
        continue;
      }
      VerdictOnLog(dependencies, logs, pid, process, deps);
      var verdict := CheckLog(File(logs, process), pid, deps);
      if !verdict.Accepted? {
        return verdict;
      }
    }
    AllSeen(dependencies, logs, pid);
    return Accepted;
  }

  lemma AllSeen(dependencies: map<int, seq<int>>, logs: seq<seq<Line>>, pid: int)
    requires 1 <= pid <= |logs| && Contiguous(File(logs, pid))
    requires SeenBefore(dependencies, logs, pid, |logs| + 1, 0)
    ensures ProcessOk(dependencies, logs, pid) && !ProcessRaises(dependencies, logs, pid)
  {
    if ProcessRaises(dependencies, logs, pid) {
      var other, j :| 1 <= other <= |logs| && other != pid && 0 <= j < |File(logs, other)|
        && UnknownAt(dependencies, logs, pid, other, j);
      UnknownIsNotSeen(dependencies, logs, pid, other, j);
    }
  }

  lemma RaisesIsNotOk(dependencies: map<int, seq<int>>, logs: seq<seq<Line>>, pid: int)
    requires 1 <= pid <= |logs| && ProcessRaises(dependencies, logs, pid)
    ensures !ProcessOk(dependencies, logs, pid)
  {
    var other, j :| 1 <= other <= |logs| && other != pid && 0 <= j < |File(logs, other)|
      && UnknownAt(dependencies, logs, pid, other, j);
    UnknownIsNotSeen(dependencies, logs, pid, other, j);
  }

  ghost predicate AllProcessesOk(dependencies: map<int, seq<int>>, logs: seq<seq<Line>>) {
    forall pid :: 1 <= pid <= |logs| ==> ProcessOk(dependencies, logs, pid)
  }

  /** The pass for `pid` raises, and nothing has ended the check before it. */
  ghost predicate RaisesAt(dependencies: map<int, seq<int>>, logs: seq<seq<Line>>, continueOnError: bool, pid: int)
    requires 1 <= pid <= |logs|
  {
    && ProcessRaises(dependencies, logs, pid)
    && (continueOnError || forall p :: 1 <= p < pid ==> ProcessOk(dependencies, logs, p))
  }

  /** With or without stopping at the first failure, a run is accepted exactly if every pass is. A missing
      key ends the check without a verdict, unless a failure has ended it before. */
  method CheckAll(dependencies: map<int, seq<int>>, logs: seq<seq<Line>>, continueOnError: bool) returns (v: Verdict)
    ensures v.Accepted? <==> LogsRespectDependencies(dependencies, logs)
    ensures v.Raised? <==> exists pid :: 1 <= pid <= |logs| && RaisesAt(dependencies, logs, continueOnError, pid)
  {
    OnePassIsExact(dependencies, logs);
    var ok := true;
    for pid := 1 to |logs| + 1
      invariant ok <==> forall p :: 1 <= p < pid ==> ProcessOk(dependencies, logs, p)
      invariant ok || continueOnError
      invariant forall p :: 1 <= p < pid ==> !ProcessRaises(dependencies, logs, p)
    {
      var ret := CheckProcess(dependencies, logs, pid);
      if ret.Raised? {
        RaisesIsNotOk(dependencies, logs, pid);
        assert RaisesAt(dependencies, logs, continueOnError, pid);
        return Raised;
      }
      if ret.Rejected? {
        ok := false;
        if !continueOnError {
          return Rejected;
        }
      }
    }
    return if ok then Accepted else Rejected;
  }

  // ------------------------------------------------------------------------------------------
  // What acceptance means, without counters and clocks
  // ------------------------------------------------------------------------------------------

  /** Whatever a dependency of `pid` had delivered to `pid` before line `b` occurs in the prefix. */
  ghost predicate DependenciesIn(log: seq<Line>, b: nat, deps: seq<int>, prefix: seq<Line>)
    requires b <= |log|
  {
    forall a :: 0 <= a < b && log[a].D? && log[a].sender in deps ==> log[a] in prefix
  }

  /** The log of `pid` is numbered without gaps; a message of `pid` delivered elsewhere was broadcast by
      it; and what `pid` had delivered from its dependencies by then was delivered there before it. */
  ghost predicate Respected(dependencies: map<int, seq<int>>, logs: seq<seq<Line>>, pid: int)
    requires 1 <= pid <= |logs|
  {
    && Contiguous(File(logs, pid))
    && forall other, j :: 1 <= other <= |logs| && other != pid && 0 <= j < |File(logs, other)| ==>
         PrecededByDependencies(dependencies, logs, pid, File(logs, other)[..j], File(logs, other)[j])
  }

  ghost predicate LogsRespectDependencies(dependencies: map<int, seq<int>>, logs: seq<seq<Line>>) {
    forall pid :: 1 <= pid <= |logs| ==> Respected(dependencies, logs, pid)
  }

  ghost predicate PrecededByDependencies(dependencies: map<int, seq<int>>, logs: seq<seq<Line>>, pid: int,
                                         prefix: seq<Line>, line: Line)
    requires 1 <= pid <= |logs|
  {
    line.D? && line.sender == pid ==>
      exists b :: 0 <= b < |File(logs, pid)| && File(logs, pid)[b] == B(line.msg)
        && DependenciesIn(File(logs, pid), b, DependenciesOf(dependencies, pid), prefix)
  }

  lemma {:induction false} DeliveryLine(log: seq<Line>, s: int, m: int)
    requires Contiguous(log)
    ensures D(s, m) in log <==> 1 <= m <= CountD(log, s)
  {
    if log != [] {
      var front := log[..|log| - 1];
      ContiguousPrefix(log, |log| - 1);
      DeliveryLine(front, s, m);
      assert Continues(log[..|log| - 1], log[|log| - 1]);
      LastOrBefore(log, D(s, m));
    }
  }

  lemma {:induction false} LastIsCount(log: seq<Line>, s: int)
    requires Contiguous(log)
    ensures Last(log, s) == CountD(log, s)
  {
    if log != [] {
      ContiguousPrefix(log, |log| - 1);
      LastIsCount(log[..|log| - 1], s);
    }
  }

  /** Comparing the clock with the last numbers seen is the same as looking for every line. */
  lemma ClockComparison(log: seq<Line>, b: nat, deps: seq<int>, prefix: seq<Line>)
    requires b <= |log| && Contiguous(log) && Contiguous(prefix)
    ensures (forall p :: p in Clock(log[..b], deps) ==> Clock(log[..b], deps)[p] <= Last(prefix, p))
       <==> DependenciesIn(log, b, deps, prefix)
  {
    var before := log[..b];
    ContiguousPrefix(log, b);
    if forall p :: p in Clock(before, deps) ==> Clock(before, deps)[p] <= Last(prefix, p) {
      forall a | 0 <= a < b && log[a].D? && log[a].sender in deps
        ensures log[a] in prefix
      {
        assert before[a] == log[a];
        DeliveryLine(before, log[a].sender, log[a].msg);
        DeliveryLine(prefix, log[a].sender, log[a].msg);
        LastIsCount(prefix, log[a].sender);
        assert log[a].sender in Clock(before, deps);
      }
    }
    if DependenciesIn(log, b, deps, prefix) {
      forall p | p in Clock(before, deps)
        ensures Clock(before, deps)[p] <= Last(prefix, p)
      {
        var m := CountD(before, p);
        DeliveryLine(before, p, m);
        DeliveryLine(prefix, p, m);
        LastIsCount(prefix, p);
        var a :| 0 <= a < b && before[a] == D(p, m);
        assert log[a] in prefix;
      }
    }
  }

  lemma ProcessIsExact(dependencies: map<int, seq<int>>, logs: seq<seq<Line>>, pid: int)
    requires 1 <= pid <= |logs|
    requires forall p :: 1 <= p <= |logs| ==> Contiguous(File(logs, p))
    ensures ProcessOk(dependencies, logs, pid) <==> Respected(dependencies, logs, pid)
  {
    forall other, j | 1 <= other <= |logs| && other != pid && 0 <= j < |File(logs, other)|
      ensures SeenInTime(dependencies, logs, pid, File(logs, other)[..j], File(logs, other)[j])
         <==> PrecededByDependencies(dependencies, logs, pid, File(logs, other)[..j], File(logs, other)[j])
    {
      ContiguousPrefix(File(logs, other), j);
      SameLineCheck(dependencies, logs, pid, File(logs, other)[..j], File(logs, other)[j]);
    }
  }

  /** Main result: the one-pass check with its counters accepts exactly the runs in which every
      dependency is delivered in time. */
  lemma OnePassIsExact(dependencies: map<int, seq<int>>, logs: seq<seq<Line>>)
    ensures AllProcessesOk(dependencies, logs) <==> LogsRespectDependencies(dependencies, logs)
  {
    if forall pid :: 1 <= pid <= |logs| ==> Contiguous(File(logs, pid)) {
      forall pid | 1 <= pid <= |logs|
        ensures ProcessOk(dependencies, logs, pid) <==> Respected(dependencies, logs, pid)
      {
        ProcessIsExact(dependencies, logs, pid);
      }
    } else {
      var pid :| 1 <= pid <= |logs| && !Contiguous(File(logs, pid));
      assert !ProcessOk(dependencies, logs, pid) && !Respected(dependencies, logs, pid);
    }
  }

  lemma SameLineCheck(dependencies: map<int, seq<int>>, logs: seq<seq<Line>>, pid: int, prefix: seq<Line>, line: Line)
    requires 1 <= pid <= |logs| && Contiguous(File(logs, pid)) && Contiguous(prefix)
    ensures SeenInTime(dependencies, logs, pid, prefix, line)
       <==> PrecededByDependencies(dependencies, logs, pid, prefix, line)
  {
    forall b: nat | b <= |File(logs, pid)|
      ensures (var clock := Clock(File(logs, pid)[..b], DependenciesOf(dependencies, pid));
               forall p :: p in clock ==> clock[p] <= Last(prefix, p))
         <==> DependenciesIn(File(logs, pid), b, DependenciesOf(dependencies, pid), prefix)
    {
      ClockComparison(File(logs, pid), b, DependenciesOf(dependencies, pid), prefix);
    }
  }
}
