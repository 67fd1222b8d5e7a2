/** The convergence predicate over docker output: which services ran here, and which of them
    the survivor does not run yet. */
module Services {
  import opened Text
  import opened Sorting

  /** The task name of a listing line whose state begins with "Running". */
  function RunningTask(line: string): Option<string> {
    var t := TrimSpace(line);
    var k := IndexOf(t, '\t');
    if k < |t| && HasPrefix(t[k + 1..], "Running") then Some(t[..k]) else None
  }

  predicate Owns(svc: string, task: string) {
    HasPrefix(task, svc + ".")
  }

  /** svc is the longest service of want that is a dotted prefix of the task name. */
  ghost predicate Credited(want: set<string>, task: string, svc: string) {
    && svc in want && svc != "" && Owns(svc, task)
    && forall other :: other in want && Owns(other, task) ==> |other| <= |svc|
  }

  /** Some Running line of the listing is credited to svc. */
  ghost predicate Satisfied(want: set<string>, lines: seq<string>, svc: string) {
    exists line :: line in lines && RunningTask(line).Some? && Credited(want, RunningTask(line).value, svc)
  }

  function Wanted(services: seq<string>): set<string> {
    set x | x in services
  }

  /** No Running line of the listing is credited to the service. */
  ghost predicate Lacks(services: seq<string>, lines: seq<string>, svc: string) {
    svc in services && !Satisfied(Wanted(services), lines, svc)
  }

  /** At most one service is credited, whatever order the candidates are tried in. */
  lemma CreditIsUnique(want: set<string>, task: string, a: string, b: string)
    requires Credited(want, task, a) && Credited(want, task, b)
    ensures a == b
  {
    assert (a + ".")[..|a|] == a && (b + ".")[..|b|] == b;
    assert task[..|a|] == (a + ".")[..|a|] && task[..|b|] == (b + ".")[..|b|];
  }

  /** Of two wanted services of which one's name extends the other's by a component, the longer one is
      credited. */
  lemma LongerNameWins(want: set<string>, task: string, short: string, more: string)
    requires short + "." + more in want && Owns(short + "." + more, task)
    ensures !Credited(want, task, short)
  {
    assert |short + "." + more| > |short|;
  }

  // ---------------------------------------------------------------- what a listing says

  /** A task of a listing: its name and its current state. */
  type Task = (string, string)

  /** As docker prints them: no line breaks, no tab in a name, no white space where a line begins or ends. */
  predicate Printable(t: Task) {
    && t.0 != "" && !IsSpace(t.0[0]) && '\t' !in t.0 && '\n' !in t.0
    && t.1 != "" && !IsSpace(t.1[|t.1| - 1]) && '\n' !in t.1
  }

  function TaskLine(t: Task): string {
    t.0 + "\t" + t.1
  }

  /** A task's line counts, under the task's name, exactly if its state begins with Running. */
  lemma RunningTaskMeans(t: Task)
    requires Printable(t)
    ensures RunningTask(TaskLine(t)) == if "Running" <= t.1 then Some(t.0) else None
  {
    hide IsSpace;
    var line := TaskLine(t);
    assert "" + line + "" == line;
    assert line[0] == t.0[0] && line[|line| - 1] == t.1[|t.1| - 1];
    TrimTakesBlanks("", line, "");
    assert line[..|t.0|] == t.0 && line[|t.0|] == '\t' && line[|t.0| + 1..] == t.1;
    IndexOfFirst(line, '\t', |t.0|);
  }

  lemma BlankIsNoTask()
    ensures RunningTask("") == None
  {
  }

  /** One line for each text, each ended by a line break. */
  function Lined(lines: seq<string>): string {
    if lines == [] then "" else lines[0] + ['\n'] + Lined(lines[1..])
  }

  lemma {:induction false} LinedSplits(lines: seq<string>)
    requires forall l :: l in lines ==> '\n' !in l
    ensures Split(Lined(lines), '\n') == lines + [""]
  {
    hide Split;
    if lines == [] {
      SplitNothing("", '\n');
    } else {
      LinedSplits(lines[1..]);
      SplitAfter(lines[0], '\n', Lined(lines[1..]));
    }
  }

  function TaskLines(tasks: seq<Task>): (r: seq<string>)
    ensures |r| == |tasks| && forall i :: 0 <= i < |tasks| ==> r[i] == TaskLine(tasks[i])
  {
    seq(|tasks|, i requires 0 <= i < |tasks| => TaskLine(tasks[i]))
  }

  /** The text lists exactly these tasks. */
  ghost predicate Lists(out: string, tasks: seq<Task>) {
    out == Lined(TaskLines(tasks)) && forall t :: t in tasks ==> Printable(t)
  }

  /** Some listed task of the service runs. */
  ghost predicate Runs(want: set<string>, tasks: seq<Task>, svc: string) {
    exists t :: t in tasks && "Running" <= t.1 && Credited(want, t.0, svc)
  }

  lemma SatisfiedMeansRuns(want: set<string>, out: string, tasks: seq<Task>, svc: string)
    requires Lists(out, tasks)
    ensures Satisfied(want, Split(out, '\n'), svc) <==> Runs(want, tasks, svc)
  {
    hide Split, RunningTask, Credited;
    var lines := TaskLines(tasks);
    forall l | l in lines ensures '\n' !in l {
      var i :| 0 <= i < |lines| && lines[i] == l;
      assert tasks[i] in tasks;
    }
    LinedSplits(lines);
    BlankIsNoTask();
    if Satisfied(want, lines + [""], svc) {
      var l :| l in lines + [""] && RunningTask(l).Some? && Credited(want, RunningTask(l).value, svc);
      assert l in lines;
      var i :| 0 <= i < |lines| && lines[i] == l;
      assert tasks[i] in tasks;
      RunningTaskMeans(tasks[i]);
    }
    if t :| t in tasks && "Running" <= t.1 && Credited(want, t.0, svc) {
      RunningTaskMeans(t);
      var i :| 0 <= i < |tasks| && tasks[i] == t;
      assert lines[i] in lines + [""];
    }
  }

  method LongestServicePrefix(task: string, want: set<string>) returns (best: string)
    ensures best != "" ==> Credited(want, task, best)
    ensures best == "" ==> forall svc :: !Credited(want, task, svc)
  {
    best := "";
    var todo := want;
    while todo != {}
      invariant todo <= want
      invariant best != "" ==> best in want && Owns(best, task)
      invariant forall svc :: svc in want - todo && Owns(svc, task) ==> |svc| <= |best|
      decreases todo
    {
      var svc :| svc in todo;
      if HasPrefix(task, svc + ".") && |svc| > |best| {
        best := svc;
      }
      todo := todo - {svc};
    }
  }

  /** Sorted, without repetitions, and exactly the services with no credited Running line; for a listing
      of tasks, exactly those of which no task runs. */
  method MissingServices(services: seq<string>, survivorPsOut: string) returns (missing: seq<string>)
    ensures StrictlySorted(missing)
    ensures forall s :: s in missing <==> Lacks(services, Split(survivorPsOut, '\n'), s)
    ensures forall tasks, s :: Lists(survivorPsOut, tasks) ==>
              (s in missing <==> s in services && !Runs(Wanted(services), tasks, s))
  {
    missing := Unsatisfied(services, survivorPsOut);
    forall tasks, s | Lists(survivorPsOut, tasks)
      ensures s in missing <==> s in services && !Runs(Wanted(services), tasks, s)
    {
      SatisfiedMeansRuns(Wanted(services), survivorPsOut, tasks, s);
    }
  }

  method Unsatisfied(services: seq<string>, survivorPsOut: string) returns (missing: seq<string>)
    ensures StrictlySorted(missing)
    ensures forall s :: s in missing <==> Lacks(services, Split(survivorPsOut, '\n'), s)
  {
    if |services| == 0 {
      return [];
    }
    var want := Wanted(services);
    var satisfied: set<string> := {};
    var lines := Split(survivorPsOut, '\n');
    for n := 0 to |lines|
      invariant forall s :: s in satisfied <==> Satisfied(want, lines[..n], s)
    {
      ghost var before := satisfied;
      var line := TrimSpace(lines[n]);
      var tab := IndexOf(line, '\t');
      if line != "" && tab < |line| && HasPrefix(line[tab + 1..], "Running") {
        var svc := LongestServicePrefix(line[..tab], want);
        if svc != "" {
          satisfied := satisfied + {svc};
          forall s | Credited(want, line[..tab], s) ensures s == svc {
            CreditIsUnique(want, line[..tab], s, svc);
          }
        }
      }
      SatisfiedStep(want, lines, n, before, satisfied);
    }
    assert lines[..|lines|] == lines;

    missing := [];
    var todo := want;
    while todo != {}
      invariant todo <= want
      invariant forall s :: s in missing <==> s in want - todo && s !in satisfied
      decreases todo
    {
      var s :| s in todo;
      if s !in satisfied {
        missing := missing + [s];
      }
      todo := todo - {s};
    }
    missing := SortUnique(missing);
  }

  lemma SatisfiedStep(want: set<string>, lines: seq<string>, n: nat, before: set<string>, after: set<string>)
    requires n < |lines|
    requires forall s :: s in before <==> Satisfied(want, lines[..n], s)
    requires forall s :: s in after <==>
               s in before || (RunningTask(lines[n]).Some? && Credited(want, RunningTask(lines[n]).value, s))
    ensures forall s :: s in after <==> Satisfied(want, lines[..n + 1], s)
  {
    assert lines[..n + 1] == lines[..n] + [lines[n]];
    forall s ensures s in after <==> Satisfied(want, lines[..n + 1], s) {
      if Satisfied(want, lines[..n + 1], s) {
        var line :| line in lines[..n + 1] && RunningTask(line).Some? && Credited(want, RunningTask(line).value, s);
        assert line in lines[..n] || line == lines[n];
      }
      if s in before {
        var line :| line in lines[..n] && RunningTask(line).Some? && Credited(want, RunningTask(line).value, s);
        assert line in lines[..n + 1];
      } else if s in after {
        assert lines[n] in lines[..n + 1];
      }
    }
  }

  /** The distinct non-blank lines of a listing, trimmed and sorted. */
  ghost predicate NamesOf(out: string, names: seq<string>) {
    && StrictlySorted(names)
    && forall s :: s in names <==> s != "" && exists line :: line in Split(out, '\n') && TrimSpace(line) == s
  }

  /** For a text with one clean name on each line these are exactly the names listed. */
  lemma NamesOfLined(lines: seq<string>, names: seq<string>)
    requires NamesOf(Lined(lines), names)
    requires forall l :: l in lines ==> l != "" && '\n' !in l && !IsSpace(l[0]) && !IsSpace(l[|l| - 1])
    ensures forall s :: s in names <==> s in lines
  {
    hide Split, IsSpace, TrimSpace;
    LinedSplits(lines);
    TrimNothing();
    forall l | l in lines ensures TrimSpace(l) == l {
      assert "" + l + "" == l;
      TrimTakesBlanks("", l, "");
    }
    forall s ensures s in names <==> s in lines {
      if s in names {
        var l :| l in lines + [""] && TrimSpace(l) == s;
      }
      if s in lines {
        assert s in lines + [""] && TrimSpace(s) == s;
      }
    }
  }

  method ParseNames(out: string) returns (names: seq<string>)
    ensures NamesOf(out, names)
  {
    names := [];
    var lines := Split(out, '\n');
    for n := 0 to |lines|
      invariant forall s :: s in names <==> s != "" && exists k :: 0 <= k < n && TrimSpace(lines[k]) == s
    {
      var line := TrimSpace(lines[n]);
      if line != "" && line !in names {
        names := names + [line];
      }
    }
    names := SortUnique(names);
    assert forall k :: 0 <= k < |lines| ==> lines[k] in lines;
  }

  /** The answer is one list, whatever the iteration order, and depends only on which lines occur. */
  lemma MissingIsDetermined(services: seq<string>, lines: seq<string>, lines': seq<string>,
                            a: seq<string>, b: seq<string>)
    requires forall l :: l in lines <==> l in lines'
    requires StrictlySorted(a) && StrictlySorted(b)
    requires forall s :: s in a <==> Lacks(services, lines, s)
    requires forall s :: s in b <==> Lacks(services, lines', s)
    ensures a == b
  {
    var want := Wanted(services);
    forall s ensures Satisfied(want, lines, s) <==> Satisfied(want, lines', s) {
      MoreLinesSatisfyMore(want, lines, lines', s);
      MoreLinesSatisfyMore(want, lines', lines, s);
    }
    SortedIsCanonical(a, b);
  }

  /** Adding lines to the listing never makes a satisfied service missing again. */
  lemma MoreLinesSatisfyMore(want: set<string>, lines: seq<string>, more: seq<string>, s: string)
    requires forall l :: l in lines ==> l in more
    ensures Satisfied(want, lines, s) ==> Satisfied(want, more, s)
  {
    if Satisfied(want, lines, s) {
      var line :| line in lines && RunningTask(line).Some? && Credited(want, RunningTask(line).value, s);
      assert line in more;
    }
  }

  /** With dot-free service names the credited service is the task name's first component. */
  lemma DotFreeCredit(want: set<string>, task: string, svc: string)
    requires forall s :: s in want ==> '.' !in s
    ensures Credited(want, task, svc) <==>
            svc in want && svc != "" && '.' in task && svc == Split(task, '.')[0]
  {
    var k := IndexOf(task, '.');
    assert '.' in task <==> k < |task| by {
      if k == |task| { assert task[..k] == task; }
    }
    assert Split(task, '.')[0] == task[..k] by { assert k == |task| ==> task[..k] == task; }
    forall s | s in want ensures Owns(s, task) <==> k < |task| && s == task[..k] {
      if Owns(s, task) {
        assert task[|s|] == (s + ".")[|s|];
        assert task[..|s|] == (s + ".")[..|s|] == s;
        IndexOfFirst(task, '.', |s|);
      }
      if k < |task| && s == task[..k] {
        assert s + "." == task[..k + 1];
      }
    }
  }
}
