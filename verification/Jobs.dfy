// The jobs of jobs.c as values: the slots of the table, the state of a job
// by the state of its processes, and the choice of the current job.

module Jobs {
  import opened Options

  // What waitpid reports.
  datatype Wait = Exited(code: nat) | Signaled(signal: nat) | Stopped(signal: nat) | Continued

  // A PROCESS; running is PS_RUNNING.
  datatype Process = Process(pid: int, status: Wait, running: bool)

  datatype JobState = JRunning | JStopped | JDead

  datatype Job = Job(pipe: seq<Process>, state: JobState, foreground: bool, async: bool, notified: bool)

  type Slots = seq<Option<Job>>

  const NoJob := -1

  // --------------------------------------------------------------- processes

  predicate PStopped(p: Process) { p.status.Stopped? }

  predicate PAlive(p: Process) { p.running || PStopped(p) }

  predicate AnyRunning(ps: seq<Process>) { exists k :: 0 <= k < |ps| && ps[k].running }

  predicate AnyStopped(ps: seq<Process>) { exists k :: 0 <= k < |ps| && PStopped(ps[k]) }

  predicate AnyAlive(ps: seq<Process>) { exists k :: 0 <= k < |ps| && PAlive(ps[k]) }

  lemma AliveIsRunningOrStopped(ps: seq<Process>)
    ensures AnyAlive(ps) <==> AnyRunning(ps) || AnyStopped(ps)
  {
    if AnyAlive(ps) {
      var k :| 0 <= k < |ps| && PAlive(ps[k]);
      assert ps[k].running || PStopped(ps[k]);
    }
    if AnyRunning(ps) {
      var k :| 0 <= k < |ps| && ps[k].running;
      assert PAlive(ps[k]);
    }
    if AnyStopped(ps) {
      var k :| 0 <= k < |ps| && PStopped(ps[k]);
      assert PAlive(ps[k]);
    }
  }

  // A job is dead exactly when none of its processes is running or stopped;
  // a running one has a running process, a stopped one a stopped process.
  predicate ValidJob(j: Job) {
    && j.pipe != []
    && (j.state == JDead <==> !AnyAlive(j.pipe))
    && (j.state == JRunning ==> AnyRunning(j.pipe))
    && (j.state == JStopped ==> AnyStopped(j.pipe))
  }

  // The state that stop_pipeline gives a new job.
  function NewState(ps: seq<Process>): JobState {
    if AnyRunning(ps) then JRunning else if AnyStopped(ps) then JStopped else JDead
  }

  // The state that set_job_status_and_cleanup computes.
  function NextState(was: JobState, ps: seq<Process>): JobState {
    if AnyRunning(ps) && was != JStopped then was
    else if AnyStopped(ps) then JStopped
    else if AnyRunning(ps) then JRunning
    else JDead
  }

  lemma NewStateValid(j: Job)
    requires j.pipe != [] && j.state == NewState(j.pipe)
    ensures ValidJob(j)
  {
    AliveIsRunningOrStopped(j.pipe);
  }

  // After an event of one of its living processes, a job that was alive has
  // the right state again.
  lemma NextStateValid(was: JobState, j: Job)
    requires j.pipe != [] && was != JDead && j.state == NextState(was, j.pipe)
    ensures ValidJob(j)
  {
    AliveIsRunningOrStopped(j.pipe);
  }

  // ------------------------------------------------------------ the counters

  predicate LiveAt(s: Slots, i: int) { 0 <= i < |s| && s[i].Some? }

  function Live(s: Slots): (r: seq<Job>)
    ensures |r| <= |s|
  {
    if s == [] then []
    else
      var t := s[|s| - 1];
      Live(s[..|s| - 1]) + if t.Some? then [t.value] else []
  }

  function DeadCount(s: Slots): (n: nat)
    ensures n <= |s|
  {
    if s == [] then 0
    else
      var t := s[|s| - 1];
      DeadCount(s[..|s| - 1]) + if t.Some? && t.value.state == JDead then 1 else 0
  }

  function ProcessCount(s: Slots): nat {
    if s == [] then 0
    else
      var t := s[|s| - 1];
      ProcessCount(s[..|s| - 1]) + if t.Some? then |t.value.pipe| else 0
  }

  function LiveCount(s: Slots): nat { |Live(s)| }

  function One(t: Option<Job>): nat { if t.Some? then 1 else 0 }

  function OneDead(t: Option<Job>): nat { if t.Some? && t.value.state == JDead then 1 else 0 }

  function Size(t: Option<Job>): nat { if t.Some? then |t.value.pipe| else 0 }

  lemma {:induction false} CountersUpdated(s: Slots, i: nat, t: Option<Job>)
    requires i < |s|
    ensures LiveCount(s[i := t]) == LiveCount(s) - One(s[i]) + One(t)
    ensures DeadCount(s[i := t]) == DeadCount(s) - OneDead(s[i]) + OneDead(t)
    ensures ProcessCount(s[i := t]) == ProcessCount(s) - Size(s[i]) + Size(t)
  {
    var n := |s| - 1;
    var u := s[i := t];
    if i == n {
      assert u[..n] == s[..n];
    } else {
      assert u[..n] == s[..n][i := t];
      CountersUpdated(s[..n], i, t);
    }
  }

  lemma {:induction false} CountersPadded(s: Slots, n: nat)
    ensures var t := s + seq(n, _ => None);
      Live(t) == Live(s) && DeadCount(t) == DeadCount(s) && ProcessCount(t) == ProcessCount(s)
  {
    var t: Slots := s + seq(n, _ => None);
    if n == 0 {
      assert t == s;
    } else {
      assert t[..|t| - 1] == s + seq(n - 1, _ => None);
      CountersPadded(s, n - 1);
    }
  }

  lemma {:induction false} SomeLive(s: Slots, i: nat)
    requires LiveAt(s, i)
    ensures LiveCount(s) > 0
  {
    if i < |s| - 1 { SomeLive(s[..|s| - 1], i); }
  }

  lemma {:induction false} NoneLive(s: Slots) returns (i: int)
    ensures LiveCount(s) > 0 ==> LiveAt(s, i)
    ensures LiveCount(s) == 0 ==> forall k :: 0 <= k < |s| ==> s[k].None?
  {
    i := -1;
    if s != [] {
      if s[|s| - 1].Some? {
        i := |s| - 1;
      } else {
        i := NoneLive(s[..|s| - 1]);
        assert forall k :: 0 <= k < |s| - 1 ==> s[k] == s[..|s| - 1][k];
      }
    }
  }

  // firstj and lastj: the first and the last live slot, or 0.
  ghost predicate Ends(s: Slots, first: int, last: int) {
    if LiveCount(s) == 0 then first == 0 && last == 0
    else LiveAt(s, first) && LiveAt(s, last) && forall k :: LiveAt(s, k) ==> first <= k <= last
  }

  // ----------------------------------------------------- the current job

  predicate InState(s: Slots, i: int, state: JobState) { LiveAt(s, i) && s[i].value.state == state }

  // most_recent_job_in_state
  function MostRecent(s: Slots, before: int, state: JobState): (r: int)
    requires before <= |s|
    ensures r == NoJob || (r < before && InState(s, r, state))
    ensures forall k :: r < k < before ==> !InState(s, k, state)
    decreases if before < 0 then 0 else before
  {
    if before <= 0 then NoJob
    else if InState(s, before - 1, state) then before - 1
    else MostRecent(s, before - 1, state)
  }

  // The two marks of the table.
  datatype Marks = Marks(current: int, previous: int)

  predicate BothLive(s: Slots, m: Marks) {
    (m.current == NoJob && m.previous == NoJob) || (LiveAt(s, m.current) && LiveAt(s, m.previous))
  }

  // set_current_job
  function SetCurrent(s: Slots, m: Marks, job: int): (r: Marks)
    requires LiveAt(s, job)
  {
    var previous := if m.current != job then m.current else m.previous;
    if previous != job && InState(s, previous, JStopped) then Marks(job, previous)
    else
      var stopped := if s[job].value.state == JStopped then MostRecent(s, job, JStopped) else NoJob;
      if stopped != NoJob then Marks(job, stopped)
      else
        var running := MostRecent(s, if s[job].value.state == JRunning then job else |s|, JRunning);
        Marks(job, if running != NoJob then running else job)
  }

  // The job that reset_current makes the current one.
  function Candidate(s: Slots, m: Marks): (r: int)
  {
    if InState(s, m.current, JStopped) then m.current
    else if InState(s, m.previous, JStopped) then m.previous
    else
      var stopped := MostRecent(s, |s|, JStopped);
      if stopped != NoJob then stopped else MostRecent(s, |s|, JRunning)
  }

  // reset_current
  function ResetCurrent(s: Slots, m: Marks): (r: Marks) {
    var c := Candidate(s, m);
    if c != NoJob then SetCurrent(s, m, c) else Marks(NoJob, NoJob)
  }

  // Whatever the marks were, both are live afterwards.
  lemma SetCurrentIsLive(s: Slots, m: Marks, job: int)
    requires LiveAt(s, job)
    ensures BothLive(s, SetCurrent(s, m, job)) && SetCurrent(s, m, job).current == job
  {
  }

  // %+ is a stopped job if there is one, else the newest running job, else
  // there is none and there is no %- either.
  ghost predicate WellChosen(s: Slots, m: Marks) {
    && BothLive(s, m)
    && ((exists k :: InState(s, k, JStopped)) ==> InState(s, m.current, JStopped))
    && ((forall k :: !InState(s, k, JStopped)) && (exists k :: InState(s, k, JRunning)) ==>
          InState(s, m.current, JRunning) && forall k :: InState(s, k, JRunning) ==> k <= m.current)
    && ((forall k :: !InState(s, k, JStopped) && !InState(s, k, JRunning)) ==> m == Marks(NoJob, NoJob))
  }

  lemma ResetCurrentChooses(s: Slots, m: Marks)
    ensures WellChosen(s, ResetCurrent(s, m))
  {
    var c := Candidate(s, m);
    if c != NoJob { SetCurrentIsLive(s, m, c); }
  }

  // A job in a state, in the words of the slots.
  predicate Is(s: Slots, k: int, state: JobState) { 0 <= k < |s| && s[k].Some? && s[k].value.state == state }

  // p is the newest job in the state before a slot.
  ghost predicate NewestBefore(s: Slots, before: int, state: JobState, p: int) {
    Is(s, p, state) && p < before && forall k :: p < k < before ==> !Is(s, k, state)
  }

  ghost predicate SomeBefore(s: Slots, before: int, state: JobState) { exists k :: k < before && Is(s, k, state) }

  // The whole preference for %- when job has become %+: the old %+ (the old %-
  // if %+ stays) if it is stopped and another job; for a stopped job the newest
  // older stopped one; the newest running job, older than a running %+; and
  // the job itself only if there is none of these.
  ghost predicate PreviousChosen(s: Slots, m: Marks, job: int, p: int) {
    var was := if m.current == job then m.previous else m.current;
    var before := if Is(s, job, JRunning) then job else |s|;
    if was != job && Is(s, was, JStopped) then p == was
    else if Is(s, job, JStopped) && SomeBefore(s, job, JStopped) then NewestBefore(s, job, JStopped, p)
    else if SomeBefore(s, before, JRunning) then NewestBefore(s, before, JRunning, p)
    else p == job
  }

  lemma SetCurrentPrefers(s: Slots, m: Marks, job: int)
    requires LiveAt(s, job)
    ensures SetCurrent(s, m, job).current == job && PreviousChosen(s, m, job, SetCurrent(s, m, job).previous)
  {
    FoundOrNone(s, job, JStopped);
    FoundOrNone(s, job, JRunning);
    FoundOrNone(s, |s|, JRunning);
    hide MostRecent;
  }

  lemma FoundOrNone(s: Slots, before: int, state: JobState)
    requires before <= |s|
    ensures var r := MostRecent(s, before, state);
      if SomeBefore(s, before, state) then NewestBefore(s, before, state, r) else r == NoJob
  {
    var r := MostRecent(s, before, state);
    hide MostRecent;
    if r != NoJob { assert Is(s, r, state); }
    if SomeBefore(s, before, state) {
      var k :| k < before && Is(s, k, state);
      assert InState(s, k, state);
      forall i | r < i < before
        ensures !Is(s, i, state)
      {
        assert !InState(s, i, state);
      }
    }
  }

  // The whole preference for %+: a stopped %+, a stopped %-, the newest stopped
  // job, the newest running one, none.
  ghost predicate CurrentChosen(s: Slots, m: Marks, c: int) {
    if Is(s, m.current, JStopped) then c == m.current
    else if Is(s, m.previous, JStopped) then c == m.previous
    else if SomeBefore(s, |s|, JStopped) then NewestBefore(s, |s|, JStopped, c)
    else if SomeBefore(s, |s|, JRunning) then NewestBefore(s, |s|, JRunning, c)
    else c == NoJob
  }

  ghost predicate BothChosen(s: Slots, m: Marks, r: Marks) {
    && CurrentChosen(s, m, r.current)
    && if r.current == NoJob then r.previous == NoJob else PreviousChosen(s, m, r.current, r.previous)
  }

  lemma ResetCurrentPrefers(s: Slots, m: Marks)
    ensures BothChosen(s, m, ResetCurrent(s, m))
  {
    FoundOrNone(s, |s|, JStopped);
    FoundOrNone(s, |s|, JRunning);
    var c := Candidate(s, m);
    if c != NoJob { SetCurrentPrefers(s, m, c); }
    hide SetCurrent, PreviousChosen;
  }

  // ------------------------------------------------------- dead jobs

  predicate Removable(t: Option<Job>) { t.Some? && t.value.state == JDead && t.value.notified }

  // The table after cleanup_dead_jobs.
  function Cleaned(s: Slots): (r: Slots)
    ensures |r| == |s|
  {
    seq(|s|, k requires 0 <= k < |s| => if Removable(s[k]) then None else s[k])
  }

  // The table when the first n slots were cleaned.
  function CleanedUpTo(s: Slots, n: nat): (r: Slots)
    requires n <= |s|
    ensures |r| == |s|
  {
    Cleaned(s[..n]) + s[n..]
  }

  // %+ and %- after that: every deletion of one of them chooses again.
  function MarksCleaned(s: Slots, n: nat, m: Marks): Marks
    requires n <= |s|
  {
    if n == 0 then m
    else
      var r := MarksCleaned(s, n - 1, m);
      if Removable(s[n - 1]) && (r.current == n - 1 || r.previous == n - 1)
      then ResetCurrent(CleanedUpTo(s, n), r) else r
  }

  lemma CleanedNext(s: Slots, n: nat)
    requires n < |s|
    ensures CleanedUpTo(s, 0) == s && CleanedUpTo(s, |s|) == Cleaned(s)
    ensures CleanedUpTo(s, n)[n] == s[n]
    ensures CleanedUpTo(s, n + 1) == if Removable(s[n]) then CleanedUpTo(s, n)[n := None] else CleanedUpTo(s, n)
  {
  }

  // The jobs that are not dead, oldest first.
  function Survivors(s: Slots): seq<Job> {
    if s == [] then []
    else
      var t := s[|s| - 1];
      Survivors(s[..|s| - 1]) + if t.Some? && t.value.state != JDead then [t.value] else []
  }

  lemma {:induction false} CleanedSurvivors(s: Slots)
    ensures Survivors(Cleaned(s)) == Survivors(s)
  {
    if s != [] {
      var n := |s| - 1;
      assert Cleaned(s)[..n] == Cleaned(s[..n]);
      CleanedSurvivors(s[..n]);
    }
  }

  // The processes of dead jobs.
  function DeadProcesses(s: Slots): nat {
    if s == [] then 0
    else
      var t := s[|s| - 1];
      DeadProcesses(s[..|s| - 1]) + if OneDead(t) == 1 then Size(t) else 0
  }

  lemma {:induction false} DeadProcessesUpdated(s: Slots, i: nat)
    requires i < |s| && OneDead(s[i]) == 1
    ensures DeadProcesses(s[i := None]) == DeadProcesses(s) - Size(s[i])
  {
    var n := |s| - 1;
    if i == n {
      assert s[i := None][..n] == s[..n];
    } else {
      assert s[i := None][..n] == s[..n][i := None];
      DeadProcessesUpdated(s[..n], i);
    }
  }

  // A dead job whose status may be forgotten: in a script, not that of `$!'.
  predicate Markable(t: Option<Job>, interactiveShell: bool, lastAsync: int) {
    && t.Some? && t.value.state == JDead && t.value.pipe != []
    && (interactiveShell || t.value.pipe[|t.value.pipe| - 1].pid != lastAsync)
  }

  // Where mark_dead_jobs_as_notified stops when it is at i and the jobs not
  // marked so far have `dead' dead processes.
  function MarkLimit(s: Slots, i: nat, dead: int, most: nat, interactiveShell: bool, lastAsync: int): (n: nat)
    requires i <= |s|
    ensures i <= n <= |s|
    decreases |s| - i
  {
    if i == |s| then i
    else if !Markable(s[i], interactiveShell, lastAsync) then
      MarkLimit(s, i + 1, dead, most, interactiveShell, lastAsync)
    else if dead - |s[i].value.pipe| <= most then i
    else MarkLimit(s, i + 1, dead - |s[i].value.pipe|, most, interactiveShell, lastAsync)
  }

  function MarkedUpTo(s: Slots, n: nat, interactiveShell: bool, lastAsync: int): (r: Slots)
    ensures |r| == |s|
  {
    seq(|s|, k requires 0 <= k < |s| =>
      if k < n && Markable(s[k], interactiveShell, lastAsync) then Some(s[k].value.(notified := true)) else s[k])
  }

  // The table after mark_dead_jobs_as_notified (0).
  function Marked(s: Slots, most: nat, interactiveShell: bool, lastAsync: int): (r: Slots)
    ensures |r| == |s|
  {
    if DeadProcesses(s) <= most then s
    else MarkedUpTo(s, MarkLimit(s, 0, DeadProcesses(s), most, interactiveShell, lastAsync), interactiveShell, lastAsync)
  }

  // The table without the jobs that were marked.
  function Spared(s: Slots, n: nat, interactiveShell: bool, lastAsync: int): (r: Slots)
    ensures |r| == |s|
  {
    seq(|s|, k requires 0 <= k < |s| => if k < n && Markable(s[k], interactiveShell, lastAsync) then None else s[k])
  }

  lemma {:induction false} LimitSpares(s: Slots, i: nat, most: nat, interactiveShell: bool, lastAsync: int)
    requires i <= |s| && DeadProcesses(Spared(s, i, interactiveShell, lastAsync)) > most
    ensures var dead := DeadProcesses(Spared(s, i, interactiveShell, lastAsync));
      var n := MarkLimit(s, i, dead, most, interactiveShell, lastAsync);
      DeadProcesses(Spared(s, n, interactiveShell, lastAsync)) > most
    decreases |s| - i
  {
    if i < |s| {
      var r := Spared(s, i, interactiveShell, lastAsync);
      if !Markable(s[i], interactiveShell, lastAsync) {
        assert Spared(s, i + 1, interactiveShell, lastAsync) == r;
        LimitSpares(s, i + 1, most, interactiveShell, lastAsync);
      } else {
        assert Spared(s, i + 1, interactiveShell, lastAsync) == r[i := None];
        DeadProcessesUpdated(r, i);
        if DeadProcesses(r) - |s[i].value.pipe| > most {
          LimitSpares(s, i + 1, most, interactiveShell, lastAsync);
        }
      }
    }
  }

  // Marking changes flags of dead jobs only, never that of `$!' in a script,
  // and as long as there are more than `most' dead processes it leaves more
  // than that many with their status.
  lemma MarkingSpares(s: Slots, most: nat, interactiveShell: bool, lastAsync: int)
    ensures var r := Marked(s, most, interactiveShell, lastAsync);
      && SameButNotified(s, r)
      && (forall k :: 0 <= k < |s| && r[k] != s[k] ==> Markable(s[k], interactiveShell, lastAsync))
      && (DeadProcesses(s) <= most ==> r == s)
      && (DeadProcesses(s) > most ==> DeadProcesses(Untouched(s, r)) > most)
  {
    hide DeadProcesses, MarkLimit, Untouched, Spared;
    if DeadProcesses(s) > most {
      var n := MarkLimit(s, 0, DeadProcesses(s), most, interactiveShell, lastAsync);
      NothingMarked(s, interactiveShell, lastAsync);
      LimitSpares(s, 0, most, interactiveShell, lastAsync);
      SparedIsUntouched(s, n, interactiveShell, lastAsync);
      FewerSlots(Spared(s, n, interactiveShell, lastAsync), Untouched(s, MarkedUpTo(s, n, interactiveShell, lastAsync)));
    }
  }

  lemma NothingMarked(s: Slots, interactiveShell: bool, lastAsync: int)
    ensures Spared(s, 0, interactiveShell, lastAsync) == s
  {
  }

  lemma SparedIsUntouched(s: Slots, n: nat, interactiveShell: bool, lastAsync: int)
    ensures var r, t := Spared(s, n, interactiveShell, lastAsync), MarkedUpTo(s, n, interactiveShell, lastAsync);
      forall k :: 0 <= k < |s| ==> r[k].None? || Untouched(s, t)[k] == r[k]
  {
    hide Markable;
  }

  // The slots that are the same in both tables.
  function Untouched(s: Slots, t: Slots): (r: Slots)
    requires |t| == |s|
    ensures |r| == |s|
  {
    seq(|s|, k requires 0 <= k < |s| => if t[k] == s[k] then s[k] else None)
  }

  lemma {:induction false} FewerSlots(s: Slots, t: Slots)
    requires |t| == |s| && forall k :: 0 <= k < |s| ==> s[k].None? || t[k] == s[k]
    ensures DeadProcesses(s) <= DeadProcesses(t)
  {
    if s != [] {
      FewerSlots(s[..|s| - 1], t[..|t| - 1]);
    }
  }

  // Two tables that differ in the J_NOTIFIED flag of dead jobs only.
  predicate SameButNotified(s: Slots, t: Slots) {
    && |t| == |s|
    && forall k :: 0 <= k < |s| ==> SlotButNotified(s[k], t[k])
  }

  predicate SlotButNotified(a: Option<Job>, b: Option<Job>) {
    b == a || (a.Some? && a.value.state == JDead && b == Some(a.value.(notified := true)))
  }

  lemma {:induction false} NotifiedSurvivors(s: Slots, t: Slots)
    requires SameButNotified(s, t)
    ensures Survivors(t) == Survivors(s)
  {
    if s != [] {
      var n := |s| - 1;
      assert SlotButNotified(s[n], t[n]);
      assert SameButNotified(s[..n], t[..n]) by {
        assert forall k :: 0 <= k < n ==> SlotButNotified(s[k], t[k]);
      }
      NotifiedSurvivors(s[..n], t[..n]);
    }
  }

  // ------------------------------------------------------------ compaction

  function Filled(js: seq<Job>): (r: Slots)
    ensures |r| == |js| && forall k :: 0 <= k < |js| ==> r[k] == Some(js[k])
  {
    seq(|js|, k requires 0 <= k < |js| => Some(js[k]))
  }

  // The live jobs in order, and free slots up to the size.
  function Compacted(s: Slots, size: nat): (r: Slots)
    requires LiveCount(s) <= size
    ensures |r| == size
  {
    Filled(Live(s)) + seq(size - LiveCount(s), _ => None)
  }

  // Where compaction moves a live job.
  function NewIndex(s: Slots, i: nat): nat
    requires i <= |s|
  {
    LiveCount(s[..i])
  }

  lemma {:induction false} LivePrefix(s: Slots, i: nat)
    requires i <= |s|
    ensures LiveCount(s[..i]) <= LiveCount(s)
    ensures Live(s)[..LiveCount(s[..i])] == Live(s[..i])
  {
    if i == |s| {
      assert s[..i] == s;
    } else {
      var n := |s| - 1;
      LivePrefix(s[..n], i);
      assert s[..n][..i] == s[..i];
      assert Live(s)[..LiveCount(s[..n])] == Live(s[..n]);
      assert Live(s)[..LiveCount(s[..i])] == Live(s)[..LiveCount(s[..n])][..LiveCount(s[..i])];
    }
  }

  lemma LiveAppend(s: Slots, i: nat)
    requires i < |s|
    ensures Live(s[..i + 1]) == Live(s[..i]) + if s[i].Some? then [s[i].value] else []
  {
    assert s[..i + 1][..i] == s[..i];
  }

  // Compaction keeps every job, at its new index.
  lemma CompactedKeeps(s: Slots, size: nat, i: nat)
    requires LiveAt(s, i) && LiveCount(s) <= size
    ensures NewIndex(s, i) < LiveCount(s) && Compacted(s, size)[NewIndex(s, i)] == s[i]
  {
    LiveAppend(s, i);
    LivePrefix(s, i + 1);
    var n := LiveCount(s[..i]);
    assert Live(s)[n] == Live(s)[..n + 1][n];
  }

  lemma {:induction false} LiveFilled(js: seq<Job>)
    ensures Live(Filled(js)) == js
  {
    if js != [] {
      var n := |js| - 1;
      assert Filled(js)[..n] == Filled(js[..n]);
      LiveFilled(js[..n]);
    }
  }

  lemma {:induction false} SurvivorsOfLive(s: Slots)
    ensures Survivors(Filled(Live(s))) == Survivors(s)
    ensures DeadCount(Filled(Live(s))) == DeadCount(s)
    ensures ProcessCount(Filled(Live(s))) == ProcessCount(s)
  {
    if s != [] {
      var n := |s| - 1;
      SurvivorsOfLive(s[..n]);
      if s[n].Some? {
        var f := Filled(Live(s));
        assert f[..|f| - 1] == Filled(Live(s[..n]));
      } else {
        assert Live(s) == Live(s[..n]);
      }
    } else {
      assert Filled([]) == [];
    }
  }

  lemma {:induction false} PaddedSurvivors(s: Slots, n: nat)
    ensures Survivors(s + seq(n, _ => None)) == Survivors(s)
  {
    var t: Slots := s + seq(n, _ => None);
    if n == 0 {
      assert t == s;
    } else {
      assert t[..|t| - 1] == s + seq(n - 1, _ => None);
      PaddedSurvivors(s, n - 1);
    }
  }

  lemma CompactedCounters(s: Slots, size: nat)
    requires LiveCount(s) <= size
    ensures var c := Compacted(s, size);
      && Live(c) == Live(s) && DeadCount(c) == DeadCount(s) && ProcessCount(c) == ProcessCount(s)
      && Survivors(c) == Survivors(s)
  {
    LiveFilled(Live(s));
    SurvivorsOfLive(s);
    CountersPadded(Filled(Live(s)), size - LiveCount(s));
    PaddedSurvivors(Filled(Live(s)), size - LiveCount(s));
  }

  // ------------------------------------------------------------- events

  // The first living process with this id, or |ps|.
  function FindProcess(ps: seq<Process>, pid: int): (k: nat)
    ensures k <= |ps| && (k < |ps| ==> ps[k].pid == pid && PAlive(ps[k]))
    ensures forall i :: 0 <= i < k ==> !(ps[i].pid == pid && PAlive(ps[i]))
  {
    if ps == [] || (ps[0].pid == pid && PAlive(ps[0])) then 0 else 1 + FindProcess(ps[1..], pid)
  }

  predicate Holds(t: Option<Job>, pid: int) { t.Some? && FindProcess(t.value.pipe, pid) < |t.value.pipe| }

  // find_job, for living processes.
  function FindJob(s: Slots, pid: int): (i: nat)
    ensures i <= |s| && (i < |s| ==> Holds(s[i], pid))
    ensures forall k :: 0 <= k < i ==> !Holds(s[k], pid)
  {
    if s == [] || Holds(s[0], pid) then 0 else 1 + FindJob(s[1..], pid)
  }

  function ProcessReported(p: Process, status: Wait): Process {
    p.(status := status, running := status.Continued?)
  }

  // What waitchld and set_job_status_and_cleanup make of a job.
  function JobReported(j: Job, k: nat, status: Wait): Job
    requires k < |j.pipe|
  {
    var ps := j.pipe[k := ProcessReported(j.pipe[k], status)];
    var j1 := j.(pipe := ps, notified := false);
    if AnyRunning(ps) && j.state != JStopped then j1
    else if AnyStopped(ps) then j1.(state := JStopped, foreground := false)
    else j1.(state := if AnyRunning(ps) then JRunning else JDead)
  }

  // One event.
  function Reported(s: Slots, pid: int, status: Wait): (r: Slots)
    ensures |r| == |s|
  {
    var i := FindJob(s, pid);
    if i == |s| then s else s[i := Some(JobReported(s[i].value, FindProcess(s[i].value.pipe, pid), status))]
  }

  lemma HoldsIsAlive(j: Job, pid: int)
    requires ValidJob(j) && Holds(Some(j), pid)
    ensures j.state != JDead
  {
    assert PAlive(j.pipe[FindProcess(j.pipe, pid)]);
  }

  lemma ReportedValid(j: Job, pid: int, status: Wait)
    requires ValidJob(j) && Holds(Some(j), pid)
    ensures ValidJob(JobReported(j, FindProcess(j.pipe, pid), status))
  {
    HoldsIsAlive(j, pid);
    NextStateValid(j.state, JobReported(j, FindProcess(j.pipe, pid), status));
  }

  predicate ValidSlots(s: Slots) { forall k :: 0 <= k < |s| && s[k].Some? ==> ValidJob(s[k].value) }

  // A dead job stays what it is, whatever is reported.
  lemma DeadStaysDead(s: Slots, i: nat, pid: int, status: Wait)
    requires ValidSlots(s) && InState(s, i, JDead)
    ensures Reported(s, pid, status)[i] == s[i]
  {
    var k := FindJob(s, pid);
    if k == i { HoldsIsAlive(s[i].value, pid); }
  }

  // Every event keeps the jobs' states right.
  lemma ReportedSlotsValid(s: Slots, pid: int, status: Wait)
    requires ValidSlots(s)
    ensures ValidSlots(Reported(s, pid, status))
  {
    var i := FindJob(s, pid);
    if i < |s| { ReportedValid(s[i].value, pid, status); }
  }

  // What waitchld keeps while it goes through the events.
  datatype Wake = Wake(pipeline: seq<Process>, slots: Slots, lastStopped: int, callSet: bool)

  // The job that an event is about, unless it is about the pipeline under
  // construction or an unknown child.
  function ReportedTo(ps: seq<Process>, s: Slots, pid: int): (i: int)
    ensures i == NoJob || (0 <= i < |s| && Holds(s[i], pid))
  {
    if FindProcess(ps, pid) < |ps| || FindJob(s, pid) == |s| then NoJob else FindJob(s, pid)
  }

  function PipelineReported(ps: seq<Process>, pid: int, status: Wait): seq<Process> {
    var k := FindProcess(ps, pid);
    if k < |ps| then ps[k := ProcessReported(ps[k], status)] else ps
  }

  function SlotsReported(ps: seq<Process>, s: Slots, pid: int, status: Wait): (r: Slots)
    ensures |r| == |s|
  {
    if FindProcess(ps, pid) < |ps| then s else Reported(s, pid, status)
  }

  // The job is stopped, or it goes on.
  predicate ChoosesAgain(was: JobState, now: JobState) { now == JStopped || (was == JStopped && now == JRunning) }

  function AfterEvent(a: Wake, pid: int, status: Wait): Wake {
    var i := ReportedTo(a.pipeline, a.slots, pid);
    var t := SlotsReported(a.pipeline, a.slots, pid, status);
    if i == NoJob || t[i].None? then Wake(PipelineReported(a.pipeline, pid, status), t, a.lastStopped, a.callSet)
    else
      var was, now := a.slots[i].value.state, t[i].value.state;
      Wake(a.pipeline, t,
           if now == JStopped then i else if now == JDead && a.lastStopped == i then NoJob else a.lastStopped,
           a.callSet || ChoosesAgain(was, now))
  }

  function AfterEvents(a: Wake, events: seq<(int, Wait)>): Wake {
    if events == [] then a
    else
      var n := |events| - 1;
      AfterEvent(AfterEvents(a, events[..n]), events[n].0, events[n].1)
  }

  ghost predicate ValidWake(a: Wake) {
    ValidSlots(a.slots) && (a.lastStopped == NoJob || LiveAt(a.slots, a.lastStopped))
  }

  // Over any sequence of events the jobs' states stay right and no dead job
  // changes; jobs neither come nor go.
  lemma {:induction false} EventsKeepTheDead(a: Wake, events: seq<(int, Wait)>)
    requires ValidWake(a)
    ensures var b := AfterEvents(a, events);
      && ValidWake(b) && |b.slots| == |a.slots|
      && (forall k :: LiveAt(b.slots, k) <==> LiveAt(a.slots, k))
      && (forall k :: InState(a.slots, k, JDead) ==> b.slots[k] == a.slots[k])
  {
    if events != [] {
      var n := |events| - 1;
      EventsKeepTheDead(a, events[..n]);
      OneEvent(AfterEvents(a, events[..n]), events[n].0, events[n].1);
    }
  }

  lemma OneEvent(a: Wake, pid: int, status: Wait)
    requires ValidWake(a)
    ensures var b := AfterEvent(a, pid, status);
      && ValidWake(b) && |b.slots| == |a.slots|
      && (forall k :: LiveAt(b.slots, k) <==> LiveAt(a.slots, k))
      && (forall k :: InState(a.slots, k, JDead) ==> b.slots[k] == a.slots[k])
  {
    ReportedSlotsValid(a.slots, pid, status);
    forall k | InState(a.slots, k, JDead)
      ensures Reported(a.slots, pid, status)[k] == a.slots[k]
    {
      DeadStaysDead(a.slots, k, pid, status);
    }
    hide JobReported, ValidJob, FindJob, FindProcess;
  }

  // ---------------------------------------------------------- new jobs

  // The job that stop_pipeline makes of a pipeline.
  function NewJob(ps: seq<Process>, async: bool): Job { Job(ps, NewState(ps), !async, async, false) }

  // A job put behind all others is the newest one.
  lemma {:induction false} Appended(s: Slots, i: nat, j: Job)
    requires i < |s| && forall k :: LiveAt(s, k) ==> k < i
    ensures var t := s[i := Some(j)];
      && Live(t) == Live(s) + [j]
      && Survivors(t) == Survivors(s) + if j.state == JDead then [] else [j]
  {
    var t := s[i := Some(j)];
    var n := |s| - 1;
    if i == n {
      assert s[n].None? by { assert !LiveAt(s, n); }
      assert t[..n] == s[..n];
    } else {
      assert s[n].None? by { assert !LiveAt(s, n); }
      assert t[..n] == s[..n][i := Some(j)];
      assert forall k :: LiveAt(s[..n], k) ==> LiveAt(s, k);
      Appended(s[..n], i, j);
    }
  }

  // ---------------------------------------------------------- fg and bg

  // set_job_running: the stopped processes run again, though they keep their
  // status until the next event.
  function Resumed(j: Job): Job {
    j.(pipe := seq(|j.pipe|, k requires 0 <= k < |j.pipe| =>
                 if PStopped(j.pipe[k]) then j.pipe[k].(running := true) else j.pipe[k]),
       state := JRunning)
  }

  // What start_job leaves of a job that was not dead: a stopped one is running
  // again and counts as notified.
  function Started(j: Job, foreground: bool): Job {
    if j.state == JStopped then Resumed(j).(notified := true, foreground := foreground)
    else j.(notified := false, foreground := foreground)
  }

  lemma ResumedValid(j: Job)
    requires ValidJob(j) && j.state == JStopped
    ensures ValidJob(Resumed(j))
  {
    var k :| 0 <= k < |j.pipe| && PStopped(j.pipe[k]);
    assert Resumed(j).pipe[k].running;
    AliveIsRunningOrStopped(Resumed(j).pipe);
  }
}
