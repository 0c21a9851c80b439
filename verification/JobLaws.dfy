// What the functions of the job table say, in terms of single processes, slots
// and events.

module JobLaws {
  import opened Options
  import opened Jobs
  import opened JobTable

  // ------------------------------------------------------------------- states

  predicate HasRunning(ps: seq<Process>) { exists k :: 0 <= k < |ps| && ps[k].running }

  predicate HasStopped(ps: seq<Process>) { exists k :: 0 <= k < |ps| && ps[k].status.Stopped? }

  // A new job is running if one of its processes is, else stopped if one is
  // stopped, else dead; it is in the foreground unless it is asynchronous.
  lemma NewJobIs(ps: seq<Process>, async: bool)
    ensures var j := NewJob(ps, async);
      && j.pipe == ps && j.foreground == !async && j.async == async && !j.notified
      && j.state == if HasRunning(ps) then JRunning else if HasStopped(ps) then JStopped else JDead
  {
    assert AnyRunning(ps) == HasRunning(ps) && AnyStopped(ps) == HasStopped(ps);
  }

  // An event changes one process, which runs exactly if it was continued.  A
  // job that was not stopped goes on while one of its processes runs; otherwise
  // it is stopped, and no longer in the foreground, if one is stopped; otherwise
  // it is running again or dead.  Any event is yet to be notified.
  lemma JobReportedIs(j: Job, k: nat, status: Wait)
    requires k < |j.pipe| && j.state != JDead
    ensures var r := JobReported(j, k, status);
      && |r.pipe| == |j.pipe| && (forall i :: 0 <= i < |j.pipe| && i != k ==> r.pipe[i] == j.pipe[i])
      && r.pipe[k] == Process(j.pipe[k].pid, status, status == Continued)
      && r.state == (if HasRunning(r.pipe) && j.state == JRunning then JRunning
                     else if HasStopped(r.pipe) then JStopped
                     else if HasRunning(r.pipe) then JRunning else JDead)
      && r.foreground == (j.foreground && r.state != JStopped) && r.async == j.async && !r.notified
  {
    var r := JobReported(j, k, status);
    assert AnyRunning(r.pipe) == HasRunning(r.pipe) && AnyStopped(r.pipe) == HasStopped(r.pipe);
  }

  // The job and process of an event: the pipeline under construction comes
  // first, then the first job with such a living process.
  predicate LivesIn(ps: seq<Process>, pid: int) {
    exists k :: 0 <= k < |ps| && ps[k].pid == pid && (ps[k].running || ps[k].status.Stopped?)
  }

  predicate FirstLiving(ps: seq<Process>, pid: int, k: int) {
    && 0 <= k < |ps| && ps[k].pid == pid && (ps[k].running || ps[k].status.Stopped?)
    && forall i :: 0 <= i < k ==> !(ps[i].pid == pid && (ps[i].running || ps[i].status.Stopped?))
  }

  ghost predicate FirstWith(s: Slots, pid: int, i: int) {
    && 0 <= i < |s| && s[i].Some? && LivesIn(s[i].value.pipe, pid)
    && forall k :: 0 <= k < i && s[k].Some? ==> !LivesIn(s[k].value.pipe, pid)
  }

  lemma FindProcessIs(ps: seq<Process>, pid: int)
    ensures FindProcess(ps, pid) < |ps| <==> LivesIn(ps, pid)
    ensures LivesIn(ps, pid) ==> FirstLiving(ps, pid, FindProcess(ps, pid))
  {
    var k := FindProcess(ps, pid);
    assert forall i :: 0 <= i < k ==> !(ps[i].pid == pid && PAlive(ps[i]));
    if k < |ps| { assert ps[k].pid == pid && PAlive(ps[k]); }
    hide FindProcess;
  }

  lemma FindJobIs(s: Slots, pid: int)
    ensures var i := FindJob(s, pid);
      if i < |s| then FirstWith(s, pid, i) else forall k :: 0 <= k < |s| && s[k].Some? ==> !LivesIn(s[k].value.pipe, pid)
  {
    var i := FindJob(s, pid);
    hide FindJob, FindProcess, LivesIn;
    forall k | 0 <= k < |s| && s[k].Some?
      ensures Holds(s[k], pid) <==> LivesIn(s[k].value.pipe, pid)
    {
      FindProcessIs(s[k].value.pipe, pid);
    }
  }

  // One event, whatever it is about: a process of the pipeline under
  // construction, of one job, or of none.
  lemma EventIs(a: Wake, pid: int, status: Wait)
    requires ValidSlots(a.slots)
    ensures var b := AfterEvent(a, pid, status);
      if LivesIn(a.pipeline, pid) then
        && b.slots == a.slots && b.lastStopped == a.lastStopped && b.callSet == a.callSet
        && exists k :: FirstLiving(a.pipeline, pid, k)
             && b.pipeline == a.pipeline[k := Process(pid, status, status == Continued)]
      else if exists i :: FirstWith(a.slots, pid, i) then
        exists i, k :: FirstWith(a.slots, pid, i) && JobEvent(a, b, i, k, pid, status)
      else b == a
  {
    hide FindProcess, FindJob, ValidJob;
    FindProcessIs(a.pipeline, pid);
    FindJobIs(a.slots, pid);
    var i := FindJob(a.slots, pid);
    if LivesIn(a.pipeline, pid) {
      var k := FindProcess(a.pipeline, pid);
      assert FirstLiving(a.pipeline, pid, k);
    } else if i < |a.slots| {
      assert FirstWith(a.slots, pid, i);
      JobEventIs(a, i, pid, status);
    } else {
      assert forall k :: !FirstWith(a.slots, pid, k);
    }
  }

  // What an event of process k of job i changes: the job; which job stopped
  // last, if that is not dead; and whether %+ is chosen again, which it is when
  // the job is stopped and when a stopped job runs on.
  ghost predicate JobEvent(a: Wake, b: Wake, i: int, k: int, pid: int, status: Wait) {
    && 0 <= i < |a.slots| == |b.slots| && a.slots[i].Some? && b.slots[i].Some?
    && FirstLiving(a.slots[i].value.pipe, pid, k)
    && b.pipeline == a.pipeline && b.slots == a.slots[i := Some(JobReported(a.slots[i].value, k, status))]
    && var was, now := a.slots[i].value.state, b.slots[i].value.state;
       && b.lastStopped == (if now == JStopped then i else if now == JDead && a.lastStopped == i then NoJob else a.lastStopped)
       && (b.callSet <==> a.callSet || now == JStopped || (was == JStopped && now == JRunning))
  }

  lemma JobEventIs(a: Wake, i: nat, pid: int, status: Wait)
    requires ValidSlots(a.slots) && !LivesIn(a.pipeline, pid) && i == FindJob(a.slots, pid) < |a.slots|
    ensures exists k :: JobEvent(a, AfterEvent(a, pid, status), i, k, pid, status)
  {
    hide FindJob, FindProcess, ValidJob, JobReported;
    FindProcessIs(a.pipeline, pid);
    FindProcessIs(a.slots[i].value.pipe, pid);
    var k := FindProcess(a.slots[i].value.pipe, pid);
    assert JobEvent(a, AfterEvent(a, pid, status), i, k, pid, status);
  }

  // --------------------------------------------------------------- fg and bg

  // A job that runs again: every stopped process runs, no other changes.
  lemma StartedIs(j: Job, foreground: bool)
    ensures var r := Started(j, foreground);
      && |r.pipe| == |j.pipe| && r.async == j.async && r.foreground == foreground
      && r.notified == (j.state == JStopped) && (j.state == JStopped ==> r.state == JRunning)
      && (j.state != JStopped ==> r.pipe == j.pipe && r.state == j.state)
      && (j.state == JStopped ==> forall k :: 0 <= k < |j.pipe| ==>
            r.pipe[k] == Process(j.pipe[k].pid, j.pipe[k].status, j.pipe[k].running || j.pipe[k].status.Stopped?))
  {
    var r := Started(j, foreground);
    if j.state == JStopped {
      forall k | 0 <= k < |j.pipe|
        ensures r.pipe[k] == Process(j.pipe[k].pid, j.pipe[k].status, j.pipe[k].running || j.pipe[k].status.Stopped?)
      {
        assert j.pipe[k] == Process(j.pipe[k].pid, j.pipe[k].status, j.pipe[k].running);
      }
    }
  }

  // -------------------------------------------------------- statuses and slots

  // The status a process leaves: its exit code, or 128 and the signal.
  predicate StatusOf(status: Wait, v: int) {
    match status
    case Exited(code) => v == code
    case Signaled(signal) => v == signal + 128
    case _ => v == 0
  }

  // The newest statuses are kept, as many as there may be; the new one is last.
  lemma RememberIs(saved: seq<(int, int)>, p: Process, most: nat)
    ensures StatusOf(p.status, ExitStatus(p.status))
    ensures var all, r := saved + [(p.pid, ExitStatus(p.status))], Remember(saved, p, most);
      |r| == (if |all| <= most then |all| else most) && r == all[|all| - |r|..]
  {
    hide ExitStatus;
    StatusIs(p.status);
  }

  lemma StatusIs(status: Wait)
    ensures StatusOf(status, ExitStatus(status))
  {
  }

  // Cleaning frees exactly the slots of dead jobs whose end was notified.
  lemma CleanedIs(s: Slots)
    ensures |Cleaned(s)| == |s|
    ensures forall k :: 0 <= k < |s| ==>
              Cleaned(s)[k] == if s[k].Some? && s[k].value.state == JDead && s[k].value.notified then None else s[k]
  {
  }

  // The statuses of the processes that cleaning the first n slots forgets, the
  // last one of each job.
  function Forgotten(s: Slots, n: nat): seq<(int, int)>
    requires n <= |s|
  {
    if n == 0 then [] else Forgotten(s, n - 1) + LastStatus(s[n - 1])
  }

  function LastStatus(t: Option<Job>): seq<(int, int)> {
    if t.Some? && t.value.state == JDead && t.value.notified && t.value.pipe != [] then
      var p := t.value.pipe[|t.value.pipe| - 1];
      [(p.pid, match p.status case Exited(c) => c case Signaled(g) => g + 128 case _ => 0)]
    else []
  }

  function Newest(all: seq<(int, int)>, most: nat): seq<(int, int)> {
    if |all| <= most then all else all[|all| - most..]
  }

  // They are remembered in the order of the slots, the newest of them all.
  lemma {:induction false} CleaningRemembers(s: Slots, n: nat, saved: seq<(int, int)>, most: nat)
    requires n <= |s| && |saved| <= most
    ensures SavedCleaned(s, n, saved, most) == Newest(saved + Forgotten(s, n), most)
  {
    hide LastStatus, Removable, Remember, Newest;
    if n > 0 {
      CleaningRemembers(s, n - 1, saved, most);
      SlotRemembered(s[n - 1], saved + Forgotten(s, n - 1), most);
      assert saved + Forgotten(s, n) == saved + Forgotten(s, n - 1) + LastStatus(s[n - 1]);
    } else {
      assert saved + [] == saved;
      assert Newest(saved, most) == saved by { AllKept(saved, most); }
    }
  }

  lemma AllKept(all: seq<(int, int)>, most: nat)
    requires |all| <= most
    ensures Newest(all, most) == all
  {
  }

  // One slot, all that was remembered so far being the newest of all.
  lemma SlotRemembered(t: Option<Job>, all: seq<(int, int)>, most: nat)
    ensures (if Removable(t) && t.value.pipe != [] then Remember(Newest(all, most), Last(t.value.pipe), most)
             else Newest(all, most)) == Newest(all + LastStatus(t), most)
  {
    if Removable(t) && t.value.pipe != [] {
      var p := Last(t.value.pipe);
      NewestTwice(all, (p.pid, ExitStatus(p.status)), most);
      assert LastStatus(t) == [(p.pid, ExitStatus(p.status))];
    } else {
      assert all + [] == all;
    }
  }

  lemma NewestTwice(all: seq<(int, int)>, x: (int, int), most: nat)
    ensures Newest(Newest(all, most) + [x], most) == Newest(all + [x], most)
  {
  }

  // ------------------------------------------------------------- dead statuses

  // Which jobs may be marked: dead ones, in a script other than that of `$!'.
  predicate MayBeMarked(t: Option<Job>, interactiveShell: bool, lastAsync: int) {
    && t.Some? && t.value.state == JDead && t.value.pipe != []
    && (interactiveShell || t.value.pipe[|t.value.pipe| - 1].pid != lastAsync)
  }

  lemma MarkableIs(t: Option<Job>, interactiveShell: bool, lastAsync: int)
    ensures Markable(t, interactiveShell, lastAsync) <==> MayBeMarked(t, interactiveShell, lastAsync)
  {
  }

  // The processes of the jobs up to slot n that may be marked.
  function MarkableSize(s: Slots, n: nat, interactiveShell: bool, lastAsync: int): nat
    requires n <= |s|
  {
    if n == 0 then 0
    else
      MarkableSize(s, n - 1, interactiveShell, lastAsync) +
        if MayBeMarked(s[n - 1], interactiveShell, lastAsync) then |s[n - 1].value.pipe| else 0
  }

  // The sizes of dead jobs.
  function DeadSize(s: Slots, n: nat): nat
    requires n <= |s|
  {
    if n == 0 then 0
    else DeadSize(s, n - 1) + if s[n - 1].Some? && s[n - 1].value.state == JDead then |s[n - 1].value.pipe| else 0
  }

  lemma {:induction false} DeadSizeIs(s: Slots)
    ensures DeadProcesses(s) == DeadSize(s, |s|)
  {
    if s != [] {
      var n := |s| - 1;
      DeadSizeIs(s[..n]);
      SizePrefix(s, n, n);
    }
  }

  lemma {:induction false} SizePrefix(s: Slots, i: nat, n: nat)
    requires i <= n <= |s|
    ensures DeadSize(s[..n], i) == DeadSize(s, i)
  {
    if i > 0 { SizePrefix(s, i - 1, n); }
  }

  // Exactly those jobs are marked, from the oldest on, without which more than
  // `most' dead processes are left, together with all marked before them.
  lemma MarkedIff(s: Slots, most: nat, interactiveShell: bool, lastAsync: int, k: nat)
    requires k < |s|
    ensures Marked(s, most, interactiveShell, lastAsync)[k] ==
      if MayBeMarked(s[k], interactiveShell, lastAsync)
         && DeadSize(s, |s|) - MarkableSize(s, k + 1, interactiveShell, lastAsync) > most
      then Some(s[k].value.(notified := true)) else s[k]
  {
    hide Markable, MayBeMarked, DeadProcesses, DeadSize;
    DeadSizeIs(s);
    MarkableIs(s[k], interactiveShell, lastAsync);
    var dead := DeadProcesses(s);
    var n := MarkLimit(s, 0, dead, most, interactiveShell, lastAsync);
    MarkableMore(s, 0, k + 1, interactiveShell, lastAsync);
    if Markable(s[k], interactiveShell, lastAsync) { LimitIff(s, 0, k, dead, most, interactiveShell, lastAsync); }
  }

  lemma {:induction false} MarkableMore(s: Slots, i: nat, k: nat, interactiveShell: bool, lastAsync: int)
    requires i <= k <= |s|
    ensures MarkableSize(s, i, interactiveShell, lastAsync) <= MarkableSize(s, k, interactiveShell, lastAsync)
    decreases k - i
  {
    if i < k { MarkableMore(s, i, k - 1, interactiveShell, lastAsync); }
  }

  lemma {:induction false} LimitIff(s: Slots, i: nat, k: nat, dead: int, most: nat, interactiveShell: bool, lastAsync: int)
    requires i <= k < |s| && Markable(s[k], interactiveShell, lastAsync)
    ensures var before := MarkableSize(s, i, interactiveShell, lastAsync);
      k < MarkLimit(s, i, dead, most, interactiveShell, lastAsync) <==>
      dead - (MarkableSize(s, k + 1, interactiveShell, lastAsync) - before) > most
    decreases k - i
  {
    MarkableMore(s, i + 1, k + 1, interactiveShell, lastAsync);
    MarkableIs(s[i], interactiveShell, lastAsync);
    MarkableIs(s[k], interactiveShell, lastAsync);
    if i < k {
      var next := if Markable(s[i], interactiveShell, lastAsync) then dead - |s[i].value.pipe| else dead;
      LimitIff(s, i + 1, k, next, most, interactiveShell, lastAsync);
    }
  }

  // -------------------------------------------------------------------- sizes

  // The size of a compacted table: the least multiple of 8 that leaves at least
  // four slots free.
  lemma NewSizeIs(n: nat)
    ensures NewSize(n) % 8 == 0 && 4 <= NewSize(n) - n < 12
  {
  }

  // Before it would have more than 4096 slots a crowded shell compacts it.
  lemma CrammedIs(crowded: bool, s: Slots)
    ensures Crammed(crowded, s) <==>
      && crowded && |s| >= 4096
      && var t := s[|s| - 1]; t.Some? && !(t.value.state == JDead && t.value.notified)
  {
  }

  // A table grows by eight slots, and only if the slot looked for is behind its
  // end.
  lemma RoomyIs(s: Slots, i: nat)
    ensures i == |s| ==> |Roomy(s, i)| == |s| + 8 && forall k :: |s| <= k < |s| + 8 ==> Roomy(s, i)[k].None?
    ensures forall k :: 0 <= k < |s| ==> Roomy(s, i)[k] == s[k]
    ensures i != |s| ==> Roomy(s, i) == s
  {
  }
}
