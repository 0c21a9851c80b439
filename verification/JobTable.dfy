// The job table of jobs.c: an array of slots with its counters and indices,
// kept by every operation.

module JobTable {
  import opened Options
  import opened Jobs

  const JobSlots := 8
  const MaxJobsInArray := 4096

  // process_exit_status
  function ExitStatus(s: Wait): int {
    match s
    case Signaled(n) => 128 + n
    case Exited(c) => c
    case _ => 0
  }

  // bgp_add, and bgp_prune: the newest statuses are kept.
  function Remember(saved: seq<(int, int)>, p: Process, most: nat): (r: seq<(int, int)>)
    ensures |saved| <= most ==> |r| <= most
  {
    var all := saved + [(p.pid, ExitStatus(p.status))];
    if |all| <= most then all else all[|all| - most..]
  }

  // The statuses that cleaning the first n slots adds.
  function SavedCleaned(s: Slots, n: nat, saved: seq<(int, int)>, most: nat): seq<(int, int)>
    requires n <= |s|
  {
    if n == 0 then saved
    else
      var r := SavedCleaned(s, n - 1, saved, most);
      if Removable(s[n - 1]) && s[n - 1].value.pipe != [] then Remember(r, Last(s[n - 1].value.pipe), most) else r
  }

  // The table, with more slots if slot i is past the end.
  function Roomy(s: Slots, i: int): (r: Slots)
    ensures i == |s| ==> |r| == |s| + JobSlots
  {
    if i == |s| then s + seq(JobSlots, _ => None) else s
  }

  // A table that is full up to its end and may not grow.
  predicate Crammed(crowded: bool, s: Slots) { crowded && |s| >= MaxJobsInArray && LiveAt(Cleaned(s), |s| - 1) }

  // What compact_jobs_list makes of the table s with marks m and statuses sv:
  // the oldest dead jobs are marked and cleaned away, the others moved
  // together.
  function MarksCompacted(s: Slots, m: Marks, c: Slots): Marks {
    MovedMarks(Cleaned(s), MarksCleaned(s, |s|, m), c)
  }

  predicate CompactedFrom(s: Slots, c: Slots) { LiveCount(Cleaned(s)) <= |c| && c == Compacted(Cleaned(s), |c|) }

  // How start_job comes out.  It returns -1, 0 and 0, and in the foreground
  // the status of the job that it then waits for.
  datatype Start = Refused | Already | Background | Foreground

  class Table {
    const childmax: nat
    var jobs: array<Option<Job>>
    var firstj: int
    var lastj: int
    var njobs: int
    var ndead: int
    var injobs: int
    var current: int
    var previous: int
    var saved: seq<(int, int)>
    var pipeline: seq<Process>

    constructor (childmax: nat)
      ensures Valid() && fresh(jobs) && jobs[..] == [] && this.childmax == childmax && saved == [] && pipeline == []
    {
      this.childmax := childmax;
      jobs := new Option<Job>[0];
      firstj, lastj, njobs, ndead, injobs := 0, 0, 0, 0, 0;
      current, previous := NoJob, NoJob;
      saved, pipeline := [], [];
    }

    ghost predicate ValidJobs()
      reads this`jobs, jobs
    {
      forall k | 0 <= k < jobs.Length && jobs[k].Some? :: ValidJob(jobs[k].value)
    }

    // j_njobs, j_ndead and c_injobs are exact.
    ghost predicate Counted()
      reads this, jobs
    {
      && njobs == LiveCount(jobs[..]) && ndead == DeadCount(jobs[..]) && injobs == ProcessCount(jobs[..])
    }

    ghost predicate Valid()
      reads this, jobs
    {
      && ValidJobs() && Counted() && jobs.Length % JobSlots == 0
      && Ends(jobs[..], firstj, lastj)
      && BothLive(jobs[..], Marks(current, previous))
    }

    // reset_job_indices: one of the end slots was emptied.  Since there are
    // jobs left, no search reaches the end of the array or goes all the way
    // round: the branches that would are never taken.
    method ResetJobIndices()
      requires 0 <= firstj < jobs.Length && 0 <= lastj < jobs.Length
      requires LiveCount(jobs[..]) > 0 && forall k :: LiveAt(jobs[..], k) ==> firstj <= k <= lastj
      modifies this`firstj, this`lastj, this`njobs
      ensures Ends(jobs[..], firstj, lastj) && njobs == old(njobs)
    {
      ghost var w := NoneLive(jobs[..]);
      if jobs[firstj].None? {
        var was := firstj;
        firstj := firstj + 1;
        if was >= jobs.Length { assert false; }
        while firstj != was
          invariant was < firstj <= w && njobs == old(njobs) && lastj == old(lastj)
          invariant forall k :: LiveAt(jobs[..], k) ==> firstj <= k <= lastj
          decreases w - firstj
        {
          if firstj >= jobs.Length { assert false; }
          if jobs[firstj].Some? || firstj == was { break; }
          firstj := firstj + 1;
        }
        if firstj == was { assert false; }
      }
      if jobs[lastj].None? {
        var was := lastj;
        lastj := lastj - 1;
        if was < 0 { assert false; }
        while lastj != was
          invariant w <= lastj < was && njobs == old(njobs) && LiveAt(jobs[..], firstj)
          invariant forall k :: LiveAt(jobs[..], k) ==> firstj <= k <= lastj
          decreases lastj - w
        {
          if lastj < 0 { assert false; }
          if jobs[lastj].Some? || lastj == was { break; }
          lastj := lastj - 1;
        }
        if lastj == was { assert false; }
      }
    }

    // most_recent_job_in_state
    method MostRecentJobInState(job: int, state: JobState) returns (result: int)
      requires 0 <= job <= jobs.Length
      ensures result == MostRecent(jobs[..], job, state)
    {
      ghost var s := jobs[..];
      result := NoJob;
      var i := job - 1;
      while i >= 0
        invariant -1 <= i < job
        invariant MostRecent(s, i + 1, state) == MostRecent(s, job, state)
      {
        if jobs[i].Some? && jobs[i].value.state == state { return i; }
        i := i - 1;
      }
    }

    method SetCurrentJob(job: int)
      requires LiveAt(jobs[..], job)
      modifies this`current, this`previous
      ensures Marks(current, previous) == SetCurrent(jobs[..], old(Marks(current, previous)), job)
      ensures current == job && PreviousChosen(jobs[..], old(Marks(current, previous)), job, previous)
    {
      hide PreviousChosen;
      SetCurrentPrefers(jobs[..], Marks(current, previous), job);
      if current != job {
        previous := current;
        current := job;
      }
      if previous != current && InState(jobs[..], previous, JStopped) { return; }
      var candidate := NoJob;
      if jobs[current].value.state == JStopped {
        candidate := MostRecentJobInState(current, JStopped);
        if candidate != NoJob {
          previous := candidate;
          return;
        }
      }
      candidate := MostRecentJobInState(if jobs[current].value.state == JRunning then current else jobs.Length, JRunning);
      if candidate != NoJob {
        previous := candidate;
        return;
      }
      previous := current;
    }

    method ResetCurrentJob()
      modifies this`current, this`previous
      ensures Marks(current, previous) == ResetCurrent(jobs[..], old(Marks(current, previous)))
      ensures BothLive(jobs[..], Marks(current, previous)) && WellChosen(jobs[..], Marks(current, previous))
      ensures BothChosen(jobs[..], old(Marks(current, previous)), Marks(current, previous))
    {
      hide BothChosen, PreviousChosen;
      ResetCurrentChooses(jobs[..], Marks(current, previous));
      ResetCurrentPrefers(jobs[..], Marks(current, previous));
      var candidate := NoJob;
      if InState(jobs[..], current, JStopped) {
        candidate := current;
      } else {
        if InState(jobs[..], previous, JStopped) { candidate := previous; }
        if candidate == NoJob { candidate := MostRecentJobInState(jobs.Length, JStopped); }
        if candidate == NoJob { candidate := MostRecentJobInState(jobs.Length, JRunning); }
      }
      if candidate != NoJob {
        SetCurrentJob(candidate);
      } else {
        current, previous := NoJob, NoJob;
      }
    }

    // delete_job
    method DeleteJob(index: int)
      requires Valid() && LiveAt(jobs[..], index)
      modifies this, jobs
      ensures Valid() && jobs == old(jobs) && jobs[..] == old(jobs[..])[index := None] && pipeline == old(pipeline)
      ensures Marks(current, previous) ==
              if index == old(current) || index == old(previous)
              then ResetCurrent(jobs[..], old(Marks(current, previous))) else old(Marks(current, previous))
      ensures saved == Remember(old(saved), Last(old(jobs[index].value.pipe)), childmax)
    {
      hide ValidJob, ResetCurrent;
      var temp := jobs[index].value;
      PipeNotEmpty(temp);
      ghost var was := jobs[..];
      saved := Remember(saved, Last(temp.pipe), childmax);
      ClearSlot(index);
      if index == current || index == previous {
        ResetCurrentJob();
      } else {
        MarksStayLive(was, index, Marks(current, previous));
      }
    }

    // The slot is emptied, and the counters and indices follow.
    method ClearSlot(index: int)
      requires ValidJobs() && Counted() && jobs.Length % JobSlots == 0 && Ends(jobs[..], firstj, lastj)
      requires LiveAt(jobs[..], index)
      modifies this`injobs, this`ndead, this`njobs, this`firstj, this`lastj, jobs
      ensures ValidJobs() && Counted() && Ends(jobs[..], firstj, lastj)
      ensures jobs[..] == old(jobs[..])[index := None]
    {
      hide ValidJob, LiveCount, DeadCount, ProcessCount, Ends;
      var temp := jobs[index].value;
      ghost var was := jobs[..];
      jobs[index] := None;
      assert jobs[..] == was[index := None];
      CountersUpdated(was, index, None);
      EndsCleared(was, index, firstj, lastj);
      injobs := injobs - |temp.pipe|;
      if temp.state == JDead { ndead := ndead - 1; }
      njobs := njobs - 1;
      if njobs == 0 {
        firstj, lastj := 0, 0;
      } else if jobs[firstj].None? || jobs[lastj].None? {
        ResetJobIndices();
      }
    }

    // cleanup_dead_jobs
    method CleanupDeadJobs()
      requires Valid()
      modifies this, jobs
      ensures Valid() && jobs == old(jobs) && jobs[..] == Cleaned(old(jobs[..])) && pipeline == old(pipeline)
      ensures Marks(current, previous) == MarksCleaned(old(jobs[..]), |old(jobs[..])|, old(Marks(current, previous)))
      ensures saved == SavedCleaned(old(jobs[..]), |old(jobs[..])|, old(saved), childmax)
    {
      hide ValidJobs, Counted, Ends, ResetCurrent, BothLive, CleanedUpTo, Remember;
      ghost var s, m := jobs[..], Marks(current, previous);
      if jobs.Length == 0 { return; }
      CleanedNext(s, 0);
      var i := 0;
      while i < jobs.Length
        invariant Valid() && jobs == old(jobs) && 0 <= i <= jobs.Length && pipeline == old(pipeline)
        invariant jobs[..] == CleanedUpTo(s, i) && Marks(current, previous) == MarksCleaned(s, i, m)
        invariant saved == SavedCleaned(s, i, old(saved), childmax)
      {
        CleanedNext(s, i);
        assert jobs[..][i] == s[i];
        if jobs[i].Some? && jobs[i].value.state == JDead && jobs[i].value.notified {
          HasProcesses(i);
          DeleteJob(i);
        }
        i := i + 1;
      }
    }

    lemma HasProcesses(i: int)
      requires ValidJobs() && LiveAt(jobs[..], i)
      ensures jobs[i].value.pipe != []
    {
    }

    // mark_dead_jobs_as_notified (0): all but the newest childmax statuses of
    // dead jobs, and of a script not that of `$!'.
    method MarkDeadJobs(interactiveShell: bool, lastAsync: int)
      requires Valid()
      modifies jobs
      ensures Valid() && jobs[..] == Marked(old(jobs[..]), childmax, interactiveShell, lastAsync)
    {
      hide ValidJobs, Counted, Ends, BothLive, Markable, MarkLimit, DeadProcesses, Marked, MarkedUpTo;
      ghost var s := jobs[..];
      var deadProcesses := CountDead();
      MarkedIs(s, childmax, interactiveShell, lastAsync);
      if deadProcesses <= childmax { return; }
      var i := 0;
      while i < jobs.Length
        invariant 0 <= i <= jobs.Length == |s| && Valid()
        invariant jobs[..] == MarkedUpTo(s, i, interactiveShell, lastAsync)
        invariant MarkLimit(s, 0, DeadProcesses(s), childmax, interactiveShell, lastAsync)
               == MarkLimit(s, i, deadProcesses, childmax, interactiveShell, lastAsync)
      {
        MarkNext(s, i, deadProcesses, childmax, interactiveShell, lastAsync);
        assert jobs[..][i] == s[i];
        if jobs[i].Some? && jobs[i].value.state == JDead {
          HasProcesses(i);
          if interactiveShell || Last(jobs[i].value.pipe).pid != lastAsync {
            deadProcesses := deadProcesses - |jobs[i].value.pipe|;
            if deadProcesses <= childmax { return; }
            Notify(i);
          }
        }
        i := i + 1;
      }
      MarkEnds(s, deadProcesses, childmax, interactiveShell, lastAsync);
    }

    method CountDead() returns (n: nat)
      requires Valid()
      ensures n == DeadProcesses(jobs[..])
    {
      n := 0;
      var i := 0;
      while i < jobs.Length
        invariant 0 <= i <= jobs.Length && n == DeadProcesses(jobs[..i])
      {
        assert jobs[..i + 1][..i] == jobs[..i];
        if jobs[i].Some? && jobs[i].value.state == JDead {
          n := n + |jobs[i].value.pipe|;
        }
        i := i + 1;
      }
      assert jobs[..i] == jobs[..];
    }

    method Notify(i: nat)
      requires Valid() && InState(jobs[..], i, JDead)
      modifies jobs
      ensures Valid() && jobs[..] == old(jobs[..])[i := Some(old(jobs[i]).value.(notified := true))]
    {
      var j := jobs[i].value.(notified := true);
      assert ValidJob(jobs[i].value);
      UpdateSlot(i, j);
    }

    // Replaces a live job by one of as many processes.
    method UpdateSlot(i: nat, j: Job)
      requires LiveAt(jobs[..], i) && ValidJobs() && ValidJob(j) && |j.pipe| == |jobs[i].value.pipe|
      requires njobs == LiveCount(jobs[..]) && injobs == ProcessCount(jobs[..])
      requires Ends(jobs[..], firstj, lastj) && BothLive(jobs[..], Marks(current, previous))
      modifies jobs
      ensures jobs[..] == old(jobs[..])[i := Some(j)] && ValidJobs()
      ensures njobs == LiveCount(jobs[..]) && injobs == ProcessCount(jobs[..])
      ensures DeadCount(jobs[..]) == DeadCount(old(jobs[..])) - OneDead(old(jobs[i])) + OneDead(Some(j))
      ensures Ends(jobs[..], firstj, lastj) && BothLive(jobs[..], Marks(current, previous))
    {
      hide ValidJob;
      ghost var s := jobs[..];
      jobs[i] := Some(j);
      assert jobs[..] == s[i := Some(j)];
      CountersUpdated(s, i, Some(j));
      SameLiveSlots(s, jobs[..], firstj, lastj, Marks(current, previous));
    }

    // realloc_jobs_list: the jobs move to the front of an array with room for
    // at least one more, in place if the size stays the same.
    method ReallocJobsList()
      requires Valid()
      modifies this, jobs
      ensures Valid() && (jobs == old(jobs) || fresh(jobs)) && pipeline == old(pipeline)
      ensures jobs.Length == NewSize(old(njobs)) > njobs
      ensures jobs[..] == Compacted(old(jobs[..]), jobs.Length) && njobs == old(njobs) && saved == old(saved)
      ensures old(current) != NoJob ==>
                && current == NewIndex(old(jobs[..]), old(current))
                && previous == NewIndex(old(jobs[..]), old(previous))
      ensures old(current) == NoJob ==> Marks(current, previous) == ResetCurrent(jobs[..], Marks(NoJob, NoJob))
    {
      hide ValidJob, ValidJobs, Ends, ResetCurrent, LiveCount, ProcessCount, DeadCount, Compacted, NewSize, BothLive;
      MarksMoved(jobs[..], Marks(current, previous));
      MoveTable();
      if current == NoJob || previous == NoJob || current > lastj || previous > lastj {
        ResetCurrentJob();
      }
    }

    // realloc_jobs_list up to the last test.
    method MoveTable()
      requires Valid()
      modifies this`jobs, this`firstj, this`lastj, this`njobs, this`ndead, this`current, this`previous, jobs
      ensures ValidJobs() && Counted() && Ends(jobs[..], firstj, lastj) && (jobs == old(jobs) || fresh(jobs))
      ensures jobs.Length == NewSize(old(njobs)) > njobs && jobs.Length % JobSlots == 0
      ensures jobs[..] == Compacted(old(jobs[..]), jobs.Length) && njobs == old(njobs)
      ensures BothLive(jobs[..], Marks(current, previous))
      ensures old(current) != NoJob ==>
                && current == NewIndex(old(jobs[..]), old(current)) <= lastj
                && previous == NewIndex(old(jobs[..]), old(previous)) <= lastj
      ensures old(current) == NoJob ==> Marks(current, previous) == Marks(NoJob, NoJob)
    {
      hide ValidJob, ValidJobs, Ends, LiveCount, ProcessCount, DeadCount, Compacted, NewSize, BothLive;
      ghost var s, m := jobs[..], Marks(current, previous);
      SlotsValid();
      MarksMoved(s, m);
      var nsize := ListSize(njobs);
      var nlist := jobs;
      if jobs.Length != nsize { nlist := new Option<Job>[nsize](_ => None); }
      var ncur, nprev, j := MoveJobs(nlist);
      CompactedTable(s, nsize, m);
      firstj := 0;
      lastj := if j > 0 then j - 1 else 0;
      njobs := j;
      jobs := nlist;
      if ncur != NoJob { current := ncur; }
      if nprev != NoJob { previous := nprev; }
      MovedJobsValid(s, nsize);
    }

    lemma SlotsValid()
      requires ValidJobs()
      ensures ValidSlots(jobs[..])
    {
      hide ValidJob;
    }

    lemma MovedJobsValid(s: Slots, size: nat)
      requires LiveCount(s) < size && ValidSlots(s) && jobs[..] == Compacted(s, size)
      ensures ValidJobs()
    {
      hide ValidJob;
      CompactedValid(s, size);
      assert forall k :: 0 <= k < jobs.Length ==> jobs[k] == jobs[..][k];
    }

    method ListSize(n: int) returns (nsize: nat)
      requires n >= 0
      ensures nsize == NewSize(n) > n && nsize % JobSlots == 0
    {
      nsize := (n + JobSlots - 1) / JobSlots * JobSlots;
      var i := n % JobSlots;
      if i == 0 || i > JobSlots / 2 { nsize := nsize + JobSlots; }
    }

    // The copying loop of realloc_jobs_list.
    method MoveJobs(nlist: array<Option<Job>>) returns (ncur: int, nprev: int, j: nat)
      requires Valid() && LiveCount(jobs[..]) <= nlist.Length
      requires nlist != jobs ==> forall k :: 0 <= k < nlist.Length ==> nlist[k].None?
      modifies nlist, this`ndead
      ensures nlist[..] == Compacted(old(jobs[..]), nlist.Length) && j == old(njobs)
      ensures ndead == DeadCount(old(jobs[..]))
      ensures ncur == (if old(current) == NoJob then NoJob else NewIndex(old(jobs[..]), old(current)))
      ensures nprev == (if old(previous) == NoJob then NoJob else NewIndex(old(jobs[..]), old(previous)))
    {
      hide ValidJob, Ends, Live, DeadCount, Compacted, ProcessCount;
      ghost var s := jobs[..];
      ncur, nprev, j := NoJob, NoJob, 0;
      ndead := 0;
      Prefixes(s, 0);
      var i := 0;
      while i < jobs.Length
        invariant 0 <= j <= i <= jobs.Length && s == old(jobs[..])
        invariant j == LiveCount(s[..i]) && j <= LiveCount(s) && ndead == DeadCount(s[..i])
        invariant forall k :: 0 <= k < j ==> nlist[k] == Some(Live(s)[k])
        invariant nlist != jobs ==> forall k :: j <= k < nlist.Length ==> nlist[k].None?
        invariant forall k :: i <= k < jobs.Length ==> jobs[k] == s[k]
        invariant ncur == (if 0 <= current < i then NewIndex(s, current) else NoJob)
        invariant nprev == (if 0 <= previous < i then NewIndex(s, previous) else NoJob)
      {
        Prefixes(s, i);
        if jobs[i].Some? {
          if i == current { ncur := j; }
          if i == previous { nprev := j; }
          if jobs[i].value.state == JDead { ndead := ndead + 1; }
          nlist[j] := jobs[i];
          j := j + 1;
        }
        i := i + 1;
      }
      assert s[..jobs.Length] == s;
      ClearFrom(nlist, j);
      CompactedIs(s, nlist[..]);
    }

    method ClearFrom(nlist: array<Option<Job>>, j: nat)
      requires j <= nlist.Length
      modifies nlist
      ensures forall k :: 0 <= k < j ==> nlist[k] == old(nlist[k])
      ensures forall k :: j <= k < nlist.Length ==> nlist[k].None?
    {
      var n := j;
      while n < nlist.Length
        invariant j <= n <= nlist.Length
        invariant forall k :: 0 <= k < j ==> nlist[k] == old(nlist[k])
        invariant forall k :: j <= k < n ==> nlist[k].None?
      {
        nlist[n] := None;
        n := n + 1;
      }
    }

    // compact_jobs_list
    method CompactJobsList(interactiveShell: bool, lastAsync: int) returns (slot: int)
      requires Valid()
      modifies this, jobs
      ensures Valid() && (jobs == old(jobs) || fresh(jobs)) && pipeline == old(pipeline)
      ensures 0 <= slot <= jobs.Length && (slot < jobs.Length ==> jobs[slot].None?)
      ensures (jobs.Length > 0 ==> slot < jobs.Length) && (njobs == 0 ==> slot == 0)
      ensures (forall k :: LiveAt(jobs[..], k) ==> k < slot) && (slot > 0 ==> LiveAt(jobs[..], slot - 1))
      ensures Survivors(jobs[..]) == Survivors(old(jobs[..]))
      ensures var s := Marked(old(jobs[..]), childmax, interactiveShell, lastAsync);
        && (jobs.Length == 0 ==> s == [])
        && (s != [] ==>
              && CompactedFrom(s, jobs[..])
              && Marks(current, previous) == MarksCompacted(s, old(Marks(current, previous)), jobs[..])
              && saved == SavedCleaned(s, |s|, old(saved), childmax))
    {
      hide ValidJobs, Counted, Ends, BothLive, LiveCount, Compacted, Survivors, Marked, MarksCleaned, SavedCleaned;
      hide MovedMarks, Cleaned;
      ghost var s := jobs[..];
      if jobs.Length == 0 { return 0; }
      MarkDeadJobs(interactiveShell, lastAsync);
      MarkingSpares(s, childmax, interactiveShell, lastAsync);
      NotifiedSurvivors(s, jobs[..]);
      ghost var t := jobs[..];
      CleanupDeadJobs();
      CleanedSurvivors(t);
      slot := MoveTogether();
    }

    // The rest of compact_jobs_list.
    method MoveTogether() returns (slot: int)
      requires Valid()
      modifies this, jobs
      ensures Valid() && (jobs == old(jobs) || fresh(jobs)) && pipeline == old(pipeline)
      ensures 0 <= slot < jobs.Length && jobs[slot].None? && (njobs == 0 ==> slot == 0)
      ensures (forall k :: LiveAt(jobs[..], k) ==> k < slot) && (slot > 0 ==> LiveAt(jobs[..], slot - 1))
      ensures Survivors(jobs[..]) == Survivors(old(jobs[..]))
      ensures LiveCount(old(jobs[..])) <= jobs.Length && jobs[..] == Compacted(old(jobs[..]), jobs.Length)
      ensures Marks(current, previous) == MovedMarks(old(jobs[..]), old(Marks(current, previous)), jobs[..])
      ensures saved == old(saved)
    {
      hide ValidJob, ResetCurrent, LiveCount, Compacted, ProcessCount, DeadCount, Survivors, NewIndex, NewSize;
      ghost var u := jobs[..];
      ReallocJobsList();
      CompactedCounters(u, jobs.Length);
      FirstFree(jobs[..], firstj, lastj, u);
      slot := if lastj != 0 || jobs[lastj].Some? then lastj + 1 else 0;
    }

    // ------------------------------------------------------- new jobs

    // add_process; PipelineRing.dfy has the ring that holds them.
    method AddProcess(pid: int)
      requires Valid()
      modifies this`pipeline
      ensures Valid() && pipeline == old(pipeline) + [Process(pid, Exited(0), true)]
    {
      hide ValidJobs, Ends;
      pipeline := pipeline + [Process(pid, Exited(0), true)];
    }

    // Where stop_pipeline looks for a free slot: jobs.Length if the last slot
    // is taken.
    method FindSlot(interactive: bool) returns (i: nat)
      requires Valid()
      ensures i <= jobs.Length && (forall k :: LiveAt(jobs[..], k) ==> k < i) && (njobs == 0 ==> i == 0)
      ensures i > 0 ==> LiveAt(jobs[..], i - 1)
    {
      hide ValidJob, ProcessCount, DeadCount, LiveCount;
      NoneAlive(jobs[..]);
      if interactive {
        i := jobs.Length;
        while i > 0
          invariant i <= jobs.Length && forall k :: i <= k < jobs.Length ==> jobs[k].None?
        {
          if jobs[i - 1].Some? {
            assert LiveAt(jobs[..], i - 1);
            return;
          }
          i := i - 1;
        }
      } else {
        i := if lastj != 0 then lastj + 1 else lastj;
        while i < jobs.Length
          invariant lastj <= i <= jobs.Length && forall k :: LiveAt(jobs[..], k) ==> k <= i
          invariant (njobs == 0 ==> i == 0) && (i > 0 ==> LiveAt(jobs[..], i - 1))
        {
          if jobs[i].None? { return; }
          assert LiveAt(jobs[..], i);
          i := i + 1;
        }
      }
    }

    // JOB_SLOTS more slots.
    method Grow()
      requires Valid()
      modifies this`jobs
      ensures Valid() && fresh(jobs) && jobs.Length == old(jobs.Length) + JobSlots
      ensures jobs[..] == old(jobs[..]) + seq(JobSlots, _ => None)
    {
      hide ValidJob, ProcessCount, DeadCount;
      ghost var s := jobs[..];
      var n := jobs.Length;
      var more := new Option<Job>[n + JobSlots](_ => None);
      var k := 0;
      while k < n
        modifies more
        invariant 0 <= k <= n
        invariant forall j :: 0 <= j < k ==> more[j] == jobs[j]
        invariant forall j :: k <= j < n + JobSlots ==> more[j] == None
      {
        more[k] := jobs[k];
        k := k + 1;
      }
      CountersPadded(s, JobSlots);
      jobs := more;
      assert jobs[..] == s + seq(JobSlots, _ => None);
      PaddedTable(s, JobSlots, firstj, lastj, Marks(current, previous));
    }

    // The slot gets the job; the counters and j_lastj follow.
    method Install(i: nat, j: Job)
      requires Valid() && i < jobs.Length && ValidJob(j)
      requires (forall k :: LiveAt(jobs[..], k) ==> k < i) && (njobs == 0 ==> i == 0)
      modifies jobs, this`ndead, this`injobs, this`njobs, this`lastj
      ensures Valid() && jobs[..] == old(jobs[..])[i := Some(j)] && old(jobs[i]).None? && lastj == i
    {
      hide ValidJob, ProcessCount, DeadCount, LiveCount;
      ghost var s := jobs[..];
      assert !LiveAt(s, i);
      jobs[i] := Some(j);
      assert jobs[..] == s[i := Some(j)];
      CountersUpdated(s, i, Some(j));
      InstalledTable(s, i, j, firstj, lastj, Marks(current, previous));
      if j.state == JDead { ndead := ndead + 1; }
      injobs := injobs + |j.pipe|;
      lastj := i;
      njobs := njobs + 1;
    }

    // The processes of the pipeline become job i.
    method InstallPipeline(i: nat, async: bool)
      requires Valid() && i < jobs.Length && pipeline != []
      requires (forall k :: LiveAt(jobs[..], k) ==> k < i) && (njobs == 0 ==> i == 0)
      modifies jobs, this`ndead, this`injobs, this`njobs, this`lastj, this`pipeline
      ensures Valid() && pipeline == [] && lastj == i && LiveAt(jobs[..], i)
      ensures var j := NewJob(old(pipeline), async);
        && jobs[..] == old(jobs[..])[i := Some(j)] && jobs[..][i := None] == old(jobs[..])
        && Live(jobs[..]) == Live(old(jobs[..])) + [j]
        && Survivors(jobs[..]) == Survivors(old(jobs[..])) + (if j.state == JDead then [] else [j])
    {
      hide ValidJob, ValidJobs, Ends, BothLive, ProcessCount, DeadCount, LiveCount, NewState, Survivors, Live;
      ghost var s := jobs[..];
      var j := NewJob(pipeline, async);
      NewStateValid(j);
      pipeline := [];
      Install(i, j);
      Appended(s, i, j);
    }

    // stop_pipeline: the processes become the newest job.  `crowded' is a
    // shell that compacts the table before it grows past MaxJobsInArray.
    method StopPipeline(async: bool, interactive: bool, crowded: bool, interactiveShell: bool, lastAsync: int)
      requires Valid()
      modifies this, jobs
      ensures Valid() && pipeline == []
      ensures old(pipeline) == [] ==> Survivors(jobs[..]) == Survivors(old(jobs[..]))
      ensures old(pipeline) != [] ==>
                var j := NewJob(old(pipeline), async);
                && LiveAt(jobs[..], lastj) && jobs[lastj] == Some(j)
                && Survivors(jobs[..]) == Survivors(old(jobs[..])) + (if j.state == JDead then [] else [j])
                && (lastj > 0 ==> LiveAt(jobs[..], lastj - 1))
                && (Crammed(crowded, old(jobs[..])) ==>
                      CompactedFrom(Marked(Cleaned(old(jobs[..])), childmax, interactiveShell, lastAsync),
                                    jobs[..][lastj := None]))
                && (!Crammed(crowded, old(jobs[..])) ==>
                      && |Roomy(Cleaned(old(jobs[..])), lastj)| == jobs.Length
                      && jobs[..] == Roomy(Cleaned(old(jobs[..])), lastj)[lastj := Some(j)]
                      && Live(jobs[..]) == Live(Cleaned(old(jobs[..]))) + [j])
      ensures Crammed(crowded, old(jobs[..])) ==>
                var t := Marked(Cleaned(old(jobs[..])), childmax, interactiveShell, lastAsync);
                var m := MarksCleaned(old(jobs[..]), |old(jobs[..])|, old(Marks(current, previous)));
                var c := if old(pipeline) == [] then jobs[..] else jobs[..][lastj := None];
                && Marks(current, previous) ==
                   (if async then ResetCurrent(jobs[..], MarksCompacted(t, m, c)) else MarksCompacted(t, m, c))
                && saved == SavedCleaned(t, |t|, SavedCleaned(old(jobs[..]), |old(jobs[..])|, old(saved), childmax), childmax)
      ensures !Crammed(crowded, old(jobs[..])) ==>
                var m := MarksCleaned(old(jobs[..]), |old(jobs[..])|, old(Marks(current, previous)));
                && Marks(current, previous) == (if async then ResetCurrent(jobs[..], m) else m)
                && saved == SavedCleaned(old(jobs[..]), |old(jobs[..])|, old(saved), childmax)
      ensures async ==> WellChosen(jobs[..], Marks(current, previous))
    {
      hide ValidJob, ValidJobs, Ends, BothLive, ProcessCount, DeadCount, LiveCount, NewState, Survivors, Live;
      hide MarksCleaned, SavedCleaned, ResetCurrent, Crammed, CompactedFrom, MarksCompacted, Marked;
      var i := MakeRoom(interactive, crowded, interactiveShell, lastAsync);
      ghost var s := jobs[..];
      if pipeline != [] { InstallPipeline(i, async); }
      if async { ResetCurrentJob(); }
    }

    // A free slot behind all jobs, after what cleaning, compacting and growing
    // it takes.
    method MakeRoom(interactive: bool, crowded: bool, interactiveShell: bool, lastAsync: int) returns (i: nat)
      requires Valid()
      modifies this, jobs
      ensures Valid() && i < jobs.Length && pipeline == old(pipeline) && (jobs == old(jobs) || fresh(jobs))
      ensures (forall k :: LiveAt(jobs[..], k) ==> k < i) && (njobs == 0 ==> i == 0)
      ensures i > 0 ==> LiveAt(jobs[..], i - 1)
      ensures Survivors(jobs[..]) == Survivors(old(jobs[..]))
      ensures Crammed(crowded, old(jobs[..])) ==>
                var t := Marked(Cleaned(old(jobs[..])), childmax, interactiveShell, lastAsync);
                var m := MarksCleaned(old(jobs[..]), |old(jobs[..])|, old(Marks(current, previous)));
                && CompactedFrom(t, jobs[..])
                && Marks(current, previous) == MarksCompacted(t, m, jobs[..])
                && saved == SavedCleaned(t, |t|, SavedCleaned(old(jobs[..]), |old(jobs[..])|, old(saved), childmax), childmax)
      ensures !Crammed(crowded, old(jobs[..])) ==>
                && jobs[..] == Roomy(Cleaned(old(jobs[..])), i) && Live(jobs[..]) == Live(Cleaned(old(jobs[..])))
                && Marks(current, previous) == MarksCleaned(old(jobs[..]), |old(jobs[..])|, old(Marks(current, previous)))
                && saved == SavedCleaned(old(jobs[..]), |old(jobs[..])|, old(saved), childmax)
    {
      hide ValidJob, ValidJobs, Ends, BothLive, ProcessCount, DeadCount, LiveCount, Survivors, Live, MarksCleaned;
      hide SavedCleaned, Marked, MovedMarks, Compacted;
      ghost var s := jobs[..];
      CleanupDeadJobs();
      CleanedSurvivors(s);
      i := FindSlot(interactive);
      if crowded && i == jobs.Length && jobs.Length >= MaxJobsInArray {
        i := CompactJobsList(interactiveShell, lastAsync);
      }
      if i == jobs.Length {
        ghost var t := jobs[..];
        Grow();
        CountersPadded(t, JobSlots);
        PaddedSurvivors(t, JobSlots);
      }
    }

    // ------------------------------------------------------- changes of state

    // A live job becomes another of as many processes; j_ndead follows.
    method ChangeJob(i: nat, j: Job)
      requires Valid() && LiveAt(jobs[..], i) && ValidJob(j) && |j.pipe| == |jobs[i].value.pipe|
      requires jobs[i].value.state != JDead
      modifies jobs, this`ndead
      ensures Valid() && jobs[..] == old(jobs[..])[i := Some(j)]
    {
      hide ValidJob, Ends, BothLive, LiveCount, DeadCount, ProcessCount;
      UpdateSlot(i, j);
      if j.state == JDead { ndead := ndead + 1; }
    }

    // set_job_running
    method SetJobRunning(i: nat)
      requires Valid() && InState(jobs[..], i, JStopped)
      modifies jobs, this`ndead
      ensures Valid() && jobs[..] == old(jobs[..])[i := Some(Resumed(old(jobs[i]).value))]
    {
      hide Ends, BothLive, LiveCount, DeadCount, ProcessCount;
      var job := jobs[i].value;
      assert ValidJob(job);
      ResumedValid(job);
      var pipe, k := job.pipe, 0;
      while k < |pipe|
        invariant 0 <= k <= |pipe| == |job.pipe|
        invariant forall n :: 0 <= n < k ==> pipe[n] == Resumed(job).pipe[n]
        invariant forall n :: k <= n < |pipe| ==> pipe[n] == job.pipe[n]
      {
        if PStopped(pipe[k]) { pipe := pipe[k := pipe[k].(running := true)]; }
        k := k + 1;
      }
      assert pipe == Resumed(job).pipe;
      ChangeJob(i, job.(pipe := pipe, state := JRunning));
    }

    // start_job, up to the wait for a job in the foreground.
    method StartJob(i: nat, foreground: bool) returns (result: Start)
      requires Valid() && LiveAt(jobs[..], i)
      modifies this`ndead, this`current, this`previous, jobs
      ensures Valid() && (result == Refused <==> old(jobs[i]).value.state == JDead)
      ensures result == Already <==> !foreground && old(jobs[i]).value.state == JRunning
      ensures result in {Refused, Already} ==>
                jobs[..] == old(jobs[..]) && Marks(current, previous) == old(Marks(current, previous))
      ensures result !in {Refused, Already} ==>
                jobs[..] == old(jobs[..])[i := Some(Started(old(jobs[i]).value, foreground))]
      ensures result == Foreground ==>
                && current == i && Marks(current, previous) == SetCurrent(old(jobs[..]), old(Marks(current, previous)), i)
                && PreviousChosen(old(jobs[..]), old(Marks(current, previous)), i, previous)
      ensures result == Background ==>
                && Marks(current, previous) == ResetCurrent(jobs[..], old(Marks(current, previous)))
                && WellChosen(jobs[..], Marks(current, previous))
                && BothChosen(jobs[..], old(Marks(current, previous)), Marks(current, previous))
      ensures result != Refused ==> InState(jobs[..], i, JRunning)
    {
      hide ValidJob, ValidJobs, Ends, LiveCount, DeadCount, ProcessCount, SetCurrent, ResetCurrent, WellChosen, BothLive;
      hide PreviousChosen, BothChosen;
      var job := jobs[i].value;
      if job.state == JDead { return Refused; }
      var alreadyRunning := job.state == JRunning;
      if !foreground && alreadyRunning { return Already; }
      if foreground {
        SetCurrentIsLive(jobs[..], Marks(current, previous), i);
        SetCurrentJob(i);
      }
      SetFlags(i, false, job.foreground || foreground);
      if !alreadyRunning { SetJobRunning(i); }
      if !foreground { SetFlags(i, false, false); }
      if !alreadyRunning { SetFlags(i, true, foreground); }
      if !foreground { ResetCurrentJob(); }
      result := if foreground then Foreground else Background;
    }

    method SetFlags(i: nat, notified: bool, foreground: bool)
      requires Valid() && LiveAt(jobs[..], i) && jobs[i].value.state != JDead
      modifies jobs, this`ndead
      ensures Valid()
      ensures jobs[..] == old(jobs[..])[i := Some(old(jobs[i]).value.(notified := notified, foreground := foreground))]
    {
      var j := jobs[i].value.(notified := notified, foreground := foreground);
      FlagsDoNotMatter(i, j);
      ChangeJob(i, j);
    }

    lemma FlagsDoNotMatter(i: nat, j: Job)
      requires ValidJobs() && LiveAt(jobs[..], i)
      requires j.pipe == jobs[i].value.pipe && j.state == jobs[i].value.state
      ensures ValidJob(j)
    {
    }

    // ------------------------------------------------------- events

    // One turn of waitchld: a child of the shell changed its state.  The job,
    // or NoJob, and whether the current job has to be chosen again.
    method ReportEvent(pid: int, status: Wait) returns (job: int, callSet: bool)
      requires Valid()
      modifies jobs, this`ndead, this`pipeline
      ensures Valid() && jobs == old(jobs)
      ensures pipeline == PipelineReported(old(pipeline), pid, status)
      ensures jobs[..] == SlotsReported(old(pipeline), old(jobs[..]), pid, status)
      ensures job == ReportedTo(old(pipeline), old(jobs[..]), pid)
      ensures job != NoJob ==> LiveAt(jobs[..], job) && LiveAt(old(jobs[..]), job)
      ensures callSet <==> job != NoJob && ChoosesAgain(old(jobs[..])[job].value.state, jobs[job].value.state)
    {
      hide ValidJob, Ends, BothLive, LiveCount, DeadCount, ProcessCount, FindProcess, FindJob, JobReported;
      job, callSet := NoJob, false;
      var k := FindProcess(pipeline, pid);
      if k < |pipeline| {
        pipeline := pipeline[k := ProcessReported(pipeline[k], status)];
        return;
      }
      var i := FindJob(jobs[..], pid);
      if i == jobs.Length { return; }
      assert Holds(jobs[..][i], pid);
      job := i;
      callSet := SetJobStatus(i, pid, status);
    }

    // set_job_status_and_cleanup, with the change of the process before it.
    method SetJobStatus(i: nat, pid: int, status: Wait) returns (callSet: bool)
      requires Valid() && LiveAt(jobs[..], i) && Holds(jobs[i], pid)
      modifies jobs, this`ndead
      ensures Valid() && jobs == old(jobs)
      ensures var was := old(jobs[i]).value;
        && jobs[..] == old(jobs[..])[i := Some(JobReported(was, FindProcess(was.pipe, pid), status))]
        && (callSet <==> ChoosesAgain(was.state, jobs[i].value.state))
    {
      hide Ends, BothLive, LiveCount, DeadCount, ProcessCount, FindProcess;
      var j := jobs[i].value;
      assert ValidJob(j);
      HoldsIsAlive(j, pid);
      var child := FindProcess(j.pipe, pid);
      ReportedValid(j, pid, status);
      var pipe := j.pipe[child := ProcessReported(j.pipe[child], status)];
      var running, stopped, k := false, false, 0;
      while k < |pipe|
        invariant 0 <= k <= |pipe|
        invariant running <==> exists n :: 0 <= n < k && pipe[n].running
        invariant stopped <==> exists n :: 0 <= n < k && PStopped(pipe[n])
      {
        running := running || pipe[k].running;
        stopped := stopped || PStopped(pipe[k]);
        k := k + 1;
      }
      assert running == AnyRunning(pipe) && stopped == AnyStopped(pipe);
      callSet := false;
      var j1 := j.(pipe := pipe, notified := false);
      if running && j.state != JStopped {
      } else if stopped {
        j1 := j1.(state := JStopped, foreground := false);
        callSet := true;
      } else if running {
        j1 := j1.(state := JRunning);
        callSet := true;
      } else {
        j1 := j1.(state := JDead);
      }
      ChangeJob(i, j1);
    }

    // waitchld over the events that waitpid reports.
    method WaitChildren(events: seq<(int, Wait)>)
      requires Valid()
      modifies this`ndead, this`pipeline, this`current, this`previous, jobs
      ensures Valid() && jobs == old(jobs)
      ensures var b := AfterEvents(Wake(old(pipeline), old(jobs[..]), NoJob, false), events);
        && pipeline == b.pipeline && jobs[..] == b.slots
        && (b.callSet && b.lastStopped != NoJob ==>
              && LiveAt(b.slots, b.lastStopped)
              && Marks(current, previous) == SetCurrent(b.slots, old(Marks(current, previous)), b.lastStopped)
              && current == b.lastStopped
              && PreviousChosen(b.slots, old(Marks(current, previous)), b.lastStopped, previous))
        && (b.callSet && b.lastStopped == NoJob ==>
              && Marks(current, previous) == ResetCurrent(b.slots, old(Marks(current, previous)))
              && WellChosen(b.slots, Marks(current, previous))
              && BothChosen(b.slots, old(Marks(current, previous)), Marks(current, previous)))
        && (!b.callSet ==> Marks(current, previous) == old(Marks(current, previous)))
    {
      hide ValidJobs, Ends, BothLive, LiveCount, DeadCount, ProcessCount, SetCurrent, ResetCurrent, AfterEvent;
      hide AfterEvents, WellChosen, PreviousChosen, BothChosen;
      ghost var a := Wake(pipeline, jobs[..], NoJob, false);
      SlotsValid();
      NoEvents(a);
      var lastStopped, callSet := NoJob, false;
      var n := 0;
      while n < |events|
        invariant 0 <= n <= |events| && Valid() && jobs == old(jobs)
        invariant current == old(current) && previous == old(previous)
        invariant Wake(pipeline, jobs[..], lastStopped, callSet) == AfterEvents(a, events[..n])
      {
        NextEvent(a, events, n);
        lastStopped, callSet := OneTurn(events[n].0, events[n].1, lastStopped, callSet);
        n := n + 1;
      }
      assert events[..n] == events;
      EventsKeepTheDead(a, events);
      if callSet {
        if lastStopped != NoJob {
          SetCurrentIsLive(jobs[..], Marks(current, previous), lastStopped);
          SetCurrentJob(lastStopped);
        } else {
          ResetCurrentJob();
        }
      }
    }

    // One turn of the loop of waitchld.
    method OneTurn(pid: int, status: Wait, lastStopped: int, callSet: bool) returns (last: int, call: bool)
      requires Valid()
      modifies jobs, this`ndead, this`pipeline
      ensures Valid() && jobs == old(jobs)
      ensures Wake(pipeline, jobs[..], last, call) ==
              AfterEvent(Wake(old(pipeline), old(jobs[..]), lastStopped, callSet), pid, status)
    {
      hide ValidJobs, Ends, BothLive, Counted, PipelineReported, SlotsReported, ReportedTo, ChoosesAgain;
      ghost var p, s := pipeline, jobs[..];
      var job, again := ReportEvent(pid, status);
      last, call := lastStopped, callSet || again;
      if job != NoJob {
        PipelineAlone(p, s, pid, status);
        if jobs[job].value.state == JStopped {
          last := job;
        } else if jobs[job].value.state == JDead && last == job {
          last := NoJob;
        }
      }
    }
  }

  // An event of a job leaves the pipeline under construction alone.
  lemma PipelineAlone(ps: seq<Process>, s: Slots, pid: int, status: Wait)
    ensures ReportedTo(ps, s, pid) != NoJob ==> PipelineReported(ps, pid, status) == ps
  {
  }

  lemma NoEvents(a: Wake)
    ensures AfterEvents(a, []) == a
  {
  }

  lemma NextEvent(a: Wake, events: seq<(int, Wait)>, n: nat)
    requires n < |events|
    ensures AfterEvents(a, events[..n + 1]) == AfterEvent(AfterEvents(a, events[..n]), events[n].0, events[n].1)
  {
    assert events[..n + 1][..n] == events[..n];
  }

  lemma MarkedIs(s: Slots, most: nat, interactiveShell: bool, lastAsync: int)
    ensures Marked(s, most, interactiveShell, lastAsync) ==
            if DeadProcesses(s) <= most then s
            else MarkedUpTo(s, MarkLimit(s, 0, DeadProcesses(s), most, interactiveShell, lastAsync), interactiveShell, lastAsync)
    ensures MarkedUpTo(s, 0, interactiveShell, lastAsync) == s
  {
  }

  // One turn of the loop that marks.
  lemma MarkNext(s: Slots, i: nat, dead: int, most: nat, interactiveShell: bool, lastAsync: int)
    requires i < |s|
    ensures MarkedUpTo(s, i, interactiveShell, lastAsync)[i] == s[i]
    ensures Markable(s[i], interactiveShell, lastAsync) <==>
            && s[i].Some? && s[i].value.state == JDead && s[i].value.pipe != []
            && (interactiveShell || Last(s[i].value.pipe).pid != lastAsync)
    ensures MarkLimit(s, i, dead, most, interactiveShell, lastAsync) ==
            if !Markable(s[i], interactiveShell, lastAsync) then
              MarkLimit(s, i + 1, dead, most, interactiveShell, lastAsync)
            else if dead - |s[i].value.pipe| <= most then i
            else MarkLimit(s, i + 1, dead - |s[i].value.pipe|, most, interactiveShell, lastAsync)
    ensures MarkedUpTo(s, i + 1, interactiveShell, lastAsync) ==
            var r := MarkedUpTo(s, i, interactiveShell, lastAsync);
            if Markable(s[i], interactiveShell, lastAsync) then r[i := Some(s[i].value.(notified := true))] else r
  {
  }

  lemma MarkEnds(s: Slots, dead: int, most: nat, interactiveShell: bool, lastAsync: int)
    ensures MarkLimit(s, |s|, dead, most, interactiveShell, lastAsync) == |s|
  {
  }

  lemma NoneAlive(s: Slots)
    ensures LiveCount(s) == 0 <==> forall k :: !LiveAt(s, k)
  {
    var i := NoneLive(s);
    hide LiveCount;
    if LiveCount(s) > 0 { assert LiveAt(s, i); }
  }

  lemma PaddedTable(s: Slots, n: nat, first: int, last: int, m: Marks)
    requires Ends(s, first, last) && BothLive(s, m) && LiveCount(s + seq(n, _ => None)) == LiveCount(s)
    ensures Ends(s + seq(n, _ => None), first, last) && BothLive(s + seq(n, _ => None), m)
  {
    hide LiveCount;
    var t: Slots := s + seq(n, _ => None);
    assert forall k :: LiveAt(t, k) <==> LiveAt(s, k);
  }

  lemma InstalledTable(s: Slots, i: nat, j: Job, first: int, last: int, m: Marks)
    requires i < |s| && (forall k :: LiveAt(s, k) ==> k < i) && (LiveCount(s) == 0 ==> i == 0)
    requires Ends(s, first, last) && BothLive(s, m)
    ensures Ends(s[i := Some(j)], first, i) && BothLive(s[i := Some(j)], m)
  {
    var t := s[i := Some(j)];
    CountersUpdated(s, i, Some(j));
    NoneAlive(s);
    hide LiveCount;
    assert forall k :: LiveAt(t, k) <==> LiveAt(s, k) || k == i;
  }

  // %+ and %- after compaction to c.
  function MovedMarks(s: Slots, m: Marks, c: Slots): Marks {
    if 0 <= m.current <= |s| && 0 <= m.previous <= |s| then Marks(NewIndex(s, m.current), NewIndex(s, m.previous))
    else ResetCurrent(c, Marks(NoJob, NoJob))
  }

  function NewSize(n: int): int {
    (n + JobSlots - 1) / JobSlots * JobSlots + if n % JobSlots == 0 || n % JobSlots > JobSlots / 2 then JobSlots else 0
  }

  lemma MarksMoved(s: Slots, m: Marks)
    requires BothLive(s, m)
    ensures m.current == NoJob <==> m.previous == NoJob
    ensures forall t :: BothLive(t, Marks(NoJob, NoJob))
  {
  }

  lemma CompactedIs(s: Slots, t: Slots)
    requires LiveCount(s) <= |t|
    requires forall k :: 0 <= k < LiveCount(s) ==> t[k] == Some(Live(s)[k])
    requires forall k :: LiveCount(s) <= k < |t| ==> t[k].None?
    ensures t == Compacted(s, |t|)
  {
    hide Live;
  }

  lemma Prefixes(s: Slots, i: nat)
    requires i <= |s|
    ensures LiveCount(s[..0]) == 0 && DeadCount(s[..0]) == 0 && LiveCount(s[..i]) <= LiveCount(s)
    ensures i < |s| ==>
              && LiveCount(s[..i + 1]) == LiveCount(s[..i]) + One(s[i])
              && DeadCount(s[..i + 1]) == DeadCount(s[..i]) + OneDead(s[i])
              && LiveCount(s[..i + 1]) <= LiveCount(s)
              && (s[i].Some? ==> Live(s)[LiveCount(s[..i])] == s[i].value)
  {
    hide Live, DeadCount;
    LivePrefix(s, i);
    EmptyPrefix(s);
    if i < |s| {
      LiveAppend(s, i);
      LivePrefix(s, i + 1);
      DeadAppend(s, i);
      if s[i].Some? { assert Live(s)[LiveCount(s[..i])] == Live(s[..i + 1])[LiveCount(s[..i])]; }
    }
  }

  lemma EmptyPrefix(s: Slots)
    ensures LiveCount(s[..0]) == 0 && DeadCount(s[..0]) == 0
  {
  }

  lemma DeadAppend(s: Slots, i: nat)
    requires i < |s|
    ensures DeadCount(s[..i + 1]) == DeadCount(s[..i]) + OneDead(s[i])
  {
    assert s[..i + 1][..i] == s[..i];
  }

  // The compacted table and its marks are valid.
  lemma CompactedTable(s: Slots, size: nat, m: Marks)
    requires LiveCount(s) < size && BothLive(s, m)
    ensures var c, n := Compacted(s, size), LiveCount(s);
      && LiveCount(c) == n && DeadCount(c) == DeadCount(s) && ProcessCount(c) == ProcessCount(s)
      && Ends(c, 0, if n > 0 then n - 1 else 0)
      && (ValidSlots(s) ==> ValidSlots(c))
      && (m.current != NoJob ==>
            && NewIndex(s, m.current) < n && NewIndex(s, m.previous) < n
            && BothLive(c, Marks(NewIndex(s, m.current), NewIndex(s, m.previous))))
  {
    CompactedCounters(s, size);
    if m.current != NoJob {
      CompactedKeeps(s, size, m.current);
      CompactedKeeps(s, size, m.previous);
    }
    if ValidSlots(s) { CompactedValid(s, size); }
  }

  lemma {:induction false} LiveValid(s: Slots)
    requires ValidSlots(s)
    ensures forall k :: 0 <= k < LiveCount(s) ==> ValidJob(Live(s)[k])
  {
    if s != [] {
      hide ValidJob;
      LiveValid(s[..|s| - 1]);
    }
  }

  lemma CompactedValid(s: Slots, size: nat)
    requires LiveCount(s) <= size && ValidSlots(s)
    ensures ValidSlots(Compacted(s, size))
  {
    hide ValidJob;
    LiveValid(s);
  }

  lemma FirstFree(c: Slots, first: int, last: int, s: Slots)
    requires |c| > LiveCount(s) && c == Compacted(s, |c|) && Ends(c, first, last)
    ensures LiveCount(s) == 0 ==> c[0].None? && last == 0
    ensures LiveCount(s) > 0 ==> last == LiveCount(s) - 1 && c[last].Some? && c[last + 1].None?
    ensures forall k :: LiveAt(c, k) ==> k < LiveCount(s)
  {
    CompactedCounters(s, |c|);
    if LiveCount(s) > 0 {
      assert LiveAt(c, LiveCount(s) - 1);
      assert LiveAt(c, last);
    }
  }

  lemma SameLiveSlots(s: Slots, t: Slots, first: int, last: int, m: Marks)
    requires |t| == |s| && (forall k :: LiveAt(s, k) <==> LiveAt(t, k)) && LiveCount(t) == LiveCount(s)
    requires Ends(s, first, last) && BothLive(s, m)
    ensures Ends(t, first, last) && BothLive(t, m)
  {
    hide LiveCount;
  }

  lemma PipeNotEmpty(j: Job)
    ensures ValidJob(j) ==> j.pipe != []
  {
  }

  lemma MarksStayLive(s: Slots, index: int, m: Marks)
    requires LiveAt(s, index) && BothLive(s, m) && m.current != index && m.previous != index
    ensures BothLive(s[index := None], m)
  {
  }

  // The ends of the table after one slot was emptied.
  lemma EndsCleared(s: Slots, index: int, first: int, last: int)
    requires LiveAt(s, index) && Ends(s, first, last)
    ensures var t := s[index := None];
      && (LiveCount(t) == 0 ==> Ends(t, 0, 0))
      && (LiveCount(t) > 0 ==>
            && 0 <= first < |s| && 0 <= last < |s|
            && (forall k :: LiveAt(t, k) ==> first <= k <= last)
            && (t[first].Some? && t[last].Some? ==> Ends(t, first, last)))
  {
    SomeLive(s, index);
    var t := s[index := None];
    forall k | LiveAt(t, k)
      ensures first <= k <= last
    {
      assert LiveAt(s, k);
    }
    hide LiveCount;
  }

  function Last(ps: seq<Process>): Process
    requires ps != []
  {
    ps[|ps| - 1]
  }
}
