// The circular chains of processes of jobs.c: the pipeline being built has
// its newest process first, the job made of it its oldest.

module PipelineRing {

  class ProcessNode {
    const pid: int
    var status: int
    var next: ProcessNode?

    constructor (pid: int)
      ensures this.pid == pid && status == 0 && next == null
    {
      this.pid, status, next := pid, 0, null;
    }
  }

  ghost predicate Distinct(ns: seq<ProcessNode>) {
    forall i, j :: 0 <= i < j < |ns| ==> ns[i] != ns[j]
  }

  // ns in order, each pointing to the next one.
  ghost predicate Chain(ns: seq<ProcessNode>)
    reads ns
  {
    forall i :: 0 <= i < |ns| - 1 ==> ns[i].next == ns[i + 1]
  }

  // A chain that closes.
  ghost predicate Ring(ns: seq<ProcessNode>)
    reads ns
  {
    ns != [] && Distinct(ns) && Chain(ns) && ns[|ns| - 1].next == ns[0]
  }

  // A chain that ends.
  ghost predicate List(head: ProcessNode?, ns: seq<ProcessNode>)
    reads ns
  {
    && Distinct(ns) && Chain(ns)
    && (ns == [] ==> head == null)
    && (ns != [] ==> head == ns[0] && ns[|ns| - 1].next == null)
  }

  function Pids(ns: seq<ProcessNode>): (r: seq<int>)
    ensures |r| == |ns|
  {
    seq(|ns|, k requires 0 <= k < |ns| => ns[k].pid)
  }

  ghost function Statuses(ns: seq<ProcessNode>): (r: seq<int>)
    reads ns
    ensures |r| == |ns|
  {
    seq(|ns|, k requires 0 <= k < |ns| reads ns => ns[k].status)
  }

  function Reversed<T>(s: seq<T>): (r: seq<T>)
    ensures |r| == |s|
    ensures forall k :: 0 <= k < |s| ==> r[k] == s[|s| - 1 - k]
  {
    seq(|s|, k requires 0 <= k < |s| => s[|s| - 1 - k])
  }

  // The last node of a ring, by walking round it.
  method RingEnd(head: ProcessNode, ghost ns: seq<ProcessNode>) returns (p: ProcessNode)
    requires Ring(ns) && head == ns[0]
    ensures p == ns[|ns| - 1]
  {
    p := head;
    ghost var k := 0;
    RingNext(ns, k);
    while p.next != head
      invariant 0 <= k < |ns| && p == ns[k]
      invariant p.next == (if k < |ns| - 1 then ns[k + 1] else head)
      decreases |ns| - k
    {
      RingNext(ns, k + 1);
      p := p.next;
      k := k + 1;
    }
  }

  lemma RingNext(ns: seq<ProcessNode>, k: nat)
    requires Ring(ns) && k < |ns|
    ensures ns[k].next == (if k < |ns| - 1 then ns[k + 1] else ns[0])
    ensures k < |ns| - 1 ==> ns[k].next != ns[0]
  {
  }

  // list_reverse
  method ListReverse(head: ProcessNode?, ghost ns: seq<ProcessNode>) returns (r: ProcessNode?)
    requires List(head, ns)
    modifies ns
    ensures List(r, Reversed(ns))
    ensures forall n :: n in ns ==> n.status == old(n.status)
  {
    ghost var k := 0;
    var list := head;
    r := null;
    assert forall i :: 0 <= i < |ns| - 1 ==> ns[i].next == ns[i + 1];
    while list != null
      invariant 0 <= k <= |ns|
      invariant list == if k < |ns| then ns[k] else null
      invariant r == if k > 0 then ns[k - 1] else null
      invariant forall i :: 0 < i < k ==> ns[i].next == ns[i - 1]
      invariant k > 0 ==> ns[0].next == null
      invariant forall i :: k <= i < |ns| - 1 ==> ns[i].next == ns[i + 1]
      invariant k < |ns| ==> ns[|ns| - 1].next == null
      invariant forall n :: n in ns ==> n.status == old(n.status)
      decreases |ns| - k
    {
      assert k < |ns| - 1 ==> ns[k].next == ns[k + 1];
      assert forall i :: k < i < |ns| ==> ns[i] != ns[k];
      assert forall i :: 0 <= i < k ==> ns[i] != ns[k];
      var next := list.next;
      list.next := r;
      r := list;
      list := next;
      k := k + 1;
    }
    ghost var m := Reversed(ns);
    forall i | 0 <= i < |m| - 1
      ensures m[i].next == m[i + 1]
    {
      assert m[i] == ns[|ns| - 1 - i] && m[i + 1] == ns[|ns| - 2 - i];
    }
  }

  // The last node of a list.
  method ListEnd(head: ProcessNode, ghost ns: seq<ProcessNode>) returns (p: ProcessNode)
    requires List(head, ns) && ns != []
    ensures p == ns[|ns| - 1]
  {
    p := head;
    ghost var k := 0;
    ListNext(head, ns, k);
    while p.next != null
      invariant 0 <= k < |ns| && p == ns[k]
      invariant p.next == (if k < |ns| - 1 then ns[k + 1] else null)
      decreases |ns| - k
    {
      ListNext(head, ns, k + 1);
      p := p.next;
      k := k + 1;
    }
  }

  lemma ListNext(head: ProcessNode?, ns: seq<ProcessNode>, k: nat)
    requires List(head, ns) && k < |ns|
    ensures ns[k].next == (if k < |ns| - 1 then ns[k + 1] else null)
  {
  }

  method CloseList(p: ProcessNode, head: ProcessNode, ghost ns: seq<ProcessNode>)
    requires List(head, ns) && ns != [] && p == ns[|ns| - 1]
    modifies p
    ensures Ring(ns) && p.status == old(p.status)
  {
    assert forall i :: 0 <= i < |ns| - 1 ==> ns[i].next == ns[i + 1] && ns[i] != p;
    p.next := head;
  }

  // the_pipeline
  class Pipeline {
    var head: ProcessNode?
    ghost var nodes: seq<ProcessNode>

    constructor ()
      ensures Valid() && nodes == []
    {
      head, nodes := null, [];
    }

    ghost predicate Valid()
      reads this, nodes
    {
      && (head == null <==> nodes == [])
      && (head != null ==> Ring(nodes) && nodes[0] == head)
    }

    // add_process
    method AddProcess(pid: int)
      requires Valid()
      modifies this, nodes
      ensures Valid() && nodes != [] && fresh(nodes[0]) && nodes == [nodes[0]] + old(nodes) && nodes[0].pid == pid
    {
      var t := new ProcessNode(pid);
      ghost var ns := nodes;
      t.next := head;
      if t.next == null {
        t.next := t;
      } else {
        var p := RingEnd(head, ns);
        p.next := t;
        assert ns[|ns| - 1].next == t;
      }
      head := t;
      nodes := [t] + ns;
      assert forall i :: 0 < i < |nodes| ==> nodes[i] == ns[i - 1];
    }

    // The part of stop_pipeline that makes the chain a job's.
    method TakePipeline() returns (pipe: ProcessNode, ghost ns: seq<ProcessNode>)
      requires Valid() && head != null
      modifies this, nodes
      ensures Valid() && head == null
      ensures Ring(ns) && ns[0] == pipe && ns == Reversed(old(nodes))
      ensures forall n :: n in old(nodes) ==> n.status == old(n.status)
    {
      ghost var was := nodes;
      var p := RingEnd(head, nodes);
      p.next := null;
      pipe := ListReverse(head, was);
      ns := Reversed(was);
      p := ListEnd(pipe, ns);
      CloseList(p, pipe, ns);
      head, nodes := null, [];
    }

    // A pipeline of k processes, created in this order, is a ring of exactly
    // these, in this order.
    method MakePipeline(pids: seq<int>) returns (pipe: ProcessNode, ghost ns: seq<ProcessNode>)
      requires Valid() && head == null && pids != []
      modifies this, nodes
      ensures Ring(ns) && ns[0] == pipe && Pids(ns) == pids && head == null
    {
      var k := 0;
      while k < |pids|
        invariant 0 <= k <= |pids| && Valid() && (k > 0 ==> head != null) && fresh(nodes)
        invariant Pids(nodes) == Reversed(pids[..k])
      {
        ghost var was := nodes;
        AddProcess(pids[k]);
        assert pids[..k + 1] == pids[..k] + [pids[k]];
        assert forall i :: 0 < i < |nodes| ==> nodes[i] == was[i - 1];
        assert forall i :: 0 < i < |nodes| ==> Pids(nodes)[i] == Pids(was)[i - 1];
        k := k + 1;
      }
      ghost var made := nodes;
      pipe, ns := TakePipeline();
      assert pids[..|pids|] == pids;
      assert forall i :: 0 <= i < |ns| ==> Pids(ns)[i] == Pids(made)[|ns| - 1 - i];
    }
  }

  // With pipefail, the status of the rightmost command that failed, or 0.
  function RightmostFailing(ss: seq<int>): (r: int)
    ensures r == 0 <==> forall k :: 0 <= k < |ss| ==> ss[k] == 0
    ensures r != 0 ==> exists k :: 0 <= k < |ss| && ss[k] == r && forall j :: k < j < |ss| ==> ss[j] == 0
  {
    if ss == [] then 0
    else
      var last := ss[|ss| - 1];
      if last != 0 then last
      else
        var r := RightmostFailing(ss[..|ss| - 1]);
        EarlierFailing(ss, r);
        r
  }

  lemma EarlierFailing(ss: seq<int>, r: int)
    requires ss != [] && ss[|ss| - 1] == 0
    requires var t := ss[..|ss| - 1]; r != 0 ==>
               exists k :: 0 <= k < |t| && t[k] == r && forall j :: k < j < |t| ==> t[j] == 0
    ensures r != 0 ==> exists k :: 0 <= k < |ss| && ss[k] == r && forall j :: k < j < |ss| ==> ss[j] == 0
    ensures var t := ss[..|ss| - 1];
      (forall k :: 0 <= k < |ss| ==> ss[k] == 0) <==> (forall k :: 0 <= k < |t| ==> t[k] == 0)
  {
    var t := ss[..|ss| - 1];
    if r != 0 {
      var k :| 0 <= k < |t| && t[k] == r && forall j :: k < j < |t| ==> t[j] == 0;
      assert ss[k] == r;
      forall j | k < j < |ss|
        ensures ss[j] == 0
      {
        if j < |t| { assert t[j] == 0; }
      }
    }
    assert forall k :: 0 <= k < |t| ==> t[k] == ss[k];
  }

  // raw_job_exit_status
  method RawJobExitStatus(pipe: ProcessNode, pipefail: bool, ghost ns: seq<ProcessNode>) returns (status: int)
    requires Ring(ns) && pipe == ns[0]
    ensures status == if pipefail then RightmostFailing(Statuses(ns)) else ns[|ns| - 1].status
  {
    if pipefail {
      ghost var ss := Statuses(ns);
      var fail := 0;
      var p := pipe;
      ghost var k := 0;
      assert ss[..0] == [];
      var done := false;
      while !done
        invariant 0 <= k <= |ns| && (!done ==> k < |ns| && p == ns[k]) && (done ==> k == |ns|)
        invariant fail == RightmostFailing(ss[..k])
        decreases |ns| - k
      {
        assert ss[..k + 1][..k] == ss[..k];
        RingNext(ns, k);
        if p.status != 0 { fail := p.status; }
        p := p.next;
        k := k + 1;
        done := p == pipe;
      }
      assert ss[..k] == ss;
      return fail;
    }
    var p := RingEnd(pipe, ns);
    status := p.status;
  }
}
