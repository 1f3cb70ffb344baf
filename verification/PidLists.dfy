/** Sorting the running processes into the watched groups, by command-name prefix. */
module PidLists {
  import opened Bytes
  import opened ThreadGroups

  datatype Process = Process(comm: seq<byte>, pid: int)

  /** The first group whose name begins the command name; |names| when there is none. */
  function GroupOf(names: seq<seq<byte>>, comm: seq<byte>, from: nat): (g: nat)
    requires from <= |names|
    ensures from <= g <= |names| && (g < |names| ==> names[g] <= comm)
    ensures forall i :: from <= i < g ==> !(names[i] <= comm)
    decreases |names| - from
  {
    if from == |names| || names[from] <= comm then from else GroupOf(names, comm, from + 1)
  }

  /** The pids that belong to group g, in the order of the scan. */
  function Members(names: seq<seq<byte>>, ps: seq<Process>, g: nat): (r: seq<int>) {
    if ps == [] then []
    else
      var p := ps[|ps| - 1];
      Members(names, ps[..|ps| - 1], g) + if GroupOf(names, p.comm, 0) == g then [p.pid] else []
  }

  function Capped(pids: seq<int>): (r: seq<int>)
    ensures |r| <= PID_LIMIT
  {
    if |pids| <= PID_LIMIT then pids else pids[..PID_LIMIT]
  }

  lemma {:induction false} MembersNext(names: seq<seq<byte>>, ps: seq<Process>, p: Process, g: nat)
    ensures Members(names, ps + [p], g)
         == Members(names, ps, g) + if GroupOf(names, p.comm, 0) == g then [p.pid] else []
  {
    assert (ps + [p])[..|ps|] == ps;
  }

  lemma {:induction false} CappedNext(pids: seq<int>, pid: int)
    ensures Capped(pids + [pid]) == if |Capped(pids)| < PID_LIMIT then Capped(pids) + [pid] else Capped(pids)
  {
  }

  /** `scanned` are the processes seen since the lists were emptied. Each group holds the first 64 of its members. */
  class PidTracker {
    const names: seq<seq<byte>>
    var lists: seq<seq<int>>
    ghost var scanned: seq<Process>

    ghost predicate Valid()
      reads this
    {
      |lists| == |names| && forall g :: 0 <= g < |names| ==> lists[g] == Capped(Members(names, scanned, g))
    }

    constructor (groups: seq<seq<byte>>)
      ensures Valid() && names == groups && scanned == []
    {
      names := groups;
      lists := seq(|groups|, _ => []);
      scanned := [];
    }

    method ResetLists()
      requires Valid()
      modifies this
      ensures Valid() && scanned == []
    {
      lists := seq(|names|, _ => []);
      scanned := [];
    }

    method AddPid(comm: seq<byte>, pid: int)
      requires Valid()
      modifies this
      ensures Valid() && scanned == old(scanned) + [Process(comm, pid)]
    {
      ghost var p := Process(comm, pid);
      forall g | 0 <= g < |names|
        ensures Members(names, scanned + [p], g)
             == Members(names, scanned, g) + if GroupOf(names, comm, 0) == g then [pid] else []
      {
        MembersNext(names, scanned, p, g);
      }
      var i := 0;
      while i < |names|
        invariant 0 <= i <= |names| && lists == old(lists) && scanned == old(scanned)
        invariant GroupOf(names, comm, 0) == GroupOf(names, comm, i)
      {
        if names[i] <= comm {
          CappedNext(Members(names, scanned, i), pid);
          if |lists[i]| < PID_LIMIT {
            lists := lists[i := lists[i] + [pid]];
          }
          scanned := scanned + [p];
          return;
        }
        i := i + 1;
      }
      scanned := scanned + [p];
    }
  }

  function MemberCount(names: seq<seq<byte>>, ps: seq<Process>, groups: nat): (n: nat) {
    if groups == 0 then 0 else MemberCount(names, ps, groups - 1) + |Members(names, ps, groups - 1)|
  }

  function MatchCount(names: seq<seq<byte>>, ps: seq<Process>, groups: nat): (n: nat) {
    if ps == [] then 0
    else MatchCount(names, ps[..|ps| - 1], groups) + if GroupOf(names, ps[|ps| - 1].comm, 0) < groups then 1 else 0
  }

  /** Every process that matches any group is a member of exactly one. */
  lemma {:induction false} EachMatchCountsOnce(names: seq<seq<byte>>, ps: seq<Process>, groups: nat)
    ensures MemberCount(names, ps, groups) == MatchCount(names, ps, groups)
  {
    if ps == [] {
      NobodyCounts(names, groups);
    } else {
      EachMatchCountsOnce(names, ps[..|ps| - 1], groups);
      OneMoreCounts(names, ps[..|ps| - 1], ps[|ps| - 1], groups);
      assert ps == ps[..|ps| - 1] + [ps[|ps| - 1]];
    }
  }

  lemma {:induction false} NobodyCounts(names: seq<seq<byte>>, groups: nat)
    ensures MemberCount(names, [], groups) == 0
  {
    if groups > 0 {
      NobodyCounts(names, groups - 1);
    }
  }

  lemma {:induction false} OneMoreCounts(names: seq<seq<byte>>, ps: seq<Process>, p: Process, groups: nat)
    ensures MemberCount(names, ps + [p], groups)
         == MemberCount(names, ps, groups) + if GroupOf(names, p.comm, 0) < groups then 1 else 0
  {
    if groups > 0 {
      OneMoreCounts(names, ps, p, groups - 1);
      MembersNext(names, ps, p, groups - 1);
    }
  }
}
