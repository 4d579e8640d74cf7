/**
  File descriptor remapping for launched processes: `handle_launch` plans a table of
  (from, to, final) moves, and `child_setup_func` executes the table in two passes of
  `dup2` and `close` on the descriptor table of the new process.
 */
module FdMap {

  datatype FdMapEntry = FdMapEntry(from: int, to: int, final: int)

  /** An open descriptor: which open file it refers to, and its close-on-exec flag. */
  datatype OpenFd = OpenFd(file: int, cloexec: bool)

  type FdTable = map<int, OpenFd>

  // ---------------------------------------------------------------------------
  // The system calls, by their effect on the descriptor table

  /** `dup2`: fails without effect on a closed source, clears close-on-exec on the target. */
  function Dup2(t: FdTable, from: int, to: int): FdTable {
    if from in t && 0 <= to then t[to := OpenFd(t[from].file, false)] else t
  }

  function Close(t: FdTable, fd: int): FdTable {
    t - {fd}
  }

  function SetCloexecFrom(t: FdTable, lowest: int): FdTable {
    map fd | fd in t :: OpenFd(t[fd].file, t[fd].cloexec || lowest <= fd)
  }

  function UnsetCloexec(t: FdTable, fd: int): FdTable {
    if fd in t then t[fd := OpenFd(t[fd].file, false)] else t
  }

  // ---------------------------------------------------------------------------
  // One pass over the table

  datatype Move = Move(src: int, dst: int)

  /** Move one descriptor; `inherit` says whether the target is then made inheritable. */
  function MoveOne(t: FdTable, m: Move, inherit: bool): FdTable {
    var moved := if m.src != m.dst then Close(Dup2(t, m.src, m.dst), m.src) else t;
    if inherit then UnsetCloexec(moved, m.dst) else moved
  }

  function RunMoves(t: FdTable, moves: seq<Move>, inherit: bool): FdTable {
    if |moves| == 0 then t
    else MoveOne(RunMoves(t, moves[..|moves| - 1], inherit), moves[|moves| - 1], inherit)
  }

  function FirstPass(plan: seq<FdMapEntry>): seq<Move> {
    seq(|plan|, i requires 0 <= i < |plan| => Move(plan[i].from, plan[i].to))
  }

  function SecondPass(plan: seq<FdMapEntry>): seq<Move> {
    seq(|plan|, i requires 0 <= i < |plan| => Move(plan[i].to, plan[i].final))
  }

  /** What `child_setup_func` does to the descriptor table. */
  function ChildSetup(t: FdTable, plan: seq<FdMapEntry>): FdTable {
    RunMoves(RunMoves(SetCloexecFrom(t, 3), FirstPass(plan), false), SecondPass(plan), true)
  }

  ghost predicate IsSource(moves: seq<Move>, fd: int) {
    exists i :: 0 <= i < |moves| && moves[i].src == fd
  }

  ghost predicate IsTarget(moves: seq<Move>, fd: int) {
    exists i :: 0 <= i < |moves| && moves[i].dst == fd
  }

  /** No move overwrites a descriptor that a later move still has to read. */
  ghost predicate SafeOrder(moves: seq<Move>) {
    && (forall i :: 0 <= i < |moves| ==> 0 <= moves[i].dst)
    && (forall i, j :: 0 <= i < j < |moves| ==>
          && moves[i].src != moves[j].src
          && moves[i].dst != moves[j].dst
          && moves[i].dst != moves[j].src)
  }

  ghost predicate SourcesOpen(t: FdTable, moves: seq<Move>) {
    forall i :: 0 <= i < |moves| ==> moves[i].src in t
  }

  /** The value a target ends up with. */
  function Delivered(t: FdTable, m: Move, inherit: bool): OpenFd
    requires m.src in t
  {
    OpenFd(t[m.src].file, m.src == m.dst && !inherit && t[m.src].cloexec)
  }

  /**
    `r` is `t` after one parallel assignment: every target has the file its source referred
    to in `t`, the other sources are closed, and nothing else has changed.
   */
  ghost predicate ParallelResult(t: FdTable, moves: seq<Move>, inherit: bool, r: FdTable)
    requires SourcesOpen(t, moves)
  {
    && (forall i :: 0 <= i < |moves| ==>
          moves[i].dst in r && r[moves[i].dst] == Delivered(t, moves[i], inherit))
    && (forall fd :: !IsTarget(moves, fd) ==> (fd in r <==> fd in t && !IsSource(moves, fd)))
    && (forall fd :: !IsTarget(moves, fd) && fd in r ==> r[fd] == t[fd])
  }

  lemma SnocMembership(moves: seq<Move>, m: Move, fd: int)
    ensures IsTarget(moves + [m], fd) <==> IsTarget(moves, fd) || fd == m.dst
    ensures IsSource(moves + [m], fd) <==> IsSource(moves, fd) || fd == m.src
  {
    var all := moves + [m];
    assert all[|moves|] == m;
    if i :| 0 <= i < |moves| && moves[i].dst == fd {
      assert all[i].dst == fd;
    }
    if i :| 0 <= i < |moves| && moves[i].src == fd {
      assert all[i].src == fd;
    }
  }

  lemma ParallelSnoc(t: FdTable, moves: seq<Move>, m: Move, inherit: bool, mid: FdTable)
    requires SafeOrder(moves + [m]) && SourcesOpen(t, moves) && m.src in t
    requires ParallelResult(t, moves, inherit, mid)
    ensures SourcesOpen(t, moves + [m]) && ParallelResult(t, moves + [m], inherit, MoveOne(mid, m, inherit))
  {
    var all := moves + [m];
    var r := MoveOne(mid, m, inherit);
    assert all[|moves|] == m;
    forall i | 0 <= i < |moves|
      ensures moves[i].dst != m.src && moves[i].dst != m.dst && moves[i].src != m.src
    {
      assert all[i] == moves[i];
    }
    assert !IsTarget(moves, m.src) && !IsSource(moves, m.src);
    assert mid[m.src] == t[m.src];
    assert m.dst in r && r[m.dst] == Delivered(t, m, inherit);
    assert forall fd :: fd != m.dst && fd != m.src ==> (fd in r <==> fd in mid);
    assert forall fd :: fd != m.dst && fd in r ==> r[fd] == mid[fd];
    forall fd
      ensures IsTarget(all, fd) <==> IsTarget(moves, fd) || fd == m.dst
      ensures IsSource(all, fd) <==> IsSource(moves, fd) || fd == m.src
    {
      SnocMembership(moves, m, fd);
    }
  }

  lemma {:induction false} MovesAreParallel(t: FdTable, moves: seq<Move>, inherit: bool)
    requires SafeOrder(moves) && SourcesOpen(t, moves)
    ensures ParallelResult(t, moves, inherit, RunMoves(t, moves, inherit))
  {
    if |moves| != 0 {
      var before, last := moves[..|moves| - 1], moves[|moves| - 1];
      MovesAreParallel(t, before, inherit);
      assert before + [last] == moves;
      ParallelSnoc(t, before, last, inherit, RunMoves(t, before, inherit));
    }
  }

  // ---------------------------------------------------------------------------
  // The plan

  /** The table before conflicts are resolved; an out-of-range handle leaves a zeroed entry. */
  function Requested(requests: seq<(int, nat)>, fds: seq<int>): seq<FdMapEntry> {
    seq(|requests|, i requires 0 <= i < |requests| =>
      var (dest, handle) := requests[i];
      if handle < |fds| then FdMapEntry(fds[handle], dest, dest) else FdMapEntry(0, 0, 0))
  }

  function Max(a: int, b: int): int {
    if a < b then b else a
  }

  /** The largest descriptor number mentioned by the first `n` requests, or -1. */
  function MaxFd(requests: seq<(int, nat)>, fds: seq<int>, n: nat): int
    requires n <= |requests|
  {
    if n == 0 then -1
    else if requests[n - 1].1 < |fds| then
      Max(Max(MaxFd(requests, fds, n - 1), requests[n - 1].0), fds[requests[n - 1].1])
    else MaxFd(requests, fds, n - 1)
  }

  lemma {:induction false} MaxFdIsUpperBound(requests: seq<(int, nat)>, fds: seq<int>, n: nat)
    requires n <= |requests|
    ensures forall i :: 0 <= i < n && requests[i].1 < |fds| ==>
              requests[i].0 <= MaxFd(requests, fds, n) && fds[requests[i].1] <= MaxFd(requests, fds, n)
  {
    if n > 0 {
      MaxFdIsUpperBound(requests, fds, n - 1);
    }
  }

  /** Writing the destination of entry `i` would destroy the source of a later entry. */
  ghost predicate Conflicts(base: seq<FdMapEntry>, i: int)
    requires 0 <= i < |base|
  {
    exists j :: i < j < |base| && base[j].from == base[i].final
  }

  /**
    Sources and final numbers are as requested; exactly the conflicting entries go through
    a temporary, and the temporaries are pairwise distinct numbers in (maxFd, maxFd + n].
   */
  ghost predicate Planned(base: seq<FdMapEntry>, plan: seq<FdMapEntry>, n: nat, maxFd: int)
    requires n <= |base|
  {
    && |plan| == |base|
    && (forall i :: 0 <= i < |plan| ==> plan[i].from == base[i].from && plan[i].final == base[i].final)
    && (forall i :: 0 <= i < n ==>
          if Conflicts(base, i) then maxFd < plan[i].to <= maxFd + n else plan[i].to == plan[i].final)
    && (forall i :: n <= i < |plan| ==> plan[i].to == base[i].to)
    && (forall i, j :: 0 <= i < j < n && Conflicts(base, i) && Conflicts(base, j) ==> plan[i].to < plan[j].to)
  }

  method PlanFds(requests: seq<(int, nat)>, fds: seq<int>) returns (fdMap: array<FdMapEntry>)
    ensures fresh(fdMap)
    ensures Planned(Requested(requests, fds), fdMap[..], |requests|, MaxFd(requests, fds, |requests|))
  {
    var maxFd;
    fdMap, maxFd := FillFdMap(requests, fds);
    ResolveConflicts(fdMap, maxFd);
  }

  /** The first loop: fill the table in, and find the largest descriptor number in it. */
  method FillFdMap(requests: seq<(int, nat)>, fds: seq<int>) returns (fdMap: array<FdMapEntry>, maxFd: int)
    ensures fresh(fdMap) && fdMap[..] == Requested(requests, fds)
    ensures maxFd == MaxFd(requests, fds, |requests|)
  {
    var n := |requests|;
    ghost var base := Requested(requests, fds);
    fdMap := new FdMapEntry[n](_ => FdMapEntry(0, 0, 0));
    maxFd := -1;
    for i := 0 to n
      invariant maxFd == MaxFd(requests, fds, i)
      invariant forall k :: 0 <= k < i ==> fdMap[k] == base[k]
      invariant forall k :: i <= k < n ==> fdMap[k] == FdMapEntry(0, 0, 0)
    {
      var (dest, handle) := requests[i];
      if handle >= |fds| {
        continue;
      }
      fdMap[i] := FdMapEntry(fds[handle], dest, dest);
      maxFd := Max(maxFd, fdMap[i].to);
      maxFd := Max(maxFd, fdMap[i].from);
    }
  }

  /** The second loop: divert the moves whose destination is still needed as a source. */
  method ResolveConflicts(fdMap: array<FdMapEntry>, top: int)
    requires forall k :: 0 <= k < fdMap.Length ==> fdMap[k].to == fdMap[k].final
    modifies fdMap
    ensures Planned(old(fdMap[..]), fdMap[..], fdMap.Length, top)
  {
    var n := fdMap.Length;
    ghost var base := fdMap[..];
    var maxFd := top;
    for i := 0 to n
      invariant top <= maxFd <= top + i
      invariant forall k :: 0 <= k < n ==> fdMap[k].from == base[k].from && fdMap[k].final == base[k].final
      invariant forall k :: i <= k < n ==> fdMap[k] == base[k]
      invariant forall k :: 0 <= k < i ==>
        if Conflicts(base, k) then top < fdMap[k].to <= maxFd else fdMap[k].to == fdMap[k].final
      invariant forall k, l :: 0 <= k < l < i && Conflicts(base, k) && Conflicts(base, l) ==>
        fdMap[k].to < fdMap[l].to
    {
      var conflict := FindConflict(fdMap, i);
      assert conflict <==> Conflicts(base, i) by {
        assert fdMap[i].to == base[i].final;
      }
      if conflict {
        maxFd := maxFd + 1;
        fdMap[i] := fdMap[i].(to := maxFd);
      }
    }
  }

  /** The inner loop: is the destination of entry `i` the source of a later entry? */
  method FindConflict(fdMap: array<FdMapEntry>, i: nat) returns (conflict: bool)
    requires i < fdMap.Length
    ensures conflict <==> exists j :: i < j < fdMap.Length && fdMap[j].from == fdMap[i].to
  {
    var toFd := fdMap[i].to;
    for j := i + 1 to fdMap.Length
      invariant forall k :: i < k < j ==> fdMap[k].from != toFd
    {
      if fdMap[j].from == toFd {
        return true;
      }
    }
    return false;
  }

  // ---------------------------------------------------------------------------
  // The plan and the two passes together

  /** Every handle is in range, sources are distinct, destinations are distinct and valid. */
  ghost predicate WellFormedRequest(requests: seq<(int, nat)>, fds: seq<int>) {
    && (forall i :: 0 <= i < |requests| ==> requests[i].1 < |fds| && 0 <= requests[i].0)
    && (forall i, j :: 0 <= i < j < |requests| ==>
          && requests[i].0 != requests[j].0
          && fds[requests[i].1] != fds[requests[j].1])
  }

  ghost predicate IsFrom(plan: seq<FdMapEntry>, fd: int) {
    exists i :: 0 <= i < |plan| && plan[i].from == fd
  }

  ghost predicate IsTo(plan: seq<FdMapEntry>, fd: int) {
    exists i :: 0 <= i < |plan| && plan[i].to == fd
  }

  ghost predicate IsFinal(plan: seq<FdMapEntry>, fd: int) {
    exists i :: 0 <= i < |plan| && plan[i].final == fd
  }

  lemma PlanIsSafe(requests: seq<(int, nat)>, fds: seq<int>, plan: seq<FdMapEntry>)
    requires WellFormedRequest(requests, fds)
    requires Planned(Requested(requests, fds), plan, |requests|, MaxFd(requests, fds, |requests|))
    ensures SafeOrder(FirstPass(plan)) && SafeOrder(SecondPass(plan))
  {
    MaxFdIsUpperBound(requests, fds, |requests|);
    var base := Requested(requests, fds);
    var top := MaxFd(requests, fds, |requests|);
    forall i | 0 <= i < |plan|
      ensures plan[i].from <= top && 0 <= plan[i].final <= top && 0 <= plan[i].to
      ensures plan[i].to == plan[i].final || (top < plan[i].to && Conflicts(base, i))
    {
      assert base[i].from == fds[requests[i].1] && base[i].final == requests[i].0;
    }
    forall i, j | 0 <= i < j < |plan|
      ensures plan[i].from != plan[j].from && plan[i].final != plan[j].final
      ensures plan[i].to != plan[j].to && plan[i].to != plan[j].from && plan[i].final != plan[j].to
    {
      assert base[i].from == fds[requests[i].1] && base[j].from == fds[requests[j].1];
      assert base[i].final == requests[i].0 && base[j].final == requests[j].0;
    }
  }

  /**
    The child ends up with exactly the requested descriptors, whatever overlaps, chains and
    cycles there are between sources and destinations.
   */
  lemma RemappingDelivers(t: FdTable, requests: seq<(int, nat)>, fds: seq<int>, plan: seq<FdMapEntry>)
    requires WellFormedRequest(requests, fds)
    requires Planned(Requested(requests, fds), plan, |requests|, MaxFd(requests, fds, |requests|))
    requires forall i :: 0 <= i < |requests| ==> fds[requests[i].1] in t
    // every destination refers to the file its source referred to, and is inherited
    ensures forall i :: 0 <= i < |requests| ==>
              && requests[i].0 in ChildSetup(t, plan)
              && ChildSetup(t, plan)[requests[i].0] == OpenFd(t[fds[requests[i].1]].file, false)
    // sources and temporaries that are not also destinations are closed
    ensures forall fd :: !IsFinal(plan, fd) && (IsFrom(plan, fd) || IsTo(plan, fd)) ==> fd !in ChildSetup(t, plan)
    // every other descriptor stays, gaining close-on-exec from 3 upwards
    ensures forall fd :: !IsFinal(plan, fd) && !IsFrom(plan, fd) && !IsTo(plan, fd) ==>
              if fd in t then
                fd in ChildSetup(t, plan) && ChildSetup(t, plan)[fd] == OpenFd(t[fd].file, t[fd].cloexec || 3 <= fd)
              else fd !in ChildSetup(t, plan)
    // what is inherited across exec beyond the standard streams is exactly what was asked for
    ensures forall fd :: 3 <= fd ==>
              (fd in ChildSetup(t, plan) && !ChildSetup(t, plan)[fd].cloexec <==> IsFinal(plan, fd))
    // temporaries stay within the largest number in use plus the number of requests
    ensures forall i :: 0 <= i < |plan| ==>
              plan[i].to <= MaxFd(requests, fds, |requests|) + |requests|
  {
    MaxFdIsUpperBound(requests, fds, |requests|);
    PlanIsSafe(requests, fds, plan);
    var base := Requested(requests, fds);
    forall i | 0 <= i < |plan|
      ensures plan[i].from == fds[requests[i].1] && plan[i].final == requests[i].0
    {
      assert base[i].from == fds[requests[i].1] && base[i].final == requests[i].0;
    }
    TwoPassesDeliver(t, plan);
    var r := ChildSetup(t, plan);
    forall i | 0 <= i < |requests|
      ensures requests[i].0 in r && r[requests[i].0] == OpenFd(t[fds[requests[i].1]].file, false)
    {
      assert plan[i].final in r;
    }
  }

  /** Both passes together are one parallel assignment from sources to final numbers. */
  lemma TwoPassesDeliver(t: FdTable, plan: seq<FdMapEntry>)
    requires SafeOrder(FirstPass(plan)) && SafeOrder(SecondPass(plan))
    requires forall i :: 0 <= i < |plan| ==> plan[i].from in t
    ensures var r := ChildSetup(t, plan);
            && (forall i :: 0 <= i < |plan| ==>
                  plan[i].final in r && r[plan[i].final] == OpenFd(t[plan[i].from].file, false))
            && (forall fd :: !IsFinal(plan, fd) && (IsFrom(plan, fd) || IsTo(plan, fd)) ==> fd !in r)
            && (forall fd :: !IsFinal(plan, fd) && !IsFrom(plan, fd) && !IsTo(plan, fd) ==>
                  if fd in t then fd in r && r[fd] == OpenFd(t[fd].file, t[fd].cloexec || 3 <= fd) else fd !in r)
            && (forall fd :: 3 <= fd ==> (fd in r && !r[fd].cloexec <==> IsFinal(plan, fd)))
  {
    var t1 := SetCloexecFrom(t, 3);
    var first, second := FirstPass(plan), SecondPass(plan);
    var t2 := RunMoves(t1, first, false);
    assert SourcesOpen(t1, first);
    MovesAreParallel(t1, first, false);
    forall i | 0 <= i < |plan|
      ensures plan[i].to in t2 && t2[plan[i].to].file == t[plan[i].from].file
    {
      assert first[i].dst in t2;
    }
    assert SourcesOpen(t2, second);
    MovesAreParallel(t2, second, true);
    var r := ChildSetup(t, plan);
    assert r == RunMoves(t2, second, true);
    forall fd
      ensures IsTarget(first, fd) <==> IsTo(plan, fd)
      ensures IsSource(first, fd) <==> IsFrom(plan, fd)
      ensures IsTarget(second, fd) <==> IsFinal(plan, fd)
      ensures IsSource(second, fd) <==> IsTo(plan, fd)
    {
      PassMembership(plan, fd);
    }
    forall i | 0 <= i < |plan|
      ensures plan[i].final in r && r[plan[i].final] == OpenFd(t[plan[i].from].file, false)
    {
      assert second[i].dst in r;
    }
    forall fd | IsFinal(plan, fd)
      ensures fd in r && !r[fd].cloexec
    {
      var i :| 0 <= i < |plan| && plan[i].final == fd;
      assert plan[i].final in r;
    }
  }

  /** The plan with which the wrapped command gets the original standard output back. */
  function StdoutPlan(stdout: int): seq<FdMapEntry> {
    [FdMapEntry(stdout, 1, 1)]
  }

  /** The wrapped command writes to the original output, and inherits nothing but standard streams. */
  lemma StdoutDelivered(t: FdTable, stdout: int)
    requires stdout in t
    ensures var r := ChildSetup(t, StdoutPlan(stdout));
            && 1 in r && r[1] == OpenFd(t[stdout].file, false)
            && (stdout != 1 ==> stdout !in r)
            && (forall fd :: fd in r && 3 <= fd ==> r[fd].cloexec)
            && (forall fd :: 0 <= fd < 3 && fd != 1 && fd != stdout && fd in t ==> fd in r && r[fd] == t[fd])
  {
    var plan := StdoutPlan(stdout);
    TwoPassesDeliver(t, plan);
    assert plan[0] == FdMapEntry(stdout, 1, 1);
    assert IsFinal(plan, 1) && IsFrom(plan, stdout);
  }

  lemma PassMembership(plan: seq<FdMapEntry>, fd: int)
    ensures IsTarget(FirstPass(plan), fd) <==> IsTo(plan, fd)
    ensures IsSource(FirstPass(plan), fd) <==> IsFrom(plan, fd)
    ensures IsTarget(SecondPass(plan), fd) <==> IsFinal(plan, fd)
    ensures IsSource(SecondPass(plan), fd) <==> IsTo(plan, fd)
  {
    var first, second := FirstPass(plan), SecondPass(plan);
    forall i | 0 <= i < |plan|
      ensures first[i].src == plan[i].from && first[i].dst == plan[i].to
      ensures second[i].src == plan[i].to && second[i].dst == plan[i].final
    {
    }
    if IsTo(plan, fd) {
      var i :| 0 <= i < |plan| && plan[i].to == fd;
      assert first[i].dst == fd && second[i].src == fd;
    }
    if IsFrom(plan, fd) {
      var i :| 0 <= i < |plan| && plan[i].from == fd;
      assert first[i].src == fd;
    }
    if IsFinal(plan, fd) {
      var i :| 0 <= i < |plan| && plan[i].final == fd;
      assert second[i].dst == fd;
    }
  }

  // ---------------------------------------------------------------------------
  // The child process

  /** A forked process that has not yet replaced its program. */
  class ChildProcess {
    var fds: FdTable

    constructor (inherited: FdTable)
      ensures fds == inherited
    {
      fds := inherited;
    }

    /** `child_setup_func`, as far as descriptors are concerned. */
    method SetUp(fdMap: array<FdMapEntry>)
      modifies this
      ensures fds == ChildSetup(old(fds), fdMap[..])
    {
      ghost var plan := fdMap[..];
      fds := SetCloexecFrom(fds, 3);
      ghost var t1 := fds;
      var i := 0;
      while i < fdMap.Length
        invariant 0 <= i <= fdMap.Length
        invariant fds == RunMoves(t1, FirstPass(plan)[..i], false)
      {
        if fdMap[i].from != fdMap[i].to {
          fds := Dup2(fds, fdMap[i].from, fdMap[i].to);
          fds := Close(fds, fdMap[i].from);
        }
        assert FirstPass(plan)[..i + 1][..i] == FirstPass(plan)[..i];
        i := i + 1;
      }
      assert FirstPass(plan)[..i] == FirstPass(plan);
      ghost var t2 := fds;
      i := 0;
      while i < fdMap.Length
        invariant 0 <= i <= fdMap.Length
        invariant fds == RunMoves(t2, SecondPass(plan)[..i], true)
      {
        if fdMap[i].to != fdMap[i].final {
          fds := Dup2(fds, fdMap[i].to, fdMap[i].final);
          fds := Close(fds, fdMap[i].to);
        }
        fds := UnsetCloexec(fds, fdMap[i].final);
        assert SecondPass(plan)[..i + 1][..i] == SecondPass(plan)[..i];
        i := i + 1;
      }
      assert SecondPass(plan)[..i] == SecondPass(plan);
    }
  }

  /** Planning in the service followed by execution in the child. */
  method LaunchWithFds(service: FdTable, requests: seq<(int, nat)>, fds: seq<int>) returns (child: ChildProcess)
    requires WellFormedRequest(requests, fds)
    requires forall i :: 0 <= i < |requests| ==> fds[requests[i].1] in service
    ensures fresh(child)
    ensures forall i :: 0 <= i < |requests| ==>
              && requests[i].0 in child.fds
              && child.fds[requests[i].0] == OpenFd(service[fds[requests[i].1]].file, false)
    ensures forall fd :: 3 <= fd ==>
              (fd in child.fds && !child.fds[fd].cloexec <==>
               exists i :: 0 <= i < |requests| && requests[i].0 == fd)
  {
    var fdMap := PlanFds(requests, fds);
    child := new ChildProcess(service);
    child.SetUp(fdMap);
    ghost var plan := fdMap[..];
    RemappingDelivers(service, requests, fds, plan);
    forall fd
      ensures IsFinal(plan, fd) <==> exists i :: 0 <= i < |requests| && requests[i].0 == fd
    {
      var base := Requested(requests, fds);
      forall i | 0 <= i < |requests| ensures plan[i].final == requests[i].0 {
        assert base[i].final == requests[i].0;
      }
      if i :| 0 <= i < |requests| && requests[i].0 == fd {
        assert plan[i].final == fd;
      }
    }
  }
}
