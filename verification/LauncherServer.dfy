/**
  The launcher service. Each callback is first given as a function from the old state to the
  new state and the actions it takes; the class `LauncherServer` then performs the same
  callbacks by updating its fields, and is proved to follow those functions.
 */
module LauncherServer {
  import opened Wrappers
  import opened Decimal
  import Environ
  import FdMap
  import LaunchEnv

  datatype ExportState = Starting | Listening | Exported | Gone

  function Rank(e: ExportState): nat {
    match e
    case Starting => 0
    case Listening => 1
    case Exported => 2
    case Gone => 3
  }

  /** Who a D-Bus message is from. Peer-to-peer connections have no sender name. */
  datatype Peer = Peer(connection: int, sender: Option<string>)

  /** A child process; the wrapped command belongs to no peer. */
  datatype PidData = PidData(peer: Option<Peer>, terminateAfter: bool)

  const EX_UNAVAILABLE := 69
  const EX_SOFTWARE := 70
  const SIGINT := 2
  const SIGTERM := 15

  datatype Config = Config(stopOnNameLoss: bool, stopOnExit: bool, hasCommand: bool)

  datatype State = State(
    exportState: ExportState,
    skeletonRef: bool,      // the service's own reference to the D-Bus skeleton
    inFlight: nat,          // method calls that are still holding a reference to the skeleton
    timers: nat,            // timeouts that will drop the service's own reference
    listening: bool,
    children: map<int, PidData>,
    mainPid: int,
    mainPidStr: Option<string>,
    exitStatus: int,
    started: bool)

  const INITIAL := State(Starting, false, 0, 0, false, map[], 0, None, EX_UNAVAILABLE, false)

  predicate StillAlive(s: State) {
    s.children != map[] || s.exportState != Gone
  }

  /** The skeleton exists as long as anything refers to it. */
  predicate HasSkeleton(s: State) {
    s.skeletonRef || s.inFlight > 0
  }

  /** A signal to a process group led by a process, or only to the process. */
  datatype Kill = Kill(pid: int, signum: int, toGroup: bool)

  datatype Message =
    | LaunchReply(pid: int)
    | LaunchError
    | ProcessExited(pid: int, status: int)
    | SignalReply
    | SignalError
    | TerminateReply

  /** The state after a callback, the signals it sent and the message it sent, if any. */
  datatype Outcome = Outcome(state: State, kills: set<Kill>, message: Option<(Peer, Message)>, stops: bool)

  function Quiet(s: State): Outcome {
    Outcome(s, {}, None, false)
  }

  // ---------------------------------------------------------------------------
  // The callbacks, as functions

  function KillAll(children: map<int, PidData>, signum: int): set<Kill> {
    set p | p in children :: Kill(p, signum, true)
  }

  /** `pv_launcher_server_stop`; signal 0 means that children are left alone. */
  function Stopped(s: State, signum: int): Outcome {
    Outcome(
      if s.exportState == Exported then s.(listening := false, timers := s.timers + 1)
      else s.(listening := false, exportState := Gone),
      if signum != 0 then KillAll(s.children, signum) else {},
      None,
      true)
  }

  /** `child_watch_died` */
  function ChildDied(s: State, pid: int, status: int): Outcome
    requires pid in s.children
  {
    var data := s.children[pid];
    var after := s.(children := s.children - {pid},
                    mainPidStr := if s.mainPidStr.Some? && pid == s.mainPid then None else s.mainPidStr);
    var message := if data.peer.Some? then Some((data.peer.value, ProcessExited(pid, status))) else None;
    if data.terminateAfter then Stopped(after, SIGTERM).(message := message)
    else Outcome(after, {}, message, false)
  }

  datatype LaunchRequest = LaunchRequest(argv: seq<string>, flags: nat, terminateAfter: bool)

  /** A command is needed, and PV_LAUNCH_FLAGS_CLEAR_ENV (1) is the only known flag. */
  predicate Acceptable(request: LaunchRequest) {
    request.argv != [] && request.flags < 2
  }

  /** `handle_launch`; `spawned` is the new process, if the system could create one. */
  function Launched(s: State, peer: Peer, request: LaunchRequest, spawned: Option<int>): Outcome {
    if Acceptable(request) && spawned.Some? then
      var pid := spawned.value;
      Outcome(s.(children := s.children[pid := PidData(Some(peer), request.terminateAfter)]),
              {}, Some((peer, LaunchReply(pid))), false)
    else Outcome(s, {}, Some((peer, LaunchError)), false)
  }

  /** `handle_send_signal` */
  function SignalSent(s: State, peer: Peer, pid: int, signum: int, toGroup: bool): Outcome {
    if pid in s.children && s.children[pid].peer == Some(peer) then
      Outcome(s, {Kill(pid, signum, toGroup)}, Some((peer, SignalReply)), false)
    else Outcome(s, {}, Some((peer, SignalError)), false)
  }

  /** `handle_terminate` */
  function TerminateCalled(s: State, peer: Peer): Outcome {
    Stopped(s, SIGTERM).(message := Some((peer, TerminateReply)))
  }

  predicate IsVanishing(name: string, from: string, to: string) {
    |name| > 0 && name[0] == ':' && name == from && to == ""
  }

  predicate SentBy(data: PidData, name: string) {
    data.peer.Some? && data.peer.value.sender == Some(name)
  }

  /** `name_owner_changed` */
  function NameOwnerChanged(s: State, name: string, from: string, to: string): Outcome {
    Outcome(s,
            if IsVanishing(name, from, to) then
              set p | p in s.children && SentBy(s.children[p], name) :: Kill(p, SIGINT, true)
            else {},
            None, false)
  }

  /** `pv_launcher_server_export`, whether or not the skeleton could then be exported. */
  function ExportTried(s: State): State {
    if s.skeletonRef then s
    else
      s.(skeletonRef := true,
         exportState := if Rank(s.exportState) < Rank(Exported) then Exported else s.exportState)
  }

  /** `on_bus_acquired` */
  function BusAcquired(s: State, exportOk: bool): Outcome {
    if exportOk then Quiet(ExportTried(s))
    else Stopped(ExportTried(s).(exitStatus := EX_SOFTWARE), SIGTERM)
  }

  /** `pv_launcher_server_finish_startup`; `None` if the wrapped command cannot be started. */
  function StartupFinished(c: Config, s: State, spawned: Option<int>): Option<State> {
    if c.hasCommand && spawned.None? then None
    else
      var s1 := if c.hasCommand then
                  s.(mainPid := spawned.value,
                     mainPidStr := if spawned.value >= 0 then Some(Dec(spawned.value)) else None,
                     children := s.children[spawned.value := PidData(None, c.stopOnExit)])
                else s;
      Some(s1.(exportState := if s1.exportState == Starting then Listening else s1.exportState, exitStatus := 0))
  }

  /** `portal_listener_ready_cb` */
  function BecameReady(c: Config, s: State, spawned: Option<int>): Outcome {
    if s.exitStatus == EX_UNAVAILABLE && s.exportState != Gone then
      var s1 := s.(started := true);
      match StartupFinished(c, s1, spawned)
      case Some(s2) => Quiet(s2)
      case None => Stopped(s1, SIGTERM)
    else Quiet(s)
  }

  /** `on_name_lost` */
  function LostName(c: Config, s: State): Outcome {
    if !c.stopOnNameLoss then Quiet(s)
    else
      var out := Stopped(s, 0);
      if s.started then out else out.(state := out.state.(exportState := Gone))
  }

  /** Give up references to the skeleton; when the last one goes, the service is gone. */
  function ReferencesDropped(s: State, after: State): State {
    if HasSkeleton(s) && !HasSkeleton(after) then after.(exportState := Gone) else after
  }

  /** `unref_skeleton_in_timeout_cb` */
  function TimerFired(s: State): State
    requires s.timers > 0
  {
    ReferencesDropped(s, s.(timers := s.timers - 1, skeletonRef := false))
  }

  function CallReceived(s: State): State {
    s.(inFlight := s.inFlight + 1)
  }

  function CallFinished(s: State): State
    requires s.inFlight > 0
  {
    ReferencesDropped(s, s.(inFlight := s.inFlight - 1))
  }

  lemma NonEmpty(pids: set<int>)
    ensures pids != {} ==> exists p :: p in pids
  {
    if forall p :: p !in pids {
      assert pids == {};
    }
  }

  // ---------------------------------------------------------------------------
  // The service object

  class LauncherServer {
    const config: Config
    const childEnviron: Environ.Env
    const originalCwd: string
    var exportState: ExportState
    var skeletonRef: bool
    var inFlight: nat
    var timers: nat
    var listening: bool
    var children: map<int, PidData>
    var mainPid: int
    var mainPidStr: Option<string>
    var exitStatus: int
    var started: bool

    ghost function View(): State
      reads this
    {
      State(exportState, skeletonRef, inFlight, timers, listening, children, mainPid, mainPidStr, exitStatus, started)
    }

    constructor (config: Config, childEnviron: Environ.Env, originalCwd: string)
      ensures View() == INITIAL
      ensures this.config == config && this.childEnviron == childEnviron && this.originalCwd == originalCwd
    {
      this.config, this.childEnviron, this.originalCwd := config, childEnviron, originalCwd;
      exportState, skeletonRef, inFlight, timers, listening := Starting, false, 0, 0, false;
      children, mainPid, mainPidStr, exitStatus, started := map[], 0, None, EX_UNAVAILABLE, false;
    }

    method TerminateChildren(signum: int) returns (kills: set<Kill>)
      ensures kills == KillAll(children, signum)
      ensures forall kill :: kill in kills <==> kill.pid in children && kill.signum == signum && kill.toGroup
    {
      kills := {};
      var todo := children.Keys;
      while todo != {}
        invariant todo <= children.Keys
        invariant kills == set p | p in children.Keys - todo :: Kill(p, signum, true)
        decreases todo
      {
        assert exists p :: p in todo by { NonEmpty(todo); }
        var pid :| pid in todo;
        kills := kills + {Kill(pid, signum, true)};
        todo := todo - {pid};
      }
    }

    method Stop(signum: int) returns (kills: set<Kill>)
      modifies this
      ensures var out := Stopped(old(View()), signum); View() == out.state && kills == out.kills
    {
      kills := {};
      if signum != 0 {
        kills := TerminateChildren(signum);
      }
      listening := false;
      if exportState == Exported {
        timers := timers + 1;
      } else {
        exportState := Gone;
      }
    }

    method ChildWatchDied(pid: int, status: int) returns (kills: set<Kill>, message: Option<(Peer, Message)>)
      requires pid in children
      modifies this
      ensures var out := ChildDied(old(View()), pid, status);
              View() == out.state && kills == out.kills && message == out.message
    {
      kills, message := {}, None;
      var data := children[pid];
      if data.peer.Some? {
        message := Some((data.peer.value, ProcessExited(pid, status)));
      }
      children := children - {pid};
      if mainPidStr.Some? && pid == mainPid {
        mainPidStr := None;
      }
      if data.terminateAfter {
        kills := Stop(SIGTERM);
      }
    }

    /**
      A launch: the environment and the descriptor plan are prepared, the system is asked for a
      process with them, and on success the process is recorded and reported to the caller.
      Without a list of descriptors there is nothing to remap, whatever the handles are.
     */
    method HandleLaunch(peer: Peer, request: LaunchRequest, handles: seq<(int, nat)>, fdList: Option<seq<int>>,
                        sets: seq<(string, string)>, unsets: seq<string>, cwd: string, spawned: Option<int>)
      returns (message: Option<(Peer, Message)>, env: Environ.Env, fdMap: array<FdMap.FdMapEntry>)
      modifies this
      ensures var out := Launched(old(View()), peer, request, spawned);
              View() == out.state && message == out.message && out.kills == {}
      ensures message == Some((peer, if request.argv == [] || request.flags >= 2 || spawned.None? then LaunchError
                                     else LaunchReply(spawned.value)))
      ensures Acceptable(request) ==>
                match fdList
                case None => fdMap[..] == []
                case Some(fds) =>
                  FdMap.Planned(FdMap.Requested(handles, fds), fdMap[..], |handles|,
                                FdMap.MaxFd(handles, fds, |handles|))
      ensures Acceptable(request) ==> forall name :: Environ.ValidName(name) ==>
                Environ.Get(env, name)
                == LaunchEnv.LaunchedValue(childEnviron, request.flags % 2 == 1, old(mainPidStr),
                                           sets, unsets, cwd, originalCwd, name)
    {
      env := [];
      fdMap := new FdMap.FdMapEntry[0](_ => FdMap.FdMapEntry(0, 0, 0));
      if request.argv == [] {
        message := Some((peer, LaunchError));
        return;
      }
      if request.flags >= 2 {
        message := Some((peer, LaunchError));
        return;
      }
      if fdList.Some? {
        fdMap := FdMap.PlanFds(handles, fdList.value);
      }
      env := LaunchEnv.ComposeEnv(childEnviron, request.flags % 2 == 1, mainPidStr, sets, unsets, cwd, originalCwd);
      if spawned.None? {
        message := Some((peer, LaunchError));
        return;
      }
      children := children[spawned.value := PidData(Some(peer), request.terminateAfter)];
      message := Some((peer, LaunchReply(spawned.value)));
    }

    method HandleSendSignal(peer: Peer, pid: int, signum: int, toGroup: bool)
      returns (kills: set<Kill>, message: Option<(Peer, Message)>)
      ensures var out := SignalSent(View(), peer, pid, signum, toGroup); kills == out.kills && message == out.message
      ensures if pid in children && children[pid].peer == Some(peer) then
                kills == {Kill(pid, signum, toGroup)} && message == Some((peer, SignalReply))
              else kills == {} && message == Some((peer, SignalError))
    {
      kills := {};
      if pid !in children || children[pid].peer.None? || children[pid].peer.value != peer {
        message := Some((peer, SignalError));
        return;
      }
      kills := {Kill(pid, signum, toGroup)};
      message := Some((peer, SignalReply));
    }

    method HandleTerminate(peer: Peer) returns (kills: set<Kill>, message: Option<(Peer, Message)>)
      modifies this
      ensures var out := TerminateCalled(old(View()), peer);
              View() == out.state && kills == out.kills && message == out.message
    {
      message := Some((peer, TerminateReply));
      kills := Stop(SIGTERM);
    }

    method OnNameOwnerChanged(name: string, from: string, to: string) returns (kills: set<Kill>)
      ensures kills == NameOwnerChanged(View(), name, from, to).kills
      ensures forall kill :: kill in kills <==>
                && name == from && to == "" && |name| > 0 && name[0] == ':'
                && kill.pid in children && children[kill.pid].peer.Some?
                && children[kill.pid].peer.value.sender == Some(name) && kill.signum == 2 && kill.toGroup
    {
      kills := {};
      if |name| > 0 && name[0] == ':' && name == from && to == "" {
        var list: seq<int> := [];
        var todo := children.Keys;
        while todo != {}
          invariant todo <= children.Keys
          invariant forall p :: p in list <==> p in children.Keys - todo && SentBy(children[p], name)
          decreases todo
        {
          assert exists p :: p in todo by { NonEmpty(todo); }
          var pid :| pid in todo;
          if children[pid].peer.Some? && children[pid].peer.value.sender == Some(name) {
            list := [pid] + list;
          }
          todo := todo - {pid};
        }
        for i := 0 to |list|
          invariant kills == set p | p in list[..i] :: Kill(p, SIGINT, true)
        {
          assert list[..i + 1] == list[..i] + [list[i]];
          kills := kills + {Kill(list[i], SIGINT, true)};
        }
        assert list[..|list|] == list;
      }
    }

    method Export()
      modifies this
      ensures View() == ExportTried(old(View()))
    {
      if !skeletonRef {
        if Rank(exportState) < Rank(Exported) {
          exportState := Exported;
        }
        skeletonRef := true;
      }
    }

    method OnBusAcquired(exportOk: bool) returns (kills: set<Kill>)
      modifies this
      ensures var out := BusAcquired(old(View()), exportOk); View() == out.state && kills == out.kills
    {
      kills := {};
      Export();
      if !exportOk {
        exitStatus := EX_SOFTWARE;
        kills := Stop(SIGTERM);
      }
    }

    method FinishStartup(spawned: Option<int>, originalStdout: int)
      returns (ok: bool, fdMap: array<FdMap.FdMapEntry>)
      modifies this
      ensures config.hasCommand ==> fdMap[..] == FdMap.StdoutPlan(originalStdout)
      ensures ok <==> StartupFinished(config, old(View()), spawned).Some?
      ensures View() == if ok then StartupFinished(config, old(View()), spawned).value else old(View())
    {
      ok := true;
      fdMap := new FdMap.FdMapEntry[if config.hasCommand then 1 else 0](_ => FdMap.FdMapEntry(0, 0, 0));
      if config.hasCommand {
        fdMap[0] := FdMap.FdMapEntry(originalStdout, 1, 1);
        if spawned.None? {
          ok := false;
          return;
        }
        mainPid := spawned.value;
        mainPidStr := if spawned.value >= 0 then Some(Dec(spawned.value)) else None;
        children := children[spawned.value := PidData(None, config.stopOnExit)];
      }
      if Rank(exportState) < Rank(Listening) {
        exportState := Listening;
      }
      exitStatus := 0;
    }

    method OnReady(spawned: Option<int>, originalStdout: int) returns (kills: set<Kill>)
      modifies this
      ensures var out := BecameReady(config, old(View()), spawned); View() == out.state && kills == out.kills
    {
      kills := {};
      if exitStatus == EX_UNAVAILABLE && exportState != Gone {
        started := true;
        var ok, fdMap := FinishStartup(spawned, originalStdout);
        if !ok {
          kills := Stop(SIGTERM);
        }
      }
    }

    method OnNameLost()
      modifies this
      ensures var out := LostName(config, old(View())); View() == out.state && out.kills == {}
    {
      if config.stopOnNameLoss {
        var kills := Stop(0);
        if !started {
          exportState := Gone;
        }
      }
    }

    method UnrefSkeletonInTimeout()
      requires timers > 0
      modifies this
      ensures View() == TimerFired(old(View()))
    {
      timers := timers - 1;
      if skeletonRef {
        skeletonRef := false;
        if inFlight == 0 {
          SkeletonDied();
        }
      }
    }

    method EndCall()
      requires inFlight > 0
      modifies this
      ensures View() == CallFinished(old(View()))
    {
      inFlight := inFlight - 1;
      if !skeletonRef && inFlight == 0 {
        SkeletonDied();
      }
    }

    method SkeletonDied()
      modifies this
      ensures View() == old(View()).(exportState := Gone)
    {
      exportState := Gone;
    }
  }
}
