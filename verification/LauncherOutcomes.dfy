/**
  What the service does in each kind of step, said in terms of its table and flags: whom it
  signals, what it answers, when it stops and when its main loop ends.
 */
module LauncherOutcomes {
  import opened Wrappers
  import opened LauncherServer
  import opened LauncherRuns
  import opened LauncherGuarantees

  // ---------------------------------------------------------------------------
  // The end of the main loop

  /** The loop can end exactly if no child is left and the skeleton is gone. */
  lemma LoopEndsIff(w: World)
    ensures Enabled(w, LoopEnds) <==>
            w.mode == Looping && w.server.children == map[] && w.server.exportState == Gone
  {
  }

  /** In every run the loop only ends after a stop, when no child is left and the skeleton is gone. */
  lemma LoopEndsAfterStop(c: Setup, ws: seq<World>, steps: seq<Step>, i: nat)
    requires IsRun(c, ws, steps) && i < |steps| && steps[i].LoopEnds?
    ensures ws[i].server.children == map[] && ws[i].server.exportState == Gone && ws[i].stopped
  {
    assert StepAt(c, ws, steps, i);
    RunKeepsInv(c, ws, steps, i);
    LoopEndsIff(ws[i]);
  }

  /** How a run came to its end. */
  ghost predicate EndsAt(ws: seq<World>, steps: seq<Step>, i: int)
    requires |ws| == |steps| + 1
  {
    && 0 <= i < |steps|
    && ((steps[i].ListenFailed? && ws[i].mode == SettingUp)
        || (&& steps[i].LoopEnds? && ws[i].server.children == map[] && ws[i].server.exportState == Gone
            && ws[i].stopped))
  }

  /** A finished service could not listen, or was told to stop and is gone. */
  lemma {:induction false} FinishedBecause(c: Setup, ws: seq<World>, steps: seq<Step>, i: nat) returns (k: nat)
    requires IsRun(c, ws, steps) && i < |ws| && ws[i].mode == Finished
    ensures k < i && EndsAt(ws, steps, k)
  {
    assert i > 0;
    assert StepAt(c, ws, steps, i - 1);
    if ws[i - 1].mode == Finished {
      k := FinishedBecause(c, ws, steps, i - 1);
    } else {
      k := i - 1;
      if steps[k].LoopEnds? {
        LoopEndsAfterStop(c, ws, steps, k);
      } else if !steps[k].ListenFailed? {
        OnlyEndingFinishes(c, ws[k], steps[k]);
      }
    }
  }

  // ---------------------------------------------------------------------------
  // Startup, and reasons to stop

  /** The announcement makes the service start up: it has not done so, and is not gone. */
  predicate StartsUp(c: Setup, w: World, step: Step) {
    match step
    case SocketReady(_) => w.server.exitStatus == 69 && w.server.exportState != Gone
    case NameAcquired(settled, _) =>
      settled && !w.ready && w.server.exitStatus == 69 && w.server.exportState != Gone
    case NameLost(settled, _) =>
      && !w.ready && w.server.exitStatus == 69
      && if c.config.stopOnNameLoss then w.server.started && w.server.exportState == Exported
         else settled && w.server.exportState != Gone
    case _ => false
  }

  function SpawnedIn(step: Step): Option<int> {
    match step
    case SocketReady(spawned) => spawned
    case NameAcquired(_, spawned) => spawned
    case NameLost(_, spawned) => spawned
    case _ => None
  }

  /** The step makes the service stop and send this signal to its children. */
  predicate StopsWith(c: Setup, w: World, step: Step, signum: int) {
    match step
    case BusConnected(exportOk) => !exportOk && signum == 15
    case CallHandled(index, _) => index < |w.calls| && w.calls[index].what.Terminate? && signum == 15
    case ChildDies(pid, _) => pid in w.server.children && w.server.children[pid].terminateAfter && signum == 15
    case SignalReceived(received) => signum == received
    case ExitFdReadable => signum == 15
    case _ => StartsUp(c, w, step) && c.config.hasCommand && SpawnedIn(step).None? && signum == 15
  }

  /** A child of the service that is still there when the service stops in this step. */
  predicate IsLeft(w: World, step: Step, pid: int) {
    pid in w.server.children && !(step.ChildDies? && step.pid == pid)
  }

  /** The peer of a child has vanished from the bus; only unique names count. */
  predicate IsOrphan(w: World, step: Step, pid: int) {
    && pid in w.server.children && w.server.children[pid].peer.Some?
    && step.NameVanishes? && step.from == step.name && step.to == ""
    && |step.name| > 0 && step.name[0] == ':'
    && w.server.children[pid].peer.value.sender == Some(step.name)
  }

  /** Why a signal is sent. */
  predicate HasReason(c: Setup, w: World, step: Step, kill: Kill) {
    || AskedFor(w, step, kill)
    || (IsOrphan(w, step, kill.pid) && kill.signum == 2 && kill.toGroup)
    || (StopsWith(c, w, step, kill.signum) && IsLeft(w, step, kill.pid) && kill.toGroup)
  }

  lemma ReadySignals(c: Setup, s: State, spawned: Option<int>, kill: Kill)
    ensures kill in BecameReady(c.config, s, spawned).kills <==>
            && s.exitStatus == 69 && s.exportState != Gone && c.config.hasCommand && spawned.None?
            && kill.pid in s.children && kill.signum == 15 && kill.toGroup
    ensures BecameReady(c.config, s, spawned).stops <==>
            s.exitStatus == 69 && s.exportState != Gone && c.config.hasCommand && spawned.None?
  {
  }

  lemma NameLostSignals(c: Setup, w: World, step: Step, kill: Kill)
    requires Enabled(w, step) && step.NameLost?
    ensures kill in Kills(c, w, step) <==> HasReason(c, w, step, kill)
  {
    var out := LostName(c.config, w.server);
    LostNameState(c, w.server);
    ReadySignals(c, out.state, step.spawned, kill);
    assert out.kills == {};
  }

  lemma AnnouncementSignals(c: Setup, w: World, step: Step, kill: Kill)
    requires Enabled(w, step) && IsAnnouncement(step)
    ensures kill in Kills(c, w, step) <==> HasReason(c, w, step, kill)
  {
    match step
    case SocketReady(spawned) => ReadySignals(c, w.server.(listening := true), spawned, kill);
    case NameAcquired(_, spawned) => ReadySignals(c, w.server, spawned, kill);
    case NameLost(_, _) => NameLostSignals(c, w, step, kill);
  }

  lemma CallSignals(c: Setup, w: World, step: Step, kill: Kill)
    requires Enabled(w, step) && step.CallHandled?
    ensures kill in Kills(c, w, step) <==> HasReason(c, w, step, kill)
  {
    match w.calls[step.index].what
    case Launch(_) =>
    case SendSignal(_, _, _) =>
    case Terminate =>
  }

  lemma OtherSignals(c: Setup, w: World, step: Step, kill: Kill)
    requires Enabled(w, step) && !IsAnnouncement(step) && !step.CallHandled?
    ensures kill in Kills(c, w, step) <==> HasReason(c, w, step, kill)
  {
    match step
    case BusConnected(_) =>
    case ChildDies(_, _) =>
    case NameVanishes(_, _, _) =>
    case SignalReceived(_) =>
    case ExitFdReadable =>
    case _ =>
  }

  /**
    The service sends exactly the signals for which there is a reason: the one that the peer of
    a child asks for, an interrupt to every child of a peer that has vanished, and when it stops
    the signal for that to every child that is left.
   */
  lemma SignalsAreExact(c: Setup, w: World, step: Step, kill: Kill)
    requires Enabled(w, step)
    ensures kill in Kills(c, w, step) <==> HasReason(c, w, step, kill)
  {
    if IsAnnouncement(step) {
      AnnouncementSignals(c, w, step, kill);
    } else if step.CallHandled? {
      CallSignals(c, w, step, kill);
    } else {
      OtherSignals(c, w, step, kill);
    }
  }

  // ---------------------------------------------------------------------------
  // When the service stops, and its exit status

  /** The step tells the service to stop; losing a bus name sends no signal. */
  predicate TellsToStop(c: Setup, w: World, step: Step) {
    || (step.NameLost? && c.config.stopOnNameLoss)
    || StopsWith(c, w, step, if step.SignalReceived? then step.signum else 15)
  }

  lemma AnnouncedStops(c: Setup, w: World, spawned: Option<int>)
    ensures var v := Announced(c, w, spawned);
            var starts := w.server.exitStatus == 69 && w.server.exportState != Gone;
            && (v.stopped <==> w.stopped || (starts && c.config.hasCommand && spawned.None?))
            && (v.server.started <==> w.server.started || starts)
            && v.server.exitStatus == (if starts && (c.config.hasCommand ==> spawned.Some?) then 0
                                       else w.server.exitStatus)
  {
    AnnouncedParts(c, w, spawned);
  }

  lemma LostNameStops(c: Setup, w: World)
    ensures var v := Post(w, LostName(c.config, w.server), None);
            && (v.stopped <==> w.stopped || c.config.stopOnNameLoss)
            && v == w.(server := v.server, stopped := v.stopped)
            && v.server.exitStatus == w.server.exitStatus && v.server.started == w.server.started
            && v.server.exportState
               == (if c.config.stopOnNameLoss && !(w.server.started && w.server.exportState == Exported) then Gone
                   else w.server.exportState)
            && v.server.children == w.server.children
            && (v.server.listening <==> w.server.listening && !c.config.stopOnNameLoss)
  {
    LostNameState(c, w.server);
  }

  /** What a step makes of the service's exit status. */
  function StatusAfter(c: Setup, w: World, step: Step): int {
    if step.BusConnected? && !step.exportOk then 70
    else if StartsUp(c, w, step) && (c.config.hasCommand ==> SpawnedIn(step).Some?) then 0
    else w.server.exitStatus
  }

  ghost predicate StopIsExact(c: Setup, w: World, step: Step)
    requires Enabled(w, step)
  {
    var v := Next(c, w, step);
    && (v.stopped <==> w.stopped || TellsToStop(c, w, step))
    && v.server.exitStatus == StatusAfter(c, w, step)
    && (v.server.started <==> w.server.started || StartsUp(c, w, step))
  }

  lemma NameLostStop(c: Setup, w: World, step: Step)
    requires Enabled(w, step) && step.NameLost?
    ensures StopIsExact(c, w, step)
  {
    var w1 := Post(w, LostName(c.config, w.server), None);
    NameLostNext(c, w, step);
    LostNameStops(c, w);
    AnnouncedStops(c, w1, step.spawned);
  }

  lemma AnnouncementStop(c: Setup, w: World, step: Step)
    requires Enabled(w, step) && IsAnnouncement(step)
    ensures StopIsExact(c, w, step)
  {
    if step.SocketReady? {
      SocketReadyStop(c, w, step);
    } else if step.NameAcquired? {
      NameAcquiredStop(c, w, step);
    } else {
      NameLostStop(c, w, step);
    }
  }

  lemma SocketReadyStop(c: Setup, w: World, step: Step)
    requires Enabled(w, step) && step.SocketReady?
    ensures StopIsExact(c, w, step)
  {
    AnnouncedStops(c, w.(mode := Looping, server := w.server.(listening := true)), step.spawned);
  }

  lemma NameAcquiredNext(c: Setup, w: World, step: Step)
    requires Enabled(w, step) && step.NameAcquired?
    ensures Next(c, w, step) == if step.settled && !w.ready then Announced(c, w, step.spawned) else w
  {
  }

  lemma NameAcquiredReasons(c: Setup, w: World, step: Step)
    requires step.NameAcquired?
    ensures StartsUp(c, w, step) <==>
            step.settled && !w.ready && w.server.exitStatus == 69 && w.server.exportState != Gone
    ensures TellsToStop(c, w, step) <==> StartsUp(c, w, step) && c.config.hasCommand && step.spawned.None?
    ensures SpawnedIn(step) == step.spawned
  {
  }

  lemma NameAcquiredStop(c: Setup, w: World, step: Step)
    requires Enabled(w, step) && step.NameAcquired?
    ensures StopIsExact(c, w, step)
  {
    NameAcquiredNext(c, w, step);
    NameAcquiredReasons(c, w, step);
    AnnouncedStops(c, w, step.spawned);
  }

  lemma OtherStop(c: Setup, w: World, step: Step)
    requires Enabled(w, step) && !IsAnnouncement(step) && !step.CallHandled? && !step.ChildDies?
    ensures StopIsExact(c, w, step)
  {
    if CallsStop(w, step) {
      StoppingStep(c, w, step);
    } else if step.ClientGetsReply? || step.ClientDispatches? || step.ClientLosesService? {
      ClientNeverGoesBack(c, w, step);
    } else {
      NoReason(c, w, step);
      if IsPlain(step) {
        PlainKeepsStatus(c, w, step);
      } else {
        RecordingKeepsStatus(c, w, step);
      }
    }
  }

  /** Nothing that says whether the service has started or stopped has changed. */
  predicate SameStatus(w: World, v: World) {
    && v.stopped == w.stopped && v.server.exitStatus == w.server.exitStatus
    && v.server.started == w.server.started
  }

  predicate IsRecording(step: Step) {
    step.ListenFailed? || step.LoopEnds? || step.NameVanishes? || step.CallArrives?
  }

  predicate IsPlain(step: Step) {
    (step.BusConnected? && step.exportOk) || step.NamesRequested? || step.PeerConnected? || step.TimerFires?
  }

  lemma TimerKeepsStatus(s: State)
    requires s.timers > 0
    ensures TimerFired(s).exitStatus == s.exitStatus && TimerFired(s).started == s.started
  {
  }

  lemma ExportKeepsStatus(s: State)
    ensures ExportTried(s).exitStatus == s.exitStatus && ExportTried(s).started == s.started
  {
  }

  lemma RecordingKeepsStatus(c: Setup, w: World, step: Step)
    requires Enabled(w, step) && IsRecording(step)
    ensures SameStatus(w, Next(c, w, step))
  {
  }

  lemma PlainKeepsStatus(c: Setup, w: World, step: Step)
    requires Enabled(w, step) && IsPlain(step)
    ensures SameStatus(w, Next(c, w, step))
  {
    ExportKeepsStatus(w.server);
    if step.TimerFires? {
      TimerKeepsStatus(w.server);
    }
  }

  lemma NoReason(c: Setup, w: World, step: Step)
    requires IsRecording(step) || IsPlain(step)
    ensures !TellsToStop(c, w, step) && StatusAfter(c, w, step) == w.server.exitStatus && !StartsUp(c, w, step)
  {
  }

  /**
    The service stops in exactly the steps that tell it to, its exit status is set to success by
    a startup that succeeds, and to an internal error by an export that fails.
   */
  lemma StopsAreExact(c: Setup, w: World, step: Step)
    requires Enabled(w, step)
    ensures StopIsExact(c, w, step)
  {
    if step.CallHandled? {
      CallStop(c, w, step);
    } else if step.ChildDies? {
      ChildStop(c, w, step);
    } else if IsAnnouncement(step) {
      AnnouncementStop(c, w, step);
    } else {
      OtherStop(c, w, step);
    }
  }

  lemma CallStop(c: Setup, w: World, step: Step)
    requires Enabled(w, step) && step.CallHandled?
    ensures StopIsExact(c, w, step)
  {
    HandlingParts(w, w.calls[step.index], step.spawned);
    HandledParts(w, step.index, step.spawned);
    HandlingStarted(w, w.calls[step.index], step.spawned);
  }

  lemma HandlingStarted(w: World, call: Call, spawned: Option<int>)
    requires w.server.inFlight > 0
    ensures Handling(w, call, spawned).state.started == w.server.started
  {
  }

  lemma ChildStop(c: Setup, w: World, step: Step)
    requires Enabled(w, step) && step.ChildDies?
    ensures StopIsExact(c, w, step)
  {
    ChildDiedParts(w.server, step.pid, step.status);
    ReapedParts(w, step.pid, step.status);
    ChildDiedStarted(w.server, step.pid, step.status);
  }

  lemma ChildDiedStarted(s: State, pid: int, status: int)
    requires pid in s.children
    ensures ChildDied(s, pid, status).state.started == s.started
  {
  }

  /** Without a startup before it, losing the bus name makes the service gone at once. */
  lemma NameLostBeforeStart(c: Setup, w: World, step: Step)
    requires Enabled(w, step) && step.NameLost? && c.config.stopOnNameLoss && !w.server.started
    ensures Next(c, w, step).server.exportState == Gone && Next(c, w, step).stopped
  {
    NameLostNext(c, w, step);
    LostNameStops(c, w);
    ReadyWhenGone(c, Post(w, LostName(c.config, w.server), None), step.spawned);
  }

  lemma ReadyWhenGone(c: Setup, w: World, spawned: Option<int>)
    requires w.server.exportState == Gone
    ensures Announced(c, w, spawned).server == w.server && Announced(c, w, spawned).stopped == w.stopped
  {
    AnnouncedParts(c, w, spawned);
  }

  /** A connection on which the interface can be exported makes the service reachable. */
  lemma ConnectingExports(c: Setup, w: World, step: Step)
    requires Inv(c, w) && Enabled(w, step) && !w.stopped
    requires (step.BusConnected? || step.PeerConnected?) && step.exportOk
    ensures Next(c, w, step).server.exportState == Exported && Next(c, w, step).server.skeletonRef
    ensures forall peer :: Enabled(Next(c, w, step), CallArrives(Call(peer, Terminate), false))
  {
    assert w.server.exportState != Gone;
  }

  // ---------------------------------------------------------------------------
  // Answers

  /** What the service answers to a call. */
  function Answer(w: World, call: Call, spawned: Option<int>): Message {
    match call.what
    case Launch(request) =>
      if request.argv != [] && request.flags < 2 && spawned.Some? then LaunchReply(spawned.value) else LaunchError
    case SendSignal(pid, _, _) =>
      if pid in w.server.children && w.server.children[pid].peer == Some(call.peer) then SignalReply else SignalError
    case Terminate => TerminateReply
  }

  lemma AnswerIsSent(w: World, call: Call, spawned: Option<int>)
    requires w.server.inFlight > 0
    ensures Handling(w, call, spawned).message == Some((call.peer, Answer(w, call, spawned)))
    ensures CreatesJob(call, spawned) <==> Answer(w, call, spawned).LaunchReply?
  {
  }

  /** Every call that is handled gets exactly one answer, from the table as it was; nobody else gets mail. */
  lemma CallIsAnswered(c: Setup, w: World, step: Step)
    requires Enabled(w, step) && step.CallHandled?
    ensures var call := w.calls[step.index];
            var answer := Answer(w, call, step.spawned);
            var job := if answer.LaunchReply? then Some(|w.jobs|) else None;
            && Next(c, w, step).sent == w.sent[call.peer := Outbox(w, call.peer) + [Sent(answer, job)]]
            && Next(c, w, step).calls == w.calls[..step.index] + w.calls[step.index + 1..]
  {
    AnswerIsSent(w, w.calls[step.index], step.spawned);
    HandledSends(w, step.index, step.spawned);
  }

  lemma HandledSends(w: World, index: nat, spawned: Option<int>)
    requires index < |w.calls| && w.server.inFlight > 0
    ensures var call, v := w.calls[index], Handled(w, index, spawned);
            var out := Handling(w, call, spawned);
            && out.message.Some?
            && v.calls == w.calls[..index] + w.calls[index + 1..]
            && v.sent == w.sent[call.peer := Outbox(w, call.peer)
                                  + [Sent(out.message.value.1,
                                          if CreatesJob(call, spawned) then Some(|w.jobs|) else None)]]
  {
    HandledParts(w, index, spawned);
    HandlingParts(w, w.calls[index], spawned);
  }

  // ---------------------------------------------------------------------------
  // The table of children

  /** The child that a step adds to the table, and whether the service stops when that child exits. */
  function ChildAdded(c: Setup, w: World, step: Step): Option<(int, PidData)> {
    if step.CallHandled? && step.index < |w.calls| then
      var call := w.calls[step.index];
      match Answer(w, call, step.spawned)
      case LaunchReply(pid) =>
        Some((pid, PidData(Some(call.peer), call.what.Launch? && call.what.request.terminateAfter)))
      case _ => None
    else if StartsUp(c, w, step) && c.config.hasCommand && SpawnedIn(step).Some? then
      Some((SpawnedIn(step).value, PidData(None, c.config.stopOnExit)))
    else None
  }

  /** The table and the log after a step. */
  ghost predicate TableIsExact(c: Setup, w: World, step: Step)
    requires Enabled(w, step)
  {
    var v := Next(c, w, step);
    match ChildAdded(c, w, step)
    case Some((pid, data)) =>
      && v.server.children == w.server.children[pid := data]
      && v.jobs == w.jobs + [Job(pid, data.peer)] && v.jobOf == w.jobOf[pid := |w.jobs|] && v.reaped == w.reaped
    case None =>
      && v.jobs == w.jobs
      && if step.ChildDies? then
           && v.server.children == w.server.children - {step.pid} && v.jobOf == w.jobOf - {step.pid}
           && step.pid in w.jobOf && v.reaped == w.reaped[w.jobOf[step.pid] := step.status]
         else v.server.children == w.server.children && v.jobOf == w.jobOf && v.reaped == w.reaped
  }

  lemma AnnouncedTableIs(c: Setup, w: World, spawned: Option<int>)
    ensures var v := Announced(c, w, spawned);
            && v.reaped == w.reaped
            && if StartsWrapped(c, w.server, spawned) then
                 && v.server.children == w.server.children[spawned.value := PidData(None, c.config.stopOnExit)]
                 && v.jobs == w.jobs + [Job(spawned.value, None)] && v.jobOf == w.jobOf[spawned.value := |w.jobs|]
               else v.server.children == w.server.children && v.jobs == w.jobs && v.jobOf == w.jobOf
  {
    ReadyParts(c, w.server, spawned);
    AnnouncedParts(c, w, spawned);
  }

  lemma SocketReadyTable(c: Setup, w: World, step: Step)
    requires Enabled(w, step) && step.SocketReady?
    ensures TableIsExact(c, w, step)
  {
    AnnouncedTableIs(c, w.(mode := Looping, server := w.server.(listening := true)), step.spawned);
  }

  lemma NameAcquiredTable(c: Setup, w: World, step: Step)
    requires Enabled(w, step) && step.NameAcquired?
    ensures TableIsExact(c, w, step)
  {
    AnnouncedTableIs(c, w, step.spawned);
  }

  lemma NameLostTable(c: Setup, w: World, step: Step)
    requires Enabled(w, step) && step.NameLost?
    ensures TableIsExact(c, w, step)
  {
    NameLostNext(c, w, step);
    LostNameStops(c, w);
    AnnouncedTableIs(c, Post(w, LostName(c.config, w.server), None), step.spawned);
  }

  lemma CallTable(c: Setup, w: World, step: Step)
    requires Enabled(w, step) && step.CallHandled?
    ensures TableIsExact(c, w, step)
  {
    AnswerIsSent(w, w.calls[step.index], step.spawned);
    HandlingParts(w, w.calls[step.index], step.spawned);
    HandledParts(w, step.index, step.spawned);
  }

  lemma DeathTable(c: Setup, w: World, step: Step)
    requires Enabled(w, step) && step.ChildDies?
    ensures TableIsExact(c, w, step)
  {
    ChildDiedParts(w.server, step.pid, step.status);
    ReapedParts(w, step.pid, step.status);
  }

  predicate SameTable(w: World, v: World) {
    v.server.children == w.server.children && v.jobs == w.jobs && v.jobOf == w.jobOf && v.reaped == w.reaped
  }

  lemma StoppingKeepsTable(c: Setup, w: World, step: Step)
    requires Enabled(w, step) && CallsStop(w, step)
    ensures SameTable(w, Next(c, w, step))
  {
    StoppingStep(c, w, step);
    StoppedParts(if step.BusConnected? then ExportTried(w.server).(exitStatus := EX_SOFTWARE) else w.server,
                 if step.SignalReceived? then step.signum else SIGTERM);
  }

  lemma RecordingKeepsTable(c: Setup, w: World, step: Step)
    requires Enabled(w, step) && IsRecording(step)
    ensures SameTable(w, Next(c, w, step))
  {
  }

  lemma PlainKeepsTable(c: Setup, w: World, step: Step)
    requires Enabled(w, step) && IsPlain(step)
    ensures SameTable(w, Next(c, w, step))
  {
    assert ExportTried(w.server).children == w.server.children;
    assert step.TimerFires? ==> TimerFired(w.server).children == w.server.children;
  }

  lemma ClientsKeepTable(c: Setup, w: World, step: Step)
    requires Enabled(w, step) && (step.ClientGetsReply? || step.ClientDispatches? || step.ClientLosesService?)
    ensures SameTable(w, Next(c, w, step))
  {
  }

  lemma OtherTable(c: Setup, w: World, step: Step)
    requires Enabled(w, step) && !IsAnnouncement(step) && !step.CallHandled? && !step.ChildDies?
    ensures TableIsExact(c, w, step)
  {
    assert ChildAdded(c, w, step).None?;
    if CallsStop(w, step) {
      StoppingKeepsTable(c, w, step);
    } else if IsRecording(step) {
      RecordingKeepsTable(c, w, step);
    } else if IsPlain(step) {
      PlainKeepsTable(c, w, step);
    } else {
      ClientsKeepTable(c, w, step);
    }
  }

  /** The table gains exactly the processes that are created, and loses exactly the child that dies. */
  lemma TableChangesAreExact(c: Setup, w: World, step: Step)
    requires Enabled(w, step)
    ensures TableIsExact(c, w, step)
  {
    match step
    case SocketReady(_) => SocketReadyTable(c, w, step);
    case NameAcquired(_, _) => NameAcquiredTable(c, w, step);
    case NameLost(_, _) => NameLostTable(c, w, step);
    case CallHandled(_, _) => CallTable(c, w, step);
    case ChildDies(_, _) => DeathTable(c, w, step);
    case _ => OtherTable(c, w, step);
  }

  // ---------------------------------------------------------------------------
  // Stopping when a child exits

  /** The job `k` is a child, and this is what the table says about it. */
  ghost predicate IsChild(w: World, k: nat, pid: int, data: PidData) {
    pid in w.jobOf && w.jobOf[pid] == k && pid in w.server.children && w.server.children[pid] == data
  }

  lemma EntryStaysInStep(c: Setup, w: World, step: Step, k: nat, pid: int, data: PidData)
    requires TableInv(w) && Enabled(w, step) && IsChild(w, k, pid, data)
    ensures IsChild(Next(c, w, step), k, pid, data) || k in Next(c, w, step).reaped
  {
    TableChangesAreExact(c, w, step);
    AddedIsFresh(c, w, step);
  }

  lemma AddedIsFresh(c: Setup, w: World, step: Step)
    requires Enabled(w, step)
    ensures ChildAdded(c, w, step).Some? ==> ChildAdded(c, w, step).value.0 !in w.server.children
  {
  }

  lemma ReapedStays(c: Setup, w: World, step: Step, k: nat)
    requires Enabled(w, step) && k in w.reaped
    ensures k in Next(c, w, step).reaped
  {
    TableChangesAreExact(c, w, step);
  }

  /** What the table says about a process stays the same until it is reaped. */
  lemma {:induction false} EntryStays(c: Setup, ws: seq<World>, steps: seq<Step>, i: nat, j: nat, k: nat, pid: int,
                                      data: PidData)
    requires IsRun(c, ws, steps) && i <= j < |ws| && IsChild(ws[i], k, pid, data)
    ensures IsChild(ws[j], k, pid, data) || k in ws[j].reaped
    decreases j
  {
    if i < j {
      EntryStays(c, ws, steps, i, j - 1, k, pid, data);
      assert StepAt(c, ws, steps, j - 1);
      if k in ws[j - 1].reaped {
        ReapedStays(c, ws[j - 1], steps[j - 1], k);
      } else {
        RunKeepsInv(c, ws, steps, j - 1);
        EntryStaysInStep(c, ws[j - 1], steps[j - 1], k, pid, data);
      }
    }
  }

  /**
    From the launch of a process to its exit, whatever happens in between: when it dies, its
    exit is reported to the peer that launched it, and the service stops then, exactly if it
    was asked to with the launch, or for the wrapped command was so configured.
   */
  lemma ExitStopsIfAsked(c: Setup, ws: seq<World>, steps: seq<Step>, i: nat, j: nat, pid: int, data: PidData)
    requires IsRun(c, ws, steps) && i < j < |steps|
    requires Enabled(ws[i], steps[i]) && ChildAdded(c, ws[i], steps[i]) == Some((pid, data))
    requires steps[j].ChildDies? && steps[j].pid == pid
    requires Enabled(ws[j], steps[j]) && ws[j].jobOf[pid] == |ws[i].jobs|
    ensures ws[j].server.children[pid] == data
    ensures ws[j + 1].stopped <==> ws[j].stopped || data.terminateAfter
  {
    AddedIsChild(c, ws, steps, i, pid, data);
    EntryStays(c, ws, steps, i + 1, j, |ws[i].jobs|, pid, data);
    RunKeepsInv(c, ws, steps, j);
    assert StepAt(c, ws, steps, j);
    StopsAreExact(c, ws[j], steps[j]);
  }

  lemma AddedIsChild(c: Setup, ws: seq<World>, steps: seq<Step>, i: nat, pid: int, data: PidData)
    requires IsRun(c, ws, steps) && i < |steps|
    requires ChildAdded(c, ws[i], steps[i]) == Some((pid, data))
    ensures IsChild(ws[i + 1], |ws[i].jobs|, pid, data)
  {
    assert StepAt(c, ws, steps, i);
    TableChangesAreExact(c, ws[i], steps[i]);
  }
}
