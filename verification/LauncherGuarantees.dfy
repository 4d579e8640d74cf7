/** What holds in every run of the launcher service and its clients. */
module LauncherGuarantees {
  import opened Wrappers
  import opened Decimal
  import opened LauncherServer
  import opened LauncherRuns

  // ---------------------------------------------------------------------------
  // Conservation

  /** Every process ever created is either a child in the table or reaped, and not both. */
  lemma JobsAreConserved(c: Setup, ws: seq<World>, steps: seq<Step>, i: nat)
    requires IsRun(c, ws, steps) && i < |ws|
    ensures var w := ws[i];
            var living := set p | p in w.jobOf :: w.jobOf[p];
            && w.jobOf.Keys == w.server.children.Keys
            && living !! w.reaped.Keys
            && (forall k: nat :: k in living || k in w.reaped <==> k < |w.jobs|)
    // two children are two different jobs
    ensures forall p, q :: p in ws[i].jobOf && q in ws[i].jobOf && ws[i].jobOf[p] == ws[i].jobOf[q] ==> p == q
  {
    RunKeepsInv(c, ws, steps, i);
    var w := ws[i];
    var living := set p | p in w.jobOf :: w.jobOf[p];
    forall k: nat | k < |w.jobs| && k !in w.reaped ensures k in living {
      assert w.jobOf[w.jobs[k].pid] == k;
    }
  }

  ghost predicate ReplyFor(w: World, peer: Peer, k: nat, i: int) {
    0 <= i < |Outbox(w, peer)| && Outbox(w, peer)[i].job == Some(k) && Outbox(w, peer)[i].message.LaunchReply?
  }

  ghost predicate ExitFor(w: World, peer: Peer, k: nat, i: int) {
    0 <= i < |Outbox(w, peer)| && Outbox(w, peer)[i].job == Some(k) && Outbox(w, peer)[i].message.ProcessExited?
  }

  /**
    For each process that a peer launched, that peer and no other gets exactly one launch reply;
    once the process is reaped, that peer and no other gets exactly one exit signal, after the
    reply, with the pid of the process and its wait status.
   */
  lemma ExactlyOneExitSignal(c: Setup, ws: seq<World>, steps: seq<Step>, i: nat, k: nat, peer: Peer)
    requires IsRun(c, ws, steps) && i < |ws| && k < |ws[i].jobs|
    ensures var w := ws[i];
            if !Owns(w, peer, k) then
              forall at :: !ReplyFor(w, peer, k, at) && !ExitFor(w, peer, k, at)
            else
              && k in w.replyAt && ReplyFor(w, peer, k, w.replyAt[k])
              && (forall at :: ReplyFor(w, peer, k, at) <==> at == w.replyAt[k])
              && Outbox(w, peer)[w.replyAt[k]].message == LaunchReply(w.jobs[k].pid)
              && if k !in w.reaped then forall at :: !ExitFor(w, peer, k, at)
                 else
                   && k in w.exitAt && w.replyAt[k] < w.exitAt[k] && ExitFor(w, peer, k, w.exitAt[k])
                   && (forall at :: ExitFor(w, peer, k, at) <==> at == w.exitAt[k])
                   && Outbox(w, peer)[w.exitAt[k]].message == ProcessExited(w.jobs[k].pid, w.reaped[k])
  {
    RunKeepsInv(c, ws, steps, i);
    var w := ws[i];
    assert JobMail(w, k);
    forall at | ReplyFor(w, peer, k, at) || ExitFor(w, peer, k, at)
      ensures Owns(w, peer, k)
      ensures ReplyFor(w, peer, k, at) ==> k in w.replyAt && w.replyAt[k] == at
      ensures ExitFor(w, peer, k, at) ==> k in w.reaped && k in w.exitAt && w.exitAt[k] == at
    {
      assert MailOk(w, peer, at, w.sent[peer][at]);
    }
  }

  /** The service finishes only when every process it ever created has been reaped. */
  lemma FinishedMeansAllReaped(c: Setup, ws: seq<World>, steps: seq<Step>, i: nat)
    requires IsRun(c, ws, steps) && i < |ws| && ws[i].mode == Finished
    ensures ws[i].server.children == map[]
    ensures forall k: nat :: k < |ws[i].jobs| ==> k in ws[i].reaped
  {
    RunKeepsInv(c, ws, steps, i);
  }

  // ---------------------------------------------------------------------------
  // Shutdown

  lemma ReadyNeverGoesBack(c: Setup, s: State, spawned: Option<int>)
    ensures Rank(s.exportState) <= Rank(BecameReady(c.config, s, spawned).state.exportState)
  {
  }

  lemma AnnouncingNeverGoesBack(c: Setup, w: World, spawned: Option<int>)
    ensures Rank(w.server.exportState) <= Rank(Announced(c, w, spawned).server.exportState)
    ensures w.stopped ==> Announced(c, w, spawned).stopped
  {
    ReadyNeverGoesBack(c, w.server, spawned);
    AnnouncedParts(c, w, spawned);
  }

  lemma StoppingNeverGoesBack(c: Setup, w: World, step: Step)
    requires Enabled(w, step) && CallsStop(w, step)
    ensures Rank(w.server.exportState) <= Rank(Next(c, w, step).server.exportState)
    ensures w.stopped ==> Next(c, w, step).stopped
  {
    StoppingStep(c, w, step);
    var s := if step.BusConnected? then ExportTried(w.server).(exitStatus := EX_SOFTWARE) else w.server;
    StoppedParts(s, if step.SignalReceived? then step.signum else SIGTERM);
  }

  lemma ClientNeverGoesBack(c: Setup, w: World, step: Step)
    requires Enabled(w, step)
    requires step.ClientGetsReply? || step.ClientDispatches? || step.ClientLosesService?
    ensures Next(c, w, step).server == w.server && Next(c, w, step).stopped == w.stopped
  {
  }

  lemma OtherStepsNeverGoBack(c: Setup, w: World, step: Step)
    requires Enabled(w, step)
    requires || (step.BusConnected? && step.exportOk) || step.NamesRequested? || step.ListenFailed?
             || step.PeerConnected? || step.CallArrives?
             || step.NameVanishes? || step.TimerFires? || step.LoopEnds?
    ensures Rank(w.server.exportState) <= Rank(Next(c, w, step).server.exportState)
    ensures w.stopped ==> Next(c, w, step).stopped
  {
  }

  lemma StateNeverGoesBack(c: Setup, w: World, step: Step)
    requires Enabled(w, step)
    ensures Rank(w.server.exportState) <= Rank(Next(c, w, step).server.exportState)
    ensures w.stopped ==> Next(c, w, step).stopped
  {
    match step
    case SocketReady(spawned) =>
      AnnouncingNeverGoesBack(c, w.(mode := Looping, server := w.server.(listening := true)), spawned);
    case NameAcquired(_, spawned) => AnnouncingNeverGoesBack(c, w, spawned);
    case NameLost(_, spawned) =>
      LostNameState(c, w.server);
      AnnouncingNeverGoesBack(c, Post(w, LostName(c.config, w.server), None), spawned);
    case CallHandled(index, spawned) =>
      HandlingParts(w, w.calls[index], spawned);
      HandledParts(w, index, spawned);
    case ChildDies(pid, status) =>
      ChildDiedParts(w.server, pid, status);
      ReapedParts(w, pid, status);
    case BusConnected(exportOk) =>
      if exportOk {
        OtherStepsNeverGoBack(c, w, step);
      } else {
        StoppingNeverGoesBack(c, w, step);
      }
    case SignalReceived(_) => StoppingNeverGoesBack(c, w, step);
    case ExitFdReadable => StoppingNeverGoesBack(c, w, step);
    case ClientGetsReply(_, _) => ClientNeverGoesBack(c, w, step);
    case ClientDispatches(_) => ClientNeverGoesBack(c, w, step);
    case ClientLosesService(_) => ClientNeverGoesBack(c, w, step);
    case _ => OtherStepsNeverGoBack(c, w, step);
  }

  /** The export state only ever moves to a later state. */
  lemma {:induction false} ExportStateNeverDecreases(c: Setup, ws: seq<World>, steps: seq<Step>, i: nat, j: nat)
    requires IsRun(c, ws, steps) && i <= j < |ws|
    ensures Rank(ws[i].server.exportState) <= Rank(ws[j].server.exportState)
    ensures ws[i].stopped ==> ws[j].stopped
  {
    if i < j {
      ExportStateNeverDecreases(c, ws, steps, i, j - 1);
      assert StepAt(c, ws, steps, j - 1);
      StateNeverGoesBack(c, ws[j - 1], steps[j - 1]);
    }
  }

  /** Once the service has been told to stop, something is always left that will make it go. */
  lemma StopLeadsToGone(c: Setup, ws: seq<World>, steps: seq<Step>, i: nat)
    requires IsRun(c, ws, steps) && i < |ws| && ws[i].stopped
    ensures || ws[i].server.exportState == Gone
            || ws[i].server.timers > 0
            || (!ws[i].server.skeletonRef && ws[i].calls != [])
  {
    RunKeepsInv(c, ws, steps, i);
  }

  /** A step that uses up what keeps the service alive, without starting a process. */
  predicate Drains(w: World, step: Step) {
    || step.ChildDies?
    || step.TimerFires?
    || (step.CallHandled? && step.index < |w.calls| && !CreatesJob(w.calls[step.index], step.spawned))
  }

  function Remaining(w: World): nat {
    2 * (|w.server.children| + |w.calls|) + w.server.timers
  }

  lemma DrainingStepDecreases(c: Setup, w: World, step: Step)
    requires Enabled(w, step) && Drains(w, step)
    ensures Remaining(Next(c, w, step)) < Remaining(w)
  {
    match step
    case CallHandled(index, spawned) =>
      HandlingParts(w, w.calls[index], spawned);
      HandledParts(w, index, spawned);
    case ChildDies(pid, status) =>
      ChildDiedParts(w.server, pid, status);
      ReapedParts(w, pid, status);
      assert |w.server.children.Keys - {pid}| == |w.server.children.Keys| - 1;
      assert (w.server.children - {pid}).Keys == w.server.children.Keys - {pid};
    case TimerFires =>
  }

  /** The step tells the service to stop. */
  predicate Stops(c: Setup, w: World, step: Step)
    requires Enabled(w, step)
  {
    match step
    case BusConnected(exportOk) => BusAcquired(w.server, exportOk).stops
    case SocketReady(spawned) => BecameReady(c.config, w.server.(listening := true), spawned).stops
    case NameAcquired(settled, spawned) => settled && !w.ready && BecameReady(c.config, w.server, spawned).stops
    case NameLost(settled, spawned) =>
      var out := LostName(c.config, w.server);
      out.stops || (!w.ready && (settled || !out.state.listening) && BecameReady(c.config, out.state, spawned).stops)
    case CallHandled(index, spawned) => Handling(w, w.calls[index], spawned).stops
    case ChildDies(pid, status) => ChildDied(w.server, pid, status).stops
    case NameVanishes(name, from, to) => NameOwnerChanged(w.server, name, from, to).stops
    case SignalReceived(signum) => Stopped(w.server, signum).stops
    case ExitFdReadable => Stopped(w.server, SIGTERM).stops
    case _ => false
  }

  /** The step starts the wrapped command. */
  predicate StartsCommand(c: Setup, w: World, step: Step)
    requires Enabled(w, step)
  {
    match step
    case SocketReady(spawned) => StartsWrapped(c, w.server.(listening := true), spawned)
    case NameAcquired(settled, spawned) => settled && !w.ready && StartsWrapped(c, w.server, spawned)
    case NameLost(settled, spawned) =>
      var s := LostName(c.config, w.server).state;
      !w.ready && (settled || !s.listening) && StartsWrapped(c, s, spawned)
    case _ => false
  }

  /**
    A step that brings the service something new to wait for: a call, which may turn into a
    process, a timer after a stop, or the wrapped command.
   */
  predicate Feeds(c: Setup, w: World, step: Step)
    requires Enabled(w, step)
  {
    step.CallArrives? || Stops(c, w, step) || StartsCommand(c, w, step)
  }

  /** What one step does to what remains: at most three more for feeding, one less for draining. */
  ghost predicate Balanced(c: Setup, w: World, step: Step)
    requires Enabled(w, step)
  {
    Remaining(Next(c, w, step)) + (if Drains(w, step) then 1 else 0)
    <= Remaining(w) + if Feeds(c, w, step) then 3 else 0
  }

  lemma ReadyTimers(c: Setup, s: State, spawned: Option<int>)
    ensures var out := BecameReady(c.config, s, spawned);
            out.state.timers <= s.timers + if out.stops then 1 else 0
  {
  }

  lemma LostNameTimers(c: Setup, s: State)
    ensures var out := LostName(c.config, s);
            out.state.timers <= s.timers + if out.stops then 1 else 0
  {
  }

  lemma AnnouncedRemaining(c: Setup, w: World, spawned: Option<int>)
    requires Fresh(w, spawned)
    ensures Remaining(Announced(c, w, spawned))
            <= Remaining(w) + (if StartsWrapped(c, w.server, spawned) then 2
                               else if BecameReady(c.config, w.server, spawned).stops then 1 else 0)
  {
    ReadyParts(c, w.server, spawned);
    ReadyTimers(c, w.server, spawned);
    AnnouncedParts(c, w, spawned);
  }

  lemma NameLostBalanced(c: Setup, w: World, step: Step)
    requires Enabled(w, step) && step.NameLost?
    ensures Balanced(c, w, step)
  {
    LostNameState(c, w.server);
    LostNameTimers(c, w.server);
    NameLostNext(c, w, step);
    var out := LostName(c.config, w.server);
    var w1 := Post(w, out, None);
    assert w1 == w.(server := out.state, stopped := w.stopped || out.stops);
    AnnouncedRemaining(c, w1, step.spawned);
  }

  lemma CreationBalanced(c: Setup, w: World, step: Step)
    requires Enabled(w, step) && step.CallHandled? && CreatesJob(w.calls[step.index], step.spawned)
    ensures Balanced(c, w, step)
  {
    HandlingParts(w, w.calls[step.index], step.spawned);
    HandledParts(w, step.index, step.spawned);
  }

  lemma StoppingBalanced(c: Setup, w: World, step: Step)
    requires Enabled(w, step) && CallsStop(w, step)
    ensures Balanced(c, w, step)
  {
    StoppingStep(c, w, step);
    var s := if step.BusConnected? then ExportTried(w.server).(exitStatus := EX_SOFTWARE) else w.server;
    StoppedParts(s, if step.SignalReceived? then step.signum else SIGTERM);
  }

  lemma PlainBalanced(c: Setup, w: World, step: Step)
    requires Enabled(w, step)
    requires || (step.BusConnected? && step.exportOk) || step.NamesRequested? || step.ListenFailed?
             || step.PeerConnected? || step.CallArrives? || step.NameVanishes? || step.LoopEnds?
             || step.ClientGetsReply? || step.ClientDispatches? || step.ClientLosesService?
    ensures Balanced(c, w, step)
  {
  }

  lemma StepIsBalanced(c: Setup, w: World, step: Step)
    requires Enabled(w, step)
    ensures Balanced(c, w, step)
  {
    match step
    case SocketReady(spawned) =>
      AnnouncedRemaining(c, w.(mode := Looping, server := w.server.(listening := true)), spawned);
    case NameAcquired(_, spawned) => AnnouncedRemaining(c, w, spawned);
    case NameLost(_, _) => NameLostBalanced(c, w, step);
    case CallHandled(index, spawned) =>
      if CreatesJob(w.calls[index], spawned) {
        CreationBalanced(c, w, step);
      } else {
        DrainingStepDecreases(c, w, step);
      }
    case ChildDies(_, _) => DrainingStepDecreases(c, w, step);
    case TimerFires => DrainingStepDecreases(c, w, step);
    case SignalReceived(_) => StoppingBalanced(c, w, step);
    case ExitFdReadable => StoppingBalanced(c, w, step);
    case BusConnected(exportOk) =>
      if exportOk {
        PlainBalanced(c, w, step);
      } else {
        StoppingBalanced(c, w, step);
      }
    case _ => PlainBalanced(c, w, step);
  }

  /** How many steps from the `i`th to before the `j`th drain. */
  function Drained(ws: seq<World>, steps: seq<Step>, i: nat, j: nat): nat
    requires i <= j <= |steps| < |ws|
  {
    if i == j then 0 else Drained(ws, steps, i, j - 1) + if Drains(ws[j - 1], steps[j - 1]) then 1 else 0
  }

  predicate FeedsAt(c: Setup, ws: seq<World>, steps: seq<Step>, n: nat)
    requires n < |steps| < |ws|
  {
    Enabled(ws[n], steps[n]) && Feeds(c, ws[n], steps[n])
  }

  /** How many of them feed. */
  function Fed(c: Setup, ws: seq<World>, steps: seq<Step>, i: nat, j: nat): nat
    requires i <= j <= |steps| < |ws|
  {
    if i == j then 0 else Fed(c, ws, steps, i, j - 1) + if FeedsAt(c, ws, steps, j - 1) then 1 else 0
  }

  lemma BalancedAt(c: Setup, ws: seq<World>, steps: seq<Step>, n: nat)
    requires IsRun(c, ws, steps) && n < |steps|
    ensures Enabled(ws[n], steps[n])
    ensures Remaining(ws[n + 1]) + (if Drains(ws[n], steps[n]) then 1 else 0)
            <= Remaining(ws[n]) + if FeedsAt(c, ws, steps, n) then 3 else 0
  {
    assert StepAt(c, ws, steps, n);
    StepIsBalanced(c, ws[n], steps[n]);
  }

  /**
    In any part of any run, whatever else happens in it, the number of draining steps is bounded
    by what remained at its start and three times the number of feeding steps.
   */
  lemma {:induction false} DrainingTerminates(c: Setup, ws: seq<World>, steps: seq<Step>, i: nat, j: nat)
    requires IsRun(c, ws, steps) && i <= j < |ws|
    ensures Drained(ws, steps, i, j) + Remaining(ws[j]) <= Remaining(ws[i]) + 3 * Fed(c, ws, steps, i, j)
    decreases j
  {
    if i < j {
      DrainingTerminates(c, ws, steps, i, j - 1);
      BalancedAt(c, ws, steps, j - 1);
    }
  }

  /** If the service was told to stop and nothing is left to drain, its main loop can end. */
  lemma DrainedMeansNotAlive(c: Setup, ws: seq<World>, steps: seq<Step>, i: nat)
    requires IsRun(c, ws, steps) && i < |ws| && ws[i].stopped && ws[i].mode == Looping
    requires forall step :: Enabled(ws[i], step) ==> !Drains(ws[i], step)
    ensures ws[i].server.children == map[] && ws[i].server.exportState == Gone
    ensures Enabled(ws[i], LoopEnds)
  {
    RunKeepsInv(c, ws, steps, i);
    var w := ws[i];
    forall pid ensures pid !in w.server.children {
      assert !(Enabled(w, ChildDies(pid, 0)) && Drains(w, ChildDies(pid, 0)));
    }
    assert w.server.children == map[];
    assert !(Enabled(w, TimerFires) && Drains(w, TimerFires));
    assert !(Enabled(w, CallHandled(0, None)) && Drains(w, CallHandled(0, None)));
  }

  // ---------------------------------------------------------------------------
  // Signals

  function NoKills(): set<Kill> {
    {}
  }

  /** The signals that the service sends in a step. */
  function Kills(c: Setup, w: World, step: Step): set<Kill>
    requires Enabled(w, step)
  {
    match step
    case BusConnected(exportOk) => BusAcquired(w.server, exportOk).kills
    case SocketReady(spawned) => BecameReady(c.config, w.server.(listening := true), spawned).kills
    case NameAcquired(settled, spawned) =>
      if settled && !w.ready then BecameReady(c.config, w.server, spawned).kills else NoKills()
    case NameLost(settled, spawned) =>
      var out := LostName(c.config, w.server);
      out.kills + if !w.ready && (settled || !out.state.listening) then
                    BecameReady(c.config, out.state, spawned).kills
                  else NoKills()
    case CallHandled(index, spawned) => Handling(w, w.calls[index], spawned).kills
    case ChildDies(pid, status) => ChildDied(w.server, pid, status).kills
    case NameVanishes(name, from, to) => NameOwnerChanged(w.server, name, from, to).kills
    case SignalReceived(signum) => Stopped(w.server, signum).kills
    case ExitFdReadable => Stopped(w.server, SIGTERM).kills
    case _ => NoKills()
  }

  /** `pid` is signalled because its own peer asked for it. */
  predicate AskedFor(w: World, step: Step, kill: Kill) {
    && kill.pid in w.server.children
    && step.CallHandled? && step.index < |w.calls|
    && w.calls[step.index].what == SendSignal(kill.pid, kill.signum, kill.toGroup)
    && w.server.children[kill.pid].peer == Some(w.calls[step.index].peer)
  }

  /** `pid` is interrupted because its own peer has vanished from the bus. */
  predicate Orphaned(w: World, step: Step, kill: Kill) {
    && kill.pid in w.server.children
    && step.NameVanishes? && SentBy(w.server.children[kill.pid], step.name) && step.to == ""
    && kill.signum == SIGINT
  }

  /** In a step of one of these kinds the service signals all its children, or none. */
  lemma StartupKills(c: Setup, w: World, step: Step, kill: Kill)
    requires Enabled(w, step) && kill in Kills(c, w, step)
    requires step.BusConnected? || step.SocketReady? || step.NameAcquired? || step.NameLost?
    ensures kill.pid in w.server.children && Stops(c, w, step)
  {
    if step.NameLost? {
      LostNameState(c, w.server);
    }
  }

  lemma CallKills(c: Setup, w: World, step: Step, kill: Kill)
    requires Enabled(w, step) && kill in Kills(c, w, step) && step.CallHandled?
    ensures kill.pid in w.server.children
    ensures AskedFor(w, step, kill) || Stops(c, w, step)
  {
    match w.calls[step.index].what
    case Launch(_) =>
    case SendSignal(_, _, _) =>
    case Terminate =>
  }

  lemma OtherKills(c: Setup, w: World, step: Step, kill: Kill)
    requires Enabled(w, step) && kill in Kills(c, w, step)
    requires step.ChildDies? || step.NameVanishes? || step.SignalReceived? || step.ExitFdReadable?
    ensures kill.pid in w.server.children
    ensures Orphaned(w, step, kill) || Stops(c, w, step)
  {
  }

  lemma SignalsReachOnlyChildren(c: Setup, w: World, step: Step, kill: Kill)
    requires Enabled(w, step) && kill in Kills(c, w, step)
    ensures kill.pid in w.server.children
    ensures AskedFor(w, step, kill) || Orphaned(w, step, kill) || Stops(c, w, step)
  {
    match step
    case CallHandled(_, _) => CallKills(c, w, step, kill);
    case ChildDies(_, _) => OtherKills(c, w, step, kill);
    case NameVanishes(_, _, _) => OtherKills(c, w, step, kill);
    case SignalReceived(_) => OtherKills(c, w, step, kill);
    case ExitFdReadable => OtherKills(c, w, step, kill);
    case _ => StartupKills(c, w, step, kill);
  }

  /**
    The service signals only processes in its table: those of the caller of SendSignal, those
    of a peer that vanished, or all of them when it stops. The wrapped command, which has no
    peer, is signalled only when the service stops.
   */
  lemma SignalsReachOnlyOwnChildren(c: Setup, ws: seq<World>, steps: seq<Step>, i: nat, kill: Kill)
    requires IsRun(c, ws, steps) && i < |steps|
    requires StepAt(c, ws, steps, i) && kill in Kills(c, ws[i], steps[i])
    ensures kill.pid in ws[i].server.children && kill.pid in ws[i].jobOf
    ensures ws[i].jobOf[kill.pid] !in ws[i].reaped
    ensures AskedFor(ws[i], steps[i], kill) || Orphaned(ws[i], steps[i], kill) || Stops(c, ws[i], steps[i])
    ensures ws[i].server.children[kill.pid].peer.None? ==> Stops(c, ws[i], steps[i])
  {
    RunKeepsInv(c, ws, steps, i);
    SignalsReachOnlyChildren(c, ws[i], steps[i], kill);
  }

  // ---------------------------------------------------------------------------
  // The wrapped command

  /** The main pid is known exactly while the wrapped command is in the table. */
  lemma MainPidIsLive(c: Setup, ws: seq<World>, steps: seq<Step>, i: nat)
    requires IsRun(c, ws, steps) && i < |ws|
    ensures var s := ws[i].server;
            && (s.mainPidStr.Some? <==> exists p :: p in s.children && s.children[p].peer.None?)
            && (forall p :: p in s.children && s.children[p].peer.None? ==>
                  s.mainPidStr.Some? && Parse(s.mainPidStr.value) == Some(p))
  {
    RunKeepsInv(c, ws, steps, i);
    var s := ws[i].server;
    forall p | p in s.children && s.children[p].peer.None?
      ensures s.mainPidStr.Some? && Parse(s.mainPidStr.value) == Some(p)
    {
      ParseDec(p);
    }
  }

  /** Successful starts of the wrapped command and runs by --exec-fallback total at most one. */
  lemma WrappedRunsAtMostOnce(c: Setup, ws: seq<World>, steps: seq<Step>, i: nat)
    requires IsRun(c, ws, steps) && i < |ws|
    ensures forall k, l :: 0 <= k < l < |ws[i].jobs| ==> ws[i].jobs[k].owner.Some? || ws[i].jobs[l].owner.Some?
    ensures ws[i].fallbacks <= 1
    ensures ws[i].fallbacks == 1 ==> forall k :: 0 <= k < |ws[i].jobs| ==> ws[i].jobs[k].owner.Some?
  {
    RunKeepsInv(c, ws, steps, i);
  }

  /** From `w` to `v` processes are only added, and none of them is the wrapped command. */
  ghost predicate OnlyPeersStart(w: World, v: World) {
    && |w.jobs| <= |v.jobs|
    && (forall k :: 0 <= k < |w.jobs| ==> v.jobs[k] == w.jobs[k])
    && (forall k :: |w.jobs| <= k < |v.jobs| ==> v.jobs[k].owner.Some?)
  }

  lemma OnlyPeersStartTwice(u: World, v: World, w: World)
    requires OnlyPeersStart(u, v) && OnlyPeersStart(v, w)
    ensures OnlyPeersStart(u, w)
  {
  }

  lemma StoppedStepOfRun(c: Setup, ws: seq<World>, steps: seq<Step>, n: nat)
    requires IsRun(c, ws, steps) && n < |steps| && ws[n].stopped
    ensures OnlyPeersStart(ws[n], ws[n + 1])
  {
    RunKeepsInv(c, ws, steps, n);
    assert StepAt(c, ws, steps, n);
    StoppedStepStartsNoWrapped(c, ws[n], steps[n]);
  }

  /** After the service has been told to stop, it no longer starts the wrapped command. */
  lemma {:induction false} NoWrappedStartAfterStop(c: Setup, ws: seq<World>, steps: seq<Step>, i: nat, j: nat)
    requires IsRun(c, ws, steps) && i <= j < |ws| && ws[i].stopped
    ensures OnlyPeersStart(ws[i], ws[j])
    decreases j
  {
    if i < j {
      NoWrappedStartAfterStop(c, ws, steps, i, j - 1);
      ExportStateNeverDecreases(c, ws, steps, i, j - 1);
      StoppedStepOfRun(c, ws, steps, j - 1);
      OnlyPeersStartTwice(ws[i], ws[j - 1], ws[j]);
    }
  }

  lemma StoppedStepStartsNoWrapped(c: Setup, w: World, step: Step)
    requires Inv(c, w) && Enabled(w, step) && w.stopped
    ensures OnlyPeersStart(w, Next(c, w, step))
  {
    match step
    case CallHandled(index, spawned) => HandledParts(w, index, spawned);
    case ChildDies(pid, status) => ReapedParts(w, pid, status);
    case SocketReady(_) =>
    case NameAcquired(_, spawned) => AnnouncedParts(c, w, spawned);
    case NameLost(_, spawned) =>
      LostNameState(c, w.server);
      LostNameParts(c, w);
      AnnouncedParts(c, Post(w, LostName(c.config, w.server), None), spawned);
    case _ => OtherStepsCreateNothing(c, w, step);
  }

  lemma OtherStepsCreateNothing(c: Setup, w: World, step: Step)
    requires Inv(c, w) && Enabled(w, step)
    requires !step.SocketReady? && !step.NameAcquired? && !step.NameLost? && !step.CallHandled? && !step.ChildDies?
    ensures Next(c, w, step).jobs == w.jobs
  {
    if CallsStop(w, step) {
      StoppingStep(c, w, step);
    } else if step.ClientGetsReply? || step.ClientDispatches? || step.ClientLosesService? {
      ClientStepFrame(c, w, step);
    } else {
      PlainStepsCreateNothing(c, w, step);
    }
  }

  lemma PlainStepsCreateNothing(c: Setup, w: World, step: Step)
    requires Enabled(w, step)
    requires || (step.BusConnected? && step.exportOk) || step.NamesRequested? || step.ListenFailed?
             || step.PeerConnected? || step.CallArrives? || step.NameVanishes? || step.TimerFires? || step.LoopEnds?
    ensures Next(c, w, step).jobs == w.jobs
  {
  }

  // ---------------------------------------------------------------------------
  // The fallback

  lemma FinishedStays(c: Setup, w: World, step: Step)
    requires Enabled(w, step) && w.mode == Finished
    ensures Next(c, w, step).mode == Finished && Next(c, w, step).server == w.server
    ensures Next(c, w, step).fallbacks == w.fallbacks
  {
  }

  lemma OnlyEndingFinishes(c: Setup, w: World, step: Step)
    requires Enabled(w, step) && w.mode != Finished && !step.ListenFailed? && !step.LoopEnds?
    ensures Next(c, w, step).mode != Finished
  {
    match step
    case SocketReady(spawned) =>
      AnnouncedParts(c, w.(mode := Looping, server := w.server.(listening := true)), spawned);
    case NameAcquired(_, spawned) => AnnouncedParts(c, w, spawned);
    case NameLost(_, spawned) =>
      NameLostNext(c, w, step);
      LostNameMode(c, w);
      AnnouncedParts(c, Post(w, LostName(c.config, w.server), None), spawned);
    case CallHandled(index, spawned) => HandledParts(w, index, spawned);
    case ChildDies(pid, status) => ReapedParts(w, pid, status);
    case _ =>
      if CallsStop(w, step) {
        StoppingStep(c, w, step);
      } else {
        PlainStepsDoNotFinish(c, w, step);
      }
  }

  lemma PlainStepsDoNotFinish(c: Setup, w: World, step: Step)
    requires Enabled(w, step) && w.mode != Finished
    requires || (step.BusConnected? && step.exportOk) || step.NamesRequested? || step.PeerConnected?
             || step.CallArrives? || step.NameVanishes? || step.TimerFires?
             || step.ClientGetsReply? || step.ClientDispatches? || step.ClientLosesService?
    ensures Next(c, w, step).mode != Finished
  {
  }

  function FallbackOf(c: Setup, s: State): nat {
    if c.execFallback && c.config.hasCommand && s.mainPid == 0 then 1 else 0
  }

  lemma EndingFallback(c: Setup, w: World, step: Step)
    requires Inv(c, w) && Enabled(w, step) && w.mode != Finished && (step.ListenFailed? || step.LoopEnds?)
    ensures Next(c, w, step).fallbacks == FallbackOf(c, Next(c, w, step).server)
  {
  }

  /**
    At the end, whether or not the service was told to stop, --exec-fallback runs the wrapped
    command exactly if there is one and the service has never started it.
   */
  lemma {:induction false} FallbackRunsIff(c: Setup, ws: seq<World>, steps: seq<Step>, i: nat)
    requires IsRun(c, ws, steps) && i < |ws| && ws[i].mode == Finished
    ensures ws[i].fallbacks == FallbackOf(c, ws[i].server)
    ensures ws[i].server.mainPid == 0 <==> forall k :: 0 <= k < |ws[i].jobs| ==> ws[i].jobs[k].owner.Some?
    decreases i
  {
    RunKeepsInv(c, ws, steps, i);
    if i > 0 {
      RunKeepsInv(c, ws, steps, i - 1);
      if ws[i - 1].mode == Finished {
        FallbackRunsIff(c, ws, steps, i - 1);
      }
      FallbackStep(c, ws, steps, i - 1);
    }
  }

  lemma FallbackStep(c: Setup, ws: seq<World>, steps: seq<Step>, i: nat)
    requires IsRun(c, ws, steps) && i < |steps| && Inv(c, ws[i]) && ws[i + 1].mode == Finished
    requires ws[i].mode == Finished ==> ws[i].fallbacks == FallbackOf(c, ws[i].server)
    ensures ws[i + 1].fallbacks == FallbackOf(c, ws[i + 1].server)
  {
    var w, step := ws[i], steps[i];
    assert StepAt(c, ws, steps, i);
    if w.mode == Finished {
      FinishedStays(c, w, step);
    } else if step.ListenFailed? || step.LoopEnds? {
      EndingFallback(c, w, step);
    } else {
      OnlyEndingFinishes(c, w, step);
    }
  }

  function ExportFails(): World {
    World(INITIAL, SettingUp, false, false, map[], [], [], map[], map[], map[], map[], map[], {}, false, 0).(
      onBus := true, stopped := true,
      server := State(Exported, true, 0, 1, false, map[], 0, None, EX_SOFTWARE, false))
  }

  lemma FirstStepOfFallback(c: Setup, w: World)
    requires Init(w)
    ensures Enabled(w, BusConnected(false)) && Next(c, w, BusConnected(false)) == ExportFails()
  {
  }

  lemma LastStepsOfFallback(c: Setup, w: World)
    requires w == ExportFails() && c.execFallback && c.config.hasCommand
    ensures Enabled(w, NamesRequested)
    ensures var w1 := Next(c, w, NamesRequested);
            Enabled(w1, TimerFires) &&
            var w2 := Next(c, w1, TimerFires);
            Enabled(w2, LoopEnds) && Next(c, w2, LoopEnds).mode == Finished && Next(c, w2, LoopEnds).fallbacks == 1
  {
    var w1 := w.(mode := Looping, server := w.server.(listening := true));
    assert Next(c, w, NamesRequested) == w1;
    assert Next(c, w1, TimerFires) == w1.(server := w1.server.(timers := 0, skeletonRef := false, exportState := Gone));
  }

  lemma IsStep(c: Setup, ws: seq<World>, steps: seq<Step>, i: nat, w: World, step: Step)
    requires |ws| == |steps| + 1 && i < |steps| && ws[i] == w && steps[i] == step
    requires Enabled(w, step) && ws[i + 1] == Next(c, w, step)
    ensures StepAt(c, ws, steps, i)
  {
  }

  /** A run in which the wrapped command is run after a stop: exporting fails, and the loop ends. */
  lemma FallbackAfterStop(c: Setup) returns (ws: seq<World>, steps: seq<Step>)
    requires c.execFallback && c.config.hasCommand
    ensures IsRun(c, ws, steps) && |ws| == 5
    ensures ws[1].stopped && ws[4].mode == Finished && ws[4].fallbacks == 1
  {
    steps := [BusConnected(false), NamesRequested, TimerFires, LoopEnds];
    var w0 := World(INITIAL, SettingUp, false, false, map[], [], [], map[], map[], map[], map[], map[], {}, false, 0);
    FirstStepOfFallback(c, w0);
    var w1 := ExportFails();
    LastStepsOfFallback(c, w1);
    var w2 := Next(c, w1, NamesRequested);
    var w3 := Next(c, w2, TimerFires);
    ws := [w0, w1, w2, w3, Next(c, w3, LoopEnds)];
    IsStep(c, ws, steps, 0, w0, BusConnected(false));
    IsStep(c, ws, steps, 1, w1, NamesRequested);
    IsStep(c, ws, steps, 2, w2, TimerFires);
    IsStep(c, ws, steps, 3, w3, LoopEnds);
    forall i | 0 <= i < |steps|
      ensures StepAt(c, ws, steps, i)
    {
      assert i == 0 || i == 1 || i == 2 || i == 3;
    }
  }
}
