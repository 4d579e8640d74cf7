/**
  Runs of one launcher service and any number of clients. Every callback of the service and
  every event of a client is one step. The operating system may give a new process the pid of
  any process that is no longer in the service's table.

  The fields of `World` after `calls` record history: neither the service nor a client reads
  the job number in a message, or the log of processes, or where messages were put.
 */
module LauncherRuns {
  import opened Wrappers
  import opened Decimal
  import opened LauncherServer

  const LAUNCH_EX_FAILED := 125
  const LAUNCH_EX_CANNOT_REPORT := 255

  // ---------------------------------------------------------------------------
  // Wait statuses, as encoded by Linux

  predicate WifExited(status: int) {
    status % 128 == 0
  }

  predicate WifSignaled(status: int) {
    1 <= status % 128 <= 126
  }

  /** The exit code that the client reports for a wait status, as a shell would. */
  function ShellCode(status: int): int {
    if WifExited(status) then status / 256 % 256
    else if WifSignaled(status) then 128 + status % 128
    else LAUNCH_EX_CANNOT_REPORT
  }

  // ---------------------------------------------------------------------------
  // The world

  datatype Request = Launch(request: LaunchRequest) | SendSignal(pid: int, signum: int, toGroup: bool) | Terminate

  datatype Call = Call(peer: Peer, what: Request)

  /** A process that the service has created; the wrapped command has no owner. */
  datatype Job = Job(pid: int, owner: Option<Peer>)

  datatype Sent = Sent(message: Message, job: Option<nat>)

  datatype Phase = Waiting | Running(pid: int) | Returned(code: int)

  /** A run of the launch client: its phase, and how much mail its main loop has seen. */
  datatype Client = Client(phase: Phase, next: nat, job: Option<nat>)

  datatype Mode = SettingUp | Looping | Finished

  datatype Setup = Setup(config: Config, execFallback: bool)

  datatype World = World(
    server: State,
    mode: Mode,
    onBus: bool,                 // listening on the session bus, not on a socket
    ready: bool,                 // the listener has announced readiness, which it does once
    clients: map<Peer, Client>,
    calls: seq<Call>,            // method calls that have arrived but have not been handled
    jobs: seq<Job>,              // all processes ever created
    jobOf: map<int, nat>,        // which job each child is
    reaped: map<nat, int>,       // the wait statuses of jobs that have died
    sent: map<Peer, seq<Sent>>,  // all messages ever sent to each peer, in order
    replyAt: map<nat, nat>,      // where the launch reply for a job was put
    exitAt: map<nat, nat>,       // where the exit signal for a job was put
    launchers: set<Peer>,        // peers that have ever sent a launch call
    stopped: bool,               // pv_launcher_server_stop has been called
    fallbacks: nat)              // how often the wrapped command was run by --exec-fallback

  function Outbox(w: World, peer: Peer): seq<Sent> {
    if peer in w.sent then w.sent[peer] else []
  }

  ghost predicate Init(w: World) {
    w == World(INITIAL, SettingUp, false, false, map[], [], [], map[], map[], map[], map[], map[], {}, false, 0)
  }

  datatype Step =
    | BusConnected(exportOk: bool)
    | NamesRequested
    | SocketReady(spawned: Option<int>)
    | ListenFailed
    | NameAcquired(settled: bool, spawned: Option<int>)
    | NameLost(settled: bool, spawned: Option<int>)
    | PeerConnected(exportOk: bool)
    | CallArrives(call: Call, fromClient: bool)
    | CallHandled(index: nat, spawned: Option<int>)
    | ChildDies(pid: int, status: int)
    | NameVanishes(name: string, from: string, to: string)
    | TimerFires
    | SignalReceived(signum: int)
    | ExitFdReadable
    | LoopEnds
    | ClientGetsReply(peer: Peer, index: nat)
    | ClientDispatches(peer: Peer)
    | ClientLosesService(peer: Peer)

  /** A pid that the system may give to a new process. */
  predicate Fresh(w: World, spawned: Option<int>) {
    spawned.Some? ==> spawned.value > 0 && spawned.value !in w.server.children
  }

  predicate Enabled(w: World, step: Step) {
    match step
    case BusConnected(_) => w.mode == SettingUp && !w.onBus
    case NamesRequested => w.mode == SettingUp && w.onBus
    case SocketReady(spawned) => w.mode == SettingUp && !w.onBus && Fresh(w, spawned)
    case ListenFailed => w.mode == SettingUp
    case NameAcquired(_, spawned) => w.mode == Looping && w.onBus && w.server.listening && Fresh(w, spawned)
    case NameLost(_, spawned) => w.mode == Looping && w.onBus && w.server.listening && Fresh(w, spawned)
    case PeerConnected(_) => w.mode == Looping && !w.onBus && w.server.listening
    case CallArrives(call, fromClient) =>
      && w.mode != Finished
      && HasSkeleton(w.server)
      && (fromClient ==> call.what.Launch? && call.peer !in w.launchers)
      && (!fromClient && call.what.Launch? ==> call.peer !in w.clients)
    case CallHandled(index, spawned) =>
      w.mode == Looping && index < |w.calls| && w.server.inFlight > 0 && Fresh(w, spawned)
    case ChildDies(pid, status) => w.mode == Looping && pid in w.server.children && pid in w.jobOf && 0 <= status
    case NameVanishes(_, _, _) => w.mode == Looping && w.onBus
    case TimerFires => w.mode == Looping && w.server.timers > 0
    case SignalReceived(signum) => w.mode == Looping && signum > 0
    case ExitFdReadable => w.mode == Looping
    case LoopEnds => w.mode == Looping && !StillAlive(w.server)
    case ClientGetsReply(peer, index) =>
      && peer in w.clients && w.clients[peer].phase == Waiting && index < |Outbox(w, peer)|
      && (Outbox(w, peer)[index].message.LaunchReply? || Outbox(w, peer)[index].message.LaunchError?)
    case ClientDispatches(peer) =>
      peer in w.clients && w.clients[peer].phase.Running? && w.clients[peer].next < |Outbox(w, peer)|
    case ClientLosesService(peer) => peer in w.clients && !w.clients[peer].phase.Returned?
  }

  /** Deliver what a callback did: the new state, and its message with the job it concerns. */
  function Post(w: World, out: Outcome, job: Option<nat>): World {
    var w1 := w.(server := out.state, stopped := w.stopped || out.stops);
    match out.message
    case None => w1
    case Some((peer, message)) =>
      var box := Outbox(w, peer);
      w1.(sent := w.sent[peer := box + [Sent(message, job)]],
          replyAt := if message.LaunchReply? && job.Some? then w.replyAt[job.value := |box|] else w.replyAt,
          exitAt := if message.ProcessExited? && job.Some? then w.exitAt[job.value := |box|] else w.exitAt)
  }

  function WithJob(w: World, pid: int, owner: Option<Peer>): World {
    w.(jobs := w.jobs + [Job(pid, owner)], jobOf := w.jobOf[pid := |w.jobs|])
  }

  predicate StartsWrapped(c: Setup, s: State, spawned: Option<int>) {
    s.exitStatus == EX_UNAVAILABLE && s.exportState != Gone && c.config.hasCommand && spawned.Some?
  }

  function Announced(c: Setup, w: World, spawned: Option<int>): World {
    var w1 := Post(w, BecameReady(c.config, w.server, spawned), None).(ready := true);
    if StartsWrapped(c, w.server, spawned) then WithJob(w1, spawned.value, None) else w1
  }

  /** What the service does when it handles a call; afterwards the call lets go of the skeleton. */
  function Handling(w: World, call: Call, spawned: Option<int>): Outcome
    requires w.server.inFlight > 0
  {
    var out := match call.what
      case Launch(request) => Launched(w.server, call.peer, request, spawned)
      case SendSignal(pid, signum, toGroup) => SignalSent(w.server, call.peer, pid, signum, toGroup)
      case Terminate => TerminateCalled(w.server, call.peer);
    out.(state := CallFinished(out.state))
  }

  predicate CreatesJob(call: Call, spawned: Option<int>) {
    call.what.Launch? && Acceptable(call.what.request) && spawned.Some?
  }

  function Handled(w: World, index: nat, spawned: Option<int>): World
    requires index < |w.calls| && w.server.inFlight > 0
  {
    var call := w.calls[index];
    var w1 := w.(calls := w.calls[..index] + w.calls[index + 1..]);
    if CreatesJob(call, spawned) then
      Post(WithJob(w1, spawned.value, Some(call.peer)), Handling(w, call, spawned), Some(|w.jobs|))
    else Post(w1, Handling(w, call, spawned), None)
  }

  function Reaped(w: World, pid: int, status: int): World
    requires pid in w.server.children && pid in w.jobOf
  {
    var job := w.jobOf[pid];
    Post(w.(jobOf := w.jobOf - {pid}, reaped := w.reaped[job := status]), ChildDied(w.server, pid, status), Some(job))
  }

  /** The end of `main`, which may run a command that was never started. */
  function Ended(c: Setup, w: World): World {
    w.(mode := Finished,
       fallbacks := if c.execFallback && w.server.mainPid == 0 && c.config.hasCommand then w.fallbacks + 1
                    else w.fallbacks)
  }

  function Next(c: Setup, w: World, step: Step): World
    requires Enabled(w, step)
  {
    match step
    case BusConnected(exportOk) => Post(w, BusAcquired(w.server, exportOk), None).(onBus := true)
    case NamesRequested => w.(mode := Looping, server := w.server.(listening := true))
    case SocketReady(spawned) =>
      Announced(c, w.(mode := Looping, server := w.server.(listening := true)), spawned)
    case ListenFailed => Ended(c, w)
    case NameAcquired(settled, spawned) => if settled && !w.ready then Announced(c, w, spawned) else w
    case NameLost(settled, spawned) =>
      var w1 := Post(w, LostName(c.config, w.server), None);
      if !w.ready && (settled || !w1.server.listening) then Announced(c, w1, spawned) else w1
    case PeerConnected(exportOk) => w.(server := ExportTried(w.server))
    case CallArrives(call, fromClient) =>
      w.(server := CallReceived(w.server), calls := w.calls + [call],
         launchers := if call.what.Launch? then w.launchers + {call.peer} else w.launchers,
         clients := if fromClient then w.clients[call.peer := Client(Waiting, 0, None)] else w.clients)
    case CallHandled(index, spawned) => Handled(w, index, spawned)
    case ChildDies(pid, status) => Reaped(w, pid, status)
    case NameVanishes(name, from, to) => Post(w, NameOwnerChanged(w.server, name, from, to), None)
    case TimerFires => w.(server := TimerFired(w.server))
    case SignalReceived(signum) => Post(w, Stopped(w.server, signum), None)
    case ExitFdReadable => Post(w, Stopped(w.server, SIGTERM), None)
    case LoopEnds => Ended(c, w)
    case ClientGetsReply(peer, index) =>
      var mail := Outbox(w, peer)[index];
      w.(clients := w.clients[peer :=
        if mail.message.LaunchReply? then Client(Running(mail.message.pid), 0, mail.job)
        else Client(Returned(LAUNCH_EX_FAILED), 0, None)])
    case ClientDispatches(peer) =>
      var client := w.clients[peer];
      var message := Outbox(w, peer)[client.next].message;
      w.(clients := w.clients[peer :=
        if message.ProcessExited? && message.pid == client.phase.pid then
          client.(phase := Returned(ShellCode(message.status)))
        else client.(next := client.next + 1)])
    case ClientLosesService(peer) =>
      var client := w.clients[peer];
      w.(clients := w.clients[peer :=
        client.(phase := Returned(if client.phase.Waiting? then LAUNCH_EX_FAILED else LAUNCH_EX_CANNOT_REPORT))])
  }

  ghost predicate StepAt(c: Setup, ws: seq<World>, steps: seq<Step>, i: int)
    requires |ws| == |steps| + 1 && 0 <= i < |steps|
  {
    Enabled(ws[i], steps[i]) && ws[i + 1] == Next(c, ws[i], steps[i])
  }

  ghost predicate IsRun(c: Setup, ws: seq<World>, steps: seq<Step>) {
    && |ws| == |steps| + 1
    && Init(ws[0])
    && forall i :: 0 <= i < |steps| ==> StepAt(c, ws, steps, i)
  }

  // ---------------------------------------------------------------------------
  // Invariants

  /** Jobs are either children of the service or reaped, never both. */
  ghost predicate TableInv(w: World) {
    && w.jobOf.Keys == w.server.children.Keys
    && (forall p :: p in w.jobOf ==>
          && p > 0 && w.jobOf[p] < |w.jobs| && w.jobOf[p] !in w.reaped
          && w.jobs[w.jobOf[p]] == Job(p, w.server.children[p].peer))
    && (forall k :: 0 <= k < |w.jobs| && k !in w.reaped ==>
          w.jobs[k].pid in w.jobOf && w.jobOf[w.jobs[k].pid] == k)
    && (forall k :: k in w.reaped ==> k < |w.jobs|)
    && (w.mode != Looping ==> w.server.children == map[])
    && (w.mode == SettingUp ==> w.jobs == [])
  }

  /** The reply to the launch of job `k`, and later the signal for its exit, have been sent. */
  ghost predicate JobMail(w: World, k: nat)
    requires k < |w.jobs|
  {
    w.jobs[k].owner.Some? ==>
      var box := Outbox(w, w.jobs[k].owner.value);
      && k in w.replyAt && w.replyAt[k] < |box|
      && box[w.replyAt[k]] == Sent(LaunchReply(w.jobs[k].pid), Some(k))
      && (k in w.reaped ==>
            && k in w.exitAt && w.replyAt[k] < w.exitAt[k] < |box|
            && box[w.exitAt[k]] == Sent(ProcessExited(w.jobs[k].pid, w.reaped[k]), Some(k)))
  }

  /** Each reply and each exit signal belongs to a job of the peer that it was sent to. */
  ghost predicate MailOk(w: World, peer: Peer, i: nat, mail: Sent) {
    match mail.message
    case LaunchReply(pid) =>
      && mail.job.Some? && mail.job.value < |w.jobs| && w.jobs[mail.job.value] == Job(pid, Some(peer))
      && mail.job.value in w.replyAt && w.replyAt[mail.job.value] == i
    case ProcessExited(pid, status) =>
      && mail.job.Some? && mail.job.value < |w.jobs| && w.jobs[mail.job.value] == Job(pid, Some(peer))
      && mail.job.value in w.reaped && w.reaped[mail.job.value] == status
      && mail.job.value in w.exitAt && w.exitAt[mail.job.value] == i
    case _ => true
  }

  ghost predicate MailInv(w: World) {
    && (forall k: nat :: k < |w.jobs| ==> JobMail(w, k))
    && (forall peer, i: nat :: peer in w.sent && i < |w.sent[peer]| ==> MailOk(w, peer, i, w.sent[peer][i]))
  }

  /** The wrapped command runs at most once, and its pid is known exactly while it runs. */
  ghost predicate MainInv(c: Setup, w: World) {
    && (forall p :: p in w.server.children && w.server.children[p].peer.None? ==>
          p == w.server.mainPid && w.server.mainPidStr == Some(Dec(if p < 0 then 0 else p)))
    && (w.server.mainPidStr.Some? ==>
          w.server.mainPid in w.server.children && w.server.children[w.server.mainPid].peer.None?)
    && (forall k, l :: 0 <= k < l < |w.jobs| ==> w.jobs[k].owner.Some? || w.jobs[l].owner.Some?)
    && (w.server.mainPid != 0 <==> exists k :: 0 <= k < |w.jobs| && w.jobs[k].owner.None?)
    && (w.server.mainPid != 0 ==> w.server.exitStatus != EX_UNAVAILABLE)
    && (w.mode != Finished ==> w.fallbacks == 0)
    && (w.fallbacks > 0 ==> w.fallbacks == 1 && w.server.mainPid == 0)
  }

  /** While the service can still be reached, something will eventually let go of it. */
  ghost predicate ShutdownInv(w: World) {
    && w.server.inFlight == |w.calls|
    && (w.server.exportState == Exported ==> HasSkeleton(w.server))
    && (w.server.skeletonRef ==> Rank(Exported) <= Rank(w.server.exportState))
    && (HasSkeleton(w.server) ==> Rank(Exported) <= Rank(w.server.exportState))
    && (w.stopped ==>
          || w.server.exportState == Gone
          || w.server.timers > 0
          || (!w.server.skeletonRef && w.server.inFlight > 0))
    && (w.stopped ==> Rank(Exported) <= Rank(w.server.exportState))
    && (!w.stopped ==> w.server.timers == 0 && w.server.exportState != Gone)
    && (!w.stopped && w.server.inFlight > 0 ==> w.server.skeletonRef)
    && (w.stopped && w.server.listening ==> w.server.exitStatus != EX_UNAVAILABLE && w.onBus)
    && (w.stopped && w.mode == SettingUp ==> w.server.exitStatus != EX_UNAVAILABLE && w.onBus)
  }

  ghost predicate LaunchesOf(w: World, i: int, peer: Peer) {
    0 <= i < |w.calls| && w.calls[i].what.Launch? && w.calls[i].peer == peer
  }

  ghost predicate Owns(w: World, peer: Peer, k: int) {
    0 <= k < |w.jobs| && w.jobs[k].owner == Some(peer)
  }

  /** A client knows its own job, and reports nothing but the fate of that job. */
  ghost predicate Truthful(w: World, peer: Peer, client: Client) {
    && (client.job.Some? ==> Owns(w, peer, client.job.value))
    && match client.phase
       case Waiting => client.job.None?
       case Running(pid) => client.job.Some? && pid == w.jobs[client.job.value].pid
       case Returned(code) => client.job.Some? ==>
         || code == LAUNCH_EX_CANNOT_REPORT
         || (client.job.value in w.reaped && code == ShellCode(w.reaped[client.job.value]))
  }

  /** A client launches at most one job. */
  ghost predicate ClientInv(w: World, peer: Peer)
    requires peer in w.clients
  {
    && peer in w.launchers
    && (forall i, j :: LaunchesOf(w, i, peer) && LaunchesOf(w, j, peer) ==> i == j)
    && (forall i, k :: LaunchesOf(w, i, peer) ==> !Owns(w, peer, k))
    && (forall k, l :: Owns(w, peer, k) && Owns(w, peer, l) ==> k == l)
    && Truthful(w, peer, w.clients[peer])
  }

  ghost predicate ClientsInv(w: World) {
    && (forall i :: 0 <= i < |w.calls| && w.calls[i].what.Launch? ==> w.calls[i].peer in w.launchers)
    && (forall k :: 0 <= k < |w.jobs| && w.jobs[k].owner.Some? ==> w.jobs[k].owner.value in w.launchers)
    && (forall peer :: peer in w.clients ==> ClientInv(w, peer))
  }

  ghost predicate Inv(c: Setup, w: World) {
    TableInv(w) && MailInv(w) && MainInv(c, w) && ShutdownInv(w) && ClientsInv(w)
  }

  // ---------------------------------------------------------------------------
  // Steps that create no process, reap none and send no mail about one

  /** Only flags of the service change between `w` and `v`. */
  ghost predicate SameRecords(w: World, v: World) {
    && v == w.(server := v.server, mode := v.mode, onBus := v.onBus, ready := v.ready,
               stopped := v.stopped, fallbacks := v.fallbacks)
    && v.server.children == w.server.children
    && v.server.mainPid == w.server.mainPid
    && v.server.mainPidStr == w.server.mainPidStr
  }

  lemma SameRecordsKeepMail(w: World, v: World)
    requires MailInv(w)
    requires v.jobs == w.jobs && v.reaped == w.reaped && v.sent == w.sent
    requires v.replyAt == w.replyAt && v.exitAt == w.exitAt
    ensures MailInv(v)
  {
    forall k: nat | k < |v.jobs| ensures JobMail(v, k) {
      assert JobMail(w, k);
    }
    forall peer, i: nat | peer in v.sent && i < |v.sent[peer]| ensures MailOk(v, peer, i, v.sent[peer][i]) {
      assert MailOk(w, peer, i, w.sent[peer][i]);
    }
  }

  lemma SameRecordsKeepClients(w: World, v: World)
    requires ClientsInv(w)
    requires v.clients == w.clients && v.calls == w.calls && v.jobs == w.jobs
    requires v.reaped == w.reaped && v.launchers == w.launchers
    ensures ClientsInv(v)
  {
    forall peer | peer in v.clients ensures ClientInv(v, peer) {
      assert ClientInv(w, peer);
      assert forall i :: LaunchesOf(v, i, peer) <==> LaunchesOf(w, i, peer);
      assert forall k :: Owns(v, peer, k) <==> Owns(w, peer, k);
    }
  }

  lemma SameRecordsKeepInv(c: Setup, w: World, v: World)
    requires Inv(c, w) && SameRecords(w, v) && ShutdownInv(v)
    requires v.fallbacks == w.fallbacks
    requires v.mode == w.mode || (w.mode == SettingUp && v.mode == Looping)
    requires w.server.mainPid != 0 ==> v.server.exitStatus != EX_UNAVAILABLE
    ensures Inv(c, v)
  {
    assert v.jobs == w.jobs;
    SameRecordsKeepMail(w, v);
    SameRecordsKeepClients(w, v);
  }

  predicate IsQuiet(w: World, step: Step) {
    || step.BusConnected? || step.NamesRequested? || step.ListenFailed? || step.PeerConnected?
    || step.NameVanishes? || step.TimerFires? || step.SignalReceived? || step.ExitFdReadable? || step.LoopEnds?
  }

  predicate CallsStop(w: World, step: Step) {
    step.SignalReceived? || step.ExitFdReadable? || (step.BusConnected? && !step.exportOk)
  }

  /** What stopping does to the service. */
  lemma StoppedParts(s: State, signum: int)
    ensures var out := Stopped(s, signum);
            && out.message.None? && out.stops
            && out.state == s.(exportState := out.state.exportState, timers := out.state.timers, listening := false)
            && out.state.timers == s.timers + (if s.exportState == Exported then 1 else 0)
            && out.state.exportState == (if s.exportState == Exported then Exported else Gone)
  {
  }

  lemma StoppingStep(c: Setup, w: World, step: Step)
    requires Enabled(w, step) && CallsStop(w, step)
    ensures var s := if step.BusConnected? then ExportTried(w.server).(exitStatus := EX_SOFTWARE) else w.server;
            var signum := if step.SignalReceived? then step.signum else SIGTERM;
            Next(c, w, step) == w.(server := Stopped(s, signum).state, stopped := true,
                                   onBus := w.onBus || step.BusConnected?)
  {
    StoppedParts(w.server, SIGTERM);
  }

  lemma StoppingKeeps(c: Setup, w: World, step: Step)
    requires Inv(c, w) && Enabled(w, step) && CallsStop(w, step)
    ensures Inv(c, Next(c, w, step))
  {
    var s := if step.BusConnected? then ExportTried(w.server).(exitStatus := EX_SOFTWARE) else w.server;
    StoppingStep(c, w, step);
    StoppedParts(s, if step.SignalReceived? then step.signum else SIGTERM);
    SameRecordsKeepInv(c, w, Next(c, w, step));
  }

  lemma EndingKeeps(c: Setup, w: World, step: Step)
    requires Inv(c, w) && Enabled(w, step) && (step.ListenFailed? || step.LoopEnds?)
    ensures Inv(c, Next(c, w, step))
  {
    var v := Next(c, w, step);
    assert v == w.(mode := Finished, fallbacks := v.fallbacks);
    SameRecordsKeepMail(w, v);
    SameRecordsKeepClients(w, v);
  }

  lemma TimerKeeps(c: Setup, w: World, step: Step)
    requires Inv(c, w) && Enabled(w, step) && step.TimerFires?
    ensures Inv(c, Next(c, w, step))
  {
    var v := Next(c, w, step);
    assert v == w.(server := TimerFired(w.server));
    SameRecordsKeepInv(c, w, v);
  }

  lemma OtherQuietStepsKeep(c: Setup, w: World, step: Step)
    requires Inv(c, w) && Enabled(w, step)
    requires || (step.BusConnected? && step.exportOk) || step.NamesRequested?
             || step.PeerConnected? || step.NameVanishes?
    ensures Inv(c, Next(c, w, step))
  {
    var v := Next(c, w, step);
    assert v == w.(server := v.server, mode := v.mode, onBus := v.onBus);
    SameRecordsKeepInv(c, w, v);
  }

  lemma QuietStepsKeep(c: Setup, w: World, step: Step)
    requires Inv(c, w) && Enabled(w, step) && IsQuiet(w, step)
    ensures Inv(c, Next(c, w, step))
  {
    if step.ListenFailed? || step.LoopEnds? {
      EndingKeeps(c, w, step);
    } else if CallsStop(w, step) {
      StoppingKeeps(c, w, step);
    } else if step.TimerFires? {
      TimerKeeps(c, w, step);
    } else {
      OtherQuietStepsKeep(c, w, step);
    }
  }

  // ---------------------------------------------------------------------------
  // The wrapped command

  /** What becoming ready does to the service. */
  lemma ReadyParts(c: Setup, s: State, spawned: Option<int>)
    ensures var out := BecameReady(c.config, s, spawned);
            && out.message == None
            && if StartsWrapped(c, s, spawned) then
                 && out.state.children == s.children[spawned.value := PidData(None, c.config.stopOnExit)]
                 && out.state.mainPid == spawned.value && out.state.exitStatus == 0 && !out.stops
                 && (spawned.value >= 0 ==> out.state.mainPidStr == Some(Dec(spawned.value)))
               else
                 && out.state.children == s.children && out.state.mainPid == s.mainPid
                 && out.state.mainPidStr == s.mainPidStr
                 && (out.state.exitStatus == s.exitStatus || out.state.exitStatus == 0)
  {
  }

  /** What the announcement does to the records. */
  lemma AnnouncedParts(c: Setup, w: World, spawned: Option<int>)
    ensures var v := Announced(c, w, spawned);
            var out := BecameReady(c.config, w.server, spawned);
            && v == w.(server := out.state, ready := true, stopped := w.stopped || out.stops,
                       jobs := v.jobs, jobOf := v.jobOf)
            && if StartsWrapped(c, w.server, spawned) then
                 v.jobs == w.jobs + [Job(spawned.value, None)] && v.jobOf == w.jobOf[spawned.value := |w.jobs|]
               else v.jobs == w.jobs && v.jobOf == w.jobOf
  {
    ReadyParts(c, w.server, spawned);
  }

  lemma AnnouncedTable(c: Setup, w: World, spawned: Option<int>)
    requires TableInv(w) && w.mode == Looping && Fresh(w, spawned)
    ensures TableInv(Announced(c, w, spawned))
  {
    ReadyParts(c, w.server, spawned);
    AnnouncedParts(c, w, spawned);
    if StartsWrapped(c, w.server, spawned) {
      NewJobTable(w, Announced(c, w, spawned), spawned.value, PidData(None, c.config.stopOnExit));
    }
  }

  lemma NewJobTable(w: World, v: World, pid: int, data: PidData)
    requires TableInv(w) && w.mode == Looping == v.mode && pid > 0 && pid !in w.server.children
    requires v.jobs == w.jobs + [Job(pid, data.peer)] && v.jobOf == w.jobOf[pid := |w.jobs|]
    requires v.reaped == w.reaped && v.server.children == w.server.children[pid := data]
    ensures TableInv(v)
  {
  }

  lemma AnnouncedMain(c: Setup, w: World, spawned: Option<int>)
    requires TableInv(w) && MainInv(c, w) && w.mode == Looping && Fresh(w, spawned)
    ensures MainInv(c, Announced(c, w, spawned))
  {
    ReadyParts(c, w.server, spawned);
    AnnouncedParts(c, w, spawned);
    var v := Announced(c, w, spawned);
    if StartsWrapped(c, w.server, spawned) {
      assert v.jobs[|w.jobs|].owner.None?;
      assert forall k :: 0 <= k < |w.jobs| ==> v.jobs[k] == w.jobs[k] && w.jobs[k].owner.Some?;
    }
  }

  lemma AnnouncedShutdown(c: Setup, w: World, spawned: Option<int>)
    requires ShutdownInv(w) && w.mode == Looping
    ensures ShutdownInv(Announced(c, w, spawned))
  {
    ReadyParts(c, w.server, spawned);
    AnnouncedParts(c, w, spawned);
  }

  lemma AnnouncedMail(c: Setup, w: World, spawned: Option<int>)
    requires MailInv(w)
    ensures MailInv(Announced(c, w, spawned))
  {
    AnnouncedParts(c, w, spawned);
    var v := Announced(c, w, spawned);
    forall k: nat | k < |v.jobs| ensures JobMail(v, k) {
      assert k < |w.jobs| ==> JobMail(w, k);
    }
    forall peer, i: nat | peer in v.sent && i < |v.sent[peer]| ensures MailOk(v, peer, i, v.sent[peer][i]) {
      assert MailOk(w, peer, i, w.sent[peer][i]);
    }
  }

  lemma AnnouncedClients(c: Setup, w: World, spawned: Option<int>)
    requires ClientsInv(w)
    ensures ClientsInv(Announced(c, w, spawned))
  {
    AnnouncedParts(c, w, spawned);
    var v := Announced(c, w, spawned);
    forall peer | peer in v.clients ensures ClientInv(v, peer) {
      assert ClientInv(w, peer);
      assert forall i :: LaunchesOf(v, i, peer) <==> LaunchesOf(w, i, peer);
      assert forall k :: Owns(v, peer, k) <==> Owns(w, peer, k);
    }
  }

  lemma AnnouncedKeeps(c: Setup, w: World, spawned: Option<int>)
    requires Inv(c, w) && w.mode == Looping && Fresh(w, spawned)
    ensures Inv(c, Announced(c, w, spawned))
  {
    AnnouncedTable(c, w, spawned);
    AnnouncedMain(c, w, spawned);
    AnnouncedShutdown(c, w, spawned);
    AnnouncedMail(c, w, spawned);
    AnnouncedClients(c, w, spawned);
  }

  lemma NameAcquiredKeeps(c: Setup, w: World, step: Step)
    requires Inv(c, w) && Enabled(w, step) && step.NameAcquired?
    ensures Inv(c, Next(c, w, step))
  {
    AnnouncedKeeps(c, w, step.spawned);
  }

  lemma LostNameKeeps(c: Setup, w: World)
    requires Inv(c, w) && w.mode == Looping && w.onBus && w.server.listening
    ensures Inv(c, Post(w, LostName(c.config, w.server), None))
    ensures Post(w, LostName(c.config, w.server), None).server.children == w.server.children
  {
    var v := Post(w, LostName(c.config, w.server), None);
    LostNameParts(c, w);
    SameRecordsKeepMail(w, v);
    SameRecordsKeepClients(w, v);
  }

  /** What losing a bus name does to the service. */
  lemma LostNameState(c: Setup, s: State)
    ensures var out := LostName(c.config, s);
            && out.message == None && out.stops == c.config.stopOnNameLoss
            && out.state == s.(exportState := out.state.exportState, timers := out.state.timers,
                               listening := out.state.listening)
            && if !out.stops then out.state == s
               else
                 && !out.state.listening && s.timers <= out.state.timers
                 && (out.state.exportState == Gone || (out.state.exportState == Exported && out.state.timers > 0))
  {
  }

  lemma LostNameParts(c: Setup, w: World)
    requires ShutdownInv(w) && w.mode == Looping && w.onBus && w.server.listening
    ensures var v := Post(w, LostName(c.config, w.server), None);
            && SameRecords(w, v) && v.mode == w.mode && v.fallbacks == w.fallbacks
            && v.server.exitStatus == w.server.exitStatus && ShutdownInv(v)
  {
    LostNameState(c, w.server);
    var out := LostName(c.config, w.server);
    var v := Post(w, out, None);
    assert v == w.(server := out.state, stopped := w.stopped || out.stops);
  }

  lemma NameLostNext(c: Setup, w: World, step: Step)
    requires Enabled(w, step) && step.NameLost?
    ensures var w1 := Post(w, LostName(c.config, w.server), None);
            Next(c, w, step)
            == if !w.ready && (step.settled || !w1.server.listening) then Announced(c, w1, step.spawned) else w1
  {
  }

  lemma NameLostKeeps(c: Setup, w: World, step: Step)
    requires Inv(c, w) && Enabled(w, step) && step.NameLost?
    ensures Inv(c, Next(c, w, step))
  {
    LostNameKeeps(c, w);
    LostNameMode(c, w);
    NameLostNext(c, w, step);
    AnnouncedKeeps(c, Post(w, LostName(c.config, w.server), None), step.spawned);
  }

  lemma LostNameMode(c: Setup, w: World)
    ensures Post(w, LostName(c.config, w.server), None).mode == w.mode
  {
    LostNameState(c, w.server);
  }

  lemma SocketReadyKeeps(c: Setup, w: World, step: Step)
    requires Inv(c, w) && Enabled(w, step) && step.SocketReady?
    ensures Inv(c, Next(c, w, step))
  {
    var w1 := w.(mode := Looping, server := w.server.(listening := true));
    assert w1.jobs == [] && ShutdownInv(w1) && MainInv(c, w1);
    SameRecordsKeepMail(w, w1);
    SameRecordsKeepClients(w, w1);
    AnnouncedKeeps(c, w1, step.spawned);
  }

  // ---------------------------------------------------------------------------
  // Mail

  /** `v` is `w` with one more message to `peer`. */
  ghost predicate MailAdded(w: World, v: World, peer: Peer, mail: Sent) {
    v.sent == w.sent[peer := Outbox(w, peer) + [mail]]
  }

  lemma OldMailStays(w: World, v: World, peer: Peer, mail: Sent, other: Peer, i: nat)
    requires MailAdded(w, v, peer, mail)
    ensures i < |Outbox(w, other)| ==> i < |Outbox(v, other)| && Outbox(v, other)[i] == Outbox(w, other)[i]
    ensures other in v.sent && i < |v.sent[other]| ==>
              || (other in w.sent && i < |w.sent[other]| && v.sent[other][i] == w.sent[other][i])
              || (other == peer && i == |Outbox(w, peer)| && v.sent[other][i] == mail)
  {
  }

  lemma OldJobMailStays(w: World, v: World, peer: Peer, mail: Sent, k: nat)
    requires MailAdded(w, v, peer, mail) && k < |w.jobs| && JobMail(w, k)
    requires k < |v.jobs| && v.jobs[k] == w.jobs[k]
    requires k in w.replyAt ==> k in v.replyAt && v.replyAt[k] == w.replyAt[k]
    requires k in w.exitAt ==> k in v.exitAt && v.exitAt[k] == w.exitAt[k]
    requires k in v.reaped <==> k in w.reaped
    requires k in w.reaped ==> v.reaped[k] == w.reaped[k]
    ensures JobMail(v, k)
  {
    if w.jobs[k].owner.Some? {
      var owner := w.jobs[k].owner.value;
      OldMailStays(w, v, peer, mail, owner, w.replyAt[k]);
      if k in w.reaped {
        OldMailStays(w, v, peer, mail, owner, w.exitAt[k]);
      }
    }
  }

  lemma PlainMailKeeps(w: World, v: World, peer: Peer, mail: Sent)
    requires MailInv(w) && MailAdded(w, v, peer, mail)
    requires !mail.message.LaunchReply? && !mail.message.ProcessExited?
    requires v.jobs == w.jobs && v.reaped == w.reaped && v.replyAt == w.replyAt && v.exitAt == w.exitAt
    ensures MailInv(v)
  {
    forall k: nat | k < |v.jobs| ensures JobMail(v, k) {
      assert JobMail(w, k);
      OldJobMailStays(w, v, peer, mail, k);
    }
    forall other, i: nat | other in v.sent && i < |v.sent[other]| ensures MailOk(v, other, i, v.sent[other][i]) {
      OldMailStays(w, v, peer, mail, other, i);
      if other in w.sent && i < |w.sent[other]| {
        assert MailOk(w, other, i, w.sent[other][i]);
      }
    }
  }

  lemma ReplyMailKeeps(w: World, v: World, peer: Peer, pid: int)
    requires MailInv(w) && TableInv(w)
    requires var n := |w.jobs|;
             && MailAdded(w, v, peer, Sent(LaunchReply(pid), Some(n)))
             && v.jobs == w.jobs + [Job(pid, Some(peer))] && v.reaped == w.reaped
             && v.replyAt == w.replyAt[n := |Outbox(w, peer)|] && v.exitAt == w.exitAt
    ensures MailInv(v)
  {
    var n := |w.jobs|;
    var mail := Sent(LaunchReply(pid), Some(n));
    forall k: nat | k < |v.jobs| ensures JobMail(v, k) {
      if k < n {
        assert JobMail(w, k);
        OldJobMailStays(w, v, peer, mail, k);
      }
    }
    forall other, i: nat | other in v.sent && i < |v.sent[other]| ensures MailOk(v, other, i, v.sent[other][i]) {
      OldMailStays(w, v, peer, mail, other, i);
      if other in w.sent && i < |w.sent[other]| {
        assert MailOk(w, other, i, w.sent[other][i]);
      }
    }
  }

  lemma ExitMailKeeps(w: World, v: World, peer: Peer, job: nat, status: int)
    requires MailInv(w) && TableInv(w)
    requires job < |w.jobs| && job !in w.reaped && w.jobs[job].owner == Some(peer)
    requires MailAdded(w, v, peer, Sent(ProcessExited(w.jobs[job].pid, status), Some(job)))
    requires v.jobs == w.jobs && v.reaped == w.reaped[job := status]
    requires v.replyAt == w.replyAt && v.exitAt == w.exitAt[job := |Outbox(w, peer)|]
    ensures MailInv(v)
  {
    var mail := Sent(ProcessExited(w.jobs[job].pid, status), Some(job));
    forall k: nat | k < |v.jobs| ensures JobMail(v, k) {
      assert JobMail(w, k);
      if k == job {
        OldMailStays(w, v, peer, mail, peer, w.replyAt[k]);
      } else {
        OldJobMailStays(w, v, peer, mail, k);
      }
    }
    forall other, i: nat | other in v.sent && i < |v.sent[other]| ensures MailOk(v, other, i, v.sent[other][i]) {
      OldMailStays(w, v, peer, mail, other, i);
      if other in w.sent && i < |w.sent[other]| {
        assert MailOk(w, other, i, w.sent[other][i]);
      }
    }
  }

  // ---------------------------------------------------------------------------
  // A child dies

  /** What the death of a child does to the service. */
  lemma ChildDiedParts(s: State, pid: int, status: int)
    requires pid in s.children
    ensures var out := ChildDied(s, pid, status);
            && out.state.children == s.children - {pid}
            && out.state.mainPid == s.mainPid && out.state.exitStatus == s.exitStatus
            && out.state.mainPidStr == (if s.mainPidStr.Some? && pid == s.mainPid then None else s.mainPidStr)
            && out.message == (if s.children[pid].peer.Some? then
                                 Some((s.children[pid].peer.value, ProcessExited(pid, status)))
                               else None)
            && out.stops == s.children[pid].terminateAfter
            && out.state.skeletonRef == s.skeletonRef && out.state.inFlight == s.inFlight
            && out.state.timers == s.timers + (if out.stops && s.exportState == Exported then 1 else 0)
            && out.state.exportState == (if out.stops && s.exportState != Exported then Gone else s.exportState)
            && out.state.listening == (s.listening && !out.stops)
  {
  }

  lemma ReapedParts(w: World, pid: int, status: int)
    requires pid in w.server.children && pid in w.jobOf
    ensures var v := Reaped(w, pid, status);
            var out := ChildDied(w.server, pid, status);
            && v == w.(server := out.state, stopped := w.stopped || out.stops, jobOf := w.jobOf - {pid},
                       reaped := w.reaped[w.jobOf[pid] := status], sent := v.sent, exitAt := v.exitAt)
            && match w.server.children[pid].peer
               case None => v.sent == w.sent && v.exitAt == w.exitAt
               case Some(peer) =>
                 && MailAdded(w, v, peer, Sent(ProcessExited(pid, status), Some(w.jobOf[pid])))
                 && v.exitAt == w.exitAt[w.jobOf[pid] := |Outbox(w, peer)|]
  {
    ChildDiedParts(w.server, pid, status);
  }

  lemma ChildDiesTable(c: Setup, w: World, step: Step)
    requires Inv(c, w) && Enabled(w, step) && step.ChildDies?
    ensures TableInv(Next(c, w, step))
  {
    ChildDiedParts(w.server, step.pid, step.status);
    ReapedParts(w, step.pid, step.status);
    OneChildLess(w, Next(c, w, step), step.pid, step.status);
  }

  lemma OneChildLess(w: World, v: World, pid: int, status: int)
    requires TableInv(w) && w.mode == v.mode == Looping && pid in w.jobOf
    requires v.jobs == w.jobs && v.jobOf == w.jobOf - {pid} && v.reaped == w.reaped[w.jobOf[pid] := status]
    requires v.server.children == w.server.children - {pid}
    ensures TableInv(v)
  {
  }

  lemma ChildDiesMain(c: Setup, w: World, step: Step)
    requires Inv(c, w) && Enabled(w, step) && step.ChildDies?
    ensures MainInv(c, Next(c, w, step))
  {
    ChildDiedParts(w.server, step.pid, step.status);
    ReapedParts(w, step.pid, step.status);
    assert Next(c, w, step).jobs == w.jobs;
  }

  lemma ChildDiesShutdown(c: Setup, w: World, step: Step)
    requires Inv(c, w) && Enabled(w, step) && step.ChildDies?
    ensures ShutdownInv(Next(c, w, step))
  {
    ChildDiedParts(w.server, step.pid, step.status);
    ReapedParts(w, step.pid, step.status);
  }

  lemma ChildDiesMail(c: Setup, w: World, step: Step)
    requires Inv(c, w) && Enabled(w, step) && step.ChildDies?
    ensures MailInv(Next(c, w, step))
  {
    ReapedParts(w, step.pid, step.status);
    var v := Next(c, w, step);
    var job := w.jobOf[step.pid];
    match w.server.children[step.pid].peer
    case Some(peer) => ExitMailKeeps(w, v, peer, job, step.status);
    case None =>
      forall k: nat | k < |v.jobs| ensures JobMail(v, k) {
        assert JobMail(w, k);
      }
      forall other, i: nat | other in v.sent && i < |v.sent[other]| ensures MailOk(v, other, i, v.sent[other][i]) {
        assert MailOk(w, other, i, w.sent[other][i]);
      }
  }

  lemma ChildDiesClients(c: Setup, w: World, step: Step)
    requires Inv(c, w) && Enabled(w, step) && step.ChildDies?
    ensures ClientsInv(Next(c, w, step))
  {
    ReapedParts(w, step.pid, step.status);
    var v := Next(c, w, step);
    forall peer | peer in v.clients ensures ClientInv(v, peer) {
      assert ClientInv(w, peer);
      assert forall i :: LaunchesOf(v, i, peer) <==> LaunchesOf(w, i, peer);
      assert forall k :: Owns(v, peer, k) <==> Owns(w, peer, k);
    }
  }

  // ---------------------------------------------------------------------------
  // Calls

  /** What handling a call does to the service, whatever the call. */
  ghost predicate HandlingResult(s: State, call: Call, spawned: Option<int>, out: Outcome) {
    && out.state.mainPid == s.mainPid && out.state.mainPidStr == s.mainPidStr
    && out.state.exitStatus == s.exitStatus && out.state.skeletonRef == s.skeletonRef
    && out.state.inFlight == s.inFlight - 1
    && out.stops == call.what.Terminate?
    && out.state.timers == s.timers + (if out.stops && s.exportState == Exported then 1 else 0)
    && out.state.exportState == (if (out.stops && s.exportState != Exported)
                                    || (!s.skeletonRef && s.inFlight == 1) then Gone else s.exportState)
    && out.state.listening == (s.listening && !out.stops)
    && out.message.Some? && out.message.value.0 == call.peer
    && if CreatesJob(call, spawned) then
         && out.state.children
            == s.children[spawned.value := PidData(Some(call.peer), call.what.request.terminateAfter)]
         && out.message.value.1 == LaunchReply(spawned.value)
       else
         && out.state.children == s.children
         && !out.message.value.1.LaunchReply? && !out.message.value.1.ProcessExited?
  }

  /** What letting go of the skeleton does to the service. */
  lemma CallFinishedParts(s: State)
    requires s.inFlight > 0
    ensures CallFinished(s) == s.(inFlight := s.inFlight - 1,
                                  exportState := if !s.skeletonRef && s.inFlight == 1 then Gone else s.exportState)
  {
  }

  lemma LaunchParts(w: World, call: Call, spawned: Option<int>)
    requires w.server.inFlight > 0 && call.what.Launch?
    ensures HandlingResult(w.server, call, spawned, Handling(w, call, spawned))
  {
    CallFinishedParts(Launched(w.server, call.peer, call.what.request, spawned).state);
  }

  lemma TerminateParts(w: World, call: Call, spawned: Option<int>)
    requires w.server.inFlight > 0 && call.what.Terminate?
    ensures HandlingResult(w.server, call, spawned, Handling(w, call, spawned))
  {
    StoppedParts(w.server, SIGTERM);
    CallFinishedParts(TerminateCalled(w.server, call.peer).state);
  }

  lemma SendSignalParts(w: World, call: Call, spawned: Option<int>)
    requires w.server.inFlight > 0 && call.what.SendSignal?
    ensures HandlingResult(w.server, call, spawned, Handling(w, call, spawned))
  {
    CallFinishedParts(w.server);
  }

  lemma HandlingParts(w: World, call: Call, spawned: Option<int>)
    requires w.server.inFlight > 0
    ensures HandlingResult(w.server, call, spawned, Handling(w, call, spawned))
  {
    match call.what
    case Launch(_) => LaunchParts(w, call, spawned);
    case SendSignal(_, _, _) => SendSignalParts(w, call, spawned);
    case Terminate => TerminateParts(w, call, spawned);
  }

  lemma PostWithMail(w: World, out: Outcome, job: Option<nat>)
    requires out.message.Some?
    requires out.message.value.1.LaunchReply? ==> job.Some?
    requires !out.message.value.1.ProcessExited?
    ensures var (peer, message) := out.message.value;
            Post(w, out, job) == w.(server := out.state, stopped := w.stopped || out.stops,
              sent := w.sent[peer := Outbox(w, peer) + [Sent(message, job)]],
              replyAt := if message.LaunchReply? then w.replyAt[job.value := |Outbox(w, peer)|] else w.replyAt)
  {
  }

  lemma HandledParts(w: World, index: nat, spawned: Option<int>)
    requires index < |w.calls| && w.server.inFlight > 0
    ensures var call := w.calls[index];
            var out := Handling(w, call, spawned);
            var v := Handled(w, index, spawned);
            && out.message.Some?
            && v == w.(server := out.state, stopped := w.stopped || out.stops,
                       calls := w.calls[..index] + w.calls[index + 1..],
                       jobs := v.jobs, jobOf := v.jobOf, sent := v.sent, replyAt := v.replyAt)
            && if CreatesJob(call, spawned) then
                 && v.jobs == w.jobs + [Job(spawned.value, Some(call.peer))]
                 && v.jobOf == w.jobOf[spawned.value := |w.jobs|]
                 && v.replyAt == w.replyAt[|w.jobs| := |Outbox(w, call.peer)|]
                 && MailAdded(w, v, call.peer, Sent(LaunchReply(spawned.value), Some(|w.jobs|)))
               else
                 && v.jobs == w.jobs && v.jobOf == w.jobOf && v.replyAt == w.replyAt
                 && MailAdded(w, v, call.peer, Sent(out.message.value.1, None))
  {
    var call := w.calls[index];
    var out := Handling(w, call, spawned);
    HandlingParts(w, call, spawned);
    var w1 := w.(calls := w.calls[..index] + w.calls[index + 1..]);
    if CreatesJob(call, spawned) {
      var w2 := WithJob(w1, spawned.value, Some(call.peer));
      assert Outbox(w2, call.peer) == Outbox(w, call.peer);
      PostWithMail(w2, out, Some(|w.jobs|));
    } else {
      assert Outbox(w1, call.peer) == Outbox(w, call.peer);
      PostWithMail(w1, out, None);
    }
  }

  lemma CallHandledTable(c: Setup, w: World, step: Step)
    requires Inv(c, w) && Enabled(w, step) && step.CallHandled?
    ensures TableInv(Next(c, w, step))
  {
    var call := w.calls[step.index];
    HandlingParts(w, call, step.spawned);
    HandledParts(w, step.index, step.spawned);
    if CreatesJob(call, step.spawned) {
      NewJobTable(w, Next(c, w, step), step.spawned.value, PidData(Some(call.peer), call.what.request.terminateAfter));
    }
  }

  lemma CallHandledMain(c: Setup, w: World, step: Step)
    requires Inv(c, w) && Enabled(w, step) && step.CallHandled?
    ensures MainInv(c, Next(c, w, step))
  {
    var call := w.calls[step.index];
    HandlingParts(w, call, step.spawned);
    HandledParts(w, step.index, step.spawned);
    PeerJobMain(c, w, Next(c, w, step), call.peer, step.spawned, call.what.Launch? && call.what.request.terminateAfter);
  }

  /** A job that belongs to a peer has nothing to do with the wrapped command. */
  lemma PeerJobMain(c: Setup, w: World, v: World, peer: Peer, spawned: Option<int>,
                    terminateAfter: bool)
    requires TableInv(w) && MainInv(c, w) && w.mode == v.mode && v.fallbacks == w.fallbacks
    requires v.server.mainPid == w.server.mainPid && v.server.mainPidStr == w.server.mainPidStr
    requires v.server.exitStatus == w.server.exitStatus
    requires || (v.jobs == w.jobs && v.server.children == w.server.children)
             || (&& spawned.Some? && spawned.value !in w.server.children
                 && v.jobs == w.jobs + [Job(spawned.value, Some(peer))]
                 && v.server.children == w.server.children[spawned.value := PidData(Some(peer), terminateAfter)])
    ensures MainInv(c, v)
  {
    if k :| 0 <= k < |w.jobs| && w.jobs[k].owner.None? {
      assert v.jobs[k].owner.None?;
    }
    assert forall k :: 0 <= k < |v.jobs| && v.jobs[k].owner.None? ==> k < |w.jobs| && w.jobs[k] == v.jobs[k];
  }

  lemma CallHandledShutdown(c: Setup, w: World, step: Step)
    requires Inv(c, w) && Enabled(w, step) && step.CallHandled?
    ensures ShutdownInv(Next(c, w, step))
  {
    HandlingParts(w, w.calls[step.index], step.spawned);
    HandledParts(w, step.index, step.spawned);
  }

  lemma CallHandledMail(c: Setup, w: World, step: Step)
    requires Inv(c, w) && Enabled(w, step) && step.CallHandled?
    ensures MailInv(Next(c, w, step))
  {
    var call := w.calls[step.index];
    HandlingParts(w, call, step.spawned);
    HandledParts(w, step.index, step.spawned);
    var v := Next(c, w, step);
    if CreatesJob(call, step.spawned) {
      ReplyMailKeeps(w, v, call.peer, step.spawned.value);
    } else {
      PlainMailKeeps(w, v, call.peer, Sent(Handling(w, call, step.spawned).message.value.1, None));
    }
  }

  /** `v` is `w` without one call, and perhaps with the process that the call has launched. */
  ghost predicate IsWithoutCall(w: World, v: World, index: nat, created: bool) {
    && v.clients == w.clients && v.launchers == w.launchers && v.reaped == w.reaped
    && index < |w.calls| && v.calls == w.calls[..index] + w.calls[index + 1..]
    && if created then w.calls[index].what.Launch? && |v.jobs| == |w.jobs| + 1 && v.jobs[..|w.jobs|] == w.jobs
                       && v.jobs[|w.jobs|].owner == Some(w.calls[index].peer)
       else v.jobs == w.jobs
  }

  lemma HandledIsWithoutCall(w: World, index: nat, spawned: Option<int>)
    requires index < |w.calls| && w.server.inFlight > 0
    ensures IsWithoutCall(w, Handled(w, index, spawned), index, CreatesJob(w.calls[index], spawned))
  {
    HandledParts(w, index, spawned);
  }

  lemma LaunchersStay(w: World, v: World, index: nat, created: bool)
    requires ClientsInv(w) && IsWithoutCall(w, v, index, created)
    ensures forall i :: 0 <= i < |v.calls| && v.calls[i].what.Launch? ==> v.calls[i].peer in v.launchers
    ensures forall k :: 0 <= k < |v.jobs| && v.jobs[k].owner.Some? ==> v.jobs[k].owner.value in v.launchers
  {
    assert forall k :: 0 <= k < |w.jobs| ==> v.jobs[..|w.jobs|][k] == v.jobs[k];
  }

  /** A client's launch call goes, and at the same time its job may come. */
  lemma CallHandledClients(c: Setup, w: World, step: Step)
    requires Inv(c, w) && Enabled(w, step) && step.CallHandled?
    ensures ClientsInv(Next(c, w, step))
  {
    var v, created := Handled(w, step.index, step.spawned), CreatesJob(w.calls[step.index], step.spawned);
    HandledIsWithoutCall(w, step.index, step.spawned);
    LaunchersStay(w, v, step.index, created);
    forall peer | peer in v.clients ensures ClientInv(v, peer) {
      CallTaken(w, v, step.index, created, peer);
    }
  }

  lemma CallTaken(w: World, v: World, index: nat, created: bool, peer: Peer)
    requires peer in w.clients && ClientInv(w, peer) && IsWithoutCall(w, v, index, created)
    ensures ClientInv(v, peer)
  {
    forall i | LaunchesOf(v, i, peer)
      ensures LaunchesOf(w, if i < index then i else i + 1, peer)
    {
    }
    assert forall k :: 0 <= k < |w.jobs| ==> v.jobs[k] == w.jobs[k] by {
      assert forall k :: 0 <= k < |w.jobs| ==> v.jobs[..|w.jobs|][k] == v.jobs[k];
    }
    if created && w.calls[index].peer == peer {
      assert LaunchesOf(w, index, peer);
      assert forall k :: Owns(v, peer, k) <==> Owns(w, peer, k) || k == |w.jobs|;
    } else {
      assert forall k :: Owns(v, peer, k) <==> Owns(w, peer, k);
    }
  }

  lemma CallArrivesRecords(c: Setup, w: World, step: Step)
    requires Inv(c, w) && Enabled(w, step) && step.CallArrives?
    ensures var v := Next(c, w, step);
            && v == w.(server := CallReceived(w.server), calls := w.calls + [step.call],
                       launchers := v.launchers, clients := v.clients)
            && TableInv(v) && ShutdownInv(v)
  {
  }

  lemma CallArrivesClients(c: Setup, w: World, step: Step)
    requires Inv(c, w) && Enabled(w, step) && step.CallArrives?
    ensures ClientsInv(Next(c, w, step))
  {
    CallArrivesRecords(c, w, step);
    var v := Next(c, w, step);
    forall peer | peer in v.clients ensures ClientInv(v, peer) {
      assert peer in w.clients ==> ClientInv(w, peer) && v.clients[peer] == w.clients[peer];
      assert forall k :: Owns(v, peer, k) <==> Owns(w, peer, k);
      assert forall i :: LaunchesOf(v, i, peer) <==>
               LaunchesOf(w, i, peer) || (i == |w.calls| && step.call.what.Launch? && step.call.peer == peer);
    }
  }

  lemma CallArrivesKeeps(c: Setup, w: World, step: Step)
    requires Inv(c, w) && Enabled(w, step) && step.CallArrives?
    ensures Inv(c, Next(c, w, step))
  {
    CallArrivesRecords(c, w, step);
    CallArrivesClients(c, w, step);
    SameRecordsKeepMail(w, Next(c, w, step));
  }

  // ---------------------------------------------------------------------------
  // Clients

  lemma ClientStepFrame(c: Setup, w: World, step: Step)
    requires Inv(c, w) && Enabled(w, step)
    requires step.ClientGetsReply? || step.ClientDispatches? || step.ClientLosesService?
    ensures Next(c, w, step) == w.(clients := w.clients[step.peer := Next(c, w, step).clients[step.peer]])
  {
  }

  lemma ClientStepsKeep(c: Setup, w: World, step: Step)
    requires Inv(c, w) && Enabled(w, step)
    requires step.ClientGetsReply? || step.ClientDispatches? || step.ClientLosesService?
    ensures Inv(c, Next(c, w, step))
  {
    ClientStepFrame(c, w, step);
    ClientStepKeeps(c, w, step);
    ClientReplaced(c, w, Next(c, w, step), step.peer);
  }

  lemma ClientReplaced(c: Setup, w: World, v: World, peer: Peer)
    requires Inv(c, w) && peer in w.clients && peer in v.clients
    requires v == w.(clients := w.clients[peer := v.clients[peer]])
    requires Truthful(w, peer, v.clients[peer])
    ensures Inv(c, v)
  {
    SameRecordsKeepMail(w, v);
    forall other | other in v.clients ensures ClientInv(v, other) {
      assert ClientInv(w, other);
      assert forall i :: LaunchesOf(v, i, other) <==> LaunchesOf(w, i, other);
      assert forall k :: Owns(v, other, k) <==> Owns(w, other, k);
    }
  }

  /** The client that takes the step keeps to its own job: all mail about a job is its own. */
  lemma ClientStepKeeps(c: Setup, w: World, step: Step)
    requires Inv(c, w) && Enabled(w, step)
    requires step.ClientGetsReply? || step.ClientDispatches? || step.ClientLosesService?
    ensures Truthful(w, step.peer, Next(c, w, step).clients[step.peer])
  {
    assert ClientInv(w, step.peer);
    if step.ClientGetsReply? {
      assert MailOk(w, step.peer, step.index, w.sent[step.peer][step.index]);
    } else if step.ClientDispatches? {
      var next := w.clients[step.peer].next;
      var mail := w.sent[step.peer][next];
      assert MailOk(w, step.peer, next, mail);
      if mail.message.ProcessExited? {
        assert Owns(w, step.peer, mail.job.value);
      }
    }
  }

  lemma CallHandledKeeps(c: Setup, w: World, step: Step)
    requires Inv(c, w) && Enabled(w, step) && step.CallHandled?
    ensures Inv(c, Next(c, w, step))
  {
    CallHandledTable(c, w, step);
    CallHandledMain(c, w, step);
    CallHandledShutdown(c, w, step);
    CallHandledMail(c, w, step);
    CallHandledClients(c, w, step);
  }

  lemma ChildDiesKeeps(c: Setup, w: World, step: Step)
    requires Inv(c, w) && Enabled(w, step) && step.ChildDies?
    ensures Inv(c, Next(c, w, step))
  {
    ChildDiesTable(c, w, step);
    ChildDiesMain(c, w, step);
    ChildDiesShutdown(c, w, step);
    ChildDiesMail(c, w, step);
    ChildDiesClients(c, w, step);
  }

  /** Steps in which the service starts up or loses its name. */
  predicate IsAnnouncement(step: Step) {
    step.SocketReady? || step.NameAcquired? || step.NameLost?
  }

  lemma AnnouncementKeeps(c: Setup, w: World, step: Step)
    requires Inv(c, w) && Enabled(w, step) && IsAnnouncement(step)
    ensures Inv(c, Next(c, w, step))
  {
    if step.SocketReady? {
      SocketReadyKeeps(c, w, step);
    } else if step.NameAcquired? {
      NameAcquiredKeeps(c, w, step);
    } else {
      NameLostKeeps(c, w, step);
    }
  }

  lemma StepKeepsInv(c: Setup, w: World, step: Step)
    requires Inv(c, w) && Enabled(w, step)
    ensures Inv(c, Next(c, w, step))
  {
    if IsAnnouncement(step) {
      AnnouncementKeeps(c, w, step);
    } else if step.CallArrives? {
      CallArrivesKeeps(c, w, step);
    } else if step.CallHandled? {
      CallHandledKeeps(c, w, step);
    } else if step.ChildDies? {
      ChildDiesKeeps(c, w, step);
    } else if IsQuiet(w, step) {
      QuietStepsKeep(c, w, step);
    } else {
      ClientStepsKeep(c, w, step);
    }
  }

  lemma {:induction false} RunKeepsInv(c: Setup, ws: seq<World>, steps: seq<Step>, i: nat)
    requires IsRun(c, ws, steps) && i < |ws|
    ensures Inv(c, ws[i])
  {
    if i > 0 {
      RunKeepsInv(c, ws, steps, i - 1);
      assert StepAt(c, ws, steps, i - 1);
      StepKeepsInv(c, ws[i - 1], steps[i - 1]);
    }
  }
}
