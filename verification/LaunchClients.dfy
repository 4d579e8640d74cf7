/** What the clients of a launcher service report about the processes that they launched. */
module LaunchClients {
  import opened Wrappers
  import opened LauncherServer
  import opened LauncherRuns
  import opened LauncherOutcomes

  // ---------------------------------------------------------------------------
  // Wait statuses

  /** A wait status with these parts; `core` is the bit for a dumped core, `low` a signal or none. */
  predicate HasParts(status: int, high: nat, exitCode: nat, core: bool, low: nat) {
    && exitCode < 256 && low < 128
    && status == 65536 * high + 256 * exitCode + (if core then 128 else 0) + low
  }

  /** What a shell reports: the exit code, or 128 plus the signal that killed the process. */
  function ShellReport(exitCode: nat, low: nat): nat {
    if low == 0 then exitCode else if low <= 126 then 128 + low else 255
  }

  lemma Multiples(d: int, x: int)
    requires d > 0
    ensures x >= 1 ==> d * x >= d
    ensures x <= -1 ==> d * x <= -d
  {
  }

  lemma DivMod(q: int, d: int, r: int)
    requires 0 <= r < d
    ensures (d * q + r) / d == q && (d * q + r) % d == r
  {
    var n := d * q + r;
    assert n == d * (n / d) + n % d;
    assert d * (q - n / d) == n % d - r;
    Multiples(d, q - n / d);
  }

  /** The client's code for a wait status is what a shell reports. */
  lemma ShellCodeOf(status: int, high: nat, exitCode: nat, core: bool, low: nat)
    requires HasParts(status, high, exitCode, core, low)
    ensures ShellCode(status) == ShellReport(exitCode, low)
  {
    var bit := if core then 1 else 0;
    DivMod(512 * high + 2 * exitCode + bit, 128, low);
    DivMod(256 * high + exitCode, 256, 128 * bit + low);
    DivMod(high, 256, exitCode);
  }

  /** Every wait status has such parts. */
  lemma PartsExist(status: nat) returns (high: nat, exitCode: nat, core: bool, low: nat)
    ensures HasParts(status, high, exitCode, core, low)
  {
    high, exitCode := status / 65536, status / 256 % 256;
    core, low := status / 128 % 2 == 1, status % 128;
    assert status / 256 == 256 * high + exitCode;
    assert status / 128 == 2 * (status / 256) + status / 128 % 2;
  }

  /** An exit code is reported as it is, and a signal with 128 added, with or without a dumped core. */
  lemma CommonStatuses(exitCode: nat, signum: nat, core: bool)
    requires exitCode < 256 && 1 <= signum <= 126
    ensures ShellCode(256 * exitCode) == exitCode
    ensures ShellCode(signum + if core then 128 else 0) == 128 + signum
  {
    ShellCodeOf(256 * exitCode, 0, exitCode, false, 0);
    ShellCodeOf(signum + if core then 128 else 0, 0, 0, core, signum);
  }

  /** The code is what a shell reports for this wait status. */
  ghost predicate IsShellReport(status: int, code: int) {
    exists high: nat, exitCode: nat, core: bool, low: nat ::
      HasParts(status, high, exitCode, core, low) && code == ShellReport(exitCode, low)
  }

  lemma ShellCodeIsReport(status: nat)
    ensures IsShellReport(status, ShellCode(status))
  {
    var high, exitCode, core, low := PartsExist(status);
    ShellCodeOf(status, high, exitCode, core, low);
  }

  // ---------------------------------------------------------------------------
  // What a client has heard

  predicate IsClientStep(step: Step) {
    step.ClientGetsReply? || step.ClientDispatches? || step.ClientLosesService?
  }

  /** Apart from clients and arriving calls, a step only adds mail, at most to one outbox. */
  ghost predicate OnlyAddsMail(w: World, v: World) {
    && v.clients == w.clients
    && (forall peer :: |Outbox(w, peer)| <= |Outbox(v, peer)|)
    && (forall k :: k in w.reaped ==> k in v.reaped && v.reaped[k] == w.reaped[k])
    && (forall k :: k in w.reaped && k in w.exitAt ==> k in v.exitAt && v.exitAt[k] == w.exitAt[k])
    && (forall k: nat :: k < |w.jobs| ==> k < |v.jobs| && v.jobs[k] == w.jobs[k])
  }

  /** Where the exit signal for a job that dies goes: behind all mail so far. */
  ghost predicate NewExitsAreLast(w: World, v: World) {
    forall k: nat :: k in v.reaped && k !in w.reaped && k < |w.jobs| && w.jobs[k].owner.Some? ==>
      v.reaped[k] >= 0 && k in v.exitAt && v.exitAt[k] == |Outbox(w, w.jobs[k].owner.value)|
  }

  lemma AnnouncementMail(c: Setup, w: World, step: Step)
    requires Enabled(w, step) && IsAnnouncement(step)
    ensures OnlyAddsMail(w, Next(c, w, step)) && Next(c, w, step).reaped == w.reaped
  {
    match step
    case SocketReady(spawned) =>
      AnnouncedParts(c, w.(mode := Looping, server := w.server.(listening := true)), spawned);
    case NameAcquired(_, spawned) => AnnouncedParts(c, w, spawned);
    case NameLost(_, spawned) =>
      NameLostNext(c, w, step);
      LostNameStops(c, w);
      AnnouncedParts(c, Post(w, LostName(c.config, w.server), None), spawned);
  }

  lemma CallMail(c: Setup, w: World, step: Step)
    requires Enabled(w, step) && step.CallHandled?
    ensures OnlyAddsMail(w, Next(c, w, step)) && Next(c, w, step).reaped == w.reaped
  {
    HandledParts(w, step.index, step.spawned);
  }

  lemma DeathMail(c: Setup, w: World, step: Step)
    requires TableInv(w) && Enabled(w, step) && step.ChildDies?
    ensures OnlyAddsMail(w, Next(c, w, step)) && NewExitsAreLast(w, Next(c, w, step))
  {
    ReapedParts(w, step.pid, step.status);
  }

  lemma StoppingMail(c: Setup, w: World, step: Step)
    requires Enabled(w, step) && CallsStop(w, step)
    ensures OnlyAddsMail(w, Next(c, w, step)) && Next(c, w, step).reaped == w.reaped
  {
    StoppingStep(c, w, step);
  }

  lemma QuietMail(c: Setup, w: World, step: Step)
    requires Enabled(w, step) && IsQuiet(w, step) && !CallsStop(w, step)
    ensures OnlyAddsMail(w, Next(c, w, step)) && Next(c, w, step).reaped == w.reaped
  {
  }

  lemma ServiceMail(c: Setup, w: World, step: Step)
    requires TableInv(w) && Enabled(w, step) && !IsClientStep(step) && !step.CallArrives?
    ensures OnlyAddsMail(w, Next(c, w, step)) && NewExitsAreLast(w, Next(c, w, step))
  {
    if IsAnnouncement(step) {
      AnnouncementMail(c, w, step);
    } else if step.CallHandled? {
      CallMail(c, w, step);
    } else if step.ChildDies? {
      DeathMail(c, w, step);
    } else if CallsStop(w, step) {
      StoppingMail(c, w, step);
    } else {
      QuietMail(c, w, step);
    }
  }

  /** A client without a job reports 125 if anything; a running one has not missed its exit signal. */
  ghost predicate Attentive(w: World, peer: Peer, client: Client) {
    match client.phase
    case Waiting => true
    case Running(_) =>
      && client.next <= |Outbox(w, peer)|
      && (client.job.Some? && client.job.value in w.reaped && client.job.value in w.exitAt ==>
            client.next <= w.exitAt[client.job.value])
    case Returned(code) => client.job.None? ==> code == 125
  }

  ghost predicate AllAttentive(w: World) {
    && (forall peer :: peer in w.clients ==> Attentive(w, peer, w.clients[peer]))
    && (forall k :: k in w.reaped ==> w.reaped[k] >= 0)
  }

  lemma ServiceKeepsAttentive(c: Setup, w: World, step: Step)
    requires Inv(c, w) && AllAttentive(w) && Enabled(w, step) && !IsClientStep(step) && !step.CallArrives?
    ensures AllAttentive(Next(c, w, step))
  {
    var v := Next(c, w, step);
    ServiceMail(c, w, step);
    forall peer | peer in v.clients
      ensures Attentive(v, peer, v.clients[peer])
    {
      assert Attentive(w, peer, w.clients[peer]);
      KeepsAttentive(w, v, peer);
    }
    StatusesStay(c, w, step);
  }

  lemma KeepsAttentive(w: World, v: World, peer: Peer)
    requires OnlyAddsMail(w, v) && NewExitsAreLast(w, v)
    requires peer in w.clients && ClientInv(w, peer) && Attentive(w, peer, w.clients[peer])
    requires forall k: nat :: k < |w.jobs| ==> JobMail(w, k)
    ensures Attentive(v, peer, w.clients[peer])
  {
    var client := w.clients[peer];
    if client.phase.Running? && client.job.Some? {
      assert JobMail(w, client.job.value);
    }
  }

  lemma StatusesStay(c: Setup, w: World, step: Step)
    requires Enabled(w, step) && forall k :: k in w.reaped ==> w.reaped[k] >= 0
    ensures forall k :: k in Next(c, w, step).reaped ==> Next(c, w, step).reaped[k] >= 0
  {
    TableChangesAreExact(c, w, step);
  }

  lemma ArrivalKeepsAttentive(c: Setup, w: World, step: Step)
    requires Inv(c, w) && AllAttentive(w) && Enabled(w, step) && step.CallArrives?
    ensures AllAttentive(Next(c, w, step))
  {
    CallArrivesRecords(c, w, step);
    var v := Next(c, w, step);
    forall peer | peer in v.clients
      ensures Attentive(v, peer, v.clients[peer])
    {
      assert peer in w.clients && v.clients[peer] == w.clients[peer] ==> Attentive(w, peer, w.clients[peer]);
    }
  }

  lemma ReplyIsHeard(c: Setup, w: World, step: Step)
    requires MailInv(w) && Enabled(w, step) && step.ClientGetsReply?
    ensures Attentive(w, step.peer, Next(c, w, step).clients[step.peer])
  {
    assert MailOk(w, step.peer, step.index, w.sent[step.peer][step.index]);
  }

  lemma DispatchIsHeard(c: Setup, w: World, step: Step)
    requires MailInv(w) && Enabled(w, step) && step.ClientDispatches?
    requires ClientInv(w, step.peer) && Attentive(w, step.peer, w.clients[step.peer])
    ensures Attentive(w, step.peer, Next(c, w, step).clients[step.peer])
  {
    assert JobMail(w, w.clients[step.peer].job.value);
  }

  lemma LossIsHeard(c: Setup, w: World, step: Step)
    requires Enabled(w, step) && step.ClientLosesService? && ClientInv(w, step.peer)
    ensures Attentive(w, step.peer, Next(c, w, step).clients[step.peer])
  {
  }

  lemma ClientStaysAttentive(c: Setup, w: World, step: Step)
    requires Inv(c, w) && AllAttentive(w) && Enabled(w, step) && IsClientStep(step)
    ensures Attentive(w, step.peer, Next(c, w, step).clients[step.peer])
  {
    assert ClientInv(w, step.peer) && Attentive(w, step.peer, w.clients[step.peer]);
    if step.ClientGetsReply? {
      ReplyIsHeard(c, w, step);
    } else if step.ClientDispatches? {
      DispatchIsHeard(c, w, step);
    } else {
      LossIsHeard(c, w, step);
    }
  }

  lemma ClientStepKeepsAttentive(c: Setup, w: World, step: Step)
    requires Inv(c, w) && AllAttentive(w) && Enabled(w, step) && IsClientStep(step)
    ensures AllAttentive(Next(c, w, step))
  {
    var v := Next(c, w, step);
    ClientStaysAttentive(c, w, step);
    ClientStepFrame(c, w, step);
    forall peer | peer in v.clients
      ensures Attentive(v, peer, v.clients[peer])
    {
      assert peer != step.peer ==> Attentive(w, peer, w.clients[peer]);
      assert Outbox(v, peer) == Outbox(w, peer);
    }
  }

  lemma {:induction false} RunKeepsAttentive(c: Setup, ws: seq<World>, steps: seq<Step>, i: nat)
    requires IsRun(c, ws, steps) && i < |ws|
    ensures AllAttentive(ws[i])
  {
    if i > 0 {
      var w, step := ws[i - 1], steps[i - 1];
      RunKeepsAttentive(c, ws, steps, i - 1);
      RunKeepsInv(c, ws, steps, i - 1);
      assert StepAt(c, ws, steps, i - 1);
      if IsClientStep(step) {
        ClientStepKeepsAttentive(c, w, step);
      } else if step.CallArrives? {
        ArrivalKeepsAttentive(c, w, step);
      } else {
        ServiceKeepsAttentive(c, w, step);
      }
    }
  }

  // ---------------------------------------------------------------------------
  // What clients report

  /**
    A client that got a launch reply reports the shell-style code of its own, already reaped
    child, or 255 if it cannot report that: never the status of another client's process, even
    if pids are reused. A client that got none reports 125 if anything.
   */
  lemma ReportedStatusIsOwn(c: Setup, ws: seq<World>, steps: seq<Step>, i: nat, peer: Peer)
    requires IsRun(c, ws, steps) && i < |ws| && peer in ws[i].clients
    ensures var w, client := ws[i], ws[i].clients[peer];
            if client.job.Some? then
              && Owns(w, peer, client.job.value)
              && (forall k :: Owns(w, peer, k) ==> k == client.job.value)
              && (client.phase.Returned? ==>
                    || client.phase.code == 255
                    || (&& client.job.value in w.reaped
                        && IsShellReport(w.reaped[client.job.value], client.phase.code)))
            else client.phase == Waiting || client.phase == Returned(125)
  {
    RunKeepsInv(c, ws, steps, i);
    RunKeepsAttentive(c, ws, steps, i);
    var w, client := ws[i], ws[i].clients[peer];
    assert ClientInv(w, peer) && Attentive(w, peer, client);
    if client.job.Some? && client.job.value in w.reaped {
      ShellCodeIsReport(w.reaped[client.job.value]);
    }
  }

  /**
    A client that is waiting for the exit of its child never misses it: once the child has been
    reaped, the exit signal is still to be dispatched, and then the client reports its status.
   */
  lemma ExitIsNotMissed(c: Setup, ws: seq<World>, steps: seq<Step>, i: nat, peer: Peer)
    requires IsRun(c, ws, steps) && i < |ws| && peer in ws[i].clients && ws[i].clients[peer].phase.Running?
    ensures ws[i].clients[peer].job.Some?
    ensures var w, client := ws[i], ws[i].clients[peer];
            var k := client.job.value;
            k in w.reaped ==>
              && k in w.exitAt && client.next <= w.exitAt[k] && Enabled(w, ClientDispatches(peer))
              && var after := Next(c, w, ClientDispatches(peer)).clients[peer];
                 if client.next == w.exitAt[k] then
                   after.phase.Returned? && IsShellReport(w.reaped[k], after.phase.code)
                 else after == client.(next := client.next + 1)
  {
    RunKeepsInv(c, ws, steps, i);
    RunKeepsAttentive(c, ws, steps, i);
    assert ClientInv(ws[i], peer) && Attentive(ws[i], peer, ws[i].clients[peer]);
    if ws[i].clients[peer].job.value in ws[i].reaped {
      OwnExitIsAhead(c, ws[i], peer);
    }
  }

  lemma OwnExitIsAhead(c: Setup, w: World, peer: Peer)
    requires MailInv(w) && peer in w.clients && ClientInv(w, peer) && Attentive(w, peer, w.clients[peer])
    requires w.clients[peer].phase.Running? && w.clients[peer].job.Some? && w.clients[peer].job.value in w.reaped
    requires w.reaped[w.clients[peer].job.value] >= 0
    ensures var client := w.clients[peer];
            var k := client.job.value;
            && k in w.exitAt && client.next <= w.exitAt[k] && Enabled(w, ClientDispatches(peer))
            && var after := Next(c, w, ClientDispatches(peer)).clients[peer];
               if client.next == w.exitAt[k] then
                 after.phase.Returned? && IsShellReport(w.reaped[k], after.phase.code)
               else after == client.(next := client.next + 1)
  {
    var client := w.clients[peer];
    var k := client.job.value;
    assert JobMail(w, k);
    var mail := w.sent[peer][client.next];
    assert MailOk(w, peer, client.next, mail);
    if mail.message.ProcessExited? {
      assert Owns(w, peer, mail.job.value);
    }
    ShellCodeIsReport(w.reaped[k]);
  }
}
