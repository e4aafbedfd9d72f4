/** driver.cpp: the second iteration of the failover program. Its detector
    asks for a wholly silent primary pilot window, and it runs only while
    failOver is clear: once raised, failOver stays raised until the operator's
    trigger reverts to the primary computer or the program restarts. */
module DriverFailover {
  import opened Layout
  import opened Asio
  import opened CString
  import opened Midi

  /** The flags of the global driverData record, as one value. */
  datatype Flags = Flags(stop: bool, failOver: bool, halt: bool,
                         manualSwitch: bool, midiLearn: bool)

  /*** Signal detection ***/

  /** Number of non-zero bytes in s. */
  function NonZeroCount(s: seq<byte>): (n: nat)
    ensures n <= |s|
    ensures n == 0 <==> forall i :: 0 <= i < |s| ==> s[i] == 0
  {
    if s == [] then 0
    else
      var last := |s| - 1;
      NonZeroCount(s[..last]) + if s[last] != 0 then 1 else 0
  }

  /** The detector's rule: the primary pilot's window holds no non-zero byte
      while the secondary pilot's holds at least one. */
  predicate PrimaryLost(primary: seq<byte>, secondary: seq<byte>): (r: bool)
    requires |primary| >= PilotWindow && |secondary| >= PilotWindow
    ensures r ==> forall k :: 0 <= k < PilotWindow ==> primary[k] == 0
    ensures (forall k :: 0 <= k < PilotWindow ==> secondary[k] == 0) ==> !r
  {
    NonZeroCount(primary[..PilotWindow]) == 0 && NonZeroCount(secondary[..PilotWindow]) > 0
  }

  /** The rule in terms of bytes: every primary byte of the window is zero and
      some secondary byte is not. */
  lemma PrimaryLostMeansSilence(primary: seq<byte>, secondary: seq<byte>)
    requires |primary| >= PilotWindow && |secondary| >= PilotWindow
    ensures PrimaryLost(primary, secondary) <==>
      && (forall k :: 0 <= k < PilotWindow ==> primary[k] == 0)
      && (exists k :: 0 <= k < PilotWindow && secondary[k] != 0)
  {
  }

  /** The counting loop of the detector: the non-zero bytes of each pilot's
      window, so each count lies in 0..64. */
  method CountPilots(primary: array<byte>, secondary: array<byte>) returns (priCount: nat, secCount: nat)
    requires primary.Length >= PilotWindow && secondary.Length >= PilotWindow
    ensures priCount == NonZeroCount(primary[..PilotWindow]) <= PilotWindow
    ensures secCount == NonZeroCount(secondary[..PilotWindow]) <= PilotWindow
  {
    priCount, secCount := 0, 0;
    for k := 0 to PilotWindow
      invariant priCount == NonZeroCount(primary[..k])
      invariant secCount == NonZeroCount(secondary[..k])
    {
      assert primary[..k + 1][..k] == primary[..k];
      assert secondary[..k + 1][..k] == secondary[..k];
      if primary[k] != 0 {
        priCount := priCount + 1;
      }
      if secondary[k] != 0 {
        secCount := secCount + 1;
      }
    }
  }

  /** failOver after one block's detector step: a raised flag skips the
      detector and stays raised; a clear flag takes the detector's verdict. */
  function DetectStep(failOver: bool, verdict: bool): (r: bool)
    ensures failOver ==> r
    ensures !failOver ==> r == verdict
  {
    if !failOver then verdict else failOver
  }

  /** failOver after a run of blocks, given each block's detector verdict:
      a raised flag stays raised, and a block whose detector fires leaves it
      raised. */
  function FailOverAfter(failOver: bool, verdicts: seq<bool>): (r: bool)
    ensures failOver ==> r
    ensures verdicts != [] && verdicts[|verdicts| - 1] ==> r
  {
    if verdicts == [] then failOver
    else
      var last := |verdicts| - 1;
      DetectStep(FailOverAfter(failOver, verdicts[..last]), verdicts[last])
  }

  /** The latch: over any run of blocks without a trigger or a restart,
      failOver ends up raised iff it was raised at the start or the detector
      fired in some block. */
  lemma {:induction false} LatchedAcrossBlocks(failOver: bool, verdicts: seq<bool>)
    ensures FailOverAfter(failOver, verdicts) <==>
      failOver || exists i :: 0 <= i < |verdicts| && verdicts[i]
  {
    if verdicts != [] {
      var last := |verdicts| - 1;
      LatchedAcrossBlocks(failOver, verdicts[..last]);
      if exists i :: 0 <= i < last && verdicts[..last][i] {
        var i :| 0 <= i < last && verdicts[..last][i];
        assert verdicts[i];
      }
      if exists i :: 0 <= i < |verdicts| && verdicts[i] {
        var i :| 0 <= i < |verdicts| && verdicts[i];
        if i < last {
          assert verdicts[..last][i];
        }
      }
    }
  }

  /*** The trigger interpreter, the learn session and the console ***/

  /** One inbound message seen by readMidi. The trigger, while failed over,
      reverts to the primary computer (both flags cleared); otherwise it toggles
      the manual switch and so routes the other bank. Anything else is ignored. */
  function OnMessage(f: Flags, trigger: Message, msg: Message): (g: Flags)
    requires |msg| >= TriggerLength && |trigger| >= TriggerLength
    ensures !Matches(msg, trigger) ==> g == f
    ensures Matches(msg, trigger) && f.failOver ==>
              !g.failOver && !g.manualSwitch && StartChan(g.failOver, g.manualSwitch) == PrimaryBank
    ensures Matches(msg, trigger) && !f.failOver ==>
              !g.failOver && g.manualSwitch != f.manualSwitch
              && StartChan(g.failOver, g.manualSwitch) != StartChan(f.failOver, f.manualSwitch)
    ensures g.(failOver := f.failOver, manualSwitch := f.manualSwitch) == f
  {
    if !Matches(msg, trigger) then f
    else if f.failOver then f.(failOver := false, manualSwitch := false)
    else f.(manualSwitch := !f.manualSwitch)
  }

  /** readMidi's listening loop applied to a run of polls, in order: it
      never raises failOver and moves no flag but failOver and the manual
      switch. */
  function OnPolls(f: Flags, trigger: Message, polls: seq<Poll>): (g: Flags)
    requires WellFormed(polls) && |trigger| >= TriggerLength
    ensures g.failOver ==> f.failOver
    ensures g.(failOver := f.failOver, manualSwitch := f.manualSwitch) == f
  {
    if polls == [] then f
    else
      var last := |polls| - 1;
      WellFormedPrefix(polls, last);
      var g := OnPolls(f, trigger, polls[..last]);
      if polls[last].Some? then OnMessage(g, trigger, polls[last].value) else g
  }

  /** The flags after m matching messages: nothing changes if m is 0; from
      a failed-over state the first match reverts to the primary computer and
      each later one toggles the manual switch; otherwise each match toggles
      it. */
  function AfterMatches(f: Flags, m: nat): Flags
  {
    if m == 0 then f
    else if f.failOver then f.(failOver := false, manualSwitch := Odd(m - 1))
    else f.(manualSwitch := f.manualSwitch != Odd(m))
  }

  /** One more match acts on AfterMatches as a matching message does. */
  lemma OneMoreMatch(f: Flags, m: nat)
    ensures var g := AfterMatches(f, m);
            AfterMatches(f, m + 1)
              == if g.failOver then g.(failOver := false, manualSwitch := false)
                 else g.(manualSwitch := !g.manualSwitch)
  {
  }

  /** After any run of polls the flags are those after as many matches as
      the polls delivered. */
  lemma {:induction false} OnPollsEffect(f: Flags, trigger: Message, polls: seq<Poll>)
    requires WellFormed(polls) && |trigger| >= TriggerLength
    ensures OnPolls(f, trigger, polls) == AfterMatches(f, MatchCount(polls, trigger))
  {
    if polls != [] {
      var last := |polls| - 1;
      WellFormedPrefix(polls, last);
      OnPollsEffect(f, trigger, polls[..last]);
      OneMoreMatch(f, MatchCount(polls[..last], trigger));
    }
  }

  /** A run of polls that delivers no trigger changes no flag. */
  lemma SilenceKeepsFlags(f: Flags, trigger: Message, polls: seq<Poll>)
    requires WellFormed(polls) && |trigger| >= TriggerLength
    requires forall i :: 0 <= i < |polls| ==> !IsMatch(polls[i], trigger)
    ensures OnPolls(f, trigger, polls) == f
  {
    OnPollsEffect(f, trigger, polls);
  }

  /** A console key's effect on the flags. */
  function OnKey(f: Flags, key: char): (g: Flags)
    ensures g.stop == (f.stop || key == 'S')
    ensures g.halt == (f.halt || key == 'R' || key == 'S')
    ensures g.midiLearn == (f.midiLearn && key != 'M')
    ensures g.failOver == f.failOver && g.manualSwitch == f.manualSwitch
  {
    match key
    case 'M' => f.(midiLearn := false)
    case 'R' => f.(halt := true)
    case 'S' => f.(stop := true, halt := true)
    case _ => f
  }

  /** The flags after a run of console commands, in order. */
  function OnCommands(f: Flags, cmds: seq<Command>): (g: Flags)
    ensures g.failOver == f.failOver && g.manualSwitch == f.manualSwitch
  {
    if cmds == [] then f
    else
      var last := |cmds| - 1;
      OnKey(OnCommands(f, cmds[..last]), cmds[last].key)
  }

  /** What a run of console commands records: stop and halt say whether a
      matching key was given, and a learn command leaves midiLearn clear. */
  lemma {:induction false} OnCommandsRecords(f: Flags, cmds: seq<Command>)
    ensures var g := OnCommands(f, cmds);
            && g.stop == (f.stop || exists i :: 0 <= i < |cmds| && cmds[i].key == 'S')
            && g.halt == (f.halt || exists i :: 0 <= i < |cmds| && cmds[i].key in {'R', 'S'})
            && g.midiLearn == (f.midiLearn && forall i :: 0 <= i < |cmds| ==> cmds[i].key != 'M')
  {
    if cmds != [] {
      var last := |cmds| - 1;
      OnCommandsRecords(f, cmds[..last]);
      assert forall i :: 0 <= i < last ==> cmds[..last][i] == cmds[i];
    }
  }

  /** One more command extends the fold by that command's key. */
  lemma OnCommandsStep(f: Flags, cmds: seq<Command>, n: nat)
    requires n < |cmds|
    ensures OnCommands(f, cmds[..n + 1]) == OnKey(OnCommands(f, cmds[..n]), cmds[n].key)
  {
    assert cmds[..n + 1][..n] == cmds[..n];
  }

  /** The flags while a session is running: no stop or halt request. */
  predicate Running(f: Flags)
  {
    !f.stop && !f.halt
  }

  /** The end of one pass of main's outer loop, once the console thread has
      asked to stop or restart: halt is cleared, stop is kept. */
  function CycleEnd(f: Flags): (g: Flags)
    requires f.stop || f.halt
    ensures !g.halt && g.stop == f.stop
    ensures g.failOver == f.failOver && g.manualSwitch == f.manualSwitch && g.midiLearn == f.midiLearn
  {
    f.(halt := false)
  }

  /** The start of the next pass, just before the driver is started. */
  function CycleStart(f: Flags): (g: Flags)
    ensures !g.failOver && g.(failOver := f.failOver) == f
  {
    f.(failOver := false)
  }

  /** 'R' ends the session and the outer loop runs again with a running state
      and failOver cleared; the manual switch survives the restart. */
  lemma RestartRunsAgain(f: Flags)
    requires Running(f)
    ensures var g := CycleStart(CycleEnd(OnKey(f, 'R')));
            Running(g) && !g.failOver && g.manualSwitch == f.manualSwitch
  {
  }

  /** A session that getUserMessages ends with its first 'R' or 'S' hands the
      outer loop a restart or a stop according to that last command. */
  lemma LastCommandDecides(f: Flags, cmds: seq<Command>)
    requires Running(f) && cmds != [] && cmds[|cmds| - 1].key in {'R', 'S'}
    requires forall j :: 0 <= j < |cmds| - 1 ==> cmds[j].key !in {'R', 'S'}
    ensures var g := OnCommands(f, cmds);
            && g.halt
            && (g.stop <==> cmds[|cmds| - 1].key == 'S')
            && (CycleEnd(g).stop <==> cmds[|cmds| - 1].key == 'S')
  {
    OnCommandsRecords(f, cmds);
    var g := OnCommands(f, cmds);
    if g.stop {
      var i :| 0 <= i < |cmds| && cmds[i].key == 'S';
      assert i == |cmds| - 1;
    }
  }

  /** 'S' ends the session and the outer loop. */
  lemma StopEndsProgram(f: Flags)
    requires Running(f)
    ensures OnKey(f, 'S').halt && CycleEnd(OnKey(f, 'S')).stop
  {
  }

  /** Every other key leaves the session running. */
  lemma OtherKeysKeepRunning(f: Flags, key: char)
    requires Running(f) && key != 'R' && key != 'S'
    ensures Running(OnKey(f, key)) && (key != 'M' ==> OnKey(f, key) == f)
  {
  }

  /** The global driverData record: the buffer table the driver filled in and
      the flags the three threads share. */
  class DriverInfo {
    /** The buffer table, which the callback reads and writes through. */
    const table: BufferTable
    var stop: bool
    var failOver: bool
    var halt: bool
    var manualSwitch: bool
    var midiLearn: bool
    /** The trigger message. */
    var message: Message
    /** The contents of prog.dat, where a learned trigger is persisted. */
    var progDat: seq<byte>

    /** The zero-initialised record: every flag false and the trigger message
        still empty, with the buffer table the driver created and the contents
        prog.dat has when the program starts. */
    constructor(buffers: BufferTable, stored: seq<byte>)
      ensures table == buffers
      ensures State() == Flags(false, false, false, false, false)
      ensures message == [] && progDat == stored
    {
      table := buffers;
      stop, failOver, halt, manualSwitch, midiLearn := false, false, false, false, false;
      message, progDat := [], stored;
    }

    function State(): Flags
      reads this
    {
      Flags(stop, failOver, halt, manualSwitch, midiLearn)
    }

    /** The detector's verdict on half h of the two pilots. */
    ghost predicate DetectorFires(h: int)
      requires table.Geometry() && 0 <= h < 2
      reads this, table.bufferInfos[PrimaryPilot].buffers[h], table.bufferInfos[SecondaryPilot].buffers[h]
    {
      var roles := PilotRoles(manualSwitch);
      PrimaryLost(table.Half(roles.0, h), table.Half(roles.1, h))
    }

    /** bufferSwitchTimeInfo: the per-block callback. It reads the half the
        driver just filled, (index + 1) % 2; while failOver is clear it runs
        the detector and raises failOver on its verdict; then it copies the
        selected bank's 31 channels into half index of the outputs. It never
        clears failOver. */
    method BufferSwitchTimeInfo(index: int)
      requires table.Geometry() && (index == 0 || index == 1)
      modifies this`failOver, table.OutputHalves(index)
      ensures failOver == DetectStep(old(failOver), old(DetectorFires((index + 1) % 2)))
      ensures var bank := StartChan(failOver, manualSwitch);
        forall c :: OutputBank <= c < OutputBank + BankWidth ==>
          table.Half(c, index)
            == old(table.Half(bank + (c - OutputBank), (index + 1) % 2))[..table.BlockBytes()]
               + old(table.Half(c, index))[table.BlockBytes()..]
    {
      var half := (index + 1) % 2;
      if !failOver {
        var priCount, secCount := Detect(half);
        if priCount == 0 && secCount > 0 {
          failOver := true;
        }
      }
      var startChan := StartChan(failOver, manualSwitch);
      table.CopyBank(startChan, index);
    }

    /** The detector of the callback: choose the primary and secondary pilot
        from the manual switch, then count their non-zero bytes in half h. */
    method Detect(h: int) returns (priCount: nat, secCount: nat)
      requires table.Geometry() && 0 <= h < 2
      ensures priCount == 0 && secCount > 0 <==> DetectorFires(h)
    {
      var primary := if !manualSwitch then PrimaryPilot else SecondaryPilot;
      var secondary := if !manualSwitch then SecondaryPilot else PrimaryPilot;
      priCount, secCount := CountPilots(table.bufferInfos[primary].buffers[h], table.bufferInfos[secondary].buffers[h]);
    }

    /** The start of one pass of main's outer loop: the trigger is read back
        from prog.dat into a zeroed three-byte record, and failOver is cleared
        just before the driver is started. */
    method StartCycle()
      modifies this`failOver, this`message
      ensures State() == CycleStart(old(State()))
      ensures message == Reloaded(progDat)
    {
      message := Reloaded(progDat);
      failOver := false;
    }

    /** The body of readMidi's listening loop for one delivered message. */
    method HandleMessage(msg: Message)
      requires |msg| >= TriggerLength && |message| == TriggerLength
      modifies this`failOver, this`manualSwitch
      ensures State() == OnMessage(old(State()), message, msg)
    {
      if StrnEqual(msg, message, TriggerLength) {
        if failOver {
          failOver := false;
          manualSwitch := false;
        } else {
          manualSwitch := !manualSwitch;
        }
      }
    }

    /** readMidi's listening loop over the polls made while it runs; it does
        nothing while a learn session is active or the program is halting. */
    method ReadMidi(polls: seq<Poll>)
      requires WellFormed(polls) && |message| == TriggerLength
      modifies this`failOver, this`manualSwitch
      ensures State() == if old(midiLearn || halt) then old(State())
                         else OnPolls(old(State()), message, polls)
    {
      var i := 0;
      while !(midiLearn || halt) && i < |polls|
        invariant 0 <= i <= |polls|
        invariant old(midiLearn || halt) ==> i == 0 && State() == old(State())
        invariant !old(midiLearn || halt) ==> State() == OnPolls(old(State()), message, polls[..i])
      {
        assert polls[..i + 1][..i] == polls[..i];
        if polls[i].Some? {
          HandleMessage(polls[i].value);
        }
        i := i + 1;
      }
      assert polls[..|polls|] == polls;
    }

    /** learnMidi: prog.dat is reopened for writing (which empties it), then
        the polls before the deadline are read until the first message; its
        first three bytes become the trigger and are written to prog.dat. On a
        timeout midiLearn stays set. Returns the number of polls made. */
    method LearnMidi(polls: seq<Poll>) returns (consumed: nat)
      requires WellFormed(polls) && |message| == TriggerLength
      modifies this`message, this`progDat, this`midiLearn
      ensures midiLearn == (old(midiLearn) && Captured(polls).None?)
      ensures old(midiLearn) && Captured(polls).Some? ==>
                && message == Captured(polls).value && progDat == message
                && consumed == FirstReceived(polls).value + 1
      ensures !(old(midiLearn) && Captured(polls).Some?) ==>
                && message == old(message) && progDat == []
                && consumed == (if old(midiLearn) then |polls| else 0)
    {
      progDat := [];
      consumed := 0;
      while midiLearn && consumed < |polls|
        invariant 0 <= consumed <= |polls|
        invariant midiLearn ==> old(midiLearn) && message == old(message) && progDat == []
        invariant midiLearn ==> forall j :: 0 <= j < consumed ==> polls[j].None?
        invariant !midiLearn && old(midiLearn) ==>
                    && 0 < consumed && polls[consumed - 1].Some?
                    && (forall j :: 0 <= j < consumed - 1 ==> polls[j].None?)
                    && message == polls[consumed - 1].value[..TriggerLength] && progDat == message
        invariant !old(midiLearn) ==> consumed == 0 && message == old(message) && progDat == []
      {
        if polls[consumed].Some? {
          message := polls[consumed].value[..|message|];
          progDat := message;
          midiLearn := false;
        }
        consumed := consumed + 1;
      }
    }

    /** One command of getUserMessages' switch. */
    method RunCommand(cmd: Command)
      requires WellFormed(cmd.learnPolls) && |message| == TriggerLength
      modifies this`stop, this`halt, this`midiLearn, this`message, this`progDat
      ensures State() == OnKey(old(State()), cmd.key)
      ensures cmd.key == 'M' ==>
        && message == Captured(cmd.learnPolls).GetOr(old(message))
        && progDat == (if Captured(cmd.learnPolls).Some? then message else [])
      ensures cmd.key != 'M' ==> message == old(message) && progDat == old(progDat)
      ensures |message| == TriggerLength
    {
      match cmd.key
      case 'M' =>
        midiLearn := true;
        var _ := LearnMidi(cmd.learnPolls);
        midiLearn := false;
      case 'R' =>
        halt := true;
      case 'S' =>
        stop, halt := true, true;
      case _ =>
    }

    /** getUserMessages' loop: commands are read until one sets halt. Returns
        the number of commands read. */
    method GetUserMessages(cmds: seq<Command>) returns (consumed: nat)
      requires CommandsWellFormed(cmds) && |message| == TriggerLength
      modifies this`stop, this`halt, this`midiLearn, this`message, this`progDat
      ensures consumed <= |cmds|
      ensures State() == OnCommands(old(State()), cmds[..consumed])
      ensures (message, progDat) == LearnAfter(old(message), old(progDat), cmds[..consumed])
      ensures old(halt) ==> consumed == 0 && State() == old(State())
      ensures !old(halt) ==> (halt <==> consumed > 0 && cmds[consumed - 1].key in {'R', 'S'})
      ensures !old(halt) ==> forall j :: 0 <= j < consumed - 1 ==> cmds[j].key !in {'R', 'S'}
      ensures halt || consumed == |cmds|
      ensures failOver == old(failOver) && manualSwitch == old(manualSwitch)
    {
      consumed := 0;
      while !halt && consumed < |cmds|
        invariant 0 <= consumed <= |cmds| && |message| == TriggerLength
        invariant State() == OnCommands(old(State()), cmds[..consumed])
        invariant (message, progDat) == LearnAfter(old(message), old(progDat), cmds[..consumed])
        invariant old(halt) ==> consumed == 0 && State() == old(State())
        invariant !old(halt) ==> (halt <==> consumed > 0 && cmds[consumed - 1].key in {'R', 'S'})
        invariant !old(halt) ==> forall j :: 0 <= j < consumed - 1 ==> cmds[j].key !in {'R', 'S'}
      {
        OnCommandsStep(old(State()), cmds, consumed);
        LearnAfterStep(old(message), old(progDat), cmds, consumed);
        RunCommand(cmds[consumed]);
        consumed := consumed + 1;
      }
    }

    /** The rest of one pass of main's outer loop, after the wait for stop or
        halt: halt is cleared. Returns whether the outer loop runs again. */
    method EndCycle() returns (again: bool)
      requires stop || halt
      modifies this`halt
      ensures State() == CycleEnd(old(State()))
      ensures again == !stop
    {
      halt := false;
      again := !stop;
    }
  }
}
