/** main.cpp: the first iteration of the failover program. Its automatic
    failover is re-evaluated on every audio block (the callback clears the flag
    before it returns), and a trigger message only toggles the manual switch. */
module MainFailover {
  import opened Layout
  import opened Asio
  import opened CString
  import opened Midi

  /** The flags of the global asioDriverInfo record, as one value. */
  datatype Flags = Flags(stopped: bool, failOver: bool, manualSwitch: bool,
                         exit: bool, midiLearn: bool, restart: bool)

  /*** Bank selection and signal detection ***/

  /** The detector's rule: at some position of the window the primary pilot
      holds a zero byte while the secondary pilot holds a non-zero one. */
  predicate PrimaryLost(primary: seq<byte>, secondary: seq<byte>): (r: bool)
    requires |primary| >= PilotWindow && |secondary| >= PilotWindow
    ensures (forall k :: 0 <= k < PilotWindow ==> secondary[k] == 0) ==> !r
    ensures (forall k :: 0 <= k < PilotWindow ==> primary[k] != 0) ==> !r
  {
    exists k :: 0 <= k < PilotWindow && primary[k] == 0 && secondary[k] != 0
  }

  /** The detector loop: scan the window and stop at the first position that
      shows the primary silent and the secondary live. */
  method ScanPilots(primary: array<byte>, secondary: array<byte>) returns (lost: bool)
    requires primary.Length >= PilotWindow && secondary.Length >= PilotWindow
    ensures lost <==> PrimaryLost(primary[..], secondary[..])
  {
    lost := false;
    for k := 0 to PilotWindow
      invariant !lost
      invariant forall j :: 0 <= j < k ==> !(primary[j] == 0 && secondary[j] != 0)
    {
      if primary[k] == 0 && secondary[k] != 0 {
        lost := true;
        assert primary[..][k] == 0 && secondary[..][k] != 0;
        break;
      }
    }
  }

  /*** The trigger interpreter, the learn session and the console ***/

  /** One inbound message seen by readMidi: the trigger toggles the manual
      switch; anything else is ignored. */
  function OnMessage(f: Flags, trigger: Message, msg: Message): (g: Flags)
    requires |msg| >= TriggerLength && |trigger| >= TriggerLength
    ensures g.manualSwitch != f.manualSwitch <==> Matches(msg, trigger)
    ensures g.(manualSwitch := f.manualSwitch) == f
  {
    if Matches(msg, trigger) then f.(manualSwitch := !f.manualSwitch) else f
  }

  /** A second match undoes the first. */
  lemma TwoMatchesRestore(f: Flags, trigger: Message, msg: Message)
    requires |msg| >= TriggerLength && |trigger| >= TriggerLength
    requires Matches(msg, trigger)
    ensures OnMessage(OnMessage(f, trigger, msg), trigger, msg) == f
  {
  }

  /** readMidi's listening loop applied to a run of polls, in order: only
      the manual switch can move. */
  function OnPolls(f: Flags, trigger: Message, polls: seq<Poll>): (g: Flags)
    requires WellFormed(polls) && |trigger| >= TriggerLength
    ensures g.(manualSwitch := f.manualSwitch) == f
  {
    if polls == [] then f
    else
      var last := |polls| - 1;
      WellFormedPrefix(polls, last);
      var g := OnPolls(f, trigger, polls[..last]);
      if polls[last].Some? then OnMessage(g, trigger, polls[last].value) else g
  }

  /** After any run of polls the manual switch has flipped once per matching
      message, and no other flag has moved. */
  lemma {:induction false} OnPollsFlipsPerMatch(f: Flags, trigger: Message, polls: seq<Poll>)
    requires WellFormed(polls) && |trigger| >= TriggerLength
    ensures OnPolls(f, trigger, polls)
         == f.(manualSwitch := f.manualSwitch != Odd(MatchCount(polls, trigger)))
  {
    if polls != [] {
      var last := |polls| - 1;
      WellFormedPrefix(polls, last);
      OnPollsFlipsPerMatch(f, trigger, polls[..last]);
      OddStep(MatchCount(polls[..last], trigger));
    }
  }

  /** A run of polls that delivers no trigger changes no flag. */
  lemma SilenceKeepsFlags(f: Flags, trigger: Message, polls: seq<Poll>)
    requires WellFormed(polls) && |trigger| >= TriggerLength
    requires forall i :: 0 <= i < |polls| ==> !IsMatch(polls[i], trigger)
    ensures OnPolls(f, trigger, polls) == f
  {
    OnPollsFlipsPerMatch(f, trigger, polls);
  }

  /** A console key's effect on the flags. */
  function OnKey(f: Flags, key: char): (g: Flags)
    ensures g.stopped == (f.stopped || key == 'S')
    ensures g.exit == (f.exit || key == 'R' || key == 'S')
    ensures g.restart == (f.restart || key == 'R')
    ensures g.midiLearn == (f.midiLearn && key != 'M')
    ensures g.failOver == f.failOver && g.manualSwitch == f.manualSwitch
  {
    match key
    case 'M' => f.(midiLearn := false)
    case 'R' => f.(exit := true, restart := true)
    case 'S' => f.(stopped := true, exit := true)
    case _ => f
  }

  /** The flags after a run of console commands, in order. */
  function OnCommands(f: Flags, cmds: seq<Command>): (g: Flags)
    ensures g.failOver == f.failOver && g.manualSwitch == f.manualSwitch
  {
    if cmds == [] then f
    else
      var last := |cmds| - 1;
      OnKey(OnCommands(f, cmds[..last]), cmds[last].key)
  }

  /** What a run of console commands records: stopped, exit and restart say whether a
      matching key was given, and a learn command leaves midiLearn clear. */
  lemma {:induction false} OnCommandsRecords(f: Flags, cmds: seq<Command>)
    ensures var g := OnCommands(f, cmds);
            && g.stopped == (f.stopped || exists i :: 0 <= i < |cmds| && cmds[i].key == 'S')
            && g.exit == (f.exit || exists i :: 0 <= i < |cmds| && cmds[i].key in {'R', 'S'})
            && g.restart == (f.restart || exists i :: 0 <= i < |cmds| && cmds[i].key == 'R')
            && g.midiLearn == (f.midiLearn && forall i :: 0 <= i < |cmds| ==> cmds[i].key != 'M')
  {
    if cmds != [] {
      var last := |cmds| - 1;
      OnCommandsRecords(f, cmds[..last]);
      assert forall i :: 0 <= i < last ==> cmds[..last][i] == cmds[i];
    }
  }

  /** One more command extends the fold by that command's key. */
  lemma OnCommandsStep(f: Flags, cmds: seq<Command>, n: nat)
    requires n < |cmds|
    ensures OnCommands(f, cmds[..n + 1]) == OnKey(OnCommands(f, cmds[..n]), cmds[n].key)
  {
    assert cmds[..n + 1][..n] == cmds[..n];
  }

  /** The flags while a session is running: no stop, exit or restart request. */
  predicate Running(f: Flags)
  {
    !f.stopped && !f.exit && !f.restart
  }

  /** The end of one pass of main's outer loop, once the console thread has
      asked to stop or restart: the wait loop raises stopped, a restart lowers
      it again, and exit and restart are cleared. */
  function CycleEnd(f: Flags): (g: Flags)
    requires f.stopped || f.restart
    ensures g.stopped == !f.restart
    ensures !g.exit && !g.restart
    ensures g.failOver == f.failOver && g.manualSwitch == f.manualSwitch && g.midiLearn == f.midiLearn
  {
    var waited := f.(stopped := true);
    var g := if waited.restart then waited.(stopped := false) else waited;
    g.(exit := false, restart := false)
  }

  /** 'R' ends the session and the outer loop runs again with a running state;
      the manual switch survives the restart. */
  lemma RestartRunsAgain(f: Flags)
    requires Running(f)
    ensures var g := CycleEnd(OnKey(f, 'R'));
            Running(g) && g.manualSwitch == f.manualSwitch
  {
  }

  /** A session that getUserMessages ends with its first 'R' or 'S' hands the
      outer loop a restart or a stop according to that last command. */
  lemma LastCommandDecides(f: Flags, cmds: seq<Command>)
    requires Running(f) && cmds != [] && cmds[|cmds| - 1].key in {'R', 'S'}
    requires forall j :: 0 <= j < |cmds| - 1 ==> cmds[j].key !in {'R', 'S'}
    ensures var g := OnCommands(f, cmds);
            && g.exit && (g.stopped || g.restart)
            && (g.restart <==> cmds[|cmds| - 1].key == 'R')
            && (CycleEnd(g).stopped <==> cmds[|cmds| - 1].key == 'S')
  {
    OnCommandsRecords(f, cmds);
    var g := OnCommands(f, cmds);
    if g.stopped {
      var i :| 0 <= i < |cmds| && cmds[i].key == 'S';
      assert i == |cmds| - 1;
    }
    if g.restart {
      var i :| 0 <= i < |cmds| && cmds[i].key == 'R';
      assert i == |cmds| - 1;
    }
  }

  /** 'S' ends the session and the outer loop. */
  lemma StopEndsProgram(f: Flags)
    requires Running(f)
    ensures OnKey(f, 'S').exit && CycleEnd(OnKey(f, 'S')).stopped
  {
  }

  /** Every other key leaves the session running. */
  lemma OtherKeysKeepRunning(f: Flags, key: char)
    requires Running(f) && key != 'R' && key != 'S'
    ensures Running(OnKey(f, key)) && (key != 'M' ==> OnKey(f, key) == f)
  {
  }

  /** The global asioDriverInfo record: the buffer table the driver filled in
      and the flags the three threads share. */
  class DriverInfo {
    /** The buffer table, which the callback reads and writes through. */
    const table: BufferTable
    var stopped: bool
    var failOver: bool
    var manualSwitch: bool
    var exit: bool
    var midiLearn: bool
    var restart: bool
    /** The trigger message. */
    var message: Message
    /** The contents of prog.dat, where a learned trigger is persisted. */
    var progDat: seq<byte>

    /** The zero-initialised record: every flag false and the trigger message
        still empty, with the buffer table the driver created and the contents
        prog.dat has when the program starts. */
    constructor(buffers: BufferTable, stored: seq<byte>)
      ensures table == buffers
      ensures State() == Flags(false, false, false, false, false, false)
      ensures message == [] && progDat == stored
    {
      table := buffers;
      stopped, failOver, manualSwitch, exit, midiLearn, restart := false, false, false, false, false, false;
      message, progDat := [], stored;
    }

    function State(): Flags
      reads this
    {
      Flags(stopped, failOver, manualSwitch, exit, midiLearn, restart)
    }

    /** The detector's verdict on half h of the two pilots. */
    ghost predicate DetectorFires(h: int)
      requires table.Geometry() && 0 <= h < 2
      reads this, table.bufferInfos[PrimaryPilot].buffers[h], table.bufferInfos[SecondaryPilot].buffers[h]
    {
      var roles := PilotRoles(manualSwitch);
      PrimaryLost(table.Half(roles.0, h), table.Half(roles.1, h))
    }

    /** The bank the callback routes when it reads half h. */
    ghost function SourceBank(h: int): int
      requires table.Geometry() && 0 <= h < 2
      reads this, table.bufferInfos[PrimaryPilot].buffers[h], table.bufferInfos[SecondaryPilot].buffers[h]
    {
      StartChan(failOver || DetectorFires(h), manualSwitch)
    }

    /** bufferSwitchTimeInfo: the per-block callback. It reads the half the
        driver just filled, (index + 1) % 2, runs the detector on the pilots,
        copies the selected bank's 31 channels into half index of the outputs,
        and clears failOver before it returns. */
    method BufferSwitchTimeInfo(index: int)
      requires table.Geometry() && (index == 0 || index == 1)
      modifies this`failOver, table.OutputHalves(index)
      ensures !failOver
      ensures var bank := old(SourceBank((index + 1) % 2));
        forall c :: OutputBank <= c < OutputBank + BankWidth ==>
          table.Half(c, index)
            == old(table.Half(bank + (c - OutputBank), (index + 1) % 2))[..table.BlockBytes()]
               + old(table.Half(c, index))[table.BlockBytes()..]
    {
      var half := (index + 1) % 2;
      ghost var bank := SourceBank(half);
      var lost := Detect(half);
      if lost {
        failOver := true;
      }
      var startChan := StartChan(failOver, manualSwitch);
      assert startChan == bank;
      table.CopyBank(startChan, index);
      failOver := false;
    }

    /** The detector of the callback: choose the primary and secondary pilot
        from the manual switch, then scan their half h. */
    method Detect(h: int) returns (lost: bool)
      requires table.Geometry() && 0 <= h < 2
      ensures lost == DetectorFires(h)
    {
      var primary := if !manualSwitch then PrimaryPilot else SecondaryPilot;
      var secondary := if !manualSwitch then SecondaryPilot else PrimaryPilot;
      lost := ScanPilots(table.bufferInfos[primary].buffers[h], table.bufferInfos[secondary].buffers[h]);
    }

    /** The start of one pass of main's outer loop: the trigger is read back
        from prog.dat into a zeroed three-byte record, and failOver is cleared
        just before the driver is started. */
    method StartCycle()
      modifies this`failOver, this`message
      ensures State() == old(State()).(failOver := false)
      ensures message == Reloaded(progDat)
    {
      message := Reloaded(progDat);
      failOver := false;
    }

    /** The body of readMidi's listening loop for one delivered message. */
    method HandleMessage(msg: Message)
      requires |msg| >= TriggerLength && |message| == TriggerLength
      modifies this`manualSwitch
      ensures State() == OnMessage(old(State()), message, msg)
    {
      if StrnEqual(msg, message, TriggerLength) {
        manualSwitch := !manualSwitch;
      }
    }

    /** readMidi's listening loop over the polls made while it runs; it does
        nothing while a learn session is active or the program is stopping. */
    method ReadMidi(polls: seq<Poll>)
      requires WellFormed(polls) && |message| == TriggerLength
      modifies this`manualSwitch
      ensures State() == if old(midiLearn || stopped) then old(State())
                         else OnPolls(old(State()), message, polls)
    {
      var i := 0;
      while !(midiLearn || stopped) && i < |polls|
        invariant 0 <= i <= |polls|
        invariant old(midiLearn || stopped) ==> i == 0 && State() == old(State())
        invariant !old(midiLearn || stopped) ==> State() == OnPolls(old(State()), message, polls[..i])
      {
        assert polls[..i + 1][..i] == polls[..i];
        if polls[i].Some? {
          HandleMessage(polls[i].value);
        }
        i := i + 1;
      }
      assert polls[..|polls|] == polls;
    }

    /** learnMidi: prog.dat is reopened for writing (which empties it), then
        the polls before the deadline are read until the first message; its
        first three bytes become the trigger and are written to prog.dat.
        Returns the number of polls made. */
    method LearnMidi(polls: seq<Poll>) returns (consumed: nat)
      requires WellFormed(polls) && |message| == TriggerLength
      modifies this`message, this`progDat, this`midiLearn
      ensures !midiLearn
      ensures old(midiLearn) && Captured(polls).Some? ==>
                && message == Captured(polls).value && progDat == message
                && consumed == FirstReceived(polls).value + 1
      ensures !(old(midiLearn) && Captured(polls).Some?) ==>
                && message == old(message) && progDat == []
                && consumed == (if old(midiLearn) then |polls| else 0)
    {
      progDat := [];
      consumed := 0;
      while midiLearn && consumed < |polls|
        invariant 0 <= consumed <= |polls|
        invariant midiLearn ==> old(midiLearn) && message == old(message) && progDat == []
        invariant midiLearn ==> forall j :: 0 <= j < consumed ==> polls[j].None?
        invariant !midiLearn && old(midiLearn) ==>
                    && 0 < consumed && polls[consumed - 1].Some?
                    && (forall j :: 0 <= j < consumed - 1 ==> polls[j].None?)
                    && message == polls[consumed - 1].value[..TriggerLength] && progDat == message
        invariant !old(midiLearn) ==> consumed == 0 && message == old(message) && progDat == []
      {
        if polls[consumed].Some? {
          message := polls[consumed].value[..|message|];
          progDat := message;
          midiLearn := false;
        }
        consumed := consumed + 1;
      }
      if midiLearn {
        midiLearn := false;
      }
    }

    /** One command of getUserMessages' switch. */
    method RunCommand(cmd: Command)
      requires WellFormed(cmd.learnPolls) && |message| == TriggerLength
      modifies this`stopped, this`exit, this`restart, this`midiLearn, this`message, this`progDat
      ensures State() == OnKey(old(State()), cmd.key)
      ensures cmd.key == 'M' ==>
        && message == Captured(cmd.learnPolls).GetOr(old(message))
        && progDat == (if Captured(cmd.learnPolls).Some? then message else [])
      ensures cmd.key != 'M' ==> message == old(message) && progDat == old(progDat)
      ensures |message| == TriggerLength
    {
      match cmd.key
      case 'M' =>
        midiLearn := true;
        var _ := LearnMidi(cmd.learnPolls);
        midiLearn := false;
      case 'R' =>
        exit, restart := true, true;
      case 'S' =>
        stopped, exit := true, true;
      case _ =>
    }

    /** getUserMessages' loop: commands are read until one sets exit. Returns
        the number of commands read. */
    method GetUserMessages(cmds: seq<Command>) returns (consumed: nat)
      requires CommandsWellFormed(cmds) && |message| == TriggerLength
      modifies this`stopped, this`exit, this`restart, this`midiLearn, this`message, this`progDat
      ensures consumed <= |cmds|
      ensures State() == OnCommands(old(State()), cmds[..consumed])
      ensures (message, progDat) == LearnAfter(old(message), old(progDat), cmds[..consumed])
      ensures old(exit) ==> consumed == 0 && State() == old(State())
      ensures !old(exit) ==> (exit <==> consumed > 0 && cmds[consumed - 1].key in {'R', 'S'})
      ensures !old(exit) ==> forall j :: 0 <= j < consumed - 1 ==> cmds[j].key !in {'R', 'S'}
      ensures exit || consumed == |cmds|
      ensures failOver == old(failOver) && manualSwitch == old(manualSwitch)
    {
      consumed := 0;
      while !exit && consumed < |cmds|
        invariant 0 <= consumed <= |cmds| && |message| == TriggerLength
        invariant State() == OnCommands(old(State()), cmds[..consumed])
        invariant (message, progDat) == LearnAfter(old(message), old(progDat), cmds[..consumed])
        invariant old(exit) ==> consumed == 0 && State() == old(State())
        invariant !old(exit) ==> (exit <==> consumed > 0 && cmds[consumed - 1].key in {'R', 'S'})
        invariant !old(exit) ==> forall j :: 0 <= j < consumed - 1 ==> cmds[j].key !in {'R', 'S'}
      {
        OnCommandsStep(old(State()), cmds, consumed);
        LearnAfterStep(old(message), old(progDat), cmds, consumed);
        RunCommand(cmds[consumed]);
        consumed := consumed + 1;
      }
    }

    /** The rest of one pass of main's outer loop (from the wait for stopped
        to the loop condition). Returns whether the outer loop runs again. */
    method EndCycle() returns (again: bool)
      requires stopped || restart
      modifies this`stopped, this`exit, this`restart
      ensures State() == CycleEnd(old(State()))
      ensures again == !stopped
    {
      while !stopped
        invariant stopped || restart
        invariant exit == old(exit) && restart == old(restart)
        decreases if stopped then 0 else 1
      {
        if restart {
          stopped := true;
        }
      }
      if restart {
        stopped := false;
      }
      exit, restart := false, false;
      again := !stopped;
    }
  }
}
