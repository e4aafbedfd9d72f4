/** The MIDI side of the core as both iterations see it: libremidi's
    get_message is replaced by a finite sequence of poll results, one per call,
    and a trigger comparison is strncmp over the first three bytes. */
module Midi {
  import opened Layout
  import opened CString

  datatype Option<T> = None | Some(value: T) {
    /** The carried value, or the given default when there is none. */
    function GetOr(default: T): T
    {
      if Some? then value else default
    }
  }

  /** The bytes of one libremidi::message. */
  type Message = seq<byte>

  /** The outcome of one get_message call: a message, or nothing pending. */
  type Poll = Option<Message>

  /** Every delivered message carries the three bytes the program reads. */
  predicate WellFormed(polls: seq<Poll>)
  {
    forall i :: 0 <= i < |polls| && polls[i].Some? ==> |polls[i].value| >= TriggerLength
  }

  /** strncmp(msg, trigger, 3) == 0: the message is the trigger. Spelled
      out, the first bytes agree and, unless they are NUL, so do the second
      bytes and, unless those are NUL too, the third. */
  predicate Matches(msg: Message, trigger: Message): (r: bool)
    requires |msg| >= TriggerLength && |trigger| >= TriggerLength
    ensures r <==> msg[0] == trigger[0]
                   && (msg[0] == 0 || (msg[1] == trigger[1] && (msg[1] == 0 || msg[2] == trigger[2])))
  {
    StrnEqual(msg, trigger, TriggerLength)
  }

  /** A poll that delivered the trigger. */
  predicate IsMatch(p: Poll, trigger: Message)
    requires p.Some? ==> |p.value| >= TriggerLength
    requires |trigger| >= TriggerLength
  {
    p.Some? && Matches(p.value, trigger)
  }

  /** A prefix of well-formed polls is well-formed. */
  lemma WellFormedPrefix(polls: seq<Poll>, k: nat)
    requires WellFormed(polls) && k <= |polls|
    ensures WellFormed(polls[..k])
  {
  }

  /** Index of the first poll that delivered a message, if any. */
  function FirstReceived(polls: seq<Poll>): (r: Option<nat>)
    ensures r.Some? ==> r.value < |polls| && polls[r.value].Some?
    ensures r.Some? ==> forall j :: 0 <= j < r.value ==> polls[j].None?
    ensures r.None? <==> forall j :: 0 <= j < |polls| ==> polls[j].None?
  {
    if polls == [] then None
    else if polls[0].Some? then Some(0)
    else match FirstReceived(polls[1..])
      case None => None
      case Some(i) => Some(i + 1)
  }

  /** Number of polls that delivered the trigger. */
  function MatchCount(polls: seq<Poll>, trigger: Message): (n: nat)
    requires WellFormed(polls) && |trigger| >= TriggerLength
    ensures n <= |polls|
    ensures n == 0 <==> forall i :: 0 <= i < |polls| ==> !IsMatch(polls[i], trigger)
  {
    if polls == [] then 0
    else
      var last := |polls| - 1;
      MatchCount(polls[..last], trigger) + if IsMatch(polls[last], trigger) then 1 else 0
  }

  /** An odd number of matches. */
  predicate Odd(n: nat)
  {
    n % 2 == 1
  }

  /** One more match flips the parity. */
  lemma OddStep(n: nat)
    ensures Odd(n + 1) == !Odd(n)
  {
  }

  /** The message a learn session captures: the first three bytes of the first
      message delivered before the deadline, if any. */
  function Captured(polls: seq<Poll>): (r: Option<Message>)
    requires WellFormed(polls)
    ensures r.None? <==> forall j :: 0 <= j < |polls| ==> polls[j].None?
    ensures forall i :: 0 <= i < |polls| && polls[i].Some? && (forall j :: 0 <= j < i ==> polls[j].None?)
              ==> r == Some(polls[i].value[..TriggerLength])
  {
    match FirstReceived(polls)
    case None => None
    case Some(i) => Some(polls[i].value[..TriggerLength])
  }

  /*** Console commands and the persisted trigger ***/

  /** One console command, with the MIDI polls that happen while it runs
      (only a learn command 'M' reads them). */
  datatype Command = Command(key: char, learnPolls: seq<Poll>)

  /** Every learn command's polls are well-formed. */
  predicate CommandsWellFormed(cmds: seq<Command>)
  {
    forall i :: 0 <= i < |cmds| ==> WellFormed(cmds[i].learnPolls)
  }

  /** The trigger and the contents of prog.dat after a run of commands, in
      order. */
  function LearnAfter(trigger: Message, store: seq<byte>, cmds: seq<Command>): (r: (Message, seq<byte>))
    requires CommandsWellFormed(cmds) && |trigger| == TriggerLength
    ensures |r.0| == TriggerLength
  {
    if cmds == [] then (trigger, store)
    else
      var last := |cmds| - 1;
      assert forall i :: 0 <= i < last ==> cmds[..last][i] == cmds[i];
      var prev := LearnAfter(trigger, store, cmds[..last]);
      if cmds[last].key != 'M' then prev
      else match Captured(cmds[last].learnPolls)
        case None => (prev.0, [])
        case Some(t) => (t, t)
  }

  /** What a run of commands leaves: without a learn command the trigger and
      prog.dat are untouched; after one, prog.dat is either emptied (the last
      learn timed out) or holds exactly the trigger (it captured a message). */
  lemma {:induction false} LearnAfterRecords(trigger: Message, store: seq<byte>, cmds: seq<Command>)
    requires CommandsWellFormed(cmds) && |trigger| == TriggerLength
    ensures var r := LearnAfter(trigger, store, cmds);
            && ((forall i :: 0 <= i < |cmds| ==> cmds[i].key != 'M') ==> r == (trigger, store))
            && ((exists i :: 0 <= i < |cmds| && cmds[i].key == 'M') ==> r.1 == [] || r.1 == r.0)
  {
    if cmds != [] {
      var last := |cmds| - 1;
      assert forall i :: 0 <= i < last ==> cmds[..last][i] == cmds[i];
      LearnAfterRecords(trigger, store, cmds[..last]);
    }
  }

  /** What a pass of the outer loop reads back from prog.dat into the
      trigger: a three-byte record, zero-initialised, over which up to three
      stored bytes are read (a missing or emptied file leaves it zero). */
  function Reloaded(stored: seq<byte>): (t: Message)
    ensures |t| == TriggerLength
    ensures forall i :: 0 <= i < TriggerLength ==> t[i] == if i < |stored| then stored[i] else 0
  {
    seq(TriggerLength, i requires 0 <= i < TriggerLength => if i < |stored| then stored[i] else 0)
  }

  /** One more command extends the fold by that command's effect. */
  lemma LearnAfterStep(trigger: Message, store: seq<byte>, cmds: seq<Command>, n: nat)
    requires CommandsWellFormed(cmds) && |trigger| == TriggerLength && n < |cmds|
    ensures CommandsWellFormed(cmds[..n]) && CommandsWellFormed(cmds[..n + 1])
    ensures var prev := LearnAfter(trigger, store, cmds[..n]);
            LearnAfter(trigger, store, cmds[..n + 1])
              == if cmds[n].key != 'M' then prev
                 else match Captured(cmds[n].learnPolls)
                      case None => (prev.0, [])
                      case Some(t) => (t, t)
  {
    assert cmds[..n + 1][..n] == cmds[..n];
  }

  /** A learned trigger survives a restart: prog.dat gives it back. */
  lemma ReloadKeepsLearnedTrigger(t: Message)
    requires |t| == TriggerLength
    ensures Reloaded(t) == t
  {
  }

  /** After a learn that timed out, prog.dat is empty, so the next pass loads
      three zero bytes; no MIDI message, whose status byte is never zero, will
      match that trigger. */
  lemma EmptiedStoreNeverMatches(msg: Message)
    requires |msg| >= TriggerLength && msg[0] != 0
    ensures Reloaded([]) == [0, 0, 0] && !Matches(msg, Reloaded([]))
  {
  }

  /** After a run of commands that holds a learn command, the next pass loads
      either the current trigger (the last learn captured it) or three zero
      bytes (the last learn timed out). */
  lemma RestartAfterLearn(trigger: Message, store: seq<byte>, cmds: seq<Command>)
    requires CommandsWellFormed(cmds) && |trigger| == TriggerLength
    requires exists i :: 0 <= i < |cmds| && cmds[i].key == 'M'
    ensures var r := LearnAfter(trigger, store, cmds);
            Reloaded(r.1) == r.0 || Reloaded(r.1) == [0, 0, 0]
  {
    LearnAfterRecords(trigger, store, cmds);
  }
}
