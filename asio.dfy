/** The ASIO host side that both iterations of the failover program share
    word for word: the message selectors of asio.h, the buffer table filled in
    by ASIOCreateBuffers, the bank-routing expression, the copy loop of the
    block callback and the asioMessages callback. */
module Asio {
  import opened Layout
  import opened CString

  /** The message selectors of asio.h. Their numeric values live in asio.h and
      are treated as distinct symbols; Other stands for every selector the
      program does not name. */
  datatype Selector =
    | SelectorSupported
    | EngineVersion
    | ResetRequest
    | ResyncRequest
    | LatenciesChanged
    | SupportsTimeInfo
    | SupportsTimeCode
    | SupportsInputMonitor
    | Other(code: int)

  /** ASIOBufferInfo: the two halves of one channel's double buffer. */
  datatype BufferInfo = BufferInfo(buffers: seq<array<byte>>)

  /*** Bank routing ***/

  /** First input channel of the bank routed to the outputs: the secondary
      bank when exactly one of failOver and manualSwitch is set. */
  function StartChan(failOver: bool, manualSwitch: bool): (r: int)
    ensures r == SecondaryBank <==> (failOver && !manualSwitch) || (!failOver && manualSwitch)
    ensures r == PrimaryBank <==> failOver == manualSwitch
  {
    if !failOver != !manualSwitch then SecondaryBank else PrimaryBank
  }

  /** Flipping either flag alone always routes the other bank. */
  lemma EitherFlagFlipsBank(failOver: bool, manualSwitch: bool)
    ensures StartChan(failOver, !manualSwitch) != StartChan(failOver, manualSwitch)
    ensures StartChan(!failOver, manualSwitch) != StartChan(failOver, manualSwitch)
  {
  }

  /** The pilots the detector calls primary and secondary: their roles swap
      when the operator has switched to the secondary computer. */
  function PilotRoles(manualSwitch: bool): (roles: (int, int))
    ensures {roles.0, roles.1} == {PrimaryPilot, SecondaryPilot}
    ensures roles.0 == PrimaryPilot <==> !manualSwitch
  {
    (if !manualSwitch then PrimaryPilot else SecondaryPilot,
     if !manualSwitch then SecondaryPilot else PrimaryPilot)
  }

  /*** The host's message callback ***/

  /** asioMessages: the answer to each selector the driver sends. The reset
      request branch evaluates the stop flag and discards it, so no selector
      changes any state. */
  function AsioMessages(selector: Selector, value: Selector): (ret: int)
    ensures ret == 2 <==> selector == EngineVersion
    ensures ret == 1 <==>
      || selector in {ResetRequest, ResyncRequest, LatenciesChanged, SupportsTimeInfo}
      || (selector == SelectorSupported
          && value in {ResetRequest, EngineVersion, ResyncRequest, LatenciesChanged,
                       SupportsTimeInfo, SupportsTimeCode, SupportsInputMonitor})
    ensures ret == 0 || ret == 1 || ret == 2
  {
    match selector
    case SelectorSupported =>
      if value == ResetRequest
         || value == EngineVersion
         || value == ResyncRequest
         || value == LatenciesChanged
         || value == SupportsTimeInfo
         || value == SupportsTimeCode
         || value == SupportsInputMonitor
      then 1 else 0
    case ResetRequest => 1
    case ResyncRequest => 1
    case LatenciesChanged => 1
    case EngineVersion => 2
    case SupportsTimeInfo => 1
    case SupportsTimeCode => 0
    case _ => 0
  }

  /*** The copy loop of the block callback ***/

  /** The memcpy loop over the lists of destination and source buffers:
      destination i receives the first n bytes of source i. */
  method CopyChannels(dsts: seq<array<byte>>, srcs: seq<array<byte>>, n: nat)
    requires |dsts| == |srcs|
    requires forall i :: 0 <= i < |dsts| ==> n <= dsts[i].Length && n <= srcs[i].Length
    requires forall i, j :: 0 <= i < |dsts| && 0 <= j < |dsts| && i != j ==> dsts[i] != dsts[j]
    requires forall i, j :: 0 <= i < |dsts| && 0 <= j < |srcs| ==> dsts[i] != srcs[j]
    modifies set i | 0 <= i < |dsts| :: dsts[i]
    ensures forall i :: 0 <= i < |dsts| ==> dsts[i][..] == old(srcs[i][..n]) + old(dsts[i][n..])
  {
    for i := 0 to |dsts|
      invariant forall j :: 0 <= j < i ==> dsts[j][..] == old(srcs[j][..n]) + old(dsts[j][n..])
      invariant forall j :: i <= j < |dsts| ==> dsts[j][..] == old(dsts[j][..])
      invariant forall j :: 0 <= j < |srcs| ==> srcs[j][..] == old(srcs[j][..])
    {
      Memcpy(dsts[i], srcs[i], n);
    }
  }

  /** The buffer table of the driverData record and the channel geometry, fixed
      once ASIOCreateBuffers has filled it in: the inputs come first, then the
      outputs, each channel with the two halves of its double buffer. */
  class BufferTable {
    const bufferInfos: seq<BufferInfo>
    const inputChannels: int
    const outputChannels: int
    /** Samples per block (preferredSize). */
    const preferredSize: int
    /** Which channel and half each buffer belongs to; it makes the buffers
        pairwise distinct. */
    ghost const owner: map<array<byte>, (int, int)>

    constructor(table: seq<BufferInfo>, inputs: int, outputs: int, size: int,
                ghost owners: map<array<byte>, (int, int)>)
      ensures bufferInfos == table && inputChannels == inputs && outputChannels == outputs
      ensures preferredSize == size && owner == owners
    {
      bufferInfos, inputChannels, outputChannels, preferredSize := table, inputs, outputs, size;
      owner := owners;
    }

    /** What the callback relies on: 64 inputs, at least 31 outputs, every
        channel double-buffered with distinct buffers long enough for the pilot
        window and for one block of 24-bit samples. */
    ghost predicate Geometry()
    {
      && inputChannels == InputChannels
      && outputChannels >= BankWidth
      && |bufferInfos| == inputChannels + outputChannels
      && preferredSize >= 0
      && (forall c :: 0 <= c < |bufferInfos| ==> |bufferInfos[c].buffers| == 2)
      && (forall c, h :: 0 <= c < |bufferInfos| && 0 <= h < |bufferInfos[c].buffers| ==>
            && bufferInfos[c].buffers[h].Length >= PilotWindow
            && bufferInfos[c].buffers[h].Length >= preferredSize * BytesPerSample)
      && (forall c, h :: 0 <= c < |bufferInfos| && 0 <= h < |bufferInfos[c].buffers| ==>
            bufferInfos[c].buffers[h] in owner && owner[bufferInfos[c].buffers[h]] == (c, h))
    }

    /** Contents of half h of channel c's double buffer. */
    ghost function Half(c: int, h: int): seq<byte>
      requires 0 <= c < |bufferInfos| && 0 <= h < |bufferInfos[c].buffers|
      reads bufferInfos[c].buffers[h]
    {
      bufferInfos[c].buffers[h][..]
    }

    /** The halves the callback writes: half index of every routed output. */
    ghost function OutputHalves(index: int): set<array<byte>>
      requires Geometry() && 0 <= index < 2
    {
      set c | OutputBank <= c < OutputBank + BankWidth :: bufferInfos[c].buffers[index]
    }

    /** Bytes of one block on one channel. */
    function BlockBytes(): int
    {
      preferredSize * BytesPerSample
    }

    /** The copy loop of the callback: output channel 64 + i, half index,
        receives one block from channel startChan + i, half (index + 1) % 2;
        the rest of each output half and every input are left alone. */
    method CopyBank(startChan: int, index: int)
      requires Geometry() && (index == 0 || index == 1)
      requires startChan == PrimaryBank || startChan == SecondaryBank
      modifies OutputHalves(index)
      ensures forall c :: OutputBank <= c < OutputBank + BankWidth ==>
        Half(c, index)
          == old(Half(startChan + (c - OutputBank), (index + 1) % 2))[..BlockBytes()]
             + old(Half(c, index))[BlockBytes()..]
    {
      var buffSize := preferredSize;
      var half := (index + 1) % 2;
      var dsts, srcs := CopyLists(startChan, index);
      CopyChannels(dsts, srcs, buffSize * BytesPerSample);
      forall c | OutputBank <= c < OutputBank + BankWidth
        ensures Half(c, index)
          == old(Half(startChan + (c - OutputBank), half))[..buffSize * BytesPerSample]
             + old(Half(c, index))[buffSize * BytesPerSample..]
      {
        assert dsts[c - OutputBank] == bufferInfos[c].buffers[index];
      }
    }

    /** The buffers the copy loop writes and reads, in channel order; the
        destinations are pairwise distinct and never a source. */
    method CopyLists(startChan: int, index: int) returns (dsts: seq<array<byte>>, srcs: seq<array<byte>>)
      requires Geometry() && (index == 0 || index == 1)
      requires startChan == PrimaryBank || startChan == SecondaryBank
      ensures |dsts| == |srcs| == BankWidth
      ensures forall i :: 0 <= i < BankWidth ==>
                && dsts[i] == bufferInfos[OutputBank + i].buffers[index]
                && srcs[i] == bufferInfos[startChan + i].buffers[(index + 1) % 2]
      ensures forall i :: 0 <= i < BankWidth ==>
                BlockBytes() <= dsts[i].Length && BlockBytes() <= srcs[i].Length
      ensures forall i, j :: 0 <= i < BankWidth && 0 <= j < BankWidth && i != j ==> dsts[i] != dsts[j]
      ensures forall i, j :: 0 <= i < BankWidth && 0 <= j < BankWidth ==> dsts[i] != srcs[j]
      ensures (set i | 0 <= i < |dsts| :: dsts[i]) <= OutputHalves(index)
    {
      var table := bufferInfos;
      var half := (index + 1) % 2;
      dsts := seq(BankWidth, i requires 0 <= i < BankWidth => table[i + OutputBank].buffers[index]);
      srcs := seq(BankWidth, i requires 0 <= i < BankWidth => table[i + startChan].buffers[half]);
      forall i, j | 0 <= i < BankWidth && 0 <= j < BankWidth && i != j ensures dsts[i] != dsts[j] {
        assert owner[dsts[i]] != owner[dsts[j]];
      }
      forall i, j | 0 <= i < BankWidth && 0 <= j < BankWidth ensures dsts[i] != srcs[j] {
        assert owner[dsts[i]] != owner[srcs[j]];
      }
      forall i | 0 <= i < |dsts| ensures dsts[i] in OutputHalves(index) {
        var c := i + OutputBank;
        assert dsts[i] == bufferInfos[c].buffers[index];
      }
    }
  }
}
