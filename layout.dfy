/** Channel layout shared by both iterations of the failover program.
    The ASIO device exposes 64 input channels followed by the output channels;
    inputs 0..30 are the primary computer's bank, 31 its pilot, 32..62 the
    secondary computer's bank, 63 its pilot, and outputs start at index 64. */
module Layout {

  /** One raw byte of an audio buffer or of a MIDI message. */
  newtype byte = x: int | 0 <= x < 256

  /** Input channels the program assumes the device reports (kMaxInputChannels). */
  const InputChannels := 64

  /** First channel of the primary computer's bank. */
  const PrimaryBank := 0

  /** First channel of the secondary computer's bank. */
  const SecondaryBank := 32

  /** Pilot channel carried by the primary computer. */
  const PrimaryPilot := 31

  /** Pilot channel carried by the secondary computer. */
  const SecondaryPilot := 63

  /** First output channel, which is also the first channel after the inputs. */
  const OutputBank := 64

  /** Channels copied from the selected bank to the outputs on every block. */
  const BankWidth := 31

  /** Bytes of each pilot buffer the detector inspects. */
  const PilotWindow := 64

  /** Bytes per sample: the device delivers 24-bit samples. */
  const BytesPerSample := 3

  /** Length of a trigger message and of the persisted trigger record. */
  const TriggerLength := 3
}
