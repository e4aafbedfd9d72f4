/** The two iterations' detectors side by side: the counting detector of
    driver.cpp fires only on a wholly silent primary window, the per-position
    detector of main.cpp on any single position where the primary pilot is
    zero and the secondary is not. */
module Detectors {
  import opened Layout
  import MainFailover
  import DriverFailover

  /** Whatever makes the counting detector fire makes the per-position one
      fire too. */
  lemma CountingImpliesPerPosition(primary: seq<byte>, secondary: seq<byte>)
    requires |primary| >= PilotWindow && |secondary| >= PilotWindow
    ensures DriverFailover.PrimaryLost(primary, secondary) ==> MainFailover.PrimaryLost(primary, secondary)
  {
  }

  /** The converse fails: a primary pilot that carries signal at one position
      and a zero byte at another, beside a live secondary, trips only the
      per-position detector. */
  lemma PerPositionIsMoreSensitive()
    ensures var primary := [1 as byte] + seq(PilotWindow - 1, _ => 0 as byte);
            var secondary := seq(PilotWindow, _ => 1 as byte);
            MainFailover.PrimaryLost(primary, secondary) && !DriverFailover.PrimaryLost(primary, secondary)
  {
    var primary := [1 as byte] + seq(PilotWindow - 1, _ => 0 as byte);
    var secondary := seq(PilotWindow, _ => 1 as byte);
    assert primary[1] == 0 && secondary[1] != 0;
    DriverFailover.PrimaryLostMeansSilence(primary, secondary);
    assert primary[0] != 0;
  }
}
