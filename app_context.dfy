/** The tray application's state: the simulated charge, the charging flag set
    by the poll loop, and the effects its methods have on the display and on
    the settings store. */
module Tray {
  import opened Battery
  import opened Icons
  import opened Presence

  class AppContext {
    var currentBattery: real
    var isCharging: bool

    /** The BatteryPercentage the settings store holds. */
    ghost var saved: real
    /** Number of writes to the settings store. */
    ghost var saves: nat
    /** Number of `UpdateVisuals` calls, and what the last one showed. */
    ghost var refreshes: nat
    ghost var shown: Display

    /** Start-up: the percentage read from the settings store is taken as is,
        without clamping; the mouse is taken to be unplugged until the first
        scan; the tray is refreshed once. */
    constructor (loaded: real)
      ensures currentBattery == loaded && !isCharging
      ensures saved == loaded && saves == 0
      ensures refreshes == 1 && shown == Visuals(loaded, false)
    {
      currentBattery := loaded;
      isCharging := false;
      saved := loaded;
      saves := 0;
      refreshes := 0;
      shown := Visuals(loaded, false);
      new;
      UpdateVisuals();
    }

    /** Redraws the tray from the current state. */
    method UpdateVisuals()
      modifies this
      ensures currentBattery == old(currentBattery) && isCharging == old(isCharging)
      ensures saved == old(saved) && saves == old(saves)
      ensures refreshes == old(refreshes) + 1
      ensures shown == Visuals(currentBattery, isCharging)
    {
      refreshes := refreshes + 1;
      shown := Visuals(currentBattery, isCharging);
    }

    /** Overwrites the stored percentage with the current one. */
    method SaveBatteryPercentage()
      modifies this
      ensures currentBattery == old(currentBattery) && isCharging == old(isCharging)
      ensures refreshes == old(refreshes) && shown == old(shown)
      ensures saved == currentBattery && saves == old(saves) + 1
    {
      saved := currentBattery;
      saves := saves + 1;
    }

    /** One timer tick: step by the rate the charging flag selects, clamp to
        [0, 100], refresh once, then save once, even when the value did not
        change. The charging flag is left as it is. */
    method TimerElapsed()
      modifies this
      ensures currentBattery == TickValue(old(currentBattery), old(isCharging))
      ensures Empty <= currentBattery <= Full
      ensures isCharging == old(isCharging)
      ensures refreshes == old(refreshes) + 1 && shown == Visuals(currentBattery, isCharging)
      ensures shown.icon == Charging ==> isCharging && currentBattery < Full
      ensures saves == old(saves) + 1 && saved == currentBattery
    {
      if isCharging {
        currentBattery := currentBattery + BatteryIncreaseRate;
      } else {
        currentBattery := currentBattery - BatteryDecreaseRate;
      }
      currentBattery := Clamp(Empty, Full, currentBattery);
      UpdateVisuals();
      SaveBatteryPercentage();
    }

    /** One cycle of the poll loop: scan the devices, and only when the result
        differs from the charging flag, assign the flag and refresh. */
    method PollStep(devices: seq<Device>)
      modifies this
      ensures isCharging == MouseAttached(devices)
      ensures currentBattery == old(currentBattery)
      ensures saved == old(saved) && saves == old(saves)
      ensures refreshes == old(refreshes) + (if isCharging != old(isCharging) then 1 else 0)
      ensures shown == if isCharging != old(isCharging) then Visuals(currentBattery, isCharging) else old(shown)
    {
      var found := ScanDevices(devices);
      if found != isCharging {
        isCharging := found;
        UpdateVisuals();
      }
    }

    /** The poll loop up to cancellation: one scan per cycle, in order. The
        number of refreshes equals the number of times the scan result
        changed, and the tray keeps its old display unless some result changed, in
        which case it shows the final state. */
    method PollUntilCancelled(scans: seq<seq<Device>>)
      modifies this
      ensures isCharging == Settled(old(isCharging), Presences(scans))
      ensures refreshes == old(refreshes) + Changes(old(isCharging), Presences(scans))
      ensures shown == if Changes(old(isCharging), Presences(scans)) == 0 then old(shown)
                       else Visuals(currentBattery, isCharging)
      ensures currentBattery == old(currentBattery)
      ensures saved == old(saved) && saves == old(saves)
    {
      var k := 0;
      while k < |scans|
        invariant 0 <= k <= |scans|
        invariant isCharging == Settled(old(isCharging), Presences(scans[..k]))
        invariant refreshes == old(refreshes) + Changes(old(isCharging), Presences(scans[..k]))
        invariant shown == if Changes(old(isCharging), Presences(scans[..k])) == 0 then old(shown)
                           else Visuals(currentBattery, isCharging)
        invariant currentBattery == old(currentBattery)
        invariant saved == old(saved) && saves == old(saves)
      {
        assert Presences(scans[..k + 1]) == Presences(scans[..k]) + [MouseAttached(scans[k])];
        ChangesAppend(old(isCharging), Presences(scans[..k]), [MouseAttached(scans[k])]);
        PollStep(scans[k]);
        k := k + 1;
      }
      assert scans[..k] == scans;
    }
  }
}
