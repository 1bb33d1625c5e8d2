/** Detection of the wired mouse: one scan of the enumerated USB hubs, and how
    successive scans turn into changes of the charging flag. Each enumerated
    device is the list of its (property name, property value as text) pairs. */
module Presence {

  type Property = (string, string)
  type Device = seq<Property>

  /** Name of the property that holds a device's instance identifier. */
  const DeviceIdProperty: string := "DeviceID"
  /** Instance identifier of the mouse when it is plugged in by cable. */
  const MouseName: string := "USB\\VID_25A7&PID_FA7B\\5&356B5377&0&3"

  /** The property test of the scan: exact, case-sensitive equality of both
      the name and the value. */
  predicate IsMouseId(p: Property)
  {
    p.0 == DeviceIdProperty && p.1 == MouseName
  }

  predicate HasMouseId(device: Device)
  {
    exists j :: 0 <= j < |device| && IsMouseId(device[j])
  }

  /** Some enumerated device carries the mouse's DeviceID. */
  predicate MouseAttached(devices: seq<Device>)
  {
    exists i :: 0 <= i < |devices| && HasMouseId(devices[i])
  }

  /** One scan: every device is visited; the property loop of a device stops
      at its first match. The stop does not change the outcome. */
  method ScanDevices(devices: seq<Device>) returns (found: bool)
    ensures found <==> MouseAttached(devices)
  {
    found := false;
    var i := 0;
    while i < |devices|
      invariant 0 <= i <= |devices|
      invariant found <==> MouseAttached(devices[..i])
    {
      var props := devices[i];
      var j := 0;
      while j < |props|
        invariant 0 <= j <= |props|
        invariant !HasMouseId(props[..j])
        invariant found <==> MouseAttached(devices[..i])
      {
        if IsMouseId(props[j]) {
          assert HasMouseId(devices[..i + 1][i]);
          found := true;
          break;
        }
        assert props[..j + 1][j] == props[j];
        j := j + 1;
      }
      assert j == |props| ==> props[..j] == props;
      assert forall k :: 0 <= k < i ==> devices[..i + 1][k] == devices[..i][k];
      i := i + 1;
    }
    assert devices[..i] == devices;
  }

  /** The presence flag left after a run of scan results, starting from `flag`. */
  function Settled(flag: bool, results: seq<bool>): bool
  {
    if results == [] then flag else results[|results| - 1]
  }

  /** How many scan results differ from the flag held just before them, that
      is, how many times the poll loop assigns `isCharging` and refreshes. */
  function Changes(flag: bool, results: seq<bool>): (n: nat)
    ensures n <= |results|
  {
    if results == [] then 0
    else
      var prefix := results[..|results| - 1];
      Changes(flag, prefix) + (if results[|results| - 1] != Settled(flag, prefix) then 1 else 0)
  }

  /** No refresh happens exactly when every result equals the starting flag. */
  lemma {:induction false} NoChangesIffConstant(flag: bool, results: seq<bool>)
    ensures Changes(flag, results) == 0 <==> forall k :: 0 <= k < |results| ==> results[k] == flag
  {
    if results != [] {
      var prefix := results[..|results| - 1];
      NoChangesIffConstant(flag, prefix);
      assert forall k :: 0 <= k < |prefix| ==> prefix[k] == results[k];
    }
  }

  /** Changes over two consecutive runs of results add up. */
  lemma {:induction false} ChangesAppend(flag: bool, a: seq<bool>, b: seq<bool>)
    ensures Changes(flag, a + b) == Changes(flag, a) + Changes(Settled(flag, a), b)
    ensures Settled(flag, a + b) == Settled(Settled(flag, a), b)
    decreases |b|
  {
    if b != [] {
      var bPrefix := b[..|b| - 1];
      assert (a + b)[..|a + b| - 1] == a + bPrefix;
      ChangesAppend(flag, a, bPrefix);
    } else {
      assert a + b == a;
    }
  }

  /** A run of identical results causes at most one refresh: one if it
      differs from the flag before it, none otherwise. */
  lemma {:induction false} ChangesOfRun(flag: bool, x: bool, n: nat)
    ensures Changes(flag, seq(n, _ => x)) == if n > 0 && x != flag then 1 else 0
  {
    if n > 0 {
      var run := seq(n, _ => x);
      assert run[..n - 1] == seq(n - 1, _ => x);
      ChangesOfRun(flag, x, n - 1);
    }
  }

  /** After the mouse was found, five scans without it flip the flag once and
      trigger exactly one refresh, not five. */
  lemma DisconnectRefreshesOnce(flag: bool, earlier: seq<bool>)
    requires Settled(flag, earlier)
    ensures Changes(flag, earlier + seq(5, _ => false)) == Changes(flag, earlier) + 1
    ensures !Settled(flag, earlier + seq(5, _ => false))
  {
    ChangesAppend(flag, earlier, seq(5, _ => false));
    ChangesOfRun(true, false, 5);
  }

  /** The presence result of each scan in turn. */
  function Presences(scans: seq<seq<Device>>): seq<bool>
  {
    seq(|scans|, k requires 0 <= k < |scans| => MouseAttached(scans[k]))
  }
}
