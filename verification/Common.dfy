// Shared values of the daemon (include/common.hpp).
module Common {

  datatype Option<+T> = None | Some(value: T) {
    function GetOr(default: T): T {
      match this
      case Some(v) => v
      case None => default
    }
  }

  const EV_KEY_RELEASE := 0
  const EV_KEY_PRESS := 1
  const EV_KEY_REPEAT := 2

  /** A key or button event, tagged with the reader it came from. */
  datatype InputEvent = InputEvent(deviceId: string, devicePath: string, code: int, value: int, timestamp: nat)

  predicate IsPress(ev: InputEvent) {
    ev.value == EV_KEY_PRESS
  }

  datatype DeviceMatch = DeviceMatch(nameContains: string, vendorProduct: string, path: string)

  datatype DeviceConfig = DeviceConfig(id: string, match_: DeviceMatch, grab: bool, bindings: map<int, string>)

  const WILDCARD: string := "*"

  const VERSION: string := "0.2.0"

  predicate Increasing(ks: seq<nat>) {
    forall i, j :: 0 <= i < j < |ks| ==> ks[i] < ks[j]
  }

  /** The positions of the entries that are true, in order, none left out. */
  ghost function Positions(mask: seq<bool>): (ks: seq<nat>)
    ensures Increasing(ks)
    ensures forall p :: 0 <= p < |ks| ==> ks[p] < |mask| && mask[ks[p]]
    ensures forall i :: 0 <= i < |mask| && mask[i] ==> i in ks
  {
    if mask == [] then []
    else
      var n := |mask| - 1;
      var front := Positions(mask[..n]);
      assert forall i :: 0 <= i < n && mask[i] ==> mask[..n][i] && i in front;
      if mask[n] then front + [n] else front
  }

  lemma Associates<T>(a: seq<T>, b: seq<T>, c: seq<T>)
    ensures (a + b) + c == a + (b + c)
  {
  }
}
