/** The "my devices" screen's enable switch: toggling a device flips its
    enabled flag and brings its online flag and status text along. */
module DeviceToggle {

  datatype Device = Device(
    id: int,
    name: string,
    status: string,
    isOnline: bool,
    icon: string,
    color: string,
    isEnabled: bool)

  const Connected: string := "Connected"
  const Disconnected: string := "Disconnected"

  const InitialDevices: seq<Device> := [
    Device(1, "H Watch", Connected, true, "watch", "#FF9F43", true),
    Device(2, "Thinkplus-GM Pro", Disconnected, false, "headphones", "#D066FF", false)]

  /** The status text shown for an enabled or disabled device. */
  function StatusFor(enabled: bool): (s: string)
    ensures s == Connected <==> enabled
    ensures s == Disconnected <==> !enabled
  {
    if enabled then Connected else Disconnected
  }

  /** Online flag and status text agree with the enabled flag. */
  predicate Consistent(d: Device) {
    d.isOnline == d.isEnabled && d.status == StatusFor(d.isEnabled)
  }

  predicate AllConsistent(devices: seq<Device>) {
    forall i :: 0 <= i < |devices| ==> Consistent(devices[i])
  }

  /** The new state of one toggled device. */
  function Flip(d: Device): (r: Device)
    ensures r.isEnabled == !d.isEnabled && Consistent(r)
    ensures r.id == d.id && r.name == d.name && r.icon == d.icon && r.color == d.color
  {
    var newState := !d.isEnabled;
    d.(isEnabled := newState, isOnline := newState, status := StatusFor(newState))
  }

  /** `toggleSwitch(id)`: every device with that id is flipped, the others are kept. */
  function ToggleSwitch(devices: seq<Device>, id: int): (r: seq<Device>)
    ensures |r| == |devices|
    ensures forall i :: 0 <= i < |devices| && devices[i].id != id ==> r[i] == devices[i]
    ensures forall i :: 0 <= i < |devices| && devices[i].id == id ==>
              r[i].isEnabled == !devices[i].isEnabled && Consistent(r[i])
              && r[i].id == id && r[i].name == devices[i].name
              && r[i].icon == devices[i].icon && r[i].color == devices[i].color
  {
    seq(|devices|, i requires 0 <= i < |devices| => if devices[i].id == id then Flip(devices[i]) else devices[i])
  }

  lemma InitialDevicesConsistent()
    ensures AllConsistent(InitialDevices)
  {
    assert InitialDevices[0].isEnabled && InitialDevices[0].isOnline && InitialDevices[0].status == Connected;
  }

  /** Toggling keeps every device consistent. */
  lemma ToggleKeepsConsistent(devices: seq<Device>, id: int)
    requires AllConsistent(devices)
    ensures AllConsistent(ToggleSwitch(devices, id))
  {
  }

  /** Toggling an id no device has changes nothing. */
  lemma ToggleAbsentIsNoOp(devices: seq<Device>, id: int)
    requires forall i :: 0 <= i < |devices| ==> devices[i].id != id
    ensures ToggleSwitch(devices, id) == devices
  {
  }

  /** Toggling the same id twice restores a consistent list. */
  lemma ToggleTwiceRestores(devices: seq<Device>, id: int)
    requires AllConsistent(devices)
    ensures ToggleSwitch(ToggleSwitch(devices, id), id) == devices
  {
    var once := ToggleSwitch(devices, id);
    var twice := ToggleSwitch(once, id);
    forall i | 0 <= i < |devices| ensures twice[i] == devices[i] {
      if devices[i].id == id {
        assert Consistent(devices[i]);
        assert twice[i] == Flip(Flip(devices[i]));
      }
    }
  }
}
