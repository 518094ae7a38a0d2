/**
 * `DeviceSelectionViewModel`: the list of Tailscale devices shown at start-up,
 * the status line under it, the busy flag that disables both buttons, and the
 * connection to the selected (or saved) device. The device fetch is a
 * parameter; the settings file is not modelled, so the view model records the
 * ids it hands to the store and the devices it raises `Connected` for.
 */
module DeviceSelection {
  import opened Wrappers
  import opened Text
  import opened Tailscale

  const LoadingMessage := "Loading devices..."
  const NoDevicesMessage := "No Tailscale devices found."
  const LoadFailedMessage := "Failed to load devices."
  const ConnectingMessage := "Connecting..."

  /** `devices.FirstOrDefault(d => string.Equals(d.Id, id, StringComparison.OrdinalIgnoreCase))`. */
  function FirstWithId(devices: seq<TailscaleDevice>, id: string): (r: Option<TailscaleDevice>)
    ensures r.None? <==> forall i :: 0 <= i < |devices| ==> !EqualsIgnoreCase(devices[i].id, id)
    ensures r.Some? ==>
      exists k :: 0 <= k < |devices| && devices[k] == r.value && EqualsIgnoreCase(devices[k].id, id)
        && forall i :: 0 <= i < k ==> !EqualsIgnoreCase(devices[i].id, id)
  {
    if devices == [] then None
    else if EqualsIgnoreCase(devices[0].id, id) then Some(devices[0])
    else
      var rest := FirstWithId(devices[1..], id);
      assert forall i :: 1 <= i < |devices| ==> devices[i] == devices[1..][i - 1];
      if rest.Some? then
        var k :| 0 <= k < |devices[1..]| && devices[1..][k] == rest.value
          && EqualsIgnoreCase(devices[1..][k].id, id)
          && forall i :: 0 <= i < k ==> !EqualsIgnoreCase(devices[1..][i].id, id);
        assert devices[k + 1] == rest.value;
        rest
      else rest
  }

  /** The status line after a load: a failure, an empty list, or nothing to say. */
  function StatusAfterLoad(fetched: Result<seq<TailscaleDevice>>): (status: string)
    ensures fetched.Failure? ==> status == LoadFailedMessage
    ensures fetched.Success? && fetched.value == [] ==> status == NoDevicesMessage
    ensures fetched.Success? && fetched.value != [] ==> status == ""
  {
    if fetched.Failure? then LoadFailedMessage
    else if |fetched.value| == 0 then NoDevicesMessage
    else ""
  }

  class DeviceSelectionViewModel {
    /** `Devices`. */
    var devices: seq<TailscaleDevice>
    var isBusy: bool
    var statusMessage: Option<string>
    var selectedDevice: Option<TailscaleDevice>
    /** The ids passed to `SaveSelectedDeviceIdAsync`, oldest first. */
    var savedIds: seq<string>
    /** The devices `Connected` was raised for, oldest first. */
    var connectedEvents: seq<TailscaleDevice>

    constructor()
      ensures devices == [] && !isBusy && statusMessage.None? && selectedDevice.None?
      ensures savedIds == [] && connectedEvents == []
    {
      devices := [];
      isBusy := false;
      statusMessage := None;
      selectedDevice := None;
      savedIds := [];
      connectedEvents := [];
    }

    /** `RefreshCommand`'s `CanExecute`. */
    predicate CanRefresh()
      reads this
    {
      !isBusy
    }

    /** `ConnectCommand`'s `CanExecute`. */
    predicate CanConnect()
      reads this
    {
      !isBusy && selectedDevice.Some?
    }

    /** The `SelectedDevice` setter (the list's selection). */
    method SelectDevice(device: Option<TailscaleDevice>)
      modifies this`selectedDevice
      ensures selectedDevice == device
      ensures CanConnect() <==> !isBusy && device.Some?
    {
      selectedDevice := device;
    }

    /**
     * `LoadDevicesAsync`: busy while the list is cleared and refilled from
     * the fetch; the status line then tells what came of it.
     */
    method LoadDevices(fetched: Result<seq<TailscaleDevice>>)
      modifies this`isBusy, this`statusMessage, this`devices
      ensures devices == (if fetched.Success? then fetched.value else [])
      ensures statusMessage == Some(StatusAfterLoad(fetched))
      ensures !isBusy && CanRefresh()
    {
      isBusy := true;
      statusMessage := Some(LoadingMessage);
      devices := [];
      if fetched.Failure? {
        statusMessage := Some(LoadFailedMessage);
      } else {
        var list := fetched.value;
        var i := 0;
        while i < |list|
          invariant 0 <= i <= |list|
          invariant devices == list[..i]
        {
          devices := devices + [list[i]];
          i := i + 1;
        }
        assert list[..|list|] == list;
        if |devices| == 0 {
          statusMessage := Some(NoDevicesMessage);
        } else {
          statusMessage := Some("");
        }
      }
      isBusy := false;
    }

    /**
     * `ConnectAsync`: with a device selected, saves its id and raises
     * `Connected` for it, busy meanwhile; the status line stays "Connecting...".
     * Without one nothing happens.
     */
    method Connect()
      modifies this`isBusy, this`statusMessage, this`savedIds, this`connectedEvents
      ensures selectedDevice.None? ==>
        isBusy == old(isBusy) && statusMessage == old(statusMessage)
        && savedIds == old(savedIds) && connectedEvents == old(connectedEvents)
      ensures selectedDevice.Some? ==>
        && !isBusy
        && statusMessage == Some(ConnectingMessage)
        && savedIds == old(savedIds) + [selectedDevice.value.id]
        && connectedEvents == old(connectedEvents) + [selectedDevice.value]
    {
      if selectedDevice.None? {
        return;
      }
      isBusy := true;
      statusMessage := Some(ConnectingMessage);
      savedIds := savedIds + [selectedDevice.value.id];
      connectedEvents := connectedEvents + [selectedDevice.value];
      isBusy := false;
    }

    /**
     * `InitializeAsync`: loads the devices, then, when asked to and the saved
     * id `savedId` is not blank, selects the first device with that id
     * (ignoring case) and connects to it.
     */
    method Initialize(autoConnectToSavedDevice: bool, fetched: Result<seq<TailscaleDevice>>, savedId: Option<string>)
      modifies this`isBusy, this`statusMessage, this`devices, this`selectedDevice, this`savedIds, this`connectedEvents
      ensures devices == (if fetched.Success? then fetched.value else [])
      ensures !isBusy
      ensures var target := if autoConnectToSavedDevice && !IsBlank(savedId) then FirstWithId(devices, savedId.value) else None;
        && (target.None? ==>
              && selectedDevice == old(selectedDevice)
              && statusMessage == Some(StatusAfterLoad(fetched))
              && savedIds == old(savedIds) && connectedEvents == old(connectedEvents))
        && (target.Some? ==>
              && selectedDevice == target
              && statusMessage == Some(ConnectingMessage)
              && savedIds == old(savedIds) + [target.value.id]
              && connectedEvents == old(connectedEvents) + [target.value])
    {
      LoadDevices(fetched);
      if !autoConnectToSavedDevice {
        return;
      }
      if !IsBlank(savedId) {
        var device := FirstWithId(devices, savedId.value);
        if device.Some? {
          SelectDevice(device);
          Connect();
        }
      }
    }
  }

  // ---------------------------------------------------------------------------
  // Properties
  // ---------------------------------------------------------------------------

  /** Auto-connect picks a device whose id is the saved one ignoring case, and never one after a match. */
  lemma AutoConnectTargetMatches(devices: seq<TailscaleDevice>, savedId: string, k: nat)
    requires k < |devices| && EqualsIgnoreCase(devices[k].id, savedId)
    ensures FirstWithId(devices, savedId).Some?
    ensures EqualsIgnoreCase(FirstWithId(devices, savedId).value.id, savedId)
    ensures FirstWithId(devices, savedId).value in devices[..k + 1]
  {
    var r := FirstWithId(devices, savedId);
    var j :| 0 <= j < |devices| && devices[j] == r.value
      && EqualsIgnoreCase(devices[j].id, savedId)
      && forall i :: 0 <= i < j ==> !EqualsIgnoreCase(devices[i].id, savedId);
    assert j <= k;
    assert devices[..k + 1][j] == devices[j];
  }

  /** The saved id is matched ignoring case: a differently cased id finds the same device. */
  lemma {:induction false} FirstWithIdIgnoresCase(devices: seq<TailscaleDevice>, a: string, b: string)
    requires EqualsIgnoreCase(a, b)
    ensures FirstWithId(devices, a) == FirstWithId(devices, b)
  {
    if devices != [] {
      EqualsIgnoreCaseIsEquivalence(devices[0].id, a, b);
      EqualsIgnoreCaseIsEquivalence(devices[0].id, b, a);
      EqualsIgnoreCaseIsEquivalence(a, b, a);
      FirstWithIdIgnoresCase(devices[1..], a, b);
    }
  }
}
