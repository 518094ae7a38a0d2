/**
 * The device list of `TailscaleService`: one device per peer of the output of
 * `tailscale status --json`, and the online lookup built on it. Launching the
 * `tailscale` process and parsing its JSON are not modelled: each peer of the
 * "Peer" object is an abstract record holding the fields the service reads.
 */
module Tailscale {
  import opened Wrappers
  import opened Text

  /**
   * One property of the "Peer" object. `id` is the property name; the other
   * fields are absent when the peer has no such property (or it is JSON null):
   * "Online", "DNSName", "HostName" and the "TailscaleIPs" array.
   */
  datatype PeerRecord = PeerRecord(
    id: string,
    online: Option<bool>,
    dnsName: Option<string>,
    hostName: Option<string>,
    tailscaleIPs: Option<seq<Option<string>>>)

  /** `TailscaleDevice`. */
  datatype TailscaleDevice = TailscaleDevice(id: string, name: string, address: string, online: bool)

  /** `s.IndexOf(c)`: the index of the first `c`, or -1. */
  function IndexOfChar(s: string, c: char): (i: int)
    ensures -1 <= i < |s|
    ensures i == -1 <==> c !in s
    ensures i >= 0 ==> s[i] == c && c !in s[..i]
  {
    if s == [] then -1
    else if s[0] == c then 0
    else
      var rest := IndexOfChar(s[1..], c);
      assert s[1..] == s[..|s|][1..];
      if rest == -1 then
        assert c !in s by {
          assert forall k :: 0 < k < |s| ==> s[k] == s[1..][k - 1];
        }
        -1
      else
        assert s[..rest + 1] == [s[0]] + s[1..][..rest];
        rest + 1
  }

  /**
   * `ExtractDeviceName`: a blank name is returned as it is; otherwise the
   * name is cut before its first '.', unless that dot is the first character.
   */
  function ExtractDeviceName(rawName: Option<string>): (r: Option<string>)
    ensures IsBlank(rawName) ==> r == rawName
    ensures !IsBlank(rawName) ==> r.Some? && |r.value| > 0 && r.value <= rawName.value
  {
    if IsBlank(rawName) then rawName
    else
      var idx := IndexOfChar(rawName.value, '.');
      if idx > 0 then Some(rawName.value[..idx]) else rawName
  }

  /**
   * The name before truncation: "DNSName" when it is not blank, otherwise
   * "HostName" when the peer has one and it is not blank, otherwise the peer id.
   */
  function PreferredName(peer: PeerRecord): (name: string)
    ensures !IsBlank(peer.dnsName) ==> name == peer.dnsName.value
    ensures IsBlank(peer.dnsName) && !IsBlank(peer.hostName) ==> name == peer.hostName.value
    ensures IsBlank(peer.dnsName) && IsBlank(peer.hostName) ==> name == peer.id
  {
    var name := peer.dnsName;
    var name := if IsBlank(name) && peer.hostName.Some? then peer.hostName else name;
    if IsBlank(name) then peer.id else name.value
  }

  /** The address: the first element of "TailscaleIPs" when there is one and it is a string, else "". */
  function PeerAddress(peer: PeerRecord): (address: string)
    ensures (peer.tailscaleIPs.Some? && |peer.tailscaleIPs.value| > 0 && peer.tailscaleIPs.value[0].Some?)
      ==> address == peer.tailscaleIPs.value[0].value
    ensures peer.tailscaleIPs.None? || peer.tailscaleIPs.value == [] ==> address == ""
  {
    var address :=
      if peer.tailscaleIPs.Some? && |peer.tailscaleIPs.value| > 0 then peer.tailscaleIPs.value[0] else None;
    match address
    case Some(a) => a
    case None => ""
  }

  /** The device built for one peer: its id, its display name, its address, and "Online" (false when missing). */
  function DeviceOf(peer: PeerRecord): (d: TailscaleDevice)
    ensures d.id == peer.id
    ensures d.online <==> peer.online == Some(true)
    ensures d.address == PeerAddress(peer)
  {
    var online := if peer.online.Some? then peer.online.value else false;
    var displayName := ExtractDeviceName(Some(PreferredName(peer)));
    var name := if displayName.Some? then displayName.value else peer.id;
    TailscaleDevice(peer.id, name, PeerAddress(peer), online)
  }

  /**
   * The devices `GetOnlineDevicesAsync` returns: none when the output is
   * blank or has no "Peer" property, else one device per peer, in order,
   * offline peers included.
   */
  function StatusDevices(output: Option<string>, peers: Option<seq<PeerRecord>>): (ds: seq<TailscaleDevice>)
    ensures IsBlank(output) || peers.None? ==> ds == []
    ensures !IsBlank(output) && peers.Some? ==>
      |ds| == |peers.value| && forall i :: 0 <= i < |ds| ==> ds[i] == DeviceOf(peers.value[i])
  {
    if IsBlank(output) || peers.None? then []
    else seq(|peers.value|, i requires 0 <= i < |peers.value| => DeviceOf(peers.value[i]))
  }

  /**
   * `GetOnlineDevicesAsync`: `output` is what `tailscale status --json`
   * printed (absent when the process could not be run) and `peers` the
   * properties of its "Peer" object (absent when it has none).
   */
  method GetOnlineDevices(output: Option<string>, peers: Option<seq<PeerRecord>>) returns (result: seq<TailscaleDevice>)
    ensures result == StatusDevices(output, peers)
  {
    result := [];
    if IsBlank(output) {
      return;
    }
    if peers.None? {
      return;
    }
    var ps := peers.value;
    var i := 0;
    while i < |ps|
      invariant 0 <= i <= |ps|
      invariant |result| == i
      invariant forall k :: 0 <= k < i ==> result[k] == DeviceOf(ps[k])
    {
      result := result + [DeviceOf(ps[i])];
      i := i + 1;
    }
  }

  /** Some device has the id `deviceId`, ignoring case, and is online. */
  predicate OnlineIn(devices: seq<TailscaleDevice>, deviceId: Option<string>) {
    deviceId.Some? && exists i :: 0 <= i < |devices| && EqualsIgnoreCase(devices[i].id, deviceId.value) && devices[i].online
  }

  /** The search loop of `IsDeviceOnlineAsync`. */
  method FindOnline(devices: seq<TailscaleDevice>, deviceId: Option<string>) returns (online: bool)
    ensures online <==> OnlineIn(devices, deviceId)
  {
    var i := 0;
    while i < |devices|
      invariant 0 <= i <= |devices|
      invariant deviceId.Some? ==> forall k :: 0 <= k < i ==> !(EqualsIgnoreCase(devices[k].id, deviceId.value) && devices[k].online)
    {
      if deviceId.Some? && EqualsIgnoreCase(devices[i].id, deviceId.value) && devices[i].online {
        return true;
      }
      i := i + 1;
    }
    return false;
  }

  /** `IsDeviceOnlineAsync`: lists the devices, then looks for an online one with the id. */
  method IsDeviceOnline(output: Option<string>, peers: Option<seq<PeerRecord>>, deviceId: Option<string>)
    returns (online: bool)
    ensures online <==> OnlineIn(StatusDevices(output, peers), deviceId)
  {
    var devices := GetOnlineDevices(output, peers);
    online := FindOnline(devices, deviceId);
  }

  // ---------------------------------------------------------------------------
  // Properties
  // ---------------------------------------------------------------------------

  /**
   * A non-blank name is cut at its first '.' when that dot is not the first
   * character: the result is the label before the dot, which has no dot.
   * Otherwise the name is kept whole.
   */
  lemma ExtractDeviceNameCutsAtFirstDot(name: string)
    requires !IsBlank(Some(name))
    ensures var r := ExtractDeviceName(Some(name)).value;
      && ('.' in name && name[0] != '.' ==> '.' !in r && name[|r|] == '.')
      && ('.' !in name || name[0] == '.' ==> r == name)
  {
    var idx := IndexOfChar(name, '.');
    if '.' in name && name[0] != '.' {
      assert idx != 0;
    }
  }

  /** Truncating twice is truncating once. */
  lemma ExtractDeviceNameIdempotent(rawName: Option<string>)
    ensures ExtractDeviceName(ExtractDeviceName(rawName)) == ExtractDeviceName(rawName)
  {
    if !IsBlank(rawName) {
      var name := rawName.value;
      var idx := IndexOfChar(name, '.');
      if idx > 0 {
        var r := name[..idx];
        assert '.' !in r;
        if !IsBlank(Some(r)) {
          assert IndexOfChar(r, '.') == -1;
        }
      }
    }
  }

  /**
   * The display name of a device is the first label of its preferred name
   * (DNSName, else HostName, else the peer id): the part before the first
   * dot when the name has one past its first character, else the whole name.
   */
  lemma DeviceNameIsFirstLabel(peer: PeerRecord)
    ensures var name, preferred := DeviceOf(peer).name, PreferredName(peer);
      && name <= preferred
      && (!IsBlank(Some(preferred)) && '.' in preferred && preferred[0] != '.' ==>
            '.' !in name && preferred[|name|] == '.')
      && ('.' !in preferred || IsBlank(Some(preferred)) ==> name == preferred)
  {
    var preferred := PreferredName(peer);
    if !IsBlank(Some(preferred)) {
      ExtractDeviceNameCutsAtFirstDot(preferred);
    }
  }

  /** A lookup ignores case: an id that matches the query ignoring case finds the same devices. */
  lemma OnlineIgnoresCase(devices: seq<TailscaleDevice>, a: string, b: string)
    requires EqualsIgnoreCase(a, b)
    ensures OnlineIn(devices, Some(a)) <==> OnlineIn(devices, Some(b))
  {
    EqualsIgnoreCaseIsEquivalence(a, b, a);
    forall i | 0 <= i < |devices|
      ensures EqualsIgnoreCase(devices[i].id, a) <==> EqualsIgnoreCase(devices[i].id, b)
    {
      EqualsIgnoreCaseIsEquivalence(devices[i].id, a, b);
      EqualsIgnoreCaseIsEquivalence(devices[i].id, b, a);
    }
  }

  /** A peer whose "Online" is missing or false never makes its id count as online through its own record. */
  lemma OfflinePeerNotOnline(output: Option<string>, peers: seq<PeerRecord>, deviceId: string)
    requires forall i :: 0 <= i < |peers| && EqualsIgnoreCase(peers[i].id, deviceId) ==> peers[i].online != Some(true)
    ensures !OnlineIn(StatusDevices(output, Some(peers)), Some(deviceId))
  {
  }
}
