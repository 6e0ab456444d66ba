/** The status reporting of the farmer process (script/farmer.js): how the
    transport's flags turn into a connection type and status, how the NTP
    clock delta is classified, and the fields of the state object the
    process reports to the daemon. */
module Farmer {
  import opened JsValues

  /** The transport fields the status code reads.  `None` is an undefined
      field; a defined one is taken by its truthiness. */
  datatype Transport = Transport(
    requiresTraversal: Option<bool>,
    portOpen: Option<bool>,
    publicIp: Option<string>,
    contactPort: int)

  predicate IsSet(flag: Option<bool>) { flag == Some(true) }

  /** transportInitialized: both traversal and port state are known. */
  predicate TransportInitialized(t: Transport) {
    t.requiresTraversal.Some? && t.portOpen.Some?
  }

  /** The listen port shown: the contact's port, or '...' before the
      transport is initialized. */
  datatype ListenPort = Port(n: int) | PortUnknown

  function GetPort(t: Transport): (p: ListenPort)
    ensures p.Port? <==> TransportInitialized(t)
    ensures p.Port? ==> p.n == t.contactPort
  {
    if TransportInitialized(t) then Port(t.contactPort) else PortUnknown
  }

  const Tunnel := "(Tunnel)"
  const Private := "(Private)"
  const UPnP := "(uPnP)"
  const Tcp := "(TCP)"

  /** getConnectionType. */
  function ConnectionType(t: Transport, tunneled: bool): (kind: string)
    ensures kind in {"", Tunnel, Private, UPnP, Tcp}
    ensures kind == "" <==> !TransportInitialized(t)
  {
    if !TransportInitialized(t) then ""
    else if tunneled then Tunnel
    else if !IsSet(t.requiresTraversal) && !Truthy(t.publicIp) then Private
    else if IsSet(t.requiresTraversal) then UPnP
    else Tcp
  }

  /** getConnectionStatus: 0 reachable, 1 tunneled, 2 private, -1 unknown. */
  function ConnectionStatus(t: Transport, tunneled: bool): (status: int)
    ensures status in {-1, 0, 1, 2}
    ensures status == 0 <==> TransportInitialized(t) && IsSet(t.portOpen)
  {
    if !TransportInitialized(t) then -1
    else if IsSet(t.portOpen) then 0
    else if tunneled then 1
    else if !IsSet(t.requiresTraversal) && !Truthy(t.publicIp) then 2
    else -1
  }

  /** Before the transport is initialized nothing is known. */
  lemma UninitializedUnknown(t: Transport, tunneled: bool)
    requires !TransportInitialized(t)
    ensures GetPort(t) == PortUnknown
    ensures ConnectionType(t, tunneled) == "" && ConnectionStatus(t, tunneled) == -1
  {
  }

  /** An open port is status 0 whatever the tunnel state. */
  lemma OpenPortReachable(t: Transport, tunneled: bool)
    requires TransportInitialized(t) && IsSet(t.portOpen)
    ensures ConnectionStatus(t, tunneled) == 0
    ensures ConnectionStatus(t, !tunneled) == 0
  {
  }

  /** A tunneled farmer shows as a tunnel, status 1 when the port is closed. */
  lemma TunneledFarmer(t: Transport)
    requires TransportInitialized(t)
    ensures ConnectionType(t, true) == Tunnel
    ensures !IsSet(t.portOpen) ==> ConnectionStatus(t, true) == 1
  {
  }

  /** No tunnel, no traversal and no public address: private, status 2 when
      the port is closed. */
  lemma PrivateFarmer(t: Transport)
    requires TransportInitialized(t)
    requires !IsSet(t.requiresTraversal) && !Truthy(t.publicIp)
    ensures ConnectionType(t, false) == Private
    ensures !IsSet(t.portOpen) ==> ConnectionStatus(t, false) == 2
  {
  }

  /** Otherwise the type is uPnP exactly when traversal is required, TCP
      otherwise, and a closed port leaves the status unknown. */
  lemma DirectFarmer(t: Transport)
    requires TransportInitialized(t)
    requires IsSet(t.requiresTraversal) || Truthy(t.publicIp)
    ensures ConnectionType(t, false) == UPnP <==> IsSet(t.requiresTraversal)
    ensures ConnectionType(t, false) == Tcp <==> !IsSet(t.requiresTraversal)
    ensures !IsSet(t.portOpen) ==> ConnectionStatus(t, false) == -1
  {
  }

  /** The status a closed port gets for each connection type. */
  function ClosedPortStatus(kind: string): int {
    if kind == Tunnel then 1 else if kind == Private then 2 else -1
  }

  /** With the port closed the status is determined by the type alone. */
  lemma StatusFollowsType(t: Transport, tunneled: bool)
    requires !IsSet(t.portOpen)
    ensures ConnectionStatus(t, tunneled) == ClosedPortStatus(ConnectionType(t, tunneled))
  {
  }

  // ---------------------------------------------------------------------
  // NTP delta

  /** What the NTP query reports: an error, or the clock delta in ms. */
  datatype NtpReply = NtpError | Delta(ms: int)

  /** ntpStatus: the delta as shown and 0 in sync, 2 out of sync, -1 unknown. */
  datatype NtpStatus = NtpStatus(delta: string, status: int)

  const UnknownDelta := "..."
  const TruncatedDelta := ">9999ms"

  /** The classification as a table over the reply. */
  function ClassifyNtp(reply: NtpReply): NtpStatus {
    match reply
    case NtpError => NtpStatus(UnknownDelta, -1)
    case Delta(d) =>
      NtpStatus(if -9999 <= d <= 9999 then IntToString(d) + "ms" else TruncatedDelta,
                if -500 <= d <= 500 then 0 else 2)
  }

  lemma NtpErrorUnknown()
    ensures ClassifyNtp(NtpError) == NtpStatus("...", -1)
  {
  }

  /** In sync exactly within 500 ms either way. */
  lemma NtpInSync(d: int)
    ensures ClassifyNtp(Delta(d)).status == 0 <==> -500 <= d <= 500
    ensures ClassifyNtp(Delta(d)).status == 2 <==> d < -500 || d > 500
  {
  }

  /** The text is the delta with 'ms' appended, and parseInt reads the delta
      back from it; beyond 9999 ms either way it is '>9999ms'. */
  lemma NtpDeltaText(d: int)
    ensures -9999 <= d <= 9999 ==>
              ClassifyNtp(Delta(d)).delta == IntToString(d) + "ms"
              && ParseInt(ClassifyNtp(Delta(d)).delta) == Finite(d)
    ensures (d < -9999 || d > 9999) ==> ClassifyNtp(Delta(d)).delta == ">9999ms"
  {
    ParseIntOfIntToString(d, "ms");
  }

  /** The fields of farmerState this model keeps. */
  class FarmerState {
    var listenPort: ListenPort
    var connectionStatus: int
    var connectionType: string
    var ntpDelta: string
    var ntpStatus: int
    var spaceUsed: string
    var spaceUsedBytes: Option<int>
    var percentUsed: string
    var totalPeers: nat
    var contractCount: int
    var dataReceivedCount: int

    /** The initial state: nothing known yet, which is what an uninitialized
        transport and an NTP error report. */
    constructor ()
      ensures listenPort == PortUnknown && connectionStatus == -1 && connectionType == ""
      ensures NtpStatus(ntpDelta, ntpStatus) == ClassifyNtp(NtpError)
      ensures spaceUsed == "..." && percentUsed == "..." && spaceUsedBytes == None
      ensures totalPeers == 0 && contractCount == 0 && dataReceivedCount == 0
    {
      listenPort := PortUnknown;
      connectionStatus := -1;
      connectionType := "";
      ntpDelta := "...";
      ntpStatus := -1;
      spaceUsed := "...";
      spaceUsedBytes := None;
      percentUsed := "...";
      totalPeers := 0;
      contractCount := 0;
      dataReceivedCount := 0;
    }

    /** updateNtpDelta's callback: overwrite the delta text step by step,
        then set the status. */
    method UpdateNtpDelta(reply: NtpReply)
      modifies this`ntpDelta, this`ntpStatus
      ensures NtpStatus(ntpDelta, ntpStatus) == ClassifyNtp(reply)
    {
      if reply.NtpError? {
        ntpDelta := "...";
        ntpStatus := -1;
      } else {
        var delta := reply.ms;
        ntpDelta := IntToString(delta) + "ms";
        if delta > 9999 || delta < -9999 {
          ntpDelta := ">9999ms";
        }
        if delta <= 500 && delta >= -500 {
          ntpStatus := 0;
        } else {
          ntpStatus := 2;
        }
      }
    }

    /** updatePercentUsed's callback: a truthy size result (defined and not
        0) is recorded with its two renderings; a falsy one changes nothing. */
    method UpdatePercentUsed(result: Option<int>, rendered: string, percent: string)
      modifies this`spaceUsed, this`spaceUsedBytes, this`percentUsed
      ensures result.Some? && result.value != 0 ==>
                spaceUsed == rendered && spaceUsedBytes == result && percentUsed == percent
      ensures result.None? || result.value == 0 ==>
                spaceUsed == old(spaceUsed) && spaceUsedBytes == old(spaceUsedBytes)
                && percentUsed == old(percentUsed)
    {
      if result.Some? && result.value != 0 {
        spaceUsed := rendered;
        spaceUsedBytes := result;
        percentUsed := percent;
      }
    }

    /** sendFarmerState, before the state is sent: refresh the port status
        and the counters (an undefined counter reads as 0). */
    method SendFarmerState(t: Transport, tunneled: bool, routerLength: nat,
                           contracts: Option<int>, dataReceived: Option<int>)
      modifies this`listenPort, this`connectionType, this`connectionStatus,
               this`totalPeers, this`contractCount, this`dataReceivedCount
      ensures listenPort == GetPort(t)
      ensures connectionType == ConnectionType(t, tunneled)
      ensures connectionStatus == ConnectionStatus(t, tunneled)
      ensures totalPeers == routerLength
      ensures contractCount == (if contracts.Some? then contracts.value else 0)
      ensures dataReceivedCount == (if dataReceived.Some? then dataReceived.value else 0)
    {
      listenPort := GetPort(t);
      connectionType := ConnectionType(t, tunneled);
      connectionStatus := ConnectionStatus(t, tunneled);
      totalPeers := routerLength;
      contractCount := if contracts.Some? && contracts.value != 0 then contracts.value else 0;
      dataReceivedCount := if dataReceived.Some? && dataReceived.value != 0 then dataReceived.value else 0;
    }
  }
}
