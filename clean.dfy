/** The start of the `clean` command (bin/xcore-clean.js): refuse to run
    without a node id, then work out the daemon's address and port from the
    optional `--remote hostname[:port]` argument. */
module Clean {
  import opened JsValues
  import Utils

  const MissingNodeIdExitCode := 1

  /** What the script does after reading its arguments: exit, or connect to
      the daemon at an address (None is null) and port. */
  datatype Outcome = Exit(code: int) | Connect(nodeId: string, address: Option<string>, port: Number)

  /** The address a remote names: the text before its first ':', or all of
      it; no remote gives null. */
  function RemoteAddress(remote: Option<string>): Option<string> {
    if !Truthy(remote) then None
    else match IndexOf(remote.value, ':')
      case None => Some(remote.value)
      case Some(i) => Some(remote.value[..i])
  }

  /** The port a remote names: parseInt of the text between its first and
      second ':'; without a ':' (or without a remote) the default. */
  function RemotePort(remote: Option<string>, defaultPort: int): Number {
    if !Truthy(remote) then Finite(defaultPort)
    else match IndexOf(remote.value, ':')
      case None => Finite(defaultPort)
      case Some(i) =>
        var rest := remote.value[i + 1..];
        match IndexOf(rest, ':')
        case None => ParseInt(rest)
        case Some(j) => ParseInt(rest[..j])
  }

  /** Lines 14-26: the node-id check, then `port` and `address` overwritten
      step by step from `remote.split(':')`. */
  method ResolveTarget(nodeid: Option<string>, remote: Option<string>, daemonRpcPort: int)
    returns (o: Outcome)
    ensures o == Exit(MissingNodeIdExitCode) <==> !Truthy(nodeid)
    ensures o.Connect? <==> Truthy(nodeid)
    ensures o.Connect? ==> o.nodeId == nodeid.value
                           && o.address == RemoteAddress(remote)
                           && o.port == RemotePort(remote, daemonRpcPort)
  {
    if !Truthy(nodeid) {
      return Exit(MissingNodeIdExitCode);
    }
    var port := Finite(daemonRpcPort);
    var address: Option<string> := None;
    if Truthy(remote) {
      var s := remote.value;
      SplitHead(s, ':');
      address := Some(Split(s, ':')[0]);
      if |Split(s, ':')| > 1 {
        ghost var i := IndexOf(s, ':').value;
        SplitHead(s[i + 1..], ':');
        port := ParseInt(Split(s, ':')[1]);
      }
    }
    return Connect(nodeid.value, address, port);
  }

  /** The host the connection step uses: the address, or 127.0.0.1 when it
      is null or empty. */
  function ConnectHost(o: Outcome): (h: string)
    requires o.Connect?
    ensures h != ""
    ensures Truthy(o.address) ==> h == o.address.value
    ensures o.address == None || o.address == Some("") ==> h == Utils.LocalHost
  {
    Utils.DaemonHostname(o.address)
  }

  /** A remote with a ':' after a host free of ':' names that host, and the
      port is parseInt of the text up to the next ':'. */
  lemma RemoteWithColon(host: string, tail: string, defaultPort: int)
    requires IndexOf(host, ':').None?
    ensures RemoteAddress(Some(host + [':'] + tail)) == Some(host)
    ensures RemotePort(Some(host + [':'] + tail), defaultPort)
            == match IndexOf(tail, ':')
               case None => ParseInt(tail)
               case Some(j) => ParseInt(tail[..j])
  {
    IndexOfAfter(host, ':', tail);
  }

  /** Anything after a second ':' is ignored. */
  lemma ExtraColonsIgnored(host: string, port: string, extra: string, defaultPort: int)
    requires IndexOf(host, ':').None? && IndexOf(port, ':').None?
    ensures RemoteAddress(Some(host + ":" + port + ":" + extra)) == Some(host)
    ensures RemotePort(Some(host + ":" + port + ":" + extra), defaultPort) == ParseInt(port)
  {
    var tail := port + [':'] + extra;
    assert host + ":" + port + ":" + extra == host + [':'] + tail;
    RemoteWithColon(host, tail, defaultPort);
    IndexOfAfter(port, ':', extra);
  }

  /** A remote without ':' is all address and keeps the default port. */
  lemma HostOnlyRemote(host: string, defaultPort: int)
    requires host != [] && IndexOf(host, ':').None?
    ensures RemoteAddress(Some(host)) == Some(host)
    ensures RemotePort(Some(host), defaultPort) == Finite(defaultPort)
  {
  }

  /** parseInt reads "4000" as 4000. */
  lemma ParseInt4000()
    ensures ParseInt("4000") == Finite(4000)
  {
    assert "4000"[..3] == "400" && "400"[..2] == "40" && "40"[..1] == "4" && "4"[..0] == "";
    assert AllDigits("4000") && DigitsValue("4000") == 4000;
    ParseIntOfDigits("4000", "");
    assert "4000" + "" == "4000";
  }

  /** ":4000" gives an empty address, which the connection step turns into
      127.0.0.1, and port 4000. */
  lemma PortOnlyRemote(nodeid: string, defaultPort: int)
    ensures RemoteAddress(Some(":4000")) == Some("")
    ensures RemotePort(Some(":4000"), defaultPort) == Finite(4000)
    ensures ConnectHost(Connect(nodeid, RemoteAddress(Some(":4000")), RemotePort(Some(":4000"), defaultPort)))
            == Utils.LocalHost
  {
    assert ":4000" == "" + [':'] + "4000";
    RemoteWithColon("", "4000", defaultPort);
    assert IndexOf("4000", ':').None?;
    ParseInt4000();
  }

  /** Without --remote the daemon is reached at 127.0.0.1 on the default
      port. */
  lemma NoRemoteLocalDaemon(nodeid: string, defaultPort: int)
    ensures RemoteAddress(None) == None && RemotePort(None, defaultPort) == Finite(defaultPort)
    ensures ConnectHost(Connect(nodeid, RemoteAddress(None), RemotePort(None, defaultPort)))
            == Utils.LocalHost
  {
  }
}
