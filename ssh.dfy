/**
 * `activate_ssh(environ)` of jb.py: for each Redshift connection variable
 * that is set, the connection string is pointed at a local port, and an SSH
 * tunnel from that port to the warehouse's port 5439 is requested through
 * the VPN host. `urllib.parse.urlparse` and `urlunparse` are parameters;
 * the host name a parsed URL reports is computed from its network location.
 * Starting the `ssh` process, the exit handler and writing the compose file
 * are not part of this model; its command line and the file's `extra_hosts`
 * and `environment` lists are.
 */
module Ssh {
  import opened Wrappers
  import opened Strings

  /** A parsed URL: its scheme, its network location, and everything after. */
  datatype Url = Url(scheme: string, netloc: string, rest: string)

  /** The connection variables and the local ports their tunnels use, in order. */
  const RedshiftPorts: seq<(string, string)> := [
    ("JB_REDSHIFT_CONNECTION", "5439"),
    ("JB_HSTM_REDSHIFT_CONNECTION", "5438"),
    ("JB_PREVERITY_REDSHIFT_CONNECTION", "5437")]

  /** The remote port every tunnel reaches. */
  const RedshiftPort := "5439"

  const VpnHost := "vpn2.juiceboxdata.com"

  /** The `ssh` options before the tunnels. */
  const SshOptions: seq<string> := [
    "ssh", "-T", "-N",
    "-o", "ServerAliveInterval 30",
    "-o", "ServerAliveCountMax 3",
    "-o", "StrictHostKeyChecking=accept-new"]

  /**
   * `url.hostname`: the host of the network location, after the last `@`
   * and before the first `:`; `None` when that is empty.
   */
  function Hostname(netloc: string): Option<string> {
    var host := Split(AfterLast(netloc, '@'), ":")[0];
    if host == "" then None else Some(host)
  }

  /** A host name as an f-string renders it. */
  function HostText(h: Option<string>): string {
    match h
    case None => "None"
    case Some(name) => name
  }

  /**
   * The new network location as jb.py computes it: everything before the
   * last `:` of the old one, then the local port.
   */
  function NetlocAsWritten(netloc: string, port: string): string {
    BeforeLast(netloc, ':') + ":" + port
  }

  /**
   * The new network location as intended: the user information is kept
   * and only the host's port, where there is one, is replaced.
   */
  function Netloc(netloc: string, port: string): string {
    var userinfo := if '@' in netloc then BeforeLast(netloc, '@') + "@" else "";
    userinfo + BeforeLast(AfterLast(netloc, '@'), ':') + ":" + port
  }

  /**
   * A location with credentials and no port comes out of jb.py's rewrite
   * pointing at a host named after the user: `user:password@host` becomes
   * `user:port`, where the intended rewrite gives `user:password@host:port`.
   * For instance "u:p@h" becomes "u:5439".
   */
  lemma NetlocAsWrittenLosesHost(user: string, password: string, host: string, port: string)
    requires ':' !in user && '@' !in user && ':' !in password && '@' !in password
    requires ':' !in host && '@' !in host && '@' !in port
    ensures NetlocAsWritten(user + ":" + password + "@" + host, port) == user + ":" + port
    ensures Hostname(user + ":" + password + "@" + host) == if host == "" then None else Some(host)
    ensures Hostname(NetlocAsWritten(user + ":" + password + "@" + host, port)) == if user == "" then None else Some(user)
    ensures Netloc(user + ":" + password + "@" + host, port) == user + ":" + password + "@" + (host + ":" + port)
  {
    var netloc := user + ":" + password + "@" + host;
    assert netloc == user + [':'] + (password + "@" + host);
    assert ':' !in password + "@" + host;
    BeforeLastOf(user, ':', password + "@" + host);
    HostnameOfNoPort(user + ":" + password, host);
    HostnameWithoutAt(user, port);
    NetlocOfParts(user + ":" + password, host, port);
    assert BeforeLast(host, ':') == host;
  }

  /** The example "u:p@h" with local port 5439. */
  lemma AsWrittenExample()
    ensures NetlocAsWritten("u:p@h", "5439") == "u:5439"
  {
    assert "u:p@h" == "u" + [':'] + "p@h";
    BeforeLastOf("u", ':', "p@h");
  }

  /** The parts of `userinfo@hostinfo` on either side of its last `@`. */
  lemma AtSplit(userinfo: string, hostinfo: string)
    requires '@' !in hostinfo
    ensures '@' in userinfo + "@" + hostinfo
    ensures AfterLast(userinfo + "@" + hostinfo, '@') == hostinfo
    ensures BeforeLast(userinfo + "@" + hostinfo, '@') == userinfo
  {
    assert userinfo + "@" + hostinfo == userinfo + ['@'] + hostinfo;
    AfterLastOf(userinfo, '@', hostinfo);
    BeforeLastOf(userinfo, '@', hostinfo);
  }

  /** The intended rewrite of `userinfo@hostinfo` keeps the user information and rewrites the host part. */
  lemma NetlocOfParts(userinfo: string, hostinfo: string, port: string)
    requires '@' !in hostinfo
    ensures Netloc(userinfo + "@" + hostinfo, port) == userinfo + "@" + (BeforeLast(hostinfo, ':') + ":" + port)
  {
    AtSplit(userinfo, hostinfo);
    var h := BeforeLast(hostinfo, ':');
    assert userinfo + "@" + h + ":" + port == userinfo + "@" + (h + ":" + port);
  }

  /** The host before a port. */
  lemma BeforePort(host: string, port: string)
    requires ':' !in port
    ensures BeforeLast(host + ":" + port, ':') == host
  {
    assert host + ":" + port == host + [':'] + port;
    BeforeLastOf(host, ':', port);
  }

  /** The host name of `userinfo@host`. */
  lemma HostnameOfNoPort(userinfo: string, host: string)
    requires '@' !in host && ':' !in host
    ensures Hostname(userinfo + "@" + host) == if host == "" then None else Some(host)
  {
    AtSplit(userinfo, host);
    SplitNoChar(host, ':');
  }

  /** The host name of `host:port` without user information. */
  lemma HostnameWithoutAt(host: string, port: string)
    requires '@' !in host && ':' !in host && '@' !in port
    ensures Hostname(host + ":" + port) == if host == "" then None else Some(host)
  {
    assert '@' !in host + ":" + port;
    assert host + ":" + port == host + [':'] + port;
    SplitAtChar(host, ':', port);
  }

  /** The host name of `userinfo@host:port`. */
  lemma HostnameOf(userinfo: string, host: string, port: string)
    requires '@' !in host && ':' !in host && '@' !in port
    ensures Hostname(userinfo + "@" + (host + ":" + port)) == if host == "" then None else Some(host)
  {
    var hostinfo := host + ":" + port;
    assert '@' !in hostinfo;
    AtSplit(userinfo, hostinfo);
    assert hostinfo == host + [':'] + port;
    SplitAtChar(host, ':', port);
  }

  /**
   * With a port present, the intended rewrite replaces exactly the port
   * and keeps the host name.
   */
  lemma NetlocReplacesPort(userinfo: string, host: string, oldPort: string, port: string)
    requires '@' !in host && ':' !in host && '@' !in oldPort && ':' !in oldPort && '@' !in port
    ensures Netloc(userinfo + "@" + (host + ":" + oldPort), port) == userinfo + "@" + (host + ":" + port)
    ensures Hostname(Netloc(userinfo + "@" + (host + ":" + oldPort), port)) == Hostname(userinfo + "@" + (host + ":" + oldPort))
  {
    assert '@' !in host + ":" + oldPort;
    NetlocOfParts(userinfo, host + ":" + oldPort, port);
    BeforePort(host, oldPort);
    HostnameOf(userinfo, host, oldPort);
    HostnameOf(userinfo, host, port);
  }

  /** With a port present, jb.py's rewrite is the intended one. */
  lemma NetlocAgreesWithPort(userinfo: string, host: string, oldPort: string, port: string)
    requires '@' !in host && ':' !in host && '@' !in oldPort && ':' !in oldPort && '@' !in port
    ensures NetlocAsWritten(userinfo + "@" + (host + ":" + oldPort), port) == Netloc(userinfo + "@" + (host + ":" + oldPort), port)
  {
    assert '@' !in host + ":" + oldPort;
    NetlocOfParts(userinfo, host + ":" + oldPort, port);
    BeforePort(host, oldPort);
    var front := userinfo + "@" + host;
    Regroup(userinfo, host, oldPort);
    BeforePort(front, oldPort);
    Regroup(userinfo, host, port);
  }

  /** Without a port, the intended rewrite adds the local port after the host and keeps the host name. */
  lemma NetlocAddsPort(userinfo: string, host: string, port: string)
    requires '@' !in host && ':' !in host && '@' !in port
    ensures Netloc(userinfo + "@" + host, port) == userinfo + "@" + (host + ":" + port)
    ensures Hostname(Netloc(userinfo + "@" + host, port)) == Hostname(userinfo + "@" + host)
  {
    NetlocOfParts(userinfo, host, port);
    assert BeforeLast(host, ':') == host;
    HostnameOf(userinfo, host, port);
    HostnameOfNoPort(userinfo, host);
  }

  lemma Regroup(userinfo: string, host: string, port: string)
    ensures userinfo + "@" + (host + ":" + port) == (userinfo + "@" + host) + ":" + port
  {
  }

  /** Without user information the two rewrites agree. */
  lemma NetlocWithoutUserinfo(netloc: string, port: string)
    requires '@' !in netloc
    ensures Netloc(netloc, port) == NetlocAsWritten(netloc, port)
  {
    assert AfterLast(netloc, '@') == netloc;
    var h := BeforeLast(netloc, ':');
    assert "" + h == h;
  }

  /**
   * One tunnel: the variable, its parsed URL and that URL's host name, the
   * local port and the rewritten connection string.
   */
  datatype Tunnel = Tunnel(envvar: string, url: Url, hostname: Option<string>, port: string, connection: string)

  /** The tunnel for one table entry, when its variable is set. */
  function TunnelFor(environ: map<string, string>, parse: string -> Url, unparse: Url -> string,
                     entry: (string, string)): Option<Tunnel> {
    if entry.0 !in environ then None
    else
      var url := parse(environ[entry.0]);
      Some(Tunnel(entry.0, url, Hostname(url.netloc), entry.1, unparse(url.(netloc := NetlocAsWritten(url.netloc, entry.1)))))
  }

  /** `TunnelFor` over one environment, as the loop of `activate_ssh` applies it to each entry. */
  function TunnelMaker(environ: map<string, string>, parse: string -> Url, unparse: Url -> string): ((string, string)) -> Option<Tunnel> {
    (entry: (string, string)) => TunnelFor(environ, parse, unparse, entry)
  }

  /** The tunnels `make` gives for the entries of `table`, in the table's order. */
  function Collect(table: seq<(string, string)>, make: ((string, string)) -> Option<Tunnel>): seq<Tunnel> {
    if table == [] then []
    else
      Collect(table[..|table| - 1], make)
      + match make(table[|table| - 1])
        case None => []
        case Some(t) => [t]
  }

  /** The `redshifts` dictionary's values, in insertion order. */
  function Tunnels(environ: map<string, string>, parse: string -> Url, unparse: Url -> string,
                   table: seq<(string, string)>): seq<Tunnel> {
    Collect(table, TunnelMaker(environ, parse, unparse))
  }

  /** The `-L` option for one tunnel: local port on every interface to the host's port 5439. */
  function Forward(t: Tunnel): seq<string> {
    ["-L", "0.0.0.0:" + t.port + ":" + HostText(t.hostname) + ":" + RedshiftPort]
  }

  /** The flattened `ssh_links`. */
  function Links(tunnels: seq<Tunnel>): seq<string> {
    if tunnels == [] then [] else Links(tunnels[..|tunnels| - 1]) + Forward(tunnels[|tunnels| - 1])
  }

  function SshCommand(tunnels: seq<Tunnel>): seq<string> {
    SshOptions + Links(tunnels) + [VpnHost]
  }

  /** The compose file's `extra_hosts`: each tunnelled host name mapped to the Docker host's address. */
  function ExtraHosts(tunnels: seq<Tunnel>, hostAddr: string): seq<string> {
    if tunnels == [] then []
    else
      var t := tunnels[|tunnels| - 1];
      ExtraHosts(tunnels[..|tunnels| - 1], hostAddr) + [HostText(t.hostname) + ":" + hostAddr]
  }

  /** The compose file's `environment`: the tunnelled variables. */
  function Variables(tunnels: seq<Tunnel>): seq<string> {
    if tunnels == [] then [] else Variables(tunnels[..|tunnels| - 1]) + [tunnels[|tunnels| - 1].envvar]
  }

  /** The dictionary `activate_ssh` returns: each tunnelled variable's new connection string. */
  function NewEnviron(tunnels: seq<Tunnel>): map<string, string> {
    if tunnels == [] then map[]
    else
      var t := tunnels[|tunnels| - 1];
      NewEnviron(tunnels[..|tunnels| - 1])[t.envvar := t.connection]
  }

  /** What `activate_ssh` produces besides starting the process. */
  datatype Activation = Activation(
    command: seq<string>,      // the ssh command line
    extraHosts: seq<string>,   // services.juicebox.extra_hosts
    environment: seq<string>,  // services.juicebox.environment
    environ: map<string, string>)  // the returned variables

  /**
   * `activate_ssh(environ)`, with `hostAddr` the address `get_host_ip`
   * finds. The loop over the table builds `redshifts`; the rest is
   * computed from its values.
   */
  method ActivateSsh(environ: map<string, string>, parse: string -> Url, unparse: Url -> string, hostAddr: string)
    returns (a: Activation)
    ensures var tunnels := Tunnels(environ, parse, unparse, RedshiftPorts);
      a == Activation(SshCommand(tunnels), ExtraHosts(tunnels, hostAddr), Variables(tunnels), NewEnviron(tunnels))
  {
    var redshifts: seq<Tunnel> := [];
    for i := 0 to |RedshiftPorts|
      invariant redshifts == Tunnels(environ, parse, unparse, RedshiftPorts[..i])
    {
      assert RedshiftPorts[..i + 1][..i] == RedshiftPorts[..i];
      var (envvar, localport) := RedshiftPorts[i];
      if envvar in environ {
        var url := parse(environ[envvar]);
        var oldNetloc := url.netloc;
        var newNetloc := NetlocAsWritten(oldNetloc, localport);
        var newConnString := unparse(url.(netloc := newNetloc));
        redshifts := redshifts + [Tunnel(envvar, url, Hostname(oldNetloc), localport, newConnString)];
      }
    }
    assert RedshiftPorts[..|RedshiftPorts|] == RedshiftPorts;
    a := Activation(SshCommand(redshifts), ExtraHosts(redshifts, hostAddr), Variables(redshifts), NewEnviron(redshifts));
  }

  /**
   * The tunnels are the entries' tunnels in the table's order: each comes
   * from an entry, and each entry that has a tunnel contributes it.
   */
  lemma {:induction false} CollectOfTable(table: seq<(string, string)>, make: ((string, string)) -> Option<Tunnel>)
    ensures |Collect(table, make)| <= |table|
    ensures forall j :: 0 <= j < |Collect(table, make)| ==>
      exists k :: 0 <= k < |table| && make(table[k]) == Some(Collect(table, make)[j])
    ensures forall k :: 0 <= k < |table| && make(table[k]).Some? ==> make(table[k]).value in Collect(table, make)
    decreases |table|
  {
    if table != [] {
      var n := |table| - 1;
      var init := table[..n];
      CollectOfTable(init, make);
      assert forall k :: 0 <= k < n ==> init[k] == table[k];
    }
  }

  /** `make` builds each entry's tunnel for that entry's variable. */
  predicate ForEntry(make: ((string, string)) -> Option<Tunnel>, table: seq<(string, string)>) {
    forall k :: 0 <= k < |table| && make(table[k]).Some? ==> make(table[k]).value.envvar == table[k].0
  }

  /** `Collect` one entry at a time. */
  lemma CollectSnoc(table: seq<(string, string)>, make: ((string, string)) -> Option<Tunnel>)
    requires table != []
    ensures var prev := Collect(table[..|table| - 1], make);
      Collect(table, make) == if make(table[|table| - 1]).None? then prev else prev + [make(table[|table| - 1]).value]
  {
  }

  /** `NewEnviron` one tunnel at a time. */
  lemma NewEnvironSnoc(prev: seq<Tunnel>, t: Tunnel)
    ensures NewEnviron(prev + [t]) == NewEnviron(prev)[t.envvar := t.connection]
  {
    assert (prev + [t])[..|prev|] == prev;
  }

  /** Every variable in the result is one of the table's, and has a tunnel. */
  lemma NewEnvironSound(table: seq<(string, string)>, make: ((string, string)) -> Option<Tunnel>, v: string)
    requires ForEntry(make, table)
    requires v in NewEnviron(Collect(table, make))
    ensures exists k :: 0 <= k < |table| && table[k].0 == v && make(table[k]).Some?
  {
    var tunnels := Collect(table, make);
    NewEnvironKeys(tunnels, v);
    var j :| 0 <= j < |tunnels| && tunnels[j].envvar == v;
    CollectFrom(table, make, j);
    var k :| 0 <= k < |table| && make(table[k]) == Some(tunnels[j]);
    assert table[k].0 == v;
  }

  /** Tunnel `j` of the collection comes from an entry of the table. */
  lemma CollectFrom(table: seq<(string, string)>, make: ((string, string)) -> Option<Tunnel>, j: nat)
    requires j < |Collect(table, make)|
    ensures exists k :: 0 <= k < |table| && make(table[k]) == Some(Collect(table, make)[j])
  {
    CollectOfTable(table, make);
  }

  /** Every variable in `NewEnviron(tunnels)` is some tunnel's. */
  lemma {:induction false} NewEnvironKeys(tunnels: seq<Tunnel>, v: string)
    requires v in NewEnviron(tunnels)
    ensures exists j :: 0 <= j < |tunnels| && tunnels[j].envvar == v
    decreases |tunnels|
  {
    assert tunnels != [];
    var n := |tunnels| - 1;
    if tunnels[n].envvar != v {
      var init := tunnels[..n];
      NewEnvironKeys(init, v);
      var j :| 0 <= j < |init| && init[j].envvar == v;
      assert tunnels[j] == init[j];
    }
  }

  /**
   * Each entry that has a tunnel has its variable in the result, mapped to
   * its tunnel's connection string, when no later entry names its variable.
   */
  lemma {:induction false} NewEnvironComplete(table: seq<(string, string)>, make: ((string, string)) -> Option<Tunnel>, k: nat)
    requires ForEntry(make, table)
    requires k < |table| && make(table[k]).Some?
    requires forall a :: k < a < |table| ==> table[a].0 != table[k].0
    ensures table[k].0 in NewEnviron(Collect(table, make))
    ensures NewEnviron(Collect(table, make))[table[k].0] == make(table[k]).value.connection
    decreases |table|
  {
    var n := |table| - 1;
    var prev := Collect(table[..n], make);
    CollectSnoc(table, make);
    if k == n {
      NewEnvironSnoc(prev, make(table[n]).value);
    } else {
      EarlierEntry(table, make, k);
      NewEnvironComplete(table[..n], make, k);
      if make(table[n]).Some? {
        NewEnvironSnoc(prev, make(table[n]).value);
      }
    }
  }

  /** What `NewEnvironComplete` needs of an entry holds of it in the table without its last entry. */
  lemma EarlierEntry(table: seq<(string, string)>, make: ((string, string)) -> Option<Tunnel>, k: nat)
    requires ForEntry(make, table)
    requires k < |table| - 1
    requires forall a :: k < a < |table| ==> table[a].0 != table[k].0
    ensures ForEntry(make, table[..|table| - 1])
    ensures table[..|table| - 1][k] == table[k]
    ensures make(table[|table| - 1]).Some? ==> make(table[|table| - 1]).value.envvar != table[k].0
  {
    var init := table[..|table| - 1];
    assert forall i :: 0 <= i < |init| ==> init[i] == table[i];
  }

  /** An entry has a tunnel exactly when its variable is set; the tunnel is for that variable and its port. */
  lemma TunnelForEntry(environ: map<string, string>, parse: string -> Url, unparse: Url -> string, entry: (string, string))
    ensures TunnelFor(environ, parse, unparse, entry).Some? <==> entry.0 in environ
    ensures entry.0 in environ ==>
      var t := TunnelFor(environ, parse, unparse, entry).value;
      t.envvar == entry.0 && t.port == entry.1 && t.url == parse(environ[entry.0])
  {
  }

  /** The table names each variable once. */
  lemma RedshiftPortsDistinct()
    ensures forall a, b :: 0 <= a < b < |RedshiftPorts| ==> RedshiftPorts[a].0 != RedshiftPorts[b].0
  {
  }

  lemma {:induction false} LinksLength(tunnels: seq<Tunnel>)
    ensures |Links(tunnels)| == 2 * |tunnels|
    decreases |tunnels|
  {
    if tunnels != [] {
      LinksLength(tunnels[..|tunnels| - 1]);
    }
  }

  /** Tunnel `j` contributes "-L" and its forward at positions `2j` and `2j+1`. */
  lemma {:induction false} LinksAt(tunnels: seq<Tunnel>, j: nat)
    requires j < |tunnels|
    ensures |Links(tunnels)| == 2 * |tunnels|
    ensures Links(tunnels)[2 * j] == "-L" && Links(tunnels)[2 * j + 1] == Forward(tunnels[j])[1]
    decreases |tunnels|
  {
    var n := |tunnels| - 1;
    var init := tunnels[..n];
    var prev := Links(init);
    var f := Forward(tunnels[n]);
    LinksLength(tunnels);
    LinksLength(init);
    assert Links(tunnels) == prev + f;
    if j < n {
      LinksAt(init, j);
      assert init[j] == tunnels[j];
      assert Links(tunnels)[2 * j] == prev[2 * j];
      assert Links(tunnels)[2 * j + 1] == prev[2 * j + 1];
    } else {
      assert Links(tunnels)[2 * j] == f[0];
      assert Links(tunnels)[2 * j + 1] == f[1];
    }
  }

  /**
   * The ssh command: the fixed options, then one "-L" pair per tunnel in
   * order, forwarding its local port to its host's port 5439, then the VPN
   * host last.
   */
  lemma CommandShape(tunnels: seq<Tunnel>)
    ensures |SshCommand(tunnels)| == |SshOptions| + 2 * |tunnels| + 1
    ensures SshCommand(tunnels)[..|SshOptions|] == SshOptions
    ensures SshCommand(tunnels)[|SshCommand(tunnels)| - 1] == VpnHost
  {
    LinksLength(tunnels);
  }

  /** Tunnel `j`'s "-L" pair in the ssh command. */
  lemma CommandForward(tunnels: seq<Tunnel>, j: nat)
    requires j < |tunnels|
    ensures |SshOptions| + 2 * j + 1 < |SshCommand(tunnels)|
    ensures SshCommand(tunnels)[|SshOptions| + 2 * j] == "-L"
    ensures SshCommand(tunnels)[|SshOptions| + 2 * j + 1]
      == "0.0.0.0:" + tunnels[j].port + ":" + HostText(tunnels[j].hostname) + ":5439"
  {
    LinksAt(tunnels, j);
    var links := Links(tunnels);
    assert SshCommand(tunnels) == SshOptions + (links + [VpnHost]);
  }

  lemma {:induction false} ComposeLength(tunnels: seq<Tunnel>, hostAddr: string)
    ensures |ExtraHosts(tunnels, hostAddr)| == |tunnels| == |Variables(tunnels)|
    decreases |tunnels|
  {
    if tunnels != [] {
      ComposeLength(tunnels[..|tunnels| - 1], hostAddr);
    }
  }

  /** The compose file lists one host entry and one variable per tunnel, in the same order. */
  lemma {:induction false} ComposeAt(tunnels: seq<Tunnel>, hostAddr: string, j: nat)
    requires j < |tunnels|
    ensures |ExtraHosts(tunnels, hostAddr)| == |tunnels| == |Variables(tunnels)|
    ensures ExtraHosts(tunnels, hostAddr)[j] == HostText(tunnels[j].hostname) + ":" + hostAddr
    ensures Variables(tunnels)[j] == tunnels[j].envvar
    decreases |tunnels|
  {
    var n := |tunnels| - 1;
    var init := tunnels[..n];
    ComposeLength(tunnels, hostAddr);
    ComposeLength(init, hostAddr);
    if j < n {
      ComposeAt(init, hostAddr, j);
      assert init[j] == tunnels[j];
    }
  }

  /** No variable set means no tunnel: the command has only the options and the VPN host. */
  lemma NoConnections(environ: map<string, string>, parse: string -> Url, unparse: Url -> string)
    requires forall k :: 0 <= k < |RedshiftPorts| ==> RedshiftPorts[k].0 !in environ
    ensures Tunnels(environ, parse, unparse, RedshiftPorts) == []
    ensures SshCommand(Tunnels(environ, parse, unparse, RedshiftPorts)) == SshOptions + [VpnHost]
  {
    var make := TunnelMaker(environ, parse, unparse);
    CollectOfTable(RedshiftPorts, make);
    var tunnels := Collect(RedshiftPorts, make);
    if tunnels != [] {
      var k :| 0 <= k < |RedshiftPorts| && make(RedshiftPorts[k]) == Some(tunnels[0]);
      TunnelForEntry(environ, parse, unparse, RedshiftPorts[k]);
      assert false;
    }
  }

  /** The tunnel builder of `activate_ssh` builds each entry's tunnel for that entry's variable. */
  lemma TunnelsForEntry(environ: map<string, string>, parse: string -> Url, unparse: Url -> string, table: seq<(string, string)>)
    ensures ForEntry(TunnelMaker(environ, parse, unparse), table)
  {
    forall k | 0 <= k < |table| {
      TunnelForEntry(environ, parse, unparse, table[k]);
    }
  }

  /**
   * The variables `activate_ssh` returns are Redshift connection variables
   * that are set.
   */
  lemma ReturnedVariables(environ: map<string, string>, parse: string -> Url, unparse: Url -> string, v: string)
    requires v in NewEnviron(Tunnels(environ, parse, unparse, RedshiftPorts))
    ensures v in environ
    ensures v == "JB_REDSHIFT_CONNECTION" || v == "JB_HSTM_REDSHIFT_CONNECTION" || v == "JB_PREVERITY_REDSHIFT_CONNECTION"
  {
    var make := TunnelMaker(environ, parse, unparse);
    TunnelsForEntry(environ, parse, unparse, RedshiftPorts);
    NewEnvironSound(RedshiftPorts, make, v);
    var k :| 0 <= k < |RedshiftPorts| && RedshiftPorts[k].0 == v && make(RedshiftPorts[k]).Some?;
    TunnelForEntry(environ, parse, unparse, RedshiftPorts[k]);
    RedshiftNames(k);
  }

  /** The three variables the table names. */
  lemma RedshiftNames(k: nat)
    requires k < |RedshiftPorts|
    ensures RedshiftPorts[k].0 == "JB_REDSHIFT_CONNECTION" || RedshiftPorts[k].0 == "JB_HSTM_REDSHIFT_CONNECTION"
      || RedshiftPorts[k].0 == "JB_PREVERITY_REDSHIFT_CONNECTION"
  {
  }

  /**
   * Each Redshift connection variable that is set is returned, holding its
   * connection string with the network location rewritten, as jb.py does,
   * to end in its local port.
   */
  lemma ReturnedConnection(environ: map<string, string>, parse: string -> Url, unparse: Url -> string, k: nat)
    requires k < |RedshiftPorts| && RedshiftPorts[k].0 in environ
    ensures var (name, port) := RedshiftPorts[k];
      var url := parse(environ[name]);
      name in NewEnviron(Tunnels(environ, parse, unparse, RedshiftPorts))
      && NewEnviron(Tunnels(environ, parse, unparse, RedshiftPorts))[name]
         == unparse(url.(netloc := NetlocAsWritten(url.netloc, port)))
  {
    var make := TunnelMaker(environ, parse, unparse);
    TunnelsForEntry(environ, parse, unparse, RedshiftPorts);
    RedshiftPortsDistinct();
    assert forall a :: k < a < |RedshiftPorts| ==> RedshiftPorts[a].0 != RedshiftPorts[k].0;
    TunnelForEntry(environ, parse, unparse, RedshiftPorts[k]);
    NewEnvironComplete(RedshiftPorts, make, k);
  }

  /** No local port holds `@` or `:`. */
  lemma RedshiftPortsPlain(k: nat)
    requires k < |RedshiftPorts|
    ensures '@' !in RedshiftPorts[k].1 && ':' !in RedshiftPorts[k].1
  {
  }

  /**
   * A connection string whose network location has a port is returned
   * pointing at the same user and host on the local port.
   */
  lemma ReturnedConnectionWithPort(environ: map<string, string>, parse: string -> Url, unparse: Url -> string, k: nat,
                                   userinfo: string, host: string, oldPort: string)
    requires k < |RedshiftPorts| && RedshiftPorts[k].0 in environ
    requires parse(environ[RedshiftPorts[k].0]).netloc == userinfo + "@" + (host + ":" + oldPort)
    requires '@' !in host && ':' !in host && '@' !in oldPort && ':' !in oldPort
    ensures RedshiftPorts[k].0 in NewEnviron(Tunnels(environ, parse, unparse, RedshiftPorts))
    ensures NewEnviron(Tunnels(environ, parse, unparse, RedshiftPorts))[RedshiftPorts[k].0]
        == unparse(parse(environ[RedshiftPorts[k].0]).(netloc := userinfo + "@" + (host + ":" + RedshiftPorts[k].1)))
  {
    var port := RedshiftPorts[k].1;
    RedshiftPortsPlain(k);
    NetlocAgreesWithPort(userinfo, host, oldPort, port);
    NetlocReplacesPort(userinfo, host, oldPort, port);
    ReturnedConnection(environ, parse, unparse, k);
  }

  /**
   * A connection string with credentials and no port is returned pointing
   * at a host named after the user, on the local port.
   */
  lemma ReturnedConnectionLosesHost(environ: map<string, string>, parse: string -> Url, unparse: Url -> string, k: nat,
                                    user: string, password: string, host: string)
    requires k < |RedshiftPorts| && RedshiftPorts[k].0 in environ
    requires parse(environ[RedshiftPorts[k].0]).netloc == user + ":" + password + "@" + host
    requires ':' !in user && '@' !in user && ':' !in password && '@' !in password
    requires ':' !in host && '@' !in host
    ensures RedshiftPorts[k].0 in NewEnviron(Tunnels(environ, parse, unparse, RedshiftPorts))
    ensures NewEnviron(Tunnels(environ, parse, unparse, RedshiftPorts))[RedshiftPorts[k].0]
        == unparse(parse(environ[RedshiftPorts[k].0]).(netloc := user + ":" + RedshiftPorts[k].1))
  {
    var port := RedshiftPorts[k].1;
    RedshiftPortsPlain(k);
    NetlocAsWrittenLosesHost(user, password, host, port);
    ReturnedConnection(environ, parse, unparse, k);
  }
}
