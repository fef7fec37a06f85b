/**
 * app_config.go: the application's connection settings, the bootstrap host derived from them,
 * the back-off window after a failed connection, and the directory of configuration servers
 * (the package globals appConfig and servers) that failover selects from and marks down.
 * The clock is the parameter now (Unix seconds); url.QueryEscape is the parameter esc, and the
 * internal IP and the current release key are passed in as strings.
 */
module AppConfigs {
  import opened Options
  import opened Common

  /** nextTryConnectPeriod: how many seconds the directory is preferred after the host fails. */
  const NextTryConnectPeriod: int := 60

  /** getHost on an AppConfig whose Ip is ip. */
  function GetHost(ip: string): (h: string)
    ensures HasPrefix(h, "http") && HasSuffix(h, "/")
    ensures h == ip || h == ip + "/" || h == "http://" + ip + "/"
  {
    if HasPrefix(ip, "http") then
      if !HasSuffix(ip, "/") then
        PrefixKept(ip, "/");
        assert (ip + "/")[..4] == ip[..4];
        SuffixKept(ip, "/");
        ip + "/"
      else ip
    else
      var h := "http://" + ip + "/";
      assert h[..4] == "http";
      SuffixKept("http://" + ip, "/");
      h
  }

  /** A host is left as it is exactly when it already starts with "http" and ends with "/". */
  lemma GetHostFixpoint(ip: string)
    ensures GetHost(ip) == ip <==> HasPrefix(ip, "http") && HasSuffix(ip, "/")
  {
    if !HasPrefix(ip, "http") {
      assert |GetHost(ip)| == |ip| + 8;
    } else if !HasSuffix(ip, "/") {
      assert |GetHost(ip)| == |ip| + 1;
    }
  }

  /** getHost applied to its own result changes nothing. */
  lemma GetHostIdempotent(ip: string)
    ensures GetHost(GetHost(ip)) == GetHost(ip)
  {
    GetHostFixpoint(GetHost(ip));
  }

  /** isConnectDirectly on a config whose NextTryConnTime is next, at time now. */
  predicate ConnectDirectly(next: int, now: int) {
    next >= 0 && next > now
  }

  /**
   * AppConfig. Only NextTryConnTime changes after loading, so the other fields are constants;
   * the JSON decoder leaves NextTryConnTime at zero.
   */
  class AppConfig {
    const appId: string
    const cluster: string
    const namespaceName: string
    const ip: string
    const backupConfigPath: string
    var nextTryConnTime: int

    constructor(appId: string, cluster: string, namespaceName: string, ip: string, backupConfigPath: string)
      ensures this.appId == appId && this.cluster == cluster && this.namespaceName == namespaceName
      ensures this.ip == ip && this.backupConfigPath == backupConfigPath
      ensures nextTryConnTime == 0
    {
      this.appId := appId;
      this.cluster := cluster;
      this.namespaceName := namespaceName;
      this.ip := ip;
      this.backupConfigPath := backupConfigPath;
      nextTryConnTime := 0;
    }

    function Host(): (h: string)
      ensures h == GetHost(ip)
    {
      GetHost(ip)
    }

    /**
     * isConnectDirectly: whether the back-off window is open: set, and not yet over. A window
     * that is closed at now stays closed at every later time.
     */
    function IsConnectDirectly(now: int): (r: bool)
      reads this
      ensures r <==> 0 <= nextTryConnTime && now < nextTryConnTime
      ensures !r ==> forall t :: t >= now ==> !ConnectDirectly(nextTryConnTime, t)
    {
      ConnectDirectly(nextTryConnTime, now)
    }

    /**
     * setNextTryConnTime: the window closes period seconds from now, so with a positive period
     * the config connects directly until then and never from then on.
     */
    method SetNextTryConnTime(period: int, now: int)
      modifies this
      ensures nextTryConnTime == now + period
      ensures now + period >= 0 && period > 0 ==> IsConnectDirectly(now)
      ensures forall t :: t >= now + period ==> !IsConnectDirectly(t)
    {
      nextTryConnTime := now + period;
    }
  }

  /** serverInfo: IsDown is not part of the JSON, so it is false for every decoded server. */
  datatype ServerInfo = ServerInfo(appName: string, instanceId: string, homepageUrl: string, isDown: bool)

  /** The servers that are not marked down. */
  function UpSet(servers: map<string, ServerInfo>): set<string> {
    set k | k in servers && !servers[k].isDown
  }

  /** What the Range loop of setDownNode does to the directory: the entry at host goes down. */
  function MarkDown(servers: map<string, ServerInfo>, host: string): (r: map<string, ServerInfo>)
    ensures r.Keys == servers.Keys
    ensures forall k :: k in servers && k != host ==> r[k] == servers[k]
    ensures host in servers ==> r[host] == servers[host].(isDown := true)
  {
    if host in servers then servers[host := servers[host].(isDown := true)] else servers
  }

  /** Marking a host down never brings a server up, and takes a server that was up out. */
  lemma MarkDownShrinks(servers: map<string, ServerInfo>, host: string)
    ensures UpSet(MarkDown(servers, host)) == UpSet(servers) - {host}
  {
  }

  /** What the store loop of syncServerIpListSuccessCallBack makes of the directory. */
  function StoreAll(servers: map<string, ServerInfo>, list: seq<Option<ServerInfo>>): map<string, ServerInfo> {
    if list == [] then servers
    else
      var before := StoreAll(servers, list[..|list| - 1]);
      match list[|list| - 1]
      case None => before
      case Some(s) => before[s.homepageUrl := s]
  }

  /** Some non-nil element of list has HomepageUrl k. */
  predicate Listed(list: seq<Option<ServerInfo>>, k: string) {
    exists i :: 0 <= i < |list| && list[i].Some? && list[i].value.homepageUrl == k
  }

  /** Element i is the last non-nil element of list with HomepageUrl k. */
  predicate LastFor(list: seq<Option<ServerInfo>>, k: string, i: int) {
    && 0 <= i < |list| && list[i].Some? && list[i].value.homepageUrl == k
    && forall j :: i < j < |list| ==> list[j].None? || list[j].value.homepageUrl != k
  }

  /**
   * Storing a list: a key is present afterwards exactly when it was before or is listed; an
   * unlisted key keeps its entry; a listed key holds the last server listed under it.
   */
  lemma {:induction false} StoreAllAt(servers: map<string, ServerInfo>, list: seq<Option<ServerInfo>>, k: string)
    ensures k in StoreAll(servers, list) <==> k in servers || Listed(list, k)
    ensures !Listed(list, k) && k in servers ==> StoreAll(servers, list)[k] == servers[k]
    ensures forall i :: LastFor(list, k, i) ==> StoreAll(servers, list)[k] == list[i].value
  {
    if list != [] {
      var init := list[..|list| - 1];
      StoreAllAt(servers, init, k);
      var last := list[|list| - 1];
      if Listed(list, k) && !(last.Some? && last.value.homepageUrl == k) {
        var i :| 0 <= i < |list| && list[i].Some? && list[i].value.homepageUrl == k;
        assert init[i] == list[i];
      }
      if Listed(init, k) {
        var i :| 0 <= i < |init| && init[i].Some? && init[i].value.homepageUrl == k;
        assert list[i] == init[i];
      }
      forall i | LastFor(list, k, i)
        ensures StoreAll(servers, list)[k] == list[i].value
      {
        if i < |list| - 1 {
          assert LastFor(init, k, i);
        }
      }
    }
  }

  /** A stored list that holds only decoded servers leaves every listed server up. */
  lemma StoreAllUp(servers: map<string, ServerInfo>, list: seq<Option<ServerInfo>>, k: string)
    requires forall i :: 0 <= i < |list| && list[i].Some? ==> !list[i].value.isDown
    requires Listed(list, k)
    ensures k in UpSet(StoreAll(servers, list))
  {
    var i :| 0 <= i < |list| && list[i].Some? && list[i].value.homepageUrl == k;
    LastIndex(list, k, i);
    var m :| LastFor(list, k, m);
    StoreAllAt(servers, list, k);
  }

  /** A listed key has a last element listing it. */
  lemma {:induction false} LastIndex(list: seq<Option<ServerInfo>>, k: string, i: nat)
    requires i < |list| && list[i].Some? && list[i].value.homepageUrl == k
    ensures exists m :: LastFor(list, k, m)
    decreases |list| - i
  {
    if forall j :: i < j < |list| ==> list[j].None? || list[j].value.homepageUrl != k {
      assert LastFor(list, k, i);
    } else {
      var j :| i < j < |list| && !(list[j].None? || list[j].value.homepageUrl != k);
      LastIndex(list, k, j);
    }
  }

  /**
   * The package globals appConfig and servers. The directory maps a HomepageUrl to its server;
   * Go stores pointers and setDownNode flips IsDown through one, which here replaces the entry.
   */
  class Directory {
    var appConfig: AppConfig?
    var servers: map<string, ServerInfo>

    constructor()
      ensures appConfig == null && servers == map[]
    {
      appConfig := null;
      servers := map[];
    }

    /** GetAppConfig: the config given, or the package's own when none is given. */
    function GetAppConfig(newAppConfig: AppConfig?): (c: AppConfig?)
      reads this
      ensures newAppConfig != null ==> c == newAppConfig
      ensures newAppConfig == null ==> c == appConfig
    {
      if newAppConfig != null then newAppConfig else appConfig
    }

    /**
     * selectHost on c: outside the back-off window the bootstrap host; inside it some server
     * that is not down, in whatever order Range visits them, or "" when every server is down.
     */
    method SelectHost(c: AppConfig, now: int) returns (host: string)
      ensures !c.IsConnectDirectly(now) ==> host == GetHost(c.ip)
      ensures c.IsConnectDirectly(now) ==> host in UpSet(servers) || (host == "" && UpSet(servers) == {})
    {
      if !c.IsConnectDirectly(now) {
        return c.Host();
      }
      host := "";
      var rest := servers.Keys;
      while rest != {}
        invariant rest <= servers.Keys
        invariant forall k :: k in servers && k !in rest ==> servers[k].isDown
        decreases rest
      {
        var k :| k in rest;
        if !servers[k].isDown {
          host := k;
          return;
        }
        rest := rest - {k};
      }
      assert UpSet(servers) == {};
    }

    /**
     * setDownNode: nothing happens for an empty host or without a config; otherwise a host equal
     * to the bootstrap host opens the back-off window, and the server stored under host, if any,
     * is marked down while every other entry stays as it is. The config is the directory's own.
     */
    method SetDownNode(host: string, now: int)
      modifies this, appConfig
      ensures appConfig == old(appConfig)
      ensures host == "" || appConfig == null ==> servers == old(servers)
      ensures host != "" && appConfig != null ==> servers == MarkDown(old(servers), host)
      ensures appConfig != null && host != "" && host == GetHost(appConfig.ip)
              ==> appConfig.nextTryConnTime == now + NextTryConnectPeriod
      ensures appConfig != null && (host == "" || host != GetHost(appConfig.ip))
              ==> appConfig.nextTryConnTime == old(appConfig.nextTryConnTime)
    {
      SetDownNodeOn(appConfig, host, now);
    }

    /**
     * setDownNode with the config it acts on made a parameter: the window opened is cfg's, and
     * the directory's own config is left where it is.
     */
    method SetDownNodeOn(cfg: AppConfig?, host: string, now: int)
      modifies this, cfg
      ensures appConfig == old(appConfig)
      ensures host == "" || cfg == null ==> servers == old(servers)
      ensures host != "" && cfg != null ==> servers == MarkDown(old(servers), host)
      ensures cfg != null && host != "" && host == GetHost(cfg.ip)
              ==> cfg.nextTryConnTime == now + NextTryConnectPeriod
      ensures cfg != null && (host == "" || host != GetHost(cfg.ip))
              ==> cfg.nextTryConnTime == old(cfg.nextTryConnTime)
    {
      if host == "" || cfg == null {
        return;
      }
      if host == cfg.Host() {
        cfg.SetNextTryConnTime(NextTryConnectPeriod, now);
      }
      ghost var s0 := servers;
      ghost var next := cfg.nextTryConnTime;
      var rest := servers.Keys;
      var found := false;
      while rest != {} && !found
        invariant appConfig == old(appConfig) && cfg.nextTryConnTime == next
        invariant rest <= s0.Keys
        invariant found ==> host in s0 && servers == MarkDown(s0, host)
        invariant !found ==> servers == s0 && (host in s0 ==> host in rest)
        decreases |rest|, !found
      {
        var k :| k in rest;
        if k == host {
          servers := servers[k := servers[k].(isDown := true)];
          found := true;
        } else {
          rest := rest - {k};
        }
      }
    }

    /**
     * The store loop of syncServerIpListSuccessCallBack, given the decoded list: each non-nil
     * server is stored under its HomepageUrl, a later one replacing an earlier one; an empty
     * list returns at once.
     */
    method StoreServers(list: seq<Option<ServerInfo>>)
      modifies this
      ensures servers == StoreAll(old(servers), list)
      ensures appConfig == old(appConfig)
    {
      if |list| == 0 {
        return;
      }
      ghost var s0 := servers;
      for i := 0 to |list|
        invariant servers == StoreAll(s0, list[..i])
        invariant appConfig == old(appConfig)
      {
        assert list[..i + 1][..i] == list[..i];
        var server := list[i];
        if server.None? {
          continue;
        }
        servers := servers[server.value.homepageUrl := server.value];
      }
      assert list[..|list|] == list;
    }
  }

  // ---------------------------------------------------------------------------------------------
  // URL suffixes.

  /**
   * getConfigURLSuffix: "" without a config, otherwise the path and query of the config fetch,
   * every value escaped; releaseKey stands for getCurrentApolloConfigReleaseKey(namespaceName)
   * and internalIp for getInternalIp(). The concatenation is grouped from the right.
   */
  function ConfigURLSuffix(config: AppConfig?, namespaceName: string, releaseKey: string,
                           internalIp: string, esc: string -> string): (u: string)
    ensures u == "" <==> config == null
    ensures config != null ==> HasPrefix(u, "configs/")
  {
    if config == null then ""
    else
      var rest := esc(config.appId) + ("/" + (esc(config.cluster) + ("/" + (esc(namespaceName)
        + ("?releaseKey=" + (esc(releaseKey) + ("&ip=" + internalIp)))))));
      PrefixKept("configs/", rest);
      "configs/" + rest
  }

  /**
   * With an escape that keeps separators out and loses nothing, the config suffix determines
   * the application id, cluster, namespace, release key and internal IP it was built from.
   */
  lemma ConfigURLSuffixInjective(c1: AppConfig, ns1: string, rk1: string, ip1: string,
                                 c2: AppConfig, ns2: string, rk2: string, ip2: string,
                                 esc: string -> string)
    requires Escapes(esc) && Injective(esc)
    requires ConfigURLSuffix(c1, ns1, rk1, ip1, esc) == ConfigURLSuffix(c2, ns2, rk2, ip2, esc)
    ensures c1.appId == c2.appId && c1.cluster == c2.cluster
    ensures ns1 == ns2 && rk1 == rk2 && ip1 == ip2
  {
    var q1, q2 := "&ip=" + ip1, "&ip=" + ip2;
    var r1, r2 := "?releaseKey=" + (esc(rk1) + q1), "?releaseKey=" + (esc(rk2) + q2);
    var n1, n2 := "/" + (esc(ns1) + r1), "/" + (esc(ns2) + r2);
    var k1, k2 := "/" + (esc(c1.cluster) + n1), "/" + (esc(c2.cluster) + n2);
    StripPrefix("configs/", esc(c1.appId) + k1, esc(c2.appId) + k2);
    SplitUnique('/', esc(c1.appId), k1, esc(c2.appId), k2);
    StripPrefix("/", esc(c1.cluster) + n1, esc(c2.cluster) + n2);
    SplitUnique('/', esc(c1.cluster), n1, esc(c2.cluster), n2);
    StripPrefix("/", esc(ns1) + r1, esc(ns2) + r2);
    SplitUnique('?', esc(ns1), r1, esc(ns2), r2);
    StripPrefix("?releaseKey=", esc(rk1) + q1, esc(rk2) + q2);
    SplitUnique('&', esc(rk1), q1, esc(rk2), q2);
    StripPrefix("&ip=", ip1, ip2);
  }

  /**
   * getNotifyUrlSuffix: "" when a new config is given, otherwise the long-poll path and query
   * for config, every value escaped. Without either config Go dereferences nil.
   */
  function NotifyURLSuffix(notifications: string, config: AppConfig?, newConfig: AppConfig?,
                           esc: string -> string): (u: string)
    requires newConfig != null || config != null
    ensures newConfig != null ==> u == ""
    ensures newConfig == null ==> HasPrefix(u, "notifications/v2?appId=")
  {
    if newConfig != null then ""
    else
      var rest := esc(config.appId) + ("&cluster=" + (esc(config.cluster)
        + ("&notifications=" + esc(notifications))));
      PrefixKept("notifications/v2?appId=", rest);
      "notifications/v2?appId=" + rest
  }

  /** The notify suffix determines the application id, cluster and notifications it carries. */
  lemma NotifyURLSuffixInjective(nt1: string, c1: AppConfig, nt2: string, c2: AppConfig,
                                 esc: string -> string)
    requires Escapes(esc) && Injective(esc)
    requires NotifyURLSuffix(nt1, c1, null, esc) == NotifyURLSuffix(nt2, c2, null, esc)
    ensures c1.appId == c2.appId && c1.cluster == c2.cluster && nt1 == nt2
  {
    var n1, n2 := "&notifications=" + esc(nt1), "&notifications=" + esc(nt2);
    var k1, k2 := "&cluster=" + (esc(c1.cluster) + n1), "&cluster=" + (esc(c2.cluster) + n2);
    StripPrefix("notifications/v2?appId=", esc(c1.appId) + k1, esc(c2.appId) + k2);
    SplitUnique('&', esc(c1.appId), k1, esc(c2.appId), k2);
    StripPrefix("&cluster=", esc(c1.cluster) + n1, esc(c2.cluster) + n2);
    SplitUnique('&', esc(c1.cluster), n1, esc(c2.cluster), n2);
    StripPrefix("&notifications=", esc(nt1), esc(nt2));
  }

  /**
   * getServicesConfigUrl: the service list URL under the bootstrap host; internalIp stands for
   * getInternalIp().
   */
  function ServicesConfigURL(config: AppConfig, internalIp: string, esc: string -> string): (u: string)
    ensures HasPrefix(u, config.Host() + "services/config?appId=")
    ensures HasSuffix(u, "&ip=" + internalIp)
  {
    var head := config.Host() + "services/config?appId=";
    PrefixKept(head, esc(config.appId) + ("&ip=" + internalIp));
    SuffixKept(head + esc(config.appId), "&ip=" + internalIp);
    assert head + (esc(config.appId) + ("&ip=" + internalIp)) == head + esc(config.appId) + ("&ip=" + internalIp);
    head + (esc(config.appId) + ("&ip=" + internalIp))
  }

  /**
   * Under the same bootstrap host, the service list URL determines the application id and the
   * internal IP it was built from.
   */
  lemma ServicesConfigURLInjective(c1: AppConfig, ip1: string, c2: AppConfig, ip2: string, esc: string -> string)
    requires Escapes(esc) && Injective(esc) && c1.Host() == c2.Host()
    requires ServicesConfigURL(c1, ip1, esc) == ServicesConfigURL(c2, ip2, esc)
    ensures c1.appId == c2.appId && ip1 == ip2
  {
    var q1, q2 := "&ip=" + ip1, "&ip=" + ip2;
    StripPrefix(c1.Host() + "services/config?appId=", esc(c1.appId) + q1, esc(c2.appId) + q2);
    SplitUnique('&', esc(c1.appId), q1, esc(c2.appId), q2);
    StripPrefix("&ip=", ip1, ip2);
  }
}
