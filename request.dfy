/**
 * request.go: one HTTP fetch with a bounded number of attempts, and failover across the node
 * directory. The network is the parameter net: net(url, k) is what the k-th attempt (from 0) at
 * url gets back. Waiting is not performed; each attempt and each pause is recorded as an event.
 * A duration is a count of nanoseconds, as Go's time.Duration is.
 */
module Requests {
  import opened Options
  import opened AppConfigs

  const Second: int := 1_000_000_000

  /** connectTimeout, onErrorRetryInterval and maxRetries. */
  const ConnectTimeout: int := Second
  const OnErrorRetryInterval: int := Second
  const MaxRetries: nat := 5

  /** The messages of the two errors request makes itself. */
  const ConnectFail: string := "connect apollo server fail"
  const OverMaxRetry: string := "over max retry still error"

  /** ConnectConfig: the client timeout (0 for the default) and the URI appended to the host. */
  datatype ConnectConfig = ConnectConfig(timeout: int, uri: string)

  /**
   * What request and requestRecovery return: the response (an interface{} value, here a
   * string) and the error, by its message.
   */
  datatype Reply = Reply(response: Option<string>, err: Option<string>)

  /** CallBack: either function may be nil; a callback's own effects are not modelled. */
  datatype CallBack = CallBack(success: Option<string -> Reply>, notModify: Option<() -> Option<string>>)

  /**
   * The result of one client.Get: the transport failed with an error, or a response arrived
   * with a status code and a body that ReadAll would read, or fail to read with an error.
   */
  datatype Outcome =
    | TransportError(err: string)
    | Response(status: int, body: Result<string, string>)

  /** What happened during a request: an attempt with the client's timeout, or a pause. */
  datatype Event = Get(url: string, timeout: int) | Sleep(duration: int)

  /** The client timeout: the configured one when there is a config and it is not zero. */
  function Timeout(cc: Option<ConnectConfig>): (t: int)
    ensures cc.Some? && cc.value.timeout != 0 ==> t == cc.value.timeout
    ensures cc.None? || cc.value.timeout == 0 ==> t == ConnectTimeout
  {
    if cc.Some? && cc.value.timeout != 0 then cc.value.timeout else ConnectTimeout
  }

  /** An outcome that ends the loop: 200 with the body read, or 304. */
  predicate Final(o: Outcome) {
    o.Response? && ((o.status == 200 && o.body.Ok?) || o.status == 304)
  }

  /** A response whose status is neither 200 nor 304; only these make the loop pause. */
  predicate BadStatus(o: Outcome) {
    o.Response? && o.status != 200 && o.status != 304
  }

  /** What request returns on a final outcome: the callback's result, or (nil, nil) without one. */
  function Answer(o: Outcome, cb: Option<CallBack>): Reply
    requires Final(o)
  {
    if o.status == 200 then
      if cb.Some? && cb.value.success.Some? then cb.value.success.value(o.body.value) else Reply(None, None)
    else
      if cb.Some? && cb.value.notModify.Some? then Reply(None, cb.value.notModify.value()) else Reply(None, None)
  }

  /** The events of one attempt: the Get, and a pause after a bad status. */
  function AttemptEvents(o: Outcome, url: string, timeout: int): seq<Event> {
    [Get(url, timeout)] + if BadStatus(o) then [Sleep(OnErrorRetryInterval)] else []
  }

  /** The events of the first n attempts at url. */
  function Trace(net: (string, nat) -> Outcome, url: string, timeout: int, n: nat): seq<Event> {
    if n == 0 then [] else Trace(net, url, timeout, n - 1) + AttemptEvents(net(url, n - 1), url, timeout)
  }

  /** The first of the first n attempts at url whose outcome is final. */
  function FirstFinal(net: (string, nat) -> Outcome, url: string, n: nat): Option<nat> {
    if n == 0 then None
    else match FirstFinal(net, url, n - 1)
      case Some(i) => Some(i)
      case None => if Final(net(url, n - 1)) then Some(n - 1) else None
  }

  lemma {:induction false} FirstFinalSpec(net: (string, nat) -> Outcome, url: string, n: nat)
    ensures FirstFinal(net, url, n).Some? ==>
      var i := FirstFinal(net, url, n).value;
      i < n && Final(net(url, i)) && forall j :: 0 <= j < i ==> !Final(net(url, j))
    ensures FirstFinal(net, url, n).None? ==> forall j :: 0 <= j < n ==> !Final(net(url, j))
  {
    if n > 0 {
      FirstFinalSpec(net, url, n - 1);
    }
  }

  /** The number of attempts request makes at url. */
  function Attempts(net: (string, nat) -> Outcome, url: string): nat {
    match FirstFinal(net, url, MaxRetries)
    case Some(i) => i + 1
    case None => MaxRetries
  }

  /** Attempt i is final and none before it was: the request stops there with its answer. */
  lemma FinalAttempt(net: (string, nat) -> Outcome, url: string, cb: Option<CallBack>, i: nat)
    requires i < MaxRetries && FirstFinal(net, url, i).None? && Final(net(url, i))
    ensures FirstFinal(net, url, MaxRetries) == Some(i) && Attempts(net, url) == i + 1
    ensures RequestReply(net, url, cb) == Answer(net(url, i), cb)
  {
    FirstFinalSpec(net, url, MaxRetries);
    FirstFinalSpec(net, url, i);
  }

  /** What request returns: the answer to the first final outcome, or the retry error. */
  function RequestReply(net: (string, nat) -> Outcome, url: string, cb: Option<CallBack>): Reply {
    match FirstFinal(net, url, MaxRetries)
    case Some(i) =>
      FirstFinalSpec(net, url, MaxRetries);
      Answer(net(url, i), cb)
    case None => Reply(None, Some(OverMaxRetry))
  }

  /**
   * request: attempt the URL until an attempt gives 200 with a readable body or 304, at most
   * maxRetries times; a transport or read error tries again at once, any other status pauses
   * for onErrorRetryInterval first; when every attempt is used up the error is replaced by
   * "over max retry still error".
   */
  method Request(url: string, cc: Option<ConnectConfig>, cb: Option<CallBack>, net: (string, nat) -> Outcome)
    returns (reply: Reply, trace: seq<Event>)
    ensures reply == RequestReply(net, url, cb)
    ensures trace == Trace(net, url, Timeout(cc), Attempts(net, url))
  {
    var timeout: int;
    if cc.Some? && cc.value.timeout != 0 {
      timeout := cc.value.timeout;
    } else {
      timeout := ConnectTimeout;
    }
    var retry := 0;
    var err: Option<string> := None;
    trace := [];
    while true
      invariant 0 <= retry <= MaxRetries
      invariant FirstFinal(net, url, retry).None?
      invariant trace == Trace(net, url, timeout, retry)
      invariant retry > 0 ==> err.Some?
      decreases MaxRetries - retry
    {
      retry := retry + 1;
      if retry > MaxRetries {
        break;
      }
      var res := net(url, retry - 1);
      trace := trace + [Get(url, timeout)];
      if res.TransportError? {
        err := Some(res.err);
        continue;
      }
      if res.status == 200 {
        if res.body.Err? {
          err := Some(res.body.error);
          continue;
        }
        FinalAttempt(net, url, cb, retry - 1);
        if cb.Some? && cb.value.success.Some? {
          return cb.value.success.value(res.body.value), trace;
        } else {
          return Reply(None, None), trace;
        }
      } else if res.status == 304 {
        FinalAttempt(net, url, cb, retry - 1);
        if cb.Some? && cb.value.notModify.Some? {
          return Reply(None, cb.value.notModify.value()), trace;
        } else {
          return Reply(None, None), trace;
        }
      } else {
        err := Some(ConnectFail);
        trace := trace + [Sleep(OnErrorRetryInterval)];
        continue;
      }
    }
    if err.Some? {
      err := Some(OverMaxRetry);
    }
    reply := Reply(None, err);
  }

  function Gets(trace: seq<Event>): nat {
    if trace == [] then 0 else Gets(trace[..|trace| - 1]) + if trace[|trace| - 1].Get? then 1 else 0
  }

  lemma GetsAppend(a: seq<Event>, b: seq<Event>)
    ensures Gets(a + b) == Gets(a) + Gets(b)
    decreases |b|
  {
    if b != [] {
      assert (a + b)[..|a + b| - 1] == a + b[..|b| - 1];
      GetsAppend(a, b[..|b| - 1]);
    } else {
      assert a + b == a;
    }
  }

  /** One attempt records one Get, at url with the timeout, and at most a pause of onErrorRetryInterval. */
  lemma AttemptGets(o: Outcome, url: string, timeout: int)
    ensures Gets(AttemptEvents(o, url, timeout)) == 1
    ensures forall e :: e in AttemptEvents(o, url, timeout) ==> e == Get(url, timeout) || e == Sleep(OnErrorRetryInterval)
  {
    var ev := AttemptEvents(o, url, timeout);
    assert Gets([Get(url, timeout)]) == 1 by {
      assert [Get(url, timeout)][..0] == [];
    }
    if BadStatus(o) {
      assert ev[..1] == [Get(url, timeout)];
    } else {
      assert ev == [Get(url, timeout)];
    }
  }

  /** The trace of n attempts holds exactly n Gets. */
  lemma {:induction false} TraceCount(net: (string, nat) -> Outcome, url: string, timeout: int, n: nat)
    ensures Gets(Trace(net, url, timeout, n)) == n
  {
    if n > 0 {
      var prev := Trace(net, url, timeout, n - 1);
      var ev := AttemptEvents(net(url, n - 1), url, timeout);
      TraceCount(net, url, timeout, n - 1);
      AttemptGets(net(url, n - 1), url, timeout);
      GetsAppend(prev, ev);
      assert Trace(net, url, timeout, n) == prev + ev;
      assert Gets(prev + ev) == n;
    }
  }

  /** Every event of the trace is a Get at url with the timeout or a pause of onErrorRetryInterval. */
  lemma {:induction false} TraceEvents(net: (string, nat) -> Outcome, url: string, timeout: int, n: nat)
    ensures forall e :: e in Trace(net, url, timeout, n) ==> e == Get(url, timeout) || e == Sleep(OnErrorRetryInterval)
  {
    if n > 0 {
      TraceEvents(net, url, timeout, n - 1);
      AttemptGets(net(url, n - 1), url, timeout);
    }
  }

  /** The trace of n attempts holds exactly n Gets, each at url with the timeout. */
  lemma TraceGets(net: (string, nat) -> Outcome, url: string, timeout: int, n: nat)
    ensures Gets(Trace(net, url, timeout, n)) == n
    ensures forall e :: e in Trace(net, url, timeout, n) && e.Get? ==> e == Get(url, timeout)
    ensures forall e :: e in Trace(net, url, timeout, n) && e.Sleep? ==> e == Sleep(OnErrorRetryInterval)
  {
    TraceCount(net, url, timeout, n);
    TraceEvents(net, url, timeout, n);
  }

  /**
   * At most maxRetries attempts are made; a final outcome at attempt i ends the request after
   * i + 1 attempts, and without one every attempt is used.
   */
  lemma RequestAttempts(net: (string, nat) -> Outcome, url: string, timeout: int)
    ensures 1 <= Attempts(net, url) <= MaxRetries
    ensures Gets(Trace(net, url, timeout, Attempts(net, url))) == Attempts(net, url)
    ensures forall i :: 0 <= i < Attempts(net, url) - 1 ==> !Final(net(url, i))
    ensures Attempts(net, url) < MaxRetries ==> Final(net(url, Attempts(net, url) - 1))
  {
    FirstFinalSpec(net, url, MaxRetries);
    TraceGets(net, url, timeout, Attempts(net, url));
  }

  /**
   * The reply: the callback's answer to the first final outcome, and "over max retry still
   * error" when no attempt got one.
   */
  lemma RequestReplyCases(net: (string, nat) -> Outcome, url: string, cb: Option<CallBack>)
    ensures (forall j :: 0 <= j < MaxRetries ==> !Final(net(url, j))) ==>
      RequestReply(net, url, cb) == Reply(None, Some(OverMaxRetry))
    ensures forall i :: 0 <= i < MaxRetries && Final(net(url, i)) ==>
      (forall j :: 0 <= j < i ==> !Final(net(url, j))) ==> RequestReply(net, url, cb) == Answer(net(url, i), cb)
  {
    FirstFinalSpec(net, url, MaxRetries);
  }

  /** What failover does to the directory: every host it gave up on is marked down, in turn. */
  function MarkAll(servers: map<string, ServerInfo>, hosts: seq<string>): map<string, ServerInfo> {
    if hosts == [] then servers else MarkDown(MarkAll(servers, hosts[..|hosts| - 1]), hosts[|hosts| - 1])
  }

  /** Marking hosts down keeps every key, takes each of them down, and leaves the rest alone. */
  lemma {:induction false} MarkAllSpec(servers: map<string, ServerInfo>, hosts: seq<string>, k: string)
    ensures k in MarkAll(servers, hosts) <==> k in servers
    ensures k in servers && k !in hosts ==> MarkAll(servers, hosts)[k] == servers[k]
    ensures k in servers && k in hosts ==> MarkAll(servers, hosts)[k] == servers[k].(isDown := true)
  {
    if hosts != [] {
      var init := hosts[..|hosts| - 1];
      MarkAllSpec(servers, init, k);
      assert hosts == init + [hosts[|hosts| - 1]];
    }
  }

  predicate Distinct(hosts: seq<string>) {
    forall i, j :: 0 <= i < j < |hosts| ==> hosts[i] != hosts[j]
  }

  predicate Outside(hosts: seq<string>, up: set<string>) {
    forall i :: 0 <= i < |hosts| ==> hosts[i] !in up
  }

  /**
   * Where requestRecovery stands after giving up on the hosts tried, starting from servers0:
   * each of them failed and is marked down, none repeats or is still up, the config connects
   * directly once one was given up on, and err is the error of the last one.
   */
  predicate Failover(net: (string, nat) -> Outcome, uri: string, cb: Option<CallBack>,
                     servers0: map<string, ServerInfo>, servers: map<string, ServerInfo>,
                     tried: seq<string>, err: Option<string>, direct: bool) {
    && (forall i :: 0 <= i < |tried| ==> tried[i] != "" && RequestReply(net, tried[i] + uri, cb).err.Some?)
    && Distinct(tried) && Outside(tried, UpSet(servers))
    && servers == MarkAll(servers0, tried)
    && (tried != [] ==> direct)
    && (tried == [] ==> err.None?)
    && (tried != [] ==> err == RequestReply(net, tried[|tried| - 1] + uri, cb).err)
  }

  /**
   * What selectHost may have returned for each host tried, starting from servers0: the bootstrap
   * host boot first when the config started outside its window (direct0 false), and otherwise a
   * server that was up once the hosts before it were marked down.
   */
  predicate Selected(servers0: map<string, ServerInfo>, boot: string, direct0: bool, tried: seq<string>) {
    forall i :: 0 <= i < |tried| ==>
      if i == 0 && !direct0 then tried[i] == boot else tried[i] in UpSet(MarkAll(servers0, tried[..i]))
  }

  /** One more host that selectHost may return keeps the hosts tried Selected. */
  lemma SelectedStep(servers0: map<string, ServerInfo>, boot: string, direct0: bool, tried: seq<string>, host: string)
    requires Selected(servers0, boot, direct0, tried)
    requires if tried == [] && !direct0 then host == boot else host in UpSet(MarkAll(servers0, tried))
    ensures Selected(servers0, boot, direct0, tried + [host])
  {
    var t := tried + [host];
    assert t[..|tried|] == tried;
    forall i | 0 <= i < |tried|
      ensures t[..i] == tried[..i]
    {
    }
  }

  /** Giving up on one more host, taken from those up once the config connects directly. */
  lemma FailoverStep(net: (string, nat) -> Outcome, uri: string, cb: Option<CallBack>,
                     servers0: map<string, ServerInfo>, servers: map<string, ServerInfo>,
                     tried: seq<string>, err: Option<string>, direct: bool,
                     host: string, servers': map<string, ServerInfo>)
    requires Failover(net, uri, cb, servers0, servers, tried, err, direct)
    requires host != "" && RequestReply(net, host + uri, cb).err.Some?
    requires tried == [] || host in UpSet(servers)
    requires servers' == MarkDown(servers, host) && UpSet(servers') == UpSet(servers) - {host}
    ensures Failover(net, uri, cb, servers0, servers', tried + [host], RequestReply(net, host + uri, cb).err, true)
  {
    assert (tried + [host])[..|tried|] == tried;
  }

  /**
   * The state of requestRecovery between rounds: Failover and Selected hold, c's window win is
   * the one the bootstrap host opened from now if it was tried and win0 otherwise, and direct,
   * whether c connects directly, is still direct0 while nothing was tried.
   */
  predicate Recovering(net: (string, nat) -> Outcome, uri: string, cb: Option<CallBack>,
                       servers0: map<string, ServerInfo>, boot: string, direct0: bool, win0: int, now: int,
                       servers: map<string, ServerInfo>, tried: seq<string>, err: Option<string>,
                       direct: bool, win: int) {
    && Failover(net, uri, cb, servers0, servers, tried, err, direct)
    && Selected(servers0, boot, direct0, tried)
    && win == (if boot in tried then now + NextTryConnectPeriod else win0)
    && (tried == [] ==> direct == direct0)
  }

  /** What selectHost returns: the bootstrap host outside the window, else a server up or "". */
  predicate SelectedNow(servers: map<string, ServerInfo>, boot: string, direct: bool, host: string) {
    if !direct then host == boot else host in UpSet(servers) || (host == "" && UpSet(servers) == {})
  }

  /**
   * What requestRecovery has done when it returns, over the values its contract speaks of:
   * direct0 and win0 are whether c connected directly and its window at the start, direct and
   * win the same at the end, and the rest as in its contract.
   */
  predicate Recovered(net: (string, nat) -> Outcome, uri: string, cb: Option<CallBack>,
                      servers0: map<string, ServerInfo>, boot: string, direct0: bool, win0: int, now: int,
                      servers: map<string, ServerInfo>, tried: seq<string>, direct: bool, win: int,
                      reply: Reply, last: Option<string>) {
    && Selected(servers0, boot, direct0, tried)
    && (!direct0 ==> (tried != [] && tried[0] == boot) || (tried == [] && last == Some(boot)))
    && (last.Some? ==> if tried == [] && !direct0 then last.value == boot else last.value in UpSet(servers))
    && win == (if boot in tried then now + NextTryConnectPeriod else win0)
    && (forall i :: 0 <= i < |tried| ==> tried[i] != "" && RequestReply(net, tried[i] + uri, cb).err.Some?)
    && Distinct(tried)
    && servers == MarkAll(servers0, tried)
    && (tried != [] ==> direct)
    && (last.Some? ==> last.value !in tried && reply.err.None? && reply == RequestReply(net, last.value + uri, cb))
    && (last.None? ==> direct && (UpSet(servers) == {} || "" in UpSet(servers)))
    && (last.None? && tried == [] ==> reply == Reply(None, None))
    && (last.None? && tried != [] ==> reply == Reply(None, RequestReply(net, tried[|tried| - 1] + uri, cb).err))
  }

  /** A selected host answered: requestRecovery returns its reply. */
  lemma RecoveryAnswered(net: (string, nat) -> Outcome, uri: string, cb: Option<CallBack>,
                         servers0: map<string, ServerInfo>, boot: string, direct0: bool, win0: int, now: int,
                         servers: map<string, ServerInfo>, tried: seq<string>, err: Option<string>,
                         direct: bool, win: int, host: string, reply: Reply)
    requires Recovering(net, uri, cb, servers0, boot, direct0, win0, now, servers, tried, err, direct, win)
    requires SelectedNow(servers, boot, direct, host) && host != ""
    requires reply == RequestReply(net, host + uri, cb) && reply.err.None?
    ensures Recovered(net, uri, cb, servers0, boot, direct0, win0, now, servers, tried, direct, win, reply, Some(host))
  {
  }

  /** selectHost has nothing left: requestRecovery returns the last error, if any. */
  lemma RecoveryExhausted(net: (string, nat) -> Outcome, uri: string, cb: Option<CallBack>,
                          servers0: map<string, ServerInfo>, boot: string, direct0: bool, win0: int, now: int,
                          servers: map<string, ServerInfo>, tried: seq<string>, err: Option<string>,
                          direct: bool, win: int)
    requires Recovering(net, uri, cb, servers0, boot, direct0, win0, now, servers, tried, err, direct, win)
    requires boot != "" && SelectedNow(servers, boot, direct, "")
    ensures Recovered(net, uri, cb, servers0, boot, direct0, win0, now, servers, tried, direct, win,
                      Reply(None, err), None)
  {
  }

  /** Giving up on a selected host that failed keeps requestRecovery Recovering. */
  lemma RecoveryStep(net: (string, nat) -> Outcome, uri: string, cb: Option<CallBack>,
                     servers0: map<string, ServerInfo>, boot: string, direct0: bool, win0: int, now: int,
                     servers: map<string, ServerInfo>, tried: seq<string>, err: Option<string>,
                     direct: bool, win: int, host: string,
                     servers': map<string, ServerInfo>, win': int)
    requires Recovering(net, uri, cb, servers0, boot, direct0, win0, now, servers, tried, err, direct, win)
    requires SelectedNow(servers, boot, direct, host) && host != ""
    requires RequestReply(net, host + uri, cb).err.Some?
    requires servers' == MarkDown(servers, host) && UpSet(servers') == UpSet(servers) - {host}
    requires win' == if host == boot then now + NextTryConnectPeriod else win
    ensures Recovering(net, uri, cb, servers0, boot, direct0, win0, now, servers', tried + [host],
                       RequestReply(net, host + uri, cb).err, true, win')
  {
    SelectedStep(servers0, boot, direct0, tried, host);
    FailoverStep(net, uri, cb, servers0, servers, tried, err, direct, host, servers');
    assert boot in tried + [host] <==> boot in tried || host == boot;
  }

  /**
   * The failure branch of requestRecovery, with setDownNode acting on the config requestRecovery
   * was given: afterwards the host is down, that config connects directly, and no other server
   * changed. The bootstrap host opens a window of NextTryConnectPeriod from now; any other host
   * leaves the window as it was.
   */
  method GiveUp(dir: Directory, c: AppConfig, host: string, now: int)
    requires now >= 0 && host != ""
    requires !c.IsConnectDirectly(now) ==> host == GetHost(c.ip)
    modifies dir, c
    ensures dir.appConfig == old(dir.appConfig)
    ensures dir.servers == MarkDown(old(dir.servers), host)
    ensures UpSet(dir.servers) == UpSet(old(dir.servers)) - {host}
    ensures c.IsConnectDirectly(now)
    ensures host == GetHost(c.ip) ==> c.nextTryConnTime == now + NextTryConnectPeriod
    ensures host != GetHost(c.ip) ==> c.nextTryConnTime == old(c.nextTryConnTime)
  {
    dir.SetDownNodeOn(c, host, now);
    MarkDownShrinks(old(dir.servers), host);
  }

  /**
   * One round of requestRecovery as the source writes it, on a config c that is not the
   * package's own, outside its back-off window (NextTryConnTime <= now), whose bootstrap host
   * fails: setDownNode opens the
   * window of the package's config only, so c is still outside its window with the same
   * bootstrap host. The round ends in the state it started from, so the loop repeats it without end.
   */
  method RecoveryRoundAsWritten(dir: Directory, c: AppConfig, cc: ConnectConfig, cb: Option<CallBack>,
                                net: (string, nat) -> Outcome, now: int)
    returns (host: string, reply: Reply)
    requires dir.appConfig != c && !c.IsConnectDirectly(now)
    requires RequestReply(net, GetHost(c.ip) + cc.uri, cb).err.Some?
    modifies dir, dir.appConfig
    ensures dir.appConfig == old(dir.appConfig) && host == GetHost(c.ip) && reply.err.Some?
    ensures c.nextTryConnTime == old(c.nextTryConnTime) && !c.IsConnectDirectly(now)
  {
    host := dir.SelectHost(c, now);
    var trace;
    reply, trace := Request(host + cc.uri, Some(cc), cb, net);
    dir.SetDownNode(host, now);
  }

  /**
   * k rounds of requestRecovery as written, on such a config: every one of them selects the
   * same bootstrap host and fails, for every k, so the loop as written never returns.
   */
  method RecoveryRoundsAsWritten(dir: Directory, c: AppConfig, cc: ConnectConfig, cb: Option<CallBack>,
                                 net: (string, nat) -> Outcome, now: int, k: nat)
    returns (hosts: seq<string>)
    requires dir.appConfig != c && !c.IsConnectDirectly(now)
    requires RequestReply(net, GetHost(c.ip) + cc.uri, cb).err.Some?
    modifies dir, dir.appConfig
    ensures |hosts| == k && forall i :: 0 <= i < k ==> hosts[i] == GetHost(c.ip)
    ensures dir.appConfig == old(dir.appConfig) && !c.IsConnectDirectly(now)
  {
    hosts := [];
    for i := 0 to k
      invariant dir.appConfig == old(dir.appConfig) && !c.IsConnectDirectly(now)
      invariant |hosts| == i && forall j :: 0 <= j < i ==> hosts[j] == GetHost(c.ip)
    {
      var host, reply := RecoveryRoundAsWritten(dir, c, cc, cb, net, now);
      hosts := hosts + [host];
    }
  }

  /**
   * One round of requestRecovery: select a host and request it. done tells that the loop returns,
   * with reply; otherwise host failed, is marked down, and the loop goes on with its error.
   */
  method RecoveryRound(dir: Directory, c: AppConfig, cc: ConnectConfig, cb: Option<CallBack>,
                       net: (string, nat) -> Outcome, now: int, ghost servers0: map<string, ServerInfo>,
                       ghost boot: string, ghost direct0: bool, ghost win0: int, ghost tried: seq<string>,
                       err: Option<string>)
    returns (done: bool, reply: Reply, host: string)
    requires now >= 0 && boot == GetHost(c.ip)
    requires Recovering(net, cc.uri, cb, servers0, boot, direct0, win0, now,
                        dir.servers, tried, err, c.IsConnectDirectly(now), c.nextTryConnTime)
    modifies dir, c
    ensures dir.appConfig == old(dir.appConfig)
    ensures done ==> Recovered(net, cc.uri, cb, servers0, boot, direct0, win0, now, dir.servers, tried,
                               c.IsConnectDirectly(now), c.nextTryConnTime, reply,
                               if host == "" then None else Some(host))
    ensures !done ==> Recovering(net, cc.uri, cb, servers0, boot, direct0, win0, now, dir.servers,
                                 tried + [host], reply.err, c.IsConnectDirectly(now), c.nextTryConnTime)
    ensures !done ==> c.IsConnectDirectly(now) &&
                      (old(c.IsConnectDirectly(now)) ==> |UpSet(dir.servers)| < |UpSet(old(dir.servers))|)
  {
    ghost var servers, direct, win := dir.servers, c.IsConnectDirectly(now), c.nextTryConnTime;
    host := dir.SelectHost(c, now);
    if host == "" {
      RecoveryExhausted(net, cc.uri, cb, servers0, boot, direct0, win0, now, servers, tried, err, direct, win);
      return true, Reply(None, err), host;
    }
    var trace;
    reply, trace := Request(host + cc.uri, Some(cc), cb, net);
    if reply.err.None? {
      RecoveryAnswered(net, cc.uri, cb, servers0, boot, direct0, win0, now, servers, tried, err, direct, win,
                       host, reply);
      return true, reply, host;
    }
    GiveUp(dir, c, host, now);
    RecoveryStep(net, cc.uri, cb, servers0, boot, direct0, win0, now, servers, tried, err, direct, win,
                 host, dir.servers, c.nextTryConnTime);
    done := false;
  }

  /** The loop of requestRecovery; RequestRecovery spells out what Recovered states. */
  method RecoveryLoop(dir: Directory, c: AppConfig, cc: ConnectConfig, cb: Option<CallBack>,
                      net: (string, nat) -> Outcome, now: int)
    returns (reply: Reply, ghost tried: seq<string>, ghost last: Option<string>)
    requires now >= 0
    modifies dir, c
    ensures dir.appConfig == old(dir.appConfig)
    ensures Recovered(net, cc.uri, cb, old(dir.servers), GetHost(c.ip), old(c.IsConnectDirectly(now)),
                      old(c.nextTryConnTime), now, dir.servers, tried, c.IsConnectDirectly(now),
                      c.nextTryConnTime, reply, last)
  {
    var err: Option<string> := None;
    tried := [];
    ghost var boot, direct0, win0 := GetHost(c.ip), c.IsConnectDirectly(now), c.nextTryConnTime;
    ghost var servers0 := dir.servers;
    while true
      invariant dir.appConfig == old(dir.appConfig)
      invariant Recovering(net, cc.uri, cb, servers0, boot, direct0, win0, now,
                           dir.servers, tried, err, c.IsConnectDirectly(now), c.nextTryConnTime)
      decreases if c.IsConnectDirectly(now) then 0 else 1, |UpSet(dir.servers)|
    {
      var done, r, host := RecoveryRound(dir, c, cc, cb, net, now, servers0, boot, direct0, win0, tried, err);
      if done {
        reply, last := r, if host == "" then None else Some(host);
        break;
      }
      err := r.err;
      tried := tried + [host];
    }
  }

  /**
   * requestRecovery: take a host from selectHost and request host + uri there; on success
   * return at once, otherwise mark the host down and try again; when selectHost has no host
   * left, return the last error (none when nothing was tried). tried lists the hosts given up
   * on, and last the host that answered, if any. A config outside its window is tried at its
   * bootstrap host first; every other host is a server that was up when it was selected. A
   * failed bootstrap host opens the window of c, the config selectHost reads; for the package's
   * own config this is what the source does.
   */
  method RequestRecovery(dir: Directory, c: AppConfig, cc: ConnectConfig, cb: Option<CallBack>,
                         net: (string, nat) -> Outcome, now: int)
    returns (reply: Reply, ghost tried: seq<string>, ghost last: Option<string>)
    requires now >= 0
    modifies dir, c
    ensures dir.appConfig == old(dir.appConfig)
    ensures Selected(old(dir.servers), GetHost(c.ip), old(c.IsConnectDirectly(now)), tried)
    ensures !old(c.IsConnectDirectly(now)) ==>
      (tried != [] && tried[0] == GetHost(c.ip)) || (tried == [] && last == Some(GetHost(c.ip)))
    ensures last.Some? ==>
      if tried == [] && !old(c.IsConnectDirectly(now)) then last.value == GetHost(c.ip)
      else last.value in UpSet(dir.servers)
    ensures c.nextTryConnTime == if GetHost(c.ip) in tried then now + NextTryConnectPeriod else old(c.nextTryConnTime)
    ensures forall i :: 0 <= i < |tried| ==> tried[i] != "" && RequestReply(net, tried[i] + cc.uri, cb).err.Some?
    ensures Distinct(tried)
    ensures dir.servers == MarkAll(old(dir.servers), tried)
    ensures tried != [] ==> c.IsConnectDirectly(now)
    ensures last.Some? ==> last.value !in tried && reply.err.None?
                           && reply == RequestReply(net, last.value + cc.uri, cb)
    ensures last.None? ==> c.IsConnectDirectly(now) && (UpSet(dir.servers) == {} || "" in UpSet(dir.servers))
    ensures last.None? && tried == [] ==> reply == Reply(None, None)
    ensures last.None? && tried != [] ==>
      reply == Reply(None, RequestReply(net, tried[|tried| - 1] + cc.uri, cb).err)
  {
    reply, tried, last := RecoveryLoop(dir, c, cc, cb, net, now);
  }
}
