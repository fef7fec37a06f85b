/**
 * common.go: address and URL helpers of the URL-building side of the package, the struct copy
 * that gives callbacks their "old" value, pointer dereference, and the lower-case test that
 * decides which fields are bound. Escaping (url.QueryEscape) and the local IP are parameters.
 */
module Common {
  import opened Options
  import opened GoValues

  predicate HasPrefix(s: string, p: string) {
    |p| <= |s| && s[..|p|] == p
  }

  predicate HasSuffix(s: string, p: string) {
    |p| <= |s| && s[|s| - |p|..] == p
  }

  predicate HasScheme(s: string) {
    HasPrefix(s, "http://") || HasPrefix(s, "https://")
  }

  /**
   * httpurl: an address that already names the http or https scheme is kept as it is, any
   * other is taken to be a plain host and gets "http://" in front.
   */
  function HttpURL(ipOrAddr: string): (r: string)
    ensures HasScheme(r)
    ensures HasSuffix(r, ipOrAddr)
    ensures r == ipOrAddr || r == "http://" + ipOrAddr
  {
    if HasScheme(ipOrAddr) then ipOrAddr else "http://" + ipOrAddr
  }

  /** An address with a scheme is left alone, so applying httpurl twice is applying it once. */
  lemma HttpURLIdempotent(ipOrAddr: string)
    ensures HasScheme(ipOrAddr) ==> HttpURL(ipOrAddr) == ipOrAddr
    ensures HttpURL(HttpURL(ipOrAddr)) == HttpURL(ipOrAddr)
  {
  }

  /** The fields of Conf that the URL builders read. */
  datatype Conf = Conf(appId: string, cluster: string, ip: string, metaAddr: string)

  /** The address both URL builders start from: MetaAddr when it is set, IP otherwise. */
  function ServerAddr(conf: Conf): (a: string)
    ensures conf.metaAddr != "" ==> a == conf.metaAddr
    ensures conf.metaAddr == "" ==> a == conf.ip
  {
    if conf.metaAddr != "" then conf.metaAddr else conf.ip
  }

  lemma PrefixKept(a: string, b: string)
    ensures HasPrefix(a + b, a)
    ensures HasScheme(a) ==> HasScheme(a + b)
  {
    assert (a + b)[..|a|] == a;
    if |a| >= 7 { assert (a + b)[..7] == a[..7]; }
    if |a| >= 8 { assert (a + b)[..8] == a[..8]; }
  }

  lemma SuffixKept(a: string, b: string)
    ensures HasSuffix(a + b, b)
  {
    assert (a + b)[|a + b| - |b|..] == b;
  }

  lemma Regrouped(a: string, b: string, c: string)
    ensures a + (b + c) == a + b + c
  {
  }

  lemma SuffixExtended(a: string, b: string, s: string)
    requires HasSuffix(b, s)
    ensures HasSuffix(a + b, s)
  {
    assert (a + b)[|a + b| - |s|..] == b[|b| - |s|..];
  }

  /** notificationURL: the long-poll URL, every query value escaped by esc. */
  function NotificationURL(conf: Conf, notifications: string, esc: string -> string): (u: string)
    ensures HasScheme(u)
    ensures HasPrefix(u, HttpURL(ServerAddr(conf)) + "/notifications/v2?appId=")
  {
    var head := HttpURL(ServerAddr(conf)) + "/notifications/v2?appId=";
    var rest := esc(conf.appId) + ("&cluster=" + (esc(conf.cluster) + ("&notifications=" + esc(notifications))));
    PrefixKept(HttpURL(ServerAddr(conf)), "/notifications/v2?appId=");
    PrefixKept(head, rest);
    head + rest
  }

  /** A URL built as head, three path segments and a query ends with that query. */
  lemma PathKeepsQuery(head: string, a: string, b: string, n: string, query: string)
    ensures HasSuffix(head + (a + ("/" + (b + ("/" + (n + query))))), query)
  {
    SuffixKept(n, query);
    SuffixExtended("/", n + query, query);
    SuffixExtended(b, "/" + (n + query), query);
    SuffixExtended("/", b + ("/" + (n + query)), query);
    SuffixExtended(a, "/" + (b + ("/" + (n + query))), query);
    SuffixExtended(head, a + ("/" + (b + ("/" + (n + query)))), query);
  }

  /**
   * configURL: the configuration fetch URL. The application id, cluster and namespace are
   * escaped by esc; the release key is inserted as it is; localIp stands for getLocalIP(). The
   * concatenation is grouped from the right.
   */
  function ConfigURL(conf: Conf, namespace: string, releaseKey: string, localIp: string,
                     esc: string -> string): (u: string)
    ensures HasScheme(u)
    ensures HasPrefix(u, HttpURL(ServerAddr(conf)) + "/configs/")
    ensures HasSuffix(u, "?releaseKey=" + releaseKey + "&ip=" + localIp)
  {
    var head := HttpURL(ServerAddr(conf)) + "/configs/";
    var query := "?releaseKey=" + (releaseKey + ("&ip=" + localIp));
    var rest := esc(conf.appId) + ("/" + (esc(conf.cluster) + ("/" + (esc(namespace) + query))));
    PrefixKept(HttpURL(ServerAddr(conf)), "/configs/");
    PrefixKept(head, rest);
    PathKeepsQuery(head, esc(conf.appId), esc(conf.cluster), esc(namespace), query);
    Regrouped("?releaseKey=", releaseKey, "&ip=" + localIp);
    head + rest
  }

  /** url.QueryEscape escapes the characters that separate the parts of a URL. */
  ghost predicate Escapes(esc: string -> string) {
    forall s :: '/' !in esc(s) && '?' !in esc(s) && '&' !in esc(s)
  }

  /** url.QueryEscape maps different strings to different strings. */
  ghost predicate Injective(esc: string -> string) {
    forall a, b :: esc(a) == esc(b) ==> a == b
  }

  /** The position of the first c in s, or |s| when there is none. */
  function IndexOf(s: string, c: char): (n: nat)
    ensures n <= |s|
  {
    if s == [] then 0 else if s[0] == c then 0 else 1 + IndexOf(s[1..], c)
  }

  lemma {:induction false} IndexOfSplit(c: char, x: string, y: string)
    requires c !in x && y != [] && y[0] == c
    ensures IndexOf(x + y, c) == |x|
  {
    if x != [] {
      assert (x + y)[1..] == x[1..] + y;
      assert forall i :: 0 <= i < |x[1..]| ==> x[1..][i] == x[i + 1];
      IndexOfSplit(c, x[1..], y);
    } else {
      assert x + y == y;
    }
  }

  /**
   * Splitting at the first occurrence of a separator: when neither head holds c and both tails
   * start with it, equal strings have equal heads and equal tails.
   */
  lemma SplitUnique(c: char, x: string, y: string, x2: string, y2: string)
    requires c !in x && c !in x2
    requires y != [] && y[0] == c && y2 != [] && y2[0] == c
    requires x + y == x2 + y2
    ensures x == x2 && y == y2
  {
    IndexOfSplit(c, x, y);
    IndexOfSplit(c, x2, y2);
    var s := x + y;
    assert x == s[..|x|];
    assert x2 == s[..|x2|];
    assert y == s[|x|..];
    assert y2 == s[|x2|..];
  }

  lemma StripPrefix(p: string, a: string, b: string)
    requires p + a == p + b
    ensures a == b
  {
    assert a == (p + a)[|p|..];
    assert b == (p + b)[|p|..];
  }

  /**
   * With an escape that keeps separators out and loses nothing, the config URL of a server
   * determines the application id, cluster and namespace; the release key, which is not
   * escaped, and the local IP are determined too when the release key holds no '&'.
   */
  lemma ConfigURLInjective(conf1: Conf, ns1: string, rk1: string, ip1: string,
                           conf2: Conf, ns2: string, rk2: string, ip2: string, esc: string -> string)
    requires Escapes(esc) && Injective(esc)
    requires HttpURL(ServerAddr(conf1)) == HttpURL(ServerAddr(conf2))
    requires ConfigURL(conf1, ns1, rk1, ip1, esc) == ConfigURL(conf2, ns2, rk2, ip2, esc)
    ensures conf1.appId == conf2.appId && conf1.cluster == conf2.cluster && ns1 == ns2
    ensures '&' !in rk1 && '&' !in rk2 ==> rk1 == rk2 && ip1 == ip2
  {
    var i1, i2 := "&ip=" + ip1, "&ip=" + ip2;
    var q1, q2 := "?releaseKey=" + (rk1 + i1), "?releaseKey=" + (rk2 + i2);
    var n1, n2 := "/" + (esc(ns1) + q1), "/" + (esc(ns2) + q2);
    var k1, k2 := "/" + (esc(conf1.cluster) + n1), "/" + (esc(conf2.cluster) + n2);
    StripPrefix(HttpURL(ServerAddr(conf1)) + "/configs/", esc(conf1.appId) + k1, esc(conf2.appId) + k2);
    SplitUnique('/', esc(conf1.appId), k1, esc(conf2.appId), k2);
    StripPrefix("/", esc(conf1.cluster) + n1, esc(conf2.cluster) + n2);
    SplitUnique('/', esc(conf1.cluster), n1, esc(conf2.cluster), n2);
    StripPrefix("/", esc(ns1) + q1, esc(ns2) + q2);
    SplitUnique('?', esc(ns1), q1, esc(ns2), q2);
    StripPrefix("?releaseKey=", rk1 + i1, rk2 + i2);
    if '&' !in rk1 && '&' !in rk2 {
      SplitUnique('&', rk1, i1, rk2, i2);
      StripPrefix("&ip=", ip1, ip2);
    }
  }

  /**
   * With an escape that keeps separators out and loses nothing, the long-poll URL of a server
   * determines the application id, the cluster and the notifications it carries.
   */
  lemma NotificationURLInjective(conf1: Conf, n1: string, conf2: Conf, n2: string, esc: string -> string)
    requires Escapes(esc) && Injective(esc)
    requires HttpURL(ServerAddr(conf1)) == HttpURL(ServerAddr(conf2))
    requires NotificationURL(conf1, n1, esc) == NotificationURL(conf2, n2, esc)
    ensures conf1.appId == conf2.appId && conf1.cluster == conf2.cluster && n1 == n2
  {
    var t1, t2 := "&notifications=" + esc(n1), "&notifications=" + esc(n2);
    var k1, k2 := "&cluster=" + (esc(conf1.cluster) + t1), "&cluster=" + (esc(conf2.cluster) + t2);
    StripPrefix(HttpURL(ServerAddr(conf1)) + "/notifications/v2?appId=", esc(conf1.appId) + k1, esc(conf2.appId) + k2);
    SplitUnique('&', esc(conf1.appId), k1, esc(conf2.appId), k2);
    StripPrefix("&cluster=", esc(conf1.cluster) + t1, esc(conf2.cluster) + t2);
    SplitUnique('&', esc(conf1.cluster), t1, esc(conf2.cluster), t2);
    StripPrefix("&notifications=", esc(n1), esc(n2));
  }

  /** When MetaAddr is set, IP plays no part in either URL. */
  lemma MetaAddrOverridesIP(conf: Conf, otherIp: string, namespace: string, releaseKey: string,
                            notifications: string, localIp: string, esc: string -> string)
    requires conf.metaAddr != ""
    ensures NotificationURL(conf.(ip := otherIp), notifications, esc) == NotificationURL(conf, notifications, esc)
    ensures ConfigURL(conf.(ip := otherIp), namespace, releaseKey, localIp, esc)
            == ConfigURL(conf, namespace, releaseKey, localIp, esc)
  {
  }

  /** The zero value of a struct type: every field holds the zero value of its kind. */
  function ZeroValues(t: StructType): (vs: seq<Value>)
    ensures Conforms(t, vs)
  {
    seq(|t.fields|, i requires 0 <= i < |t.fields| => Zero(t.fields[i].kind))
  }

  /** What the field loop of copyStruct leaves in field i of the new struct. */
  function CopiedField(s: StructValue, i: nat): Value
    requires i < |s.values| && i < |s.typ.fields|
  {
    if s.typ.fields[i].exported then s.values[i] else Zero(s.typ.fields[i].kind)
  }

  /** The struct copyStruct builds: exported fields carried over, unexported ones left zero. */
  function ExportedCopy(s: StructValue): (c: StructValue)
    requires Conforms(s.typ, s.values)
    ensures c.typ == s.typ && Conforms(c.typ, c.values)
  {
    StructValue(s.typ, seq(|s.values|, i requires 0 <= i < |s.values| => CopiedField(s, i)))
  }

  /** The copy agrees with the original on every exported field and is zero on every other. */
  lemma ExportedCopyFields(s: StructValue, i: nat)
    requires Conforms(s.typ, s.values) && i < |s.typ.fields|
    ensures s.typ.fields[i].exported ==> ExportedCopy(s).values[i] == s.values[i]
    ensures !s.typ.fields[i].exported ==> ExportedCopy(s).values[i] == Zero(s.typ.fields[i].kind)
  {
  }

  /** Copying a copy changes nothing. */
  lemma ExportedCopyIdempotent(s: StructValue)
    requires Conforms(s.typ, s.values)
    ensures ExportedCopy(ExportedCopy(s)) == ExportedCopy(s)
  {
    var c := ExportedCopy(s);
    assert ExportedCopy(c).values == c.values;
  }

  /** A struct whose fields are all exported is copied to an equal struct. */
  lemma ExportedCopyAllExported(s: StructValue)
    requires Conforms(s.typ, s.values)
    requires forall i :: 0 <= i < |s.typ.fields| ==> s.typ.fields[i].exported
    ensures ExportedCopy(s) == s
  {
    assert ExportedCopy(s).values == s.values;
  }

  /** The field loop of copyStruct: a zero struct of the type, then every exported field copied. */
  method CopyFields(src: StructValue) returns (out: seq<Value>)
    requires Conforms(src.typ, src.values)
    ensures out == ExportedCopy(src).values
  {
    var t := src.typ;
    out := ZeroValues(t);
    for i := 0 to |t.fields|
      invariant |out| == |t.fields|
      invariant forall j :: 0 <= j < i ==> out[j] == CopiedField(src, j)
      invariant forall j :: i <= j < |t.fields| ==> out[j] == Zero(t.fields[j].kind)
    {
      if t.fields[i].exported {
        out := out[i := src.values[i]];
      }
    }
  }

  /**
   * copyStruct: nil, and anything that is neither a struct nor a pointer to one, give nil;
   * a struct gives a new struct, a pointer to a struct a pointer to a new struct, which the loop
   * fills field by field with the exported fields of the original.
   */
  method CopyStruct(obj: Iface) returns (r: Iface)
    requires obj.IsStructLike() ==> Conforms(obj.StructOf().typ, obj.StructOf().values)
    ensures !obj.IsStructLike() ==> r == Nil
    ensures obj.Struct? ==> r == Struct(ExportedCopy(obj.v))
    ensures obj.Pointer? && obj.target.Struct? ==> r == Pointer(Struct(ExportedCopy(obj.target.v)))
  {
    if obj.Nil? {
      return Nil;
    }
    var isPtr: bool;
    if obj.Struct? {
      isPtr := false;
    } else if obj.Pointer? && obj.target.Struct? {
      isPtr := true;
    } else {
      return Nil;
    }
    var src := if isPtr then obj.target.v else obj.v;
    var out := CopyFields(src);
    var t := src.typ;
    var copied := StructValue(t, out);
    if isPtr {
      r := Pointer(Struct(copied));
    } else {
      r := Struct(copied);
    }
  }

  /** elem: a pointer gives what it points to; anything else is returned as it is. */
  function Elem(obj: Iface): (r: Iface)
    ensures obj.Pointer? ==> r == obj.target
    ensures !obj.Pointer? ==> r == obj
  {
    if obj.Pointer? then obj.target else obj
  }

  /** isLower: whether s starts with an ASCII lower-case letter, which "" does not. */
  function IsLower(s: string): (r: bool)
    ensures r ==> s != [] && 'a' <= s[0] <= 'z'
    ensures s != [] && 'a' <= s[0] <= 'z' ==> r
  {
    |s| != 0 && 'a' <= s[0] <= 'z'
  }
}
