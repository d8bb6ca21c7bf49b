/**
 * `RibbonPropertyHelper`: the load-balancer and timeout settings of a backend,
 * each read from the dynamic configuration through a chain of keys — the most
 * specific one first, then a group or global one, then a hard-coded default.
 */
module RibbonPropertyHelper {
  import opened Wrappers

  /** A Java `int`. */
  newtype Int32 = x: int | -0x8000_0000 <= x < 0x8000_0000

  /**
   * The dynamic configuration, viewed per property type. A key is in `ints`
   * when it is configured with a value that reads as an int, and likewise for
   * `strings` and `bools`; a key that is absent from a view makes the getter
   * fall back to its default.
   */
  datatype Properties = Properties(ints: map<string, Int32>, strings: map<string, string>, bools: map<string, bool>)

  /** An int property with its default. */
  function IntProperty(props: Properties, key: string, default: Int32): Int32
  {
    if key in props.ints then props.ints[key] else default
  }

  /** A string property with its default (None stands for a null default). */
  function StringProperty(props: Properties, key: string, default: Option<string>): Option<string>
  {
    if key in props.strings then Some(props.strings[key]) else default
  }

  /** A boolean property with its default. */
  function BooleanProperty(props: Properties, key: string, default: bool): bool
  {
    if key in props.bools then props.bools[key] else default
  }

  /** The int key is configured with a nonzero value; a configured 0 counts as not configured. */
  predicate SetNonZero(props: Properties, key: string)
  {
    key in props.ints && props.ints[key] != 0
  }

  /** The boolean key is configured to true. */
  predicate SetTrue(props: Properties, key: string)
  {
    key in props.bools && props.bools[key]
  }

  // The property keys, exactly as the getters spell them.

  function MaxConnectionsPerHostKey(serviceName: string): string
  {
    "ribbon." + serviceName + ".hystrix.maxconnections.perhost"
  }
  const MaxConnectionsPerHostGlobalKey: string := "ribbon.hystrix.maxconnections.perhost.global"

  function MaxTotalConnectionsKey(serviceName: string): string
  {
    "ribbon." + serviceName + ".hystrix.maxconnections"
  }
  const MaxTotalConnectionsGlobalKey: string := "ribbon.hystrix.maxconnections.global"

  function MaxAutoRetriesKey(serviceName: string): string
  {
    "ribbon." + serviceName + ".hystrix.maxautoretries"
  }
  const MaxAutoRetriesGlobalKey: string := "ribbon.global.hystrix.maxautoretries.global"

  /** The one key that puts the service name first. */
  function MaxAutoRetriesNextServerKey(serviceName: string): string
  {
    serviceName + ".ribbon.hystrix.maxautoretries.nextserver"
  }
  const MaxAutoRetriesNextServerGlobalKey: string := "ribbon.hystrix.maxautoretries.nextserver.global"

  /** Used for both the route and the group name. */
  function LoadBalanceRuleKey(name: string): string
  {
    "ribbon." + name + ".lb.rule"
  }
  const LoadBalanceRuleGlobalKey: string := "ribbon.lb.rule.global"
  const DefaultLoadBalanceRule: string := "com.netflix.loadbalancer.RetryRule"

  function ConnectTimeoutKey(name: string): string
  {
    "ribbon." + name + ".connect.timeout"
  }
  const ConnectTimeoutGlobalKey: string := "zuul.connect.timeout.global"

  /** Spelt "ribbbon." (three b's), exactly as the Java getter builds the key. */
  function ReadTimeoutKey(name: string): string
  {
    "ribbbon." + name + ".socket.timeout"
  }
  const ReadTimeoutGlobalKey: string := "zuul.socket.timeout.global"

  /** Spelt "ribbbon." (three b's), exactly as the Java getter builds the key. */
  function NextTryKey(name: string): string
  {
    "ribbbon." + name + ".next.try"
  }
  const NextTryGlobalKey: string := "zuul.socket.next.try.global"

  /** Spelt "ribbbon." (three b's), exactly as the Java getter builds the key. */
  function SameTryKey(name: string): string
  {
    "ribbbon." + name + ".same.try"
  }
  const SameTryGlobalKey: string := "zuul.socket.same.try.global"

  /**
   * The two-tier int getters: the service's own value when it is nonzero,
   * otherwise the global value, otherwise the default. The result is 0 only
   * when the global key is explicitly configured to 0.
   */
  function ServiceOrGlobal(props: Properties, serviceKey: string, globalKey: string, default: Int32): (r: Int32)
    requires default != 0
    ensures SetNonZero(props, serviceKey) ==> r == props.ints[serviceKey]
    ensures !SetNonZero(props, serviceKey) && globalKey in props.ints ==> r == props.ints[globalKey]
    ensures !SetNonZero(props, serviceKey) && globalKey !in props.ints ==> r == default
    ensures r == 0 <==> !SetNonZero(props, serviceKey) && globalKey in props.ints && props.ints[globalKey] == 0
  {
    var i := IntProperty(props, serviceKey, 0);
    if i == 0 then IntProperty(props, globalKey, default) else i
  }

  function MaxHttpConnectionsPerHost(props: Properties, serviceName: string): (r: Int32)
    ensures SetNonZero(props, MaxConnectionsPerHostKey(serviceName)) ==> r == props.ints[MaxConnectionsPerHostKey(serviceName)]
    ensures !SetNonZero(props, MaxConnectionsPerHostKey(serviceName)) && MaxConnectionsPerHostGlobalKey in props.ints ==> r == props.ints[MaxConnectionsPerHostGlobalKey]
    ensures MaxConnectionsPerHostKey(serviceName) !in props.ints && MaxConnectionsPerHostGlobalKey !in props.ints ==> r == 500
    ensures r == 0 ==> MaxConnectionsPerHostGlobalKey in props.ints
  {
    ServiceOrGlobal(props, MaxConnectionsPerHostKey(serviceName), MaxConnectionsPerHostGlobalKey, 500)
  }

  function MaxTotalHttpConnections(props: Properties, serviceName: string): (r: Int32)
    ensures SetNonZero(props, MaxTotalConnectionsKey(serviceName)) ==> r == props.ints[MaxTotalConnectionsKey(serviceName)]
    ensures !SetNonZero(props, MaxTotalConnectionsKey(serviceName)) && MaxTotalConnectionsGlobalKey in props.ints ==> r == props.ints[MaxTotalConnectionsGlobalKey]
    ensures MaxTotalConnectionsKey(serviceName) !in props.ints && MaxTotalConnectionsGlobalKey !in props.ints ==> r == 2000
    ensures r == 0 ==> MaxTotalConnectionsGlobalKey in props.ints
  {
    ServiceOrGlobal(props, MaxTotalConnectionsKey(serviceName), MaxTotalConnectionsGlobalKey, 2000)
  }

  function MaxAutoRetries(props: Properties, serviceName: string): (r: Int32)
    ensures SetNonZero(props, MaxAutoRetriesKey(serviceName)) ==> r == props.ints[MaxAutoRetriesKey(serviceName)]
    ensures !SetNonZero(props, MaxAutoRetriesKey(serviceName)) && MaxAutoRetriesGlobalKey in props.ints ==> r == props.ints[MaxAutoRetriesGlobalKey]
    ensures MaxAutoRetriesKey(serviceName) !in props.ints && MaxAutoRetriesGlobalKey !in props.ints ==> r == 1
    ensures r == 0 ==> MaxAutoRetriesGlobalKey in props.ints
  {
    ServiceOrGlobal(props, MaxAutoRetriesKey(serviceName), MaxAutoRetriesGlobalKey, 1)
  }

  function MaxAutoRetriesNextServer(props: Properties, serviceName: string): (r: Int32)
    ensures SetNonZero(props, MaxAutoRetriesNextServerKey(serviceName)) ==> r == props.ints[MaxAutoRetriesNextServerKey(serviceName)]
    ensures !SetNonZero(props, MaxAutoRetriesNextServerKey(serviceName)) && MaxAutoRetriesNextServerGlobalKey in props.ints ==> r == props.ints[MaxAutoRetriesNextServerGlobalKey]
    ensures MaxAutoRetriesNextServerKey(serviceName) !in props.ints && MaxAutoRetriesNextServerGlobalKey !in props.ints ==> r == 1
    ensures r == 0 ==> MaxAutoRetriesNextServerGlobalKey in props.ints
  {
    ServiceOrGlobal(props, MaxAutoRetriesNextServerKey(serviceName), MaxAutoRetriesNextServerGlobalKey, 1)
  }

  /**
   * The three-tier int getters: the route's value when it is nonzero, otherwise
   * the group's when it is nonzero, otherwise the global value, otherwise the
   * default. A nonzero route value wins whatever the group and global say.
   */
  function RouteGroupOrGlobal(props: Properties, routeKey: string, groupKey: string, globalKey: string, default: Int32)
    : (r: Int32)
    requires default != 0
    ensures SetNonZero(props, routeKey) ==> r == props.ints[routeKey]
    ensures !SetNonZero(props, routeKey) && SetNonZero(props, groupKey) ==> r == props.ints[groupKey]
    ensures !SetNonZero(props, routeKey) && !SetNonZero(props, groupKey) ==>
      r == if globalKey in props.ints then props.ints[globalKey] else default
    ensures r == 0 <==>
      !SetNonZero(props, routeKey) && !SetNonZero(props, groupKey) && globalKey in props.ints && props.ints[globalKey] == 0
  {
    var timeout := IntProperty(props, routeKey, 0);
    var timeout := if timeout == 0 then IntProperty(props, groupKey, 0) else timeout;
    if timeout == 0 then IntProperty(props, globalKey, default) else timeout
  }

  function ConnectTimeout(props: Properties, groupName: string, routeName: string): (r: Int32)
    ensures SetNonZero(props, ConnectTimeoutKey(routeName)) ==> r == props.ints[ConnectTimeoutKey(routeName)]
    ensures !SetNonZero(props, ConnectTimeoutKey(routeName)) && SetNonZero(props, ConnectTimeoutKey(groupName)) ==>
      r == props.ints[ConnectTimeoutKey(groupName)]
    ensures !SetNonZero(props, ConnectTimeoutKey(routeName)) && !SetNonZero(props, ConnectTimeoutKey(groupName)) && ConnectTimeoutGlobalKey in props.ints ==>
      r == props.ints[ConnectTimeoutGlobalKey]
    ensures ConnectTimeoutKey(routeName) !in props.ints && ConnectTimeoutKey(groupName) !in props.ints && ConnectTimeoutGlobalKey !in props.ints ==> r == 20000
    ensures r == 0 ==> ConnectTimeoutGlobalKey in props.ints
  {
    RouteGroupOrGlobal(props, ConnectTimeoutKey(routeName), ConnectTimeoutKey(groupName), ConnectTimeoutGlobalKey, 20000)
  }

  function ReadTimeout(props: Properties, groupName: string, routeName: string): (r: Int32)
    ensures SetNonZero(props, ReadTimeoutKey(routeName)) ==> r == props.ints[ReadTimeoutKey(routeName)]
    ensures !SetNonZero(props, ReadTimeoutKey(routeName)) && SetNonZero(props, ReadTimeoutKey(groupName)) ==>
      r == props.ints[ReadTimeoutKey(groupName)]
    ensures !SetNonZero(props, ReadTimeoutKey(routeName)) && !SetNonZero(props, ReadTimeoutKey(groupName)) && ReadTimeoutGlobalKey in props.ints ==>
      r == props.ints[ReadTimeoutGlobalKey]
    ensures ReadTimeoutKey(routeName) !in props.ints && ReadTimeoutKey(groupName) !in props.ints && ReadTimeoutGlobalKey !in props.ints ==> r == 10000
    ensures r == 0 ==> ReadTimeoutGlobalKey in props.ints
  {
    RouteGroupOrGlobal(props, ReadTimeoutKey(routeName), ReadTimeoutKey(groupName), ReadTimeoutGlobalKey, 10000)
  }

  /**
   * The load-balancer rule class: the first of the route's, the group's and the
   * global rule that is configured, with RetryRule when none is. Never null.
   */
  function LoadBalanceRule(props: Properties, groupName: string, routeName: string): (r: Option<string>)
    ensures r.Some?
    ensures LoadBalanceRuleKey(routeName) in props.strings ==> r.value == props.strings[LoadBalanceRuleKey(routeName)]
    ensures LoadBalanceRuleKey(routeName) !in props.strings && LoadBalanceRuleKey(groupName) in props.strings ==>
      r.value == props.strings[LoadBalanceRuleKey(groupName)]
    ensures LoadBalanceRuleKey(routeName) !in props.strings && LoadBalanceRuleKey(groupName) !in props.strings ==>
      r.value == if LoadBalanceRuleGlobalKey in props.strings then props.strings[LoadBalanceRuleGlobalKey]
                 else DefaultLoadBalanceRule
  {
    var rule := StringProperty(props, LoadBalanceRuleKey(routeName), None);
    var rule := if rule.None? then StringProperty(props, LoadBalanceRuleKey(groupName), None) else rule;
    if rule.None? then StringProperty(props, LoadBalanceRuleGlobalKey, Some(DefaultLoadBalanceRule)) else rule
  }

  /**
   * The boolean retry flags: true when the route or the group sets the flag,
   * otherwise the global flag, which defaults to true. So the flag is false
   * exactly when the global key is explicitly false and neither the route nor
   * the group sets it to true.
   */
  function RouteGroupOrGlobalFlag(props: Properties, routeKey: string, groupKey: string, globalKey: string)
    : (r: bool)
    ensures r <==> SetTrue(props, routeKey) || SetTrue(props, groupKey) || BooleanProperty(props, globalKey, true)
    ensures !r <==>
      !SetTrue(props, routeKey) && !SetTrue(props, groupKey) && globalKey in props.bools && !props.bools[globalKey]
  {
    var tryAgain := BooleanProperty(props, routeKey, false);
    var tryAgain := if !tryAgain then BooleanProperty(props, groupKey, false) else tryAgain;
    if !tryAgain then BooleanProperty(props, globalKey, true) else tryAgain
  }

  function RequestSpecificRetryOn(props: Properties, groupName: string, routeName: string): (r: bool)
    ensures SetTrue(props, NextTryKey(routeName)) || SetTrue(props, NextTryKey(groupName)) ==> r
    ensures NextTryGlobalKey !in props.bools ==> r
    ensures !r ==> NextTryGlobalKey in props.bools && !props.bools[NextTryGlobalKey]
  {
    RouteGroupOrGlobalFlag(props, NextTryKey(routeName), NextTryKey(groupName), NextTryGlobalKey)
  }

  function OkToRetryOnAllOperations(props: Properties, groupName: string, routeName: string): (r: bool)
    ensures SetTrue(props, SameTryKey(routeName)) || SetTrue(props, SameTryKey(groupName)) ==> r
    ensures SameTryGlobalKey !in props.bools ==> r
    ensures !r ==> SameTryGlobalKey in props.bools && !props.bools[SameTryGlobalKey]
  {
    RouteGroupOrGlobalFlag(props, SameTryKey(routeName), SameTryKey(groupName), SameTryGlobalKey)
  }

  /** Two configurations agree on an int key: both leave it out, or both give it the same value. */
  predicate SameInt(p: Properties, q: Properties, key: string)
  {
    (key in p.ints <==> key in q.ints) && (key in p.ints ==> p.ints[key] == q.ints[key])
  }

  /** Two configurations agree on a string key. */
  predicate SameString(p: Properties, q: Properties, key: string)
  {
    (key in p.strings <==> key in q.strings) && (key in p.strings ==> p.strings[key] == q.strings[key])
  }

  /** Two configurations agree on a boolean key. */
  predicate SameBool(p: Properties, q: Properties, key: string)
  {
    (key in p.bools <==> key in q.bools) && (key in p.bools ==> p.bools[key] == q.bools[key])
  }

  /**
   * Each service-level getter reads its service key and its global key and
   * nothing else: two configurations that agree on those two keys give the
   * same value, whatever else they configure.
   */
  lemma ServiceGettersReadOnlyTheirKeys(p: Properties, q: Properties, s: string)
    ensures SameInt(p, q, MaxConnectionsPerHostKey(s)) && SameInt(p, q, MaxConnectionsPerHostGlobalKey) ==>
      MaxHttpConnectionsPerHost(p, s) == MaxHttpConnectionsPerHost(q, s)
    ensures SameInt(p, q, MaxTotalConnectionsKey(s)) && SameInt(p, q, MaxTotalConnectionsGlobalKey) ==>
      MaxTotalHttpConnections(p, s) == MaxTotalHttpConnections(q, s)
    ensures SameInt(p, q, MaxAutoRetriesKey(s)) && SameInt(p, q, MaxAutoRetriesGlobalKey) ==>
      MaxAutoRetries(p, s) == MaxAutoRetries(q, s)
    ensures SameInt(p, q, MaxAutoRetriesNextServerKey(s)) && SameInt(p, q, MaxAutoRetriesNextServerGlobalKey) ==>
      MaxAutoRetriesNextServer(p, s) == MaxAutoRetriesNextServer(q, s)
  {
  }

  /**
   * Each route/group getter reads its route key, its group key and its global
   * key and nothing else.
   */
  lemma RouteGroupGettersReadOnlyTheirKeys(p: Properties, q: Properties, g: string, r: string)
    ensures SameInt(p, q, ConnectTimeoutKey(r)) && SameInt(p, q, ConnectTimeoutKey(g)) &&
            SameInt(p, q, ConnectTimeoutGlobalKey) ==>
      ConnectTimeout(p, g, r) == ConnectTimeout(q, g, r)
    ensures SameInt(p, q, ReadTimeoutKey(r)) && SameInt(p, q, ReadTimeoutKey(g)) &&
            SameInt(p, q, ReadTimeoutGlobalKey) ==>
      ReadTimeout(p, g, r) == ReadTimeout(q, g, r)
    ensures SameString(p, q, LoadBalanceRuleKey(r)) && SameString(p, q, LoadBalanceRuleKey(g)) &&
            SameString(p, q, LoadBalanceRuleGlobalKey) ==>
      LoadBalanceRule(p, g, r) == LoadBalanceRule(q, g, r)
    ensures SameBool(p, q, NextTryKey(r)) && SameBool(p, q, NextTryKey(g)) && SameBool(p, q, NextTryGlobalKey) ==>
      RequestSpecificRetryOn(p, g, r) == RequestSpecificRetryOn(q, g, r)
    ensures SameBool(p, q, SameTryKey(r)) && SameBool(p, q, SameTryKey(g)) && SameBool(p, q, SameTryGlobalKey) ==>
      OkToRetryOnAllOperations(p, g, r) == OkToRetryOnAllOperations(q, g, r)
  {
  }

  /** With nothing configured every getter returns its default. */
  lemma DefaultsWhenUnconfigured(s: string, g: string, r: string)
    ensures var none := Properties(map[], map[], map[]);
      && MaxHttpConnectionsPerHost(none, s) == 500
      && MaxTotalHttpConnections(none, s) == 2000
      && MaxAutoRetries(none, s) == 1
      && MaxAutoRetriesNextServer(none, s) == 1
      && ConnectTimeout(none, g, r) == 20000
      && ReadTimeout(none, g, r) == 10000
      && LoadBalanceRule(none, g, r) == Some("com.netflix.loadbalancer.RetryRule")
      && RequestSpecificRetryOn(none, g, r)
      && OkToRetryOnAllOperations(none, g, r)
  {
  }

  /**
   * A key configured as 0 behaves exactly like an absent key, for every int
   * getter, unless it is one of the global keys (whose 0 is returned as is).
   */
  lemma ExplicitZeroFallsThrough(props: Properties, key: string, s: string, g: string, r: string)
    requires key !in {MaxConnectionsPerHostGlobalKey, MaxTotalConnectionsGlobalKey, MaxAutoRetriesGlobalKey,
                      MaxAutoRetriesNextServerGlobalKey, ConnectTimeoutGlobalKey, ReadTimeoutGlobalKey}
    ensures var zero := props.(ints := props.ints[key := 0]);
      var absent := props.(ints := props.ints - {key});
      && MaxHttpConnectionsPerHost(zero, s) == MaxHttpConnectionsPerHost(absent, s)
      && MaxTotalHttpConnections(zero, s) == MaxTotalHttpConnections(absent, s)
      && MaxAutoRetries(zero, s) == MaxAutoRetries(absent, s)
      && MaxAutoRetriesNextServer(zero, s) == MaxAutoRetriesNextServer(absent, s)
      && ConnectTimeout(zero, g, r) == ConnectTimeout(absent, g, r)
      && ReadTimeout(zero, g, r) == ReadTimeout(absent, g, r)
  {
  }

  /** No "ribbbon." key is a "ribbon." key. */
  lemma MisspeltPrefixDiffers(a: string, b: string, suffixA: string, suffixB: string)
    ensures "ribbon." + a + suffixA != "ribbbon." + b + suffixB
  {
    assert ("ribbon." + a + suffixA)[6] == '.';
    assert ("ribbbon." + b + suffixB)[6] == 'n';
  }

  /**
   * Because of the "ribbbon." spelling, a read timeout or retry flag
   * configured under the correctly spelt "ribbon." key is never consulted.
   */
  lemma CorrectlySpeltKeysAreIgnored(props: Properties, g: string, r: string, name: string, timeout: Int32, flag: bool)
    ensures var k := "ribbon." + name + ".socket.timeout";
      ReadTimeout(props.(ints := props.ints[k := timeout]), g, r) == ReadTimeout(props, g, r)
    ensures var k := "ribbon." + name + ".next.try";
      RequestSpecificRetryOn(props.(bools := props.bools[k := flag]), g, r) == RequestSpecificRetryOn(props, g, r)
    ensures var k := "ribbon." + name + ".same.try";
      OkToRetryOnAllOperations(props.(bools := props.bools[k := flag]), g, r) == OkToRetryOnAllOperations(props, g, r)
  {
    MisspeltPrefixDiffers(name, r, ".socket.timeout", ".socket.timeout");
    MisspeltPrefixDiffers(name, g, ".socket.timeout", ".socket.timeout");
    MisspeltPrefixDiffers(name, r, ".next.try", ".next.try");
    MisspeltPrefixDiffers(name, g, ".next.try", ".next.try");
    MisspeltPrefixDiffers(name, r, ".same.try", ".same.try");
    MisspeltPrefixDiffers(name, g, ".same.try", ".same.try");
    assert ("ribbon." + name + ".socket.timeout")[0] != ReadTimeoutGlobalKey[0];
    assert ("ribbon." + name + ".next.try")[0] != NextTryGlobalKey[0];
    assert ("ribbon." + name + ".same.try")[0] != SameTryGlobalKey[0];
  }
}
