/**
 * `MappingFilter`: the gateway's route table and the resolution of a request
 * path to an upstream URL.
 *
 * The filter keeps four process-wide maps: the servers of each pattern, the
 * options of each pattern, and two caches filled lazily by resolution — the
 * servers of each resolved path and the pattern each resolved path matched.
 * A rebuild parses a routes text into fresh pattern maps, installs them and
 * empties both caches; a lookup serves a cached path directly and otherwise
 * takes the first pattern, in the table's key order, that the Ant matcher
 * accepts.
 */
module MappingFilter {
  import opened Wrappers
  import opened JavaStrings
  import opened RouteTable

  /** The exceptions the filter's request path can end in. */
  datatype GatewayError =
    | GatewayException(message: string, status: int)
    | NullPointerException
    | StringIndexOutOfBoundsException

  /** What a lookup throws when no pattern matches the path. */
  const ApiNotFound: GatewayError := GatewayException("API Not Found", 400)

  /**
   * The index in `order` of the first pattern that `matches` accepts for `path`,
   * searching from index `from`.
   */
  function FirstMatchFrom(order: seq<string>, path: string, matches: (string, string) -> bool, from: nat)
    : (r: Option<nat>)
    requires from <= |order|
    ensures r.Some? ==> from <= r.value < |order| && matches(order[r.value], path)
    ensures forall j :: from <= j < |order| && (r.None? || j < r.value) ==> !matches(order[j], path)
    decreases |order| - from
  {
    if from == |order| then None
    else if matches(order[from], path) then Some(from)
    else FirstMatchFrom(order, path, matches, from + 1)
  }

  /** The index of the first pattern in `order` that accepts `path`, or None when none does. */
  function FirstMatch(order: seq<string>, path: string, matches: (string, string) -> bool): (r: Option<nat>)
    ensures r.Some? ==> r.value < |order| && matches(order[r.value], path)
    ensures forall j :: 0 <= j < |order| && (r.None? || j < r.value) ==> !matches(order[j], path)
  {
    FirstMatchFrom(order, path, matches, 0)
  }

  /** `(int) (random * n)`: the server index drawn from a random number in [0, 1). */
  function PickIndex(random: real, n: nat): (i: nat)
    requires 0.0 <= random < 1.0 && n > 0
    ensures i < n
  {
    var x := random * (n as real);
    assert 0.0 <= x < n as real;
    x.Floor
  }

  /** The query string as appended to the URL: `"?" + query`, or nothing when there is none. */
  function QuerySuffix(query: Option<string>): string
  {
    if query.None? then "" else "?" + query.value
  }

  /** Whether a pattern's options ask for its literal prefix to be stripped. */
  function StripPrefixEnabled(options: map<string, string>): bool
  {
    BooleanValueOf(Get(options, "stripPrefix"))
  }

  /** The two-character sequence slash-star occurs somewhere in the pattern. */
  predicate HasWildcardSegment(pattern: string)
  {
    exists k :: 0 <= k < |pattern| && OccursAt(pattern, "/*", k)
  }

  /** The part of a pattern before its first slash-star. */
  function LiteralPrefix(pattern: string): (r: string)
    requires HasWildcardSegment(pattern)
    ensures OccursAt(pattern, "/*", |r|) && r == pattern[..|r|]
    ensures forall k :: 0 <= k < |r| ==> !OccursAt(pattern, "/*", k)
  {
    pattern[..IndexOf(pattern, "/*")]
  }

  /**
   * The upstream URL for a request on `path` that matched `pattern` and was
   * given `server`. The pattern's option map must exist (otherwise Java throws
   * a NullPointerException); when its "stripPrefix" option reads as true the
   * pattern's literal prefix is removed from the path, which needs a slash-star in
   * the pattern (otherwise `substring(0, -1)` throws).
   */
  function RewriteUrl(server: string, path: string, pattern: string,
                      configs: map<string, map<string, string>>, query: Option<string>)
    : (r: Result<string, GatewayError>)
    ensures pattern !in configs ==> r == Err(NullPointerException)
    ensures pattern in configs && !StripPrefixEnabled(configs[pattern]) ==>
      r == Ok(server + path + QuerySuffix(query))
    ensures pattern in configs && StripPrefixEnabled(configs[pattern]) && !HasWildcardSegment(pattern) ==>
      r == Err(StringIndexOutOfBoundsException)
    ensures pattern in configs && StripPrefixEnabled(configs[pattern]) && HasWildcardSegment(pattern) ==>
      r == Ok(server + RemoveStart(path, LiteralPrefix(pattern)) + QuerySuffix(query))
  {
    if pattern !in configs then Err(NullPointerException)
    else if !StripPrefixEnabled(configs[pattern]) then Ok(server + path + QuerySuffix(query))
    else
      var k := IndexOf(pattern, "/*");
      if k < 0 then Err(StringIndexOutOfBoundsException)
      else Ok(server + RemoveStart(path, pattern[..k]) + QuerySuffix(query))
  }

  /** The route table and its two resolution caches. */
  class MappingFilter {
    /** pattern -> servers */
    var serverMap: map<string, seq<string>>
    /** pattern -> options */
    var serverConfigMap: map<string, map<string, string>>
    /** resolved path -> servers (cache) */
    var routesTable: map<string, seq<string>>
    /** resolved path -> the pattern it matched (cache) */
    var matchers: map<string, string>
    /** The Ant path matcher: `matches(pattern, path)`. */
    const matches: (string, string) -> bool

    /**
     * The pattern maps are well formed, and every cached path is cached in
     * both maps, under a pattern of the table that accepts it, with that
     * pattern's current server list.
     */
    ghost predicate Valid()
      reads this
    {
      && WellFormed(Tables(serverMap, serverConfigMap))
      && routesTable.Keys == matchers.Keys
      && forall path :: path in matchers ==>
           && matchers[path] in serverMap
           && matches(matchers[path], path)
           && routesTable[path] == serverMap[matchers[path]]
    }

    /** `order` lists the keys of the server map, each once: the order a key-set iteration visits them. */
    ghost predicate IsKeyOrder(order: seq<string>)
      reads this
    {
      && (forall i :: 0 <= i < |order| ==> order[i] in serverMap)
      && (forall p :: p in serverMap ==> p in order)
      && (forall i, j :: 0 <= i < j < |order| ==> order[i] != order[j])
    }

    /**
     * The pattern a lookup of `path` settles on: the cached one on a cache hit,
     * otherwise the first pattern in `order` that accepts the path.
     */
    ghost function Lookup(path: string, order: seq<string>): (r: Option<string>)
      reads this
      requires Valid() && IsKeyOrder(order)
      ensures r.Some? ==> r.value in serverMap && matches(r.value, path)
      ensures path in routesTable ==> r == Some(matchers[path])
      ensures path !in routesTable && r.None? ==> forall p :: p in serverMap ==> !matches(p, path)
      ensures path !in routesTable && r.Some? ==>
        exists i :: 0 <= i < |order| && order[i] == r.value && forall j :: 0 <= j < i ==> !matches(order[j], path)
    {
      if path in routesTable && |routesTable[path]| > 0 then Some(matchers[path])
      else
        match FirstMatch(order, path, matches)
        case None => None
        case Some(i) => Some(order[i])
    }

    /** An empty table with empty caches. */
    constructor (matches: (string, string) -> bool)
      ensures Valid() && this.matches == matches
      ensures serverMap == map[] && serverConfigMap == map[] && routesTable == map[] && matchers == map[]
    {
      this.matches := matches;
      serverMap := map[];
      serverConfigMap := map[];
      routesTable := map[];
      matchers := map[];
    }

    /**
     * Rebuild from the routes text (None stands for null). An absent or empty
     * text changes nothing. Otherwise both pattern maps are replaced by the
     * ones parsed from the text and both caches are emptied.
     */
    method BuildRoutesTable(routesTableString: Option<string>)
      requires Valid()
      modifies this
      ensures Valid()
      ensures routesTableString.None? || routesTableString.value == "" ==>
        && serverMap == old(serverMap) && serverConfigMap == old(serverConfigMap)
        && routesTable == old(routesTable) && matchers == old(matchers)
      ensures routesTableString.Some? && routesTableString.value != "" ==>
        && Tables(serverMap, serverConfigMap) == ParseRoutesTable(routesTableString.value)
        && routesTable == map[] && matchers == map[]
    {
      if routesTableString.None? || routesTableString.value == "" {
        return;
      }
      var newServerMap: map<string, seq<string>> := map[];
      var newServerConfigMap: map<string, map<string, string>> := map[];

      var routes := JavaSplit(routesTableString.value, '\n');
      for i := 0 to |routes|
        invariant Tables(newServerMap, newServerConfigMap) == BuildTables(ParseLines(routes[..i]))
      {
        NextLine(routes, i);
        var route := routes[i];
        if route == "" {
          continue;
        }
        var parts := CommonsSplit(route, ';');
        if |parts| != 2 {
          continue;
        }
        var routeMappingString := parts[0];
        if routeMappingString == "" {
          continue;
        }
        var routeMappings := JavaSplit(routeMappingString, '=');
        if |routeMappings| != 2 {
          continue;
        }
        var mappingAnt := routeMappings[0];
        var serverString := routeMappings[1];
        if mappingAnt == "" || serverString == "" {
          continue;
        }
        var servers := PipeRegexSplit(serverString);
        newServerMap := newServerMap[mappingAnt := servers];

        var routesConfigString := parts[1];
        if routesConfigString == "" {
          continue;
        }
        var routesConfigs := JavaSplit(routesConfigString, '&');
        newServerConfigMap := PutConfigs(newServerConfigMap, mappingAnt, routesConfigs);
      }
      assert routes[..|routes|] == routes;
      BuildTablesWellFormed(ParseLines(routes));

      serverMap := newServerMap;
      serverConfigMap := newServerConfigMap;
      routesTable := map[];
      matchers := map[];
    }

    /**
     * The servers for `path`. A cached path is answered from the cache and
     * nothing changes. Otherwise the patterns are tried in `order`; the first
     * that accepts the path is recorded for it in both caches and its servers
     * are returned. When none accepts it, "API Not Found" (400) is thrown and
     * nothing changes.
     */
    method FindServers(path: string, order: seq<string>) returns (r: Result<seq<string>, GatewayError>)
      requires Valid() && IsKeyOrder(order)
      modifies this
      ensures Valid()
      ensures serverMap == old(serverMap) && serverConfigMap == old(serverConfigMap)
      ensures old(path in routesTable) ==>
        r == Ok(old(routesTable[path])) && routesTable == old(routesTable) && matchers == old(matchers)
      ensures old(Lookup(path, order)).None? ==>
        r == Err(ApiNotFound) && routesTable == old(routesTable) && matchers == old(matchers)
      ensures old(Lookup(path, order)).Some? ==>
        var pattern := old(Lookup(path, order)).value;
        && r == Ok(serverMap[pattern])
        && routesTable == old(routesTable)[path := serverMap[pattern]]
        && matchers == old(matchers)[path := pattern]
    {
      if path in routesTable && |routesTable[path]| > 0 {
        return Ok(routesTable[path]);
      }

      var matched := false;
      for i := 0 to |order|
        invariant forall j :: 0 <= j < i ==> !matches(order[j], path)
        invariant !matched && routesTable == old(routesTable) && matchers == old(matchers)
      {
        var mappingAnt := order[i];
        if matches(mappingAnt, path) {
          matched := true;
          routesTable := routesTable[path := serverMap[mappingAnt]];
          matchers := matchers[path := mappingAnt];
          assert FirstMatch(order, path, matches) == Some(i);
          break;
        }
      }

      if !matched {
        return Err(ApiNotFound);
      }
      return Ok(routesTable[path]);
    }

    /**
     * The URL a request is forwarded to. The context path is removed from the
     * URI, the servers of the resulting path are looked up, one of them is
     * chosen by `random`, and the path is rewritten as the matched pattern's
     * options say.
     */
    method Run(uri: string, contextPath: string, queryString: Option<string>, order: seq<string>, random: real)
      returns (r: Result<string, GatewayError>)
      requires Valid() && IsKeyOrder(order) && 0.0 <= random < 1.0
      modifies this
      ensures Valid()
      ensures serverMap == old(serverMap) && serverConfigMap == old(serverConfigMap)
      ensures old(Lookup(RemoveStart(uri, contextPath), order)).None? ==>
        r == Err(ApiNotFound) && routesTable == old(routesTable) && matchers == old(matchers)
      ensures old(Lookup(RemoveStart(uri, contextPath), order)).Some? ==>
        var path := RemoveStart(uri, contextPath);
        var pattern := old(Lookup(path, order)).value;
        var servers := serverMap[pattern];
        && |servers| > 0
        && routesTable == old(routesTable)[path := servers]
        && matchers == old(matchers)[path := pattern]
        && r == RewriteUrl(servers[PickIndex(random, |servers|)], path, pattern, serverConfigMap, queryString)
    {
      var path := RemoveStart(uri, contextPath);

      var found := FindServers(path, order);
      if found.Err? {
        return Err(found.error);
      }
      var servers := found.value;

      var index := PickIndex(random, |servers|);
      var server := servers[index];

      var mappingAnt := matchers[path];
      if mappingAnt !in serverConfigMap {
        return Err(NullPointerException);
      }
      var stripPrefix := BooleanValueOf(Get(serverConfigMap[mappingAnt], "stripPrefix"));

      if stripPrefix {
        var k := IndexOf(mappingAnt, "/*");
        if k < 0 {
          return Err(StringIndexOutOfBoundsException);
        }
        var prefix := mappingAnt[..k];
        path := RemoveStart(path, prefix);
      }

      r := Ok(server + path + QuerySuffix(queryString));
    }
  }

  /**
   * The inner loop of the rebuild: each item of one line's option segment that
   * splits on '=' into exactly two parts is put into the pattern's option map,
   * which is created on the first such item; other items are ignored.
   */
  method PutConfigs(serverConfigMap: map<string, map<string, string>>, mappingAnt: string, routesConfigs: seq<string>)
    returns (result: map<string, map<string, string>>)
    ensures result == ApplyConfigItems(serverConfigMap, mappingAnt, routesConfigs)
  {
    result := serverConfigMap;
    for j := 0 to |routesConfigs|
      invariant result == ApplyConfigItems(serverConfigMap, mappingAnt, routesConfigs[..j])
    {
      ApplyConfigItemsStep(serverConfigMap, mappingAnt, routesConfigs, j);
      var serverConfigItem := JavaSplit(routesConfigs[j], '=');
      if |serverConfigItem| != 2 {
        continue;
      }
      result := PutConfig(result, mappingAnt, serverConfigItem[0], serverConfigItem[1]);
    }
    assert routesConfigs[..|routesConfigs|] == routesConfigs;
  }

  /** One option put: the pattern's option map is fetched, created when missing, and updated. */
  method PutConfig(serverConfigMap: map<string, map<string, string>>, mappingAnt: string, key: string, value: string)
    returns (result: map<string, map<string, string>>)
    ensures result == PutOption(serverConfigMap, mappingAnt, key, value)
  {
    result := serverConfigMap;
    var configs: map<string, string>;
    if mappingAnt in result {
      configs := result[mappingAnt];
    } else {
      configs := map[];
      result := result[mappingAnt := configs];
    }
    configs := configs[key := value];
    result := result[mappingAnt := configs];
    assert result == serverConfigMap[mappingAnt := configs];
  }

  /** Appending one line to the text processed so far adds that line's parse to the fold. */
  lemma NextLine(routes: seq<string>, i: nat)
    requires i < |routes|
    ensures BuildTables(ParseLines(routes[..i + 1]))
         == AddLine(BuildTables(ParseLines(routes[..i])), ParseLine(routes[i]))
  {
    var lines := ParseLines(routes[..i + 1]);
    assert lines[..i] == ParseLines(routes[..i]);
  }

  /**
   * Resolving the same path twice in a row gives the same result, and after a
   * successful resolution the path stays cached with the servers returned.
   */
  method ResolveTwice(filter: MappingFilter, path: string, order: seq<string>)
    returns (first: Result<seq<string>, GatewayError>, second: Result<seq<string>, GatewayError>)
    requires filter.Valid() && filter.IsKeyOrder(order)
    modifies filter
    ensures first == second
    ensures first.Ok? ==> path in filter.routesTable && filter.routesTable[path] == first.value
  {
    first := filter.FindServers(path, order);
    ghost var afterFirst := (filter.routesTable, filter.matchers);
    second := filter.FindServers(path, order);
    assert (filter.routesTable, filter.matchers) == afterFirst;
  }

  /**
   * After a rebuild, a path is resolved against the new patterns only: when no
   * new pattern accepts it the lookup fails, whatever was cached before.
   */
  method ResolveAfterRebuild(filter: MappingFilter, text: string, path: string, order: seq<string>)
    returns (r: Result<seq<string>, GatewayError>)
    requires filter.Valid() && text != ""
    requires var patterns := ParseRoutesTable(text).servers;
      && (forall i :: 0 <= i < |order| ==> order[i] in patterns)
      && (forall p :: p in patterns ==> p in order)
      && (forall i, j :: 0 <= i < j < |order| ==> order[i] != order[j])
    modifies filter
    ensures FirstMatch(order, path, filter.matches).None? ==> r == Err(ApiNotFound)
    ensures FirstMatch(order, path, filter.matches).Some? ==>
      r == Ok(ParseRoutesTable(text).servers[order[FirstMatch(order, path, filter.matches).value]])
  {
    filter.BuildRoutesTable(Some(text));
    r := filter.FindServers(path, order);
  }

  /** The literal prefix of the example pattern, and what removing it leaves of the example path. */
  lemma ExamplePrefix()
    ensures HasWildcardSegment("/s/**") && LiteralPrefix("/s/**") == "/s"
    ensures RemoveStart("/s/weather", "/s") == "/weather"
  {
    var pattern := "/s/**";
    assert pattern[2..4] == "/*";
    assert OccursAt(pattern, "/*", 2);
    assert pattern[0..2][1] == 's' && pattern[1..3][0] == 's';
    assert "/s/weather"[..2] == "/s";
  }

  /**
   * Stripping on a concrete request: under a pattern "/s/" followed by two stars,
   * "/s/weather" goes out as "/weather" when stripPrefix is "true", and unchanged
   * when it is "false" or when the pattern has options but no stripPrefix.
   */
  lemma StripPrefixExample(server: string)
    ensures RewriteUrl(server, "/s/weather", "/s/**", map["/s/**" := map["stripPrefix" := "true"]], None)
         == Ok(server + "/weather")
    ensures RewriteUrl(server, "/s/weather", "/s/**", map["/s/**" := map["stripPrefix" := "false"]], None)
         == Ok(server + "/s/weather")
    ensures RewriteUrl(server, "/s/weather", "/s/**", map["/s/**" := map["x" := "y"]], Some("a=1"))
         == Ok(server + "/s/weather?a=1")
  {
    var pattern := "/s/**";
    ExamplePrefix();

    var on := map[pattern := map["stripPrefix" := "true"]];
    assert StripPrefixEnabled(on[pattern]);
    assert server + "/weather" + QuerySuffix(None) == server + "/weather";

    var off := map[pattern := map["stripPrefix" := "false"]];
    assert |"false"| == 5;
    assert !StripPrefixEnabled(off[pattern]);
    assert server + "/s/weather" + QuerySuffix(None) == server + "/s/weather";

    var unset := map[pattern := map["x" := "y"]];
    assert !StripPrefixEnabled(unset[pattern]);
    assert QuerySuffix(Some("a=1")) == "?a=1";
    assert server + "/s/weather" + "?a=1" == server + "/s/weather?a=1";
  }

}
