# Route table and property fallback of the gateway

A Dafny model of two pieces of the gateway's request routing.

**`MappingFilter`** keeps four process-wide maps: the servers of each Ant
pattern, the options of each pattern, and two caches that resolution fills
lazily (the servers of each resolved path, and the pattern it matched). The
model is the class `MappingFilter.MappingFilter` with those four maps as
fields and three operations:

- `BuildRoutesTable` parses a routes text made of lines
  `pattern=servers;key=value&key=value` into fresh pattern maps. It installs
  them and empties both caches. An absent or empty text changes nothing. The
  parse is specified by the pure functions of module `RouteTable`, and the
  method's loops are proved to compute them.
- `FindServers` answers a cached path from the cache. Otherwise it takes the
  first pattern, in the table's key order, that the Ant matcher accepts, and
  records it in both caches. When no pattern matches it fails with
  "API Not Found" (400).
- `Run` removes the context path and looks the path up. It picks a server
  by the random number, strips the pattern's literal prefix when the
  `stripPrefix` option says so, and builds `server + path [+ "?" + query]`.

The class invariant `Valid` says four things. Every pattern with options has
servers. Every server list is non-empty. Both caches hold the same paths. Each
cached path is cached under a pattern of the table that accepts it, with that
pattern's current server list. All three operations keep it.

Three string splitters with different treatment of empty tokens decide which
lines are accepted. They are modelled one by one in module `JavaStrings`:
commons-lang `StringUtils.split`, Java's `String.split` with a literal
one-character separator, and Java's `String.split("|")`.

**`RibbonPropertyHelper`** reads the load-balancer and timeout settings. Each
getter tries a specific key, then a group or global key, then a hard-coded
default. The dynamic configuration becomes a value of typed maps, and each
getter becomes a pure function over it.

Where the code departs from what it evidently intends, the model follows the
code:

- The server list is cut with the regular expression `|`. It matches the
  empty string, so a server string is cut into single characters, not at
  pipes (`RouteTable.PipeIsNotASeparator`).
- Java's `split("=")` drops trailing empty tokens, so `/a=b=;k=v` is accepted with the
  single server `b`, and an option item `k=v=` sets `k` to `v` (`RouteTable.ParsedLineRenders`,
  `RouteTable.ConfigPairShape`).
- The option segment is mandatory. A line without `;`, or ending in an empty
  segment, is skipped, because commons-lang drops empty fields. The check for
  an empty option segment can therefore never fire.
- A repeated pattern replaces its server list. Its options, though, are merged
  into the options earlier lines gave it.
- A matched pattern with no option map makes `run` throw a
  NullPointerException. Stripping on a pattern without "/" followed by "*"
  throws a StringIndexOutOfBoundsException. Both are modelled as errors.
- The read-timeout and retry-flag keys are spelt `ribbbon.`, so the
  correctly spelt keys are never read (`RibbonPropertyHelper.CorrectlySpeltKeysAreIgnored`).

## Model

| member | source | states |
|---|---|---|
| `JavaStrings.SplitAll` | gateway-core/src/main/java/com/greencloud/gateway/filters/pre/MappingFilter.java:80 | At least one token, and no token contains the separator |
| `JavaStrings.SplitAllJoinsBack` | gateway-core/src/main/java/com/greencloud/gateway/filters/pre/MappingFilter.java:80 | Joining the tokens with the separator gives the string back; concatenating them gives the string without its separators |
| `JavaStrings.SplitAllJoin` | gateway-core/src/main/java/com/greencloud/gateway/filters/pre/MappingFilter.java:80 | Splitting a join of separator-free tokens returns exactly those tokens, so the cutting is unique |
| `JavaStrings.JavaSplit` | gateway-core/src/main/java/com/greencloud/gateway/filters/pre/MappingFilter.java:95 | `String.split`: the whole string as the only token when the separator is absent (even an empty string); otherwise the full token list with only its trailing empty tokens dropped |
| `JavaStrings.JavaSplitDropsTrailingSeparators` | gateway-core/src/main/java/com/greencloud/gateway/filters/pre/MappingFilter.java:95 | The string is its `String.split` tokens joined back, followed by separators only |
| `JavaStrings.SplitInTwo` | gateway-core/src/main/java/com/greencloud/gateway/filters/pre/MappingFilter.java:95-98 | When `String.split` gives two tokens, the string is the first token, the separator and the non-empty second token, followed by separators only; neither token contains the separator |
| `JavaStrings.CommonsSplit` | gateway-core/src/main/java/com/greencloud/gateway/filters/pre/MappingFilter.java:85 | `StringUtils.split`: no token is empty or contains the separator, and the tokens joined with the separator give the string with leading and trailing separators removed and inner runs collapsed to one. So the tokens are the maximal separator-free runs, in order, and their number is fixed |
| `JavaStrings.CommonsSplitJoin` | gateway-core/src/main/java/com/greencloud/gateway/filters/pre/MappingFilter.java:85 | Splitting a join of non-empty separator-free tokens gives exactly those tokens back |
| `JavaStrings.PipeRegexSplit` | gateway-core/src/main/java/com/greencloud/gateway/filters/pre/MappingFilter.java:105 | `split("\|")`: one one-character string per character of a non-empty input, and `[""]` for the empty one |
| `JavaStrings.RemoveStart` | gateway-core/src/main/java/com/greencloud/gateway/filters/pre/MappingFilter.java:155 | The result is the rest of the string after the prefix when the string starts with it, and the string unchanged otherwise |
| `JavaStrings.IndexOf` | gateway-core/src/main/java/com/greencloud/gateway/filters/pre/MappingFilter.java:167 | -1 exactly when the substring occurs nowhere; otherwise an index where it occurs, with no earlier occurrence |
| `JavaStrings.BooleanValueOf` | gateway-core/src/main/java/com/greencloud/gateway/filters/pre/MappingFilter.java:164 | True exactly for a non-null four-letter string reading "true" in any letter case |
| `RouteTable.ParseLine` | gateway-core/src/main/java/com/greencloud/gateway/filters/pre/MappingFilter.java:81-106 | An accepted line's ';' split has exactly two fields; its pattern is non-empty and has no '='; its server list is non-empty, with one character per entry |
| `RouteTable.ParsedLineRenders` | gateway-core/src/main/java/com/greencloud/gateway/filters/pre/MappingFilter.java:81-106 | The converse of `RenderedLineParses`. Once empty ';' fields are squeezed out, every accepted line is `pattern=servers;options`. The servers come from a non-empty server string without '=' or ';', which may be followed by '=' characters the split drops. The items come from the non-empty option segment |
| `RouteTable.MappingFieldRenders` | gateway-core/src/main/java/com/greencloud/gateway/filters/pre/MappingFilter.java:95-104 | A mapping field split into two parts is pattern, '=' and a server string without '=', then only '=' characters |
| `RouteTable.RenderedLineParses` | gateway-core/src/main/java/com/greencloud/gateway/filters/pre/MappingFilter.java:85-114 | A line built from a pattern, a server string and an option segment (non-empty, no ';', no '=' in the first two) parses back to that pattern, the per-character servers and the '&' items |
| `RouteTable.LineWithoutSemicolonIsRejected` | gateway-core/src/main/java/com/greencloud/gateway/filters/pre/MappingFilter.java:85-88 | A line without ';' never yields a route |
| `RouteTable.EmptyOptionSegmentIsRejected` | gateway-core/src/main/java/com/greencloud/gateway/filters/pre/MappingFilter.java:85-88 | `pattern=servers;` never yields a route, so the empty-options branch is unreachable |
| `RouteTable.PipeIsNotASeparator` | gateway-core/src/main/java/com/greencloud/gateway/filters/pre/MappingFilter.java:105-106 | For servers `a\|b`, the list has \|a\|+1+\|b\| entries: a's characters, then "\|" as a server of its own |
| `RouteTable.RejectedLineIsSkipped` | gateway-core/src/main/java/com/greencloud/gateway/filters/pre/MappingFilter.java:81-104 | A skipped line leaves the built tables exactly as if it were absent from the text |
| `RouteTable.ServerKeysAreDeclaredPatterns` | gateway-core/src/main/java/com/greencloud/gateway/filters/pre/MappingFilter.java:100-106 | A pattern has a server entry exactly when some accepted line declares it |
| `RouteTable.LastDeclarationWins` | gateway-core/src/main/java/com/greencloud/gateway/filters/pre/MappingFilter.java:106 | A repeated pattern's server list is that of the last accepted line declaring it |
| `RouteTable.BuildTablesWellFormed` | gateway-core/src/main/java/com/greencloud/gateway/filters/pre/MappingFilter.java:105-123 | Every pattern with options also has servers, and every server list is non-empty |
| `RouteTable.ConfigKeysHavePairs` | gateway-core/src/main/java/com/greencloud/gateway/filters/pre/MappingFilter.java:113-123 | A pattern has an option map exactly when a line declaring it has a well-formed `key=value` item, so all-ignored items give no entry |
| `RouteTable.ApplyConfigItemsKeys` | gateway-core/src/main/java/com/greencloud/gateway/filters/pre/MappingFilter.java:113-124 | A line's items touch only its own pattern's options, and give it an option map exactly when it had one or an item is well formed |
| `RouteTable.ConfigPairShape` | gateway-core/src/main/java/com/greencloud/gateway/filters/pre/MappingFilter.java:114-117 | An accepted option item is its key, '=' and a non-empty value, neither holding '=', then only '=' characters; so `k=` is ignored |
| `RouteTable.ConfigPairParses` | gateway-core/src/main/java/com/greencloud/gateway/filters/pre/MappingFilter.java:114-123 | An item `key=value` with a non-empty value and no '=' in either part is accepted as that pair |
| `RouteTable.PutOption` | gateway-core/src/main/java/com/greencloud/gateway/filters/pre/MappingFilter.java:118-123 | Putting a pair sets that key, creates the pattern's map if needed and keeps its other keys and all other patterns |
| `RouteTable.LastPairWins` | gateway-core/src/main/java/com/greencloud/gateway/filters/pre/MappingFilter.java:113-124 | Within a line, the last well-formed pair for a key sets that key |
| `RouteTable.UnsetKeyKeepsValue` | gateway-core/src/main/java/com/greencloud/gateway/filters/pre/MappingFilter.java:118-123 | Options accumulate: a key that a later line does not set keeps its earlier value |
| `MappingFilter.PutConfigs` | gateway-core/src/main/java/com/greencloud/gateway/filters/pre/MappingFilter.java:112-124 | The item loop computes the option map the specification gives for the line's items |
| `MappingFilter.PutConfig` | gateway-core/src/main/java/com/greencloud/gateway/filters/pre/MappingFilter.java:118-123 | Fetching the pattern's option map, creating it when missing and putting the pair yields exactly `PutOption` |
| `MappingFilter.MappingFilter.constructor` | gateway-core/src/main/java/com/greencloud/gateway/filters/pre/MappingFilter.java:34-48 | All four maps start empty and the invariant holds |
| `MappingFilter.MappingFilter.BuildRoutesTable` | gateway-core/src/main/java/com/greencloud/gateway/filters/pre/MappingFilter.java:68-131 | A null or empty text changes none of the four maps. Otherwise both pattern maps become the parsed tables and both caches are emptied. The invariant is kept |
| `MappingFilter.MappingFilter.Lookup` | gateway-core/src/main/java/com/greencloud/gateway/filters/pre/MappingFilter.java:178-194 | The pattern a lookup settles on is in the table and accepts the path. A cached path gives its cached pattern. Otherwise it is the first pattern in the key order that accepts the path, and None means that no pattern of the table accepts it |
| `MappingFilter.FirstMatch` | gateway-core/src/main/java/com/greencloud/gateway/filters/pre/MappingFilter.java:186-194 | The index of a pattern accepting the path with none accepting it earlier, or None exactly when no pattern accepts it |
| `MappingFilter.MappingFilter.FindServers` | gateway-core/src/main/java/com/greencloud/gateway/filters/pre/MappingFilter.java:177-201 | A cache hit returns the cached list and changes nothing. A miss returns the first matching pattern's servers and caches it in both maps. No match throws "API Not Found" (400) and changes nothing. The invariant is kept |
| `MappingFilter.PickIndex` | gateway-core/src/main/java/com/greencloud/gateway/filters/pre/MappingFilter.java:159 | The index drawn from a random number in [0, 1) lies below the list length |
| `MappingFilter.LiteralPrefix` | gateway-core/src/main/java/com/greencloud/gateway/filters/pre/MappingFilter.java:167 | The prefix is the part of the pattern before its first "/" followed by "*" |
| `MappingFilter.RewriteUrl` | gateway-core/src/main/java/com/greencloud/gateway/filters/pre/MappingFilter.java:162-171 | With no option map: NullPointerException. Stripping only when stripPrefix is "true" in any case. Stripping needs "/" then "*" in the pattern, else StringIndexOutOfBounds. URL is server + (stripped) path + "?query" only when a query exists |
| `MappingFilter.MappingFilter.Run` | gateway-core/src/main/java/com/greencloud/gateway/filters/pre/MappingFilter.java:149-175 | A failed lookup gives "API Not Found". Otherwise both caches record the path's pattern and the result is the rewrite for the chosen server |
| `MappingFilter.ResolveTwice` | gateway-core/src/main/java/com/greencloud/gateway/filters/pre/MappingFilter.java:178-182 | Resolving a path twice in a row gives the same result, and after a successful resolution the path stays cached with the servers returned |
| `MappingFilter.ResolveAfterRebuild` | gateway-core/src/main/java/com/greencloud/gateway/filters/pre/MappingFilter.java:126-130 | After a rebuild a path resolves against the new patterns only, and fails when none of them accepts it |
| `MappingFilter.StripPrefixExample` | gateway-core/src/main/java/com/greencloud/gateway/filters/pre/MappingFilter.java:164-171 | Under "/s/" followed by two stars, "/s/weather" becomes "/weather" with stripPrefix=true. It stays as it is with "false", or with options that lack stripPrefix; there a query string "a=1" is appended as "?a=1" |
| `RibbonPropertyHelper.ServiceOrGlobal` | gateway-core/src/main/java/com/greencloud/gateway/ribbon/RibbonPropertyHelper.java:14-60 | A nonzero service value wins. Otherwise the global value is used, else the default. The result is 0 only if the global key is explicitly 0 |
| `RibbonPropertyHelper.MaxHttpConnectionsPerHost` | gateway-core/src/main/java/com/greencloud/gateway/ribbon/RibbonPropertyHelper.java:14-24 | Key "ribbon.<service>.hystrix.maxconnections.perhost" when nonzero, else "ribbon.hystrix.maxconnections.perhost.global", default 500; 0 only if the global key is configured |
| `RibbonPropertyHelper.MaxTotalHttpConnections` | gateway-core/src/main/java/com/greencloud/gateway/ribbon/RibbonPropertyHelper.java:26-36 | Key "ribbon.<service>.hystrix.maxconnections" when nonzero, else "ribbon.hystrix.maxconnections.global", default 2000; 0 only if the global key is configured |
| `RibbonPropertyHelper.MaxAutoRetries` | gateway-core/src/main/java/com/greencloud/gateway/ribbon/RibbonPropertyHelper.java:38-48 | Key "ribbon.<service>.hystrix.maxautoretries" when nonzero, else "ribbon.global.hystrix.maxautoretries.global", default 1; 0 only if the global key is configured |
| `RibbonPropertyHelper.MaxAutoRetriesNextServer` | gateway-core/src/main/java/com/greencloud/gateway/ribbon/RibbonPropertyHelper.java:50-60 | Key "<service>.ribbon.hystrix.maxautoretries.nextserver" when nonzero, else "ribbon.hystrix.maxautoretries.nextserver.global", default 1; 0 only if the global key is configured |
| `RibbonPropertyHelper.ServiceGettersReadOnlyTheirKeys` | gateway-core/src/main/java/com/greencloud/gateway/ribbon/RibbonPropertyHelper.java:14-60 | Each service getter depends on its service key and its global key only: two configurations agreeing on those give the same value |
| `RibbonPropertyHelper.RouteGroupOrGlobal` | gateway-core/src/main/java/com/greencloud/gateway/ribbon/RibbonPropertyHelper.java:79-111 | A nonzero route value wins whatever group and global say. Then a nonzero group value, then the global value, else the default |
| `RibbonPropertyHelper.ConnectTimeout` | gateway-core/src/main/java/com/greencloud/gateway/ribbon/RibbonPropertyHelper.java:79-94 | Key "ribbon.<route>.connect.timeout" when nonzero, else "ribbon.<group>.connect.timeout" when nonzero, else "zuul.connect.timeout.global"; with none of the three configured it is 20000; 0 only if the global key is configured |
| `RibbonPropertyHelper.ReadTimeout` | gateway-core/src/main/java/com/greencloud/gateway/ribbon/RibbonPropertyHelper.java:96-111 | Key "ribbbon.<route>.socket.timeout" when nonzero, else "ribbbon.<group>.socket.timeout" when nonzero, else "zuul.socket.timeout.global"; with none of the three configured it is 10000; 0 only if the global key is configured |
| `RibbonPropertyHelper.LoadBalanceRule` | gateway-core/src/main/java/com/greencloud/gateway/ribbon/RibbonPropertyHelper.java:62-77 | The first configured of the route, group and global rule, else RetryRule; never null |
| `RibbonPropertyHelper.RouteGroupOrGlobalFlag` | gateway-core/src/main/java/com/greencloud/gateway/ribbon/RibbonPropertyHelper.java:113-145 | A flag is route or group or global, with global defaulting to true. It is false exactly when global is explicitly false and neither route nor group is true |
| `RibbonPropertyHelper.RequestSpecificRetryOn` | gateway-core/src/main/java/com/greencloud/gateway/ribbon/RibbonPropertyHelper.java:113-128 | True when "ribbbon.<route>.next.try" or "ribbbon.<group>.next.try" is true, or when "zuul.socket.next.try.global" is unset; false only for an explicit global false |
| `RibbonPropertyHelper.OkToRetryOnAllOperations` | gateway-core/src/main/java/com/greencloud/gateway/ribbon/RibbonPropertyHelper.java:130-145 | True when "ribbbon.<route>.same.try" or "ribbbon.<group>.same.try" is true, or when "zuul.socket.same.try.global" is unset; false only for an explicit global false |
| `RibbonPropertyHelper.RouteGroupGettersReadOnlyTheirKeys` | gateway-core/src/main/java/com/greencloud/gateway/ribbon/RibbonPropertyHelper.java:62-145 | Each route/group getter depends on its route, group and global keys only: two configurations agreeing on those give the same value |
| `RibbonPropertyHelper.DefaultsWhenUnconfigured` | gateway-core/src/main/java/com/greencloud/gateway/ribbon/RibbonPropertyHelper.java:14-145 | With nothing configured the getters return 500, 2000, 1, 1, RetryRule, 20000, 10000, true and true |
| `RibbonPropertyHelper.ExplicitZeroFallsThrough` | gateway-core/src/main/java/com/greencloud/gateway/ribbon/RibbonPropertyHelper.java:18-88 | A non-global key configured as 0 gives every int getter the same result as leaving it out |
| `RibbonPropertyHelper.MisspeltPrefixDiffers` | gateway-core/src/main/java/com/greencloud/gateway/ribbon/RibbonPropertyHelper.java:96-145 | No key starting "ribbbon." equals a key starting "ribbon.", whatever follows |
| `RibbonPropertyHelper.CorrectlySpeltKeysAreIgnored` | gateway-core/src/main/java/com/greencloud/gateway/ribbon/RibbonPropertyHelper.java:96-145 | Setting "ribbon.<name>.socket.timeout", ".next.try" or ".same.try" never changes the read timeout or the retry flags |

## Left out

- The Ant path matcher's code is not part of this model. The matcher is the class constant `matches(pattern, path)`, an arbitrary total function, so no glob semantics are assumed.
- The hash map's key iteration order is not modelled. `FindServers` and `Run` take the order as a sequence that lists each pattern of the table once.
- Math.random is a number in [0, 1) passed in as a `real`. The floating-point rounding of `random * size` is not modelled.
- The model leaves out all concurrency: the AtomicReference publication, and the unsynchronised cache updates that race with readers and rebuilds. Operations run one at a time.
- The static initialiser and the configuration-change callback are left out. `BuildRoutesTable` takes the current routes text as a parameter, with None standing for null.
- The servlet and filter plumbing is left out: the request and context objects, filterType, filterOrder, shouldFilter and logging. `Run` takes the URI, context path and query string as parameters and returns the route URL instead of storing it in the request context.
- The dynamic property library is left out. Properties are typed maps. A value that does not parse as the requested type is modelled as an absent key.
- Strings are sequences of Dafny characters, so UTF-16 surrogate pairs are not distinguished. Letter case is folded for ASCII only, which is exact when comparing with "true".
- AdminFilterUtil.java is not part of this model. It only builds HTML forms and links and holds no routing logic.
