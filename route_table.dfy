/**
 * The parsing half of `MappingFilter.buildRoutesTable`: how one routes text
 * becomes the pattern -> servers map and the pattern -> options map. These pure
 * definitions are the specification that the imperative rebuild in module
 * MappingFilter is proved against.
 *
 * A routes text is a list of lines `pattern=servers;key=value&key=value`.
 */
module RouteTable {
  import opened Wrappers
  import opened JavaStrings

  /** What one accepted line contributes: its pattern, its server list and its raw option items. */
  datatype RouteLine = RouteLine(pattern: string, servers: seq<string>, configItems: seq<string>)

  /** The two pattern maps a rebuild installs. */
  datatype Tables = Tables(servers: map<string, seq<string>>, configs: map<string, map<string, string>>)

  /**
   * One line of the routes text. A line is skipped (None) when it is empty, when
   * the commons-lang split on ';' does not give exactly two fields, when the
   * first field does not split on '=' into exactly two parts, or when the
   * pattern or the server string is empty. The server string is cut with the
   * regular expression "|", i.e. into single characters.
   */
  function ParseLine(route: string): (r: Option<RouteLine>)
    ensures r.Some? ==> r.value.pattern != "" && '=' !in r.value.pattern
    ensures r.Some? ==> |r.value.servers| >= 1
    ensures r.Some? ==> forall i :: 0 <= i < |r.value.servers| ==> |r.value.servers[i]| == 1
    ensures r.Some? ==> |CommonsSplit(route, ';')| == 2
  {
    if route == "" then None
    else
      var parts := CommonsSplit(route, ';');
      if |parts| != 2 then None
      else if parts[0] == "" then None
      else
        var mappings := JavaSplit(parts[0], '=');
        if |mappings| != 2 then None
        else if mappings[0] == "" || mappings[1] == "" then None
        else
          var configItems := if parts[1] == "" then [] else JavaSplit(parts[1], '&');
          Some(RouteLine(mappings[0], PipeRegexSplit(mappings[1]), configItems))
  }

  /** The line is accepted and declares pattern `p`. */
  predicate Declares(line: Option<RouteLine>, p: string)
  {
    line.Some? && line.value.pattern == p
  }

  /**
   * An option item `key=value`; any item that does not split on '=' into
   * exactly two parts is ignored. An accepted item is its key, '=' and a
   * non-empty value, followed by '=' characters that the split drops.
   */
  function ConfigPair(item: string): Option<(string, string)>
  {
    var kv := JavaSplit(item, '=');
    if |kv| == 2 then Some((kv[0], kv[1])) else None
  }

  /** What an accepted item looks like. */
  lemma ConfigPairShape(item: string)
    requires ConfigPair(item).Some?
    ensures var (key, value) := ConfigPair(item).value;
      && key + "=" + value <= item
      && '=' !in key && '=' !in value && value != ""
      && forall i :: |key| + 1 + |value| <= i < |item| ==> item[i] == '='
  {
    SplitInTwo(item, '=');
  }

  /** An item built from a key and a non-empty value, neither containing '=', is accepted as that pair. */
  lemma ConfigPairParses(key: string, value: string)
    requires '=' !in key && '=' !in value && value != ""
    ensures ConfigPair(key + "=" + value) == Some((key, value))
  {
    var item := key + "=" + value;
    assert Join([key, value], '=') == item;
    SplitAllJoin([key, value], '=');
    assert item[|key|] == '=';
  }

  /** Some item in `items` is a well-formed option pair. */
  predicate HasPair(items: seq<string>)
  {
    exists i :: 0 <= i < |items| && ConfigPair(items[i]).Some?
  }

  /**
   * The option map after the items of one line for `pattern` are applied in
   * order: each well-formed pair is put into the pattern's existing option map,
   * which is created on the first well-formed pair.
   */
  function ApplyConfigItems(configs: map<string, map<string, string>>, pattern: string, items: seq<string>)
    : map<string, map<string, string>>
    decreases |items|
  {
    if items == [] then configs
    else
      var before := ApplyConfigItems(configs, pattern, items[..|items| - 1]);
      match ConfigPair(items[|items| - 1])
      case None => before
      case Some(kv) => PutOption(before, pattern, kv.0, kv.1)
  }

  /** `configs` with `key` set to `value` in the option map of `pattern`, created if absent. */
  function PutOption(configs: map<string, map<string, string>>, pattern: string, key: string, value: string)
    : (r: map<string, map<string, string>>)
    ensures r.Keys == configs.Keys + {pattern}
    ensures forall p :: p in configs && p != pattern ==> r[p] == configs[p]
    ensures r[pattern].Keys == (if pattern in configs then configs[pattern].Keys else {}) + {key}
    ensures r[pattern][key] == value
    ensures forall k :: k != key && pattern in configs && k in configs[pattern] ==> r[pattern][k] == configs[pattern][k]
  {
    var current := if pattern in configs then configs[pattern] else map[];
    configs[pattern := current[key := value]]
  }

  /**
   * Applying a line's items touches only the line's pattern, and gives it an
   * option map exactly when it had one or some item is a well-formed pair.
   */
  lemma {:induction false} ApplyConfigItemsKeys(configs: map<string, map<string, string>>, pattern: string, items: seq<string>)
    ensures forall p :: p != pattern ==> (p in ApplyConfigItems(configs, pattern, items) <==> p in configs)
    ensures forall p :: p != pattern && p in configs ==> ApplyConfigItems(configs, pattern, items)[p] == configs[p]
    ensures pattern in ApplyConfigItems(configs, pattern, items) <==> pattern in configs || HasPair(items)
    ensures !HasPair(items) ==> ApplyConfigItems(configs, pattern, items) == configs
  {
    if items != [] {
      var init := items[..|items| - 1];
      ApplyConfigItemsKeys(configs, pattern, init);
      HasPairLast(items);
      var before := ApplyConfigItems(configs, pattern, init);
      var pair := ConfigPair(items[|items| - 1]);
      if pair.Some? {
        assert ApplyConfigItems(configs, pattern, items) == PutOption(before, pattern, pair.value.0, pair.value.1);
      } else {
        assert ApplyConfigItems(configs, pattern, items) == before;
      }
    }
  }

  /** A list of items has a pair exactly when its prefix has one or its last item is one. */
  lemma HasPairLast(items: seq<string>)
    requires items != []
    ensures HasPair(items) <==> HasPair(items[..|items| - 1]) || ConfigPair(items[|items| - 1]).Some?
  {
    var init := items[..|items| - 1];
    assert forall i :: 0 <= i < |init| ==> init[i] == items[i];
    if HasPair(items) {
      var i :| 0 <= i < |items| && ConfigPair(items[i]).Some?;
      if i < |init| {
        assert ConfigPair(init[i]).Some?;
      }
    }
  }

  /** Applying one more item that is a well-formed pair puts it; any other item is ignored. */
  lemma ApplyConfigItemsStep(configs: map<string, map<string, string>>, pattern: string, items: seq<string>, j: nat)
    requires j < |items|
    ensures ConfigPair(items[j]).None? ==>
      ApplyConfigItems(configs, pattern, items[..j + 1]) == ApplyConfigItems(configs, pattern, items[..j])
    ensures ConfigPair(items[j]).Some? ==>
      ApplyConfigItems(configs, pattern, items[..j + 1])
        == PutOption(ApplyConfigItems(configs, pattern, items[..j]), pattern,
                     ConfigPair(items[j]).value.0, ConfigPair(items[j]).value.1)
  {
    assert items[..j + 1][..j] == items[..j];
  }

  /** The tables after one more line of the routes text; a skipped line changes nothing. */
  function AddLine(t: Tables, line: Option<RouteLine>): Tables
  {
    match line
    case None => t
    case Some(l) =>
      Tables(t.servers[l.pattern := l.servers], ApplyConfigItems(t.configs, l.pattern, l.configItems))
  }

  /** The tables built from the parsed lines in order, starting from two empty maps. */
  function BuildTables(lines: seq<Option<RouteLine>>): Tables
  {
    if lines == [] then Tables(map[], map[])
    else AddLine(BuildTables(lines[..|lines| - 1]), lines[|lines| - 1])
  }

  /** Each line of the text, parsed. */
  function ParseLines(routes: seq<string>): (r: seq<Option<RouteLine>>)
    ensures |r| == |routes|
    ensures forall i :: 0 <= i < |routes| ==> r[i] == ParseLine(routes[i])
  {
    seq(|routes|, i requires 0 <= i < |routes| => ParseLine(routes[i]))
  }

  /** The tables a non-empty routes text yields: its lines are separated by '\n'. */
  function ParseRoutesTable(text: string): Tables
  {
    BuildTables(ParseLines(JavaSplit(text, '\n')))
  }

  /** Every pattern with options has servers, and every server list is non-empty. */
  ghost predicate WellFormed(t: Tables)
  {
    && t.configs.Keys <= t.servers.Keys
    && forall p :: p in t.servers ==> |t.servers[p]| >= 1
  }

  lemma {:induction false} BuildTablesWellFormed(routes: seq<Option<RouteLine>>)
    requires forall i :: 0 <= i < |routes| && routes[i].Some? ==> routes[i].value.servers != []
    ensures WellFormed(BuildTables(routes))
  {
    if routes != [] {
      BuildTablesWellFormed(routes[..|routes| - 1]);
      var line := routes[|routes| - 1];
      if line.Some? {
        ApplyConfigItemsKeys(BuildTables(routes[..|routes| - 1]).configs, line.value.pattern, line.value.configItems);
      }
    }
  }

  /** A rejected line leaves the result exactly as if it were not in the text. */
  lemma {:induction false} RejectedLineIsSkipped(before: seq<Option<RouteLine>>, after: seq<Option<RouteLine>>)
    ensures BuildTables(before + [None] + after) == BuildTables(before + after)
  {
    if after == [] {
      assert before + [None] + after == before + [None];
      assert (before + [None])[..|before|] == before;
      assert before + after == before;
    } else {
      var init := after[..|after| - 1];
      var last := after[|after| - 1];
      RejectedLineIsSkipped(before, init);
      assert (before + [None] + after)[..|before + [None] + after| - 1] == before + [None] + init;
      assert (before + after)[..|before + after| - 1] == before + init;
    }
  }

  /** The server map's keys are exactly the patterns of the accepted lines. */
  lemma {:induction false} ServerKeysAreDeclaredPatterns(routes: seq<Option<RouteLine>>, p: string)
    ensures p in BuildTables(routes).servers <==> exists i :: 0 <= i < |routes| && Declares(routes[i], p)
  {
    if routes != [] {
      var init := routes[..|routes| - 1];
      ServerKeysAreDeclaredPatterns(init, p);
      assert forall i :: 0 <= i < |init| ==> init[i] == routes[i];
      if Declares(routes[|routes| - 1], p) {
        assert p in BuildTables(routes).servers;
      }
    }
  }

  /** For a repeated pattern the server list of the last line declaring it wins. */
  lemma {:induction false} LastDeclarationWins(routes: seq<Option<RouteLine>>, i: nat, p: string)
    requires i < |routes| && Declares(routes[i], p)
    requires forall j :: i < j < |routes| ==> !Declares(routes[j], p)
    ensures p in BuildTables(routes).servers
    ensures BuildTables(routes).servers[p] == routes[i].value.servers
  {
    var init := routes[..|routes| - 1];
    if i < |routes| - 1 {
      assert forall j :: i < j < |init| ==> init[j] == routes[j];
      LastDeclarationWins(init, i, p);
    }
  }

  /**
   * A pattern gets an option map exactly when some accepted line declaring it
   * carries at least one well-formed option pair; a pattern whose items are all
   * ignored gets no entry.
   */
  lemma {:induction false} ConfigKeysHavePairs(routes: seq<Option<RouteLine>>, p: string)
    ensures p in BuildTables(routes).configs <==>
      exists i :: 0 <= i < |routes| && Declares(routes[i], p) && HasPair(routes[i].value.configItems)
  {
    if routes != [] {
      var init := routes[..|routes| - 1];
      ConfigKeysHavePairs(init, p);
      assert forall i :: 0 <= i < |init| ==> init[i] == routes[i];
      var line := routes[|routes| - 1];
      if line.Some? {
        ApplyConfigItemsKeys(BuildTables(init).configs, line.value.pattern, line.value.configItems);
      }
    }
  }

  /** Within one line, the last well-formed pair for a key sets that key. */
  lemma {:induction false} LastPairWins(configs: map<string, map<string, string>>, pattern: string,
                                        items: seq<string>, i: nat, key: string, value: string)
    requires i < |items| && ConfigPair(items[i]) == Some((key, value))
    requires forall j :: i < j < |items| ==> ConfigPair(items[j]).None? || ConfigPair(items[j]).value.0 != key
    ensures pattern in ApplyConfigItems(configs, pattern, items)
    ensures key in ApplyConfigItems(configs, pattern, items)[pattern]
    ensures ApplyConfigItems(configs, pattern, items)[pattern][key] == value
  {
    var init := items[..|items| - 1];
    if i < |items| - 1 {
      assert forall j :: i < j < |init| ==> init[j] == items[j];
      LastPairWins(configs, pattern, init, i, key, value);
    }
  }

  /**
   * Options accumulate: a key that the items of a later line do not set keeps
   * the value an earlier line gave it.
   */
  lemma {:induction false} UnsetKeyKeepsValue(configs: map<string, map<string, string>>, pattern: string,
                                              items: seq<string>, key: string)
    requires pattern in configs && key in configs[pattern]
    requires forall j :: 0 <= j < |items| ==> ConfigPair(items[j]).None? || ConfigPair(items[j]).value.0 != key
    ensures pattern in ApplyConfigItems(configs, pattern, items)
    ensures key in ApplyConfigItems(configs, pattern, items)[pattern]
    ensures ApplyConfigItems(configs, pattern, items)[pattern][key] == configs[pattern][key]
  {
    if items != [] {
      var init := items[..|items| - 1];
      assert forall j :: 0 <= j < |init| ==> init[j] == items[j];
      UnsetKeyKeepsValue(configs, pattern, init, key);
    }
  }

  /** The text of a line with the given fields. */
  function RenderLine(pattern: string, serverString: string, configString: string): string
  {
    pattern + "=" + serverString + ";" + configString
  }

  /**
   * A line built from a pattern, a server string and an option segment, none of
   * them empty and none containing ';' (nor '=' in the first two), parses back
   * to that pattern, to one server per character of the server string, and to
   * the option segment's '&'-separated items.
   */
  lemma RenderedLineParses(pattern: string, serverString: string, configString: string)
    requires pattern != "" && serverString != "" && configString != ""
    requires ';' !in pattern && ';' !in serverString && ';' !in configString
    requires '=' !in pattern && '=' !in serverString
    ensures ParseLine(RenderLine(pattern, serverString, configString))
         == Some(RouteLine(pattern, PipeRegexSplit(serverString), JavaSplit(configString, '&')))
  {
    var mapping := pattern + "=" + serverString;
    assert Join([pattern, serverString], '=') == mapping;
    assert ';' !in mapping;
    var route := RenderLine(pattern, serverString, configString);
    assert Join([mapping, configString], ';') == route;
    SplitAllJoin([mapping, configString], ';');
    assert [mapping, configString][1..] == [configString];
    assert RemoveEmpty([configString]) == [configString] + RemoveEmpty([]);
    assert CommonsSplit(route, ';') == [mapping, configString];
    SplitAllJoin([pattern, serverString], '=');
    assert mapping[|pattern|] == '=';
    assert JavaSplit(mapping, '=') == [pattern, serverString];
  }

  /**
   * Conversely, every accepted line is, once empty ';' fields are squeezed out,
   * the rendering of its pattern, a server string that yields its servers
   * followed by '=' characters that `String.split` drops, and an option segment
   * that yields its items.
   */
  lemma ParsedLineRenders(route: string)
    requires ParseLine(route).Some?
    ensures var l := ParseLine(route).value;
      exists serverString, trailing, configString ::
        && serverString != "" && configString != ""
        && '=' !in serverString && ';' !in serverString + trailing && ';' !in configString
        && (forall i :: 0 <= i < |trailing| ==> trailing[i] == '=')
        && Squeeze(route, ';') == RenderLine(l.pattern, serverString + trailing, configString)
        && l.servers == PipeRegexSplit(serverString)
        && l.configItems == JavaSplit(configString, '&')
  {
    AcceptedLineFields(route);
    var parts := CommonsSplit(route, ';');
    TwoFieldsJoin(route, ';');
    var mappings := JavaSplit(parts[0], '=');
    var trailing := MappingFieldRenders(parts[0]);
    assert parts[0] == mappings[0] + "=" + (mappings[1] + trailing);
    NoSemicolonInside(parts[0], mappings[0], mappings[1] + trailing);
    RenderingWitness(ParseLine(route).value, Squeeze(route, ';'), mappings[1], trailing, parts[1]);
  }

  /** A part of a string without ';' has no ';' either. */
  lemma NoSemicolonInside(whole: string, a: string, b: string)
    requires ';' !in whole && whole == a + "=" + b
    ensures ';' !in b
  {
    assert forall i :: 0 <= i < |b| ==> b[i] == whole[|a| + 1 + i];
  }

  /** The witnesses of ParsedLineRenders. */
  lemma RenderingWitness(l: RouteLine, squeezed: string, serverString: string, trailing: string, configString: string)
    requires serverString != "" && configString != ""
    requires '=' !in serverString && ';' !in serverString + trailing && ';' !in configString
    requires forall i :: 0 <= i < |trailing| ==> trailing[i] == '='
    requires squeezed == RenderLine(l.pattern, serverString + trailing, configString)
    requires l.servers == PipeRegexSplit(serverString) && l.configItems == JavaSplit(configString, '&')
    ensures exists serverString, trailing, configString ::
        && serverString != "" && configString != ""
        && '=' !in serverString && ';' !in serverString + trailing && ';' !in configString
        && (forall i :: 0 <= i < |trailing| ==> trailing[i] == '=')
        && squeezed == RenderLine(l.pattern, serverString + trailing, configString)
        && l.servers == PipeRegexSplit(serverString)
        && l.configItems == JavaSplit(configString, '&')
  {
  }

  /** The fields an accepted line is made of. */
  lemma AcceptedLineFields(route: string)
    requires ParseLine(route).Some?
    ensures |CommonsSplit(route, ';')| == 2
    ensures var parts := CommonsSplit(route, ';');
      && |JavaSplit(parts[0], '=')| == 2
      && JavaSplit(parts[0], '=')[1] != ""
      && ParseLine(route).value
         == RouteLine(JavaSplit(parts[0], '=')[0], PipeRegexSplit(JavaSplit(parts[0], '=')[1]),
                      JavaSplit(parts[1], '&'))
  {
  }

  /** A string with two commons-lang fields squeezes to those fields around one separator. */
  lemma TwoFieldsJoin(s: string, sep: char)
    requires |CommonsSplit(s, sep)| == 2
    ensures var parts := CommonsSplit(s, sep); Squeeze(s, sep) == parts[0] + [sep] + parts[1]
  {
    var parts := CommonsSplit(s, sep);
    assert parts == [parts[0]] + parts[1..];
    JoinCons(parts[0], parts[1..], sep);
  }

  /**
   * A mapping field that splits on '=' into two parts is those two parts around
   * '=', followed by the '=' characters the split dropped.
   */
  lemma MappingFieldRenders(m: string) returns (trailing: string)
    requires |JavaSplit(m, '=')| == 2
    ensures var parts := JavaSplit(m, '=');
      && m == parts[0] + "=" + parts[1] + trailing
      && '=' !in parts[1]
      && forall i :: 0 <= i < |trailing| ==> trailing[i] == '='
  {
    var parts := JavaSplit(m, '=');
    SplitInTwo(m, '=');
    trailing := m[|parts[0]| + 1 + |parts[1]|..];
    assert m == parts[0] + "=" + parts[1] + trailing;
  }

  /** A line without ';' never yields a route: the option segment is mandatory. */
  lemma LineWithoutSemicolonIsRejected(route: string)
    requires ';' !in route
    ensures ParseLine(route) == None
  {
    SplitAllNoSeparator(route, ';');
  }

  /**
   * A line whose option segment is empty (`pattern=servers;`) never yields a
   * route: commons-lang drops the empty field, leaving one.
   */
  lemma EmptyOptionSegmentIsRejected(mapping: string)
    requires ';' !in mapping
    ensures ParseLine(mapping + ";") == None
  {
    var route := mapping + ";";
    assert Join([mapping, ""], ';') == route;
    SplitAllJoin([mapping, ""], ';');
  }

  /**
   * Two server URLs joined by '|' are not two servers: the pipe becomes a
   * one-character server of its own between the characters of the URLs.
   */
  lemma PipeIsNotASeparator(pattern: string, a: string, b: string, configString: string)
    requires pattern != "" && a != "" && b != "" && configString != ""
    requires ';' !in pattern && ';' !in a && ';' !in b && ';' !in configString
    requires '=' !in pattern && '=' !in a && '=' !in b
    ensures ParseLine(RenderLine(pattern, a + "|" + b, configString)).Some?
    ensures var servers := ParseLine(RenderLine(pattern, a + "|" + b, configString)).value.servers;
      && |servers| == |a| + 1 + |b|
      && servers[|a|] == "|"
      && (forall i :: 0 <= i < |a| ==> servers[i] == [a[i]])
  {
    var serverString := a + "|" + b;
    assert ';' !in serverString && '=' !in serverString;
    RenderedLineParses(pattern, serverString, configString);
    assert serverString[|a|] == '|';
    assert forall i :: 0 <= i < |a| ==> serverString[i] == a[i];
  }
}
