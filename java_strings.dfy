/**
 * The string operations of the Java platform and of commons-lang that the route
 * table parser and the request rewrite rely on. Each one is given the exact
 * semantics of the library call it stands for, because the parser's behaviour on
 * malformed lines depends on which splitter drops which empty tokens.
 */
module JavaStrings {
  import opened Wrappers

  /** The tokens joined back together with `sep` between consecutive ones. */
  function Join(parts: seq<string>, sep: char): string
  {
    if |parts| == 0 then ""
    else if |parts| == 1 then parts[0]
    else parts[0] + [sep] + Join(parts[1..], sep)
  }

  /** The tokens concatenated with nothing between them. */
  function Concat(parts: seq<string>): string
  {
    if |parts| == 0 then "" else parts[0] + Concat(parts[1..])
  }

  /** The characters of `s` other than `c`, in order. */
  function Without(s: string, c: char): string
  {
    if s == "" then "" else (if s[0] == c then "" else [s[0]]) + Without(s[1..], c)
  }

  /**
   * Every token between occurrences of `sep`, empty ones included: the common
   * ground of the three splitters below. It is the unique cutting of `s` into
   * separator-free tokens (see SplitAllJoin).
   */
  function SplitAll(s: string, sep: char): (r: seq<string>)
    ensures |r| >= 1
    ensures forall i :: 0 <= i < |r| ==> sep !in r[i]
  {
    if s == "" then [""]
    else
      var rest := SplitAll(s[1..], sep);
      if s[0] == sep then [""] + rest else [[s[0]] + rest[0]] + rest[1..]
  }

  /** Joining the tokens back with `sep` gives the string; concatenating them gives it without `sep`. */
  lemma {:induction false} SplitAllJoinsBack(s: string, sep: char)
    ensures Join(SplitAll(s, sep), sep) == s
    ensures Concat(SplitAll(s, sep)) == Without(s, sep)
  {
    if s != "" {
      var rest := SplitAll(s[1..], sep);
      SplitAllJoinsBack(s[1..], sep);
      var r := SplitAll(s, sep);
      if s[0] == sep {
        assert r == [""] + rest;
        assert r[1..] == rest;
      } else {
        assert r == [[s[0]] + rest[0]] + rest[1..];
        assert r[1..] == rest[1..];
        assert Join(r, sep) == [s[0]] + Join(rest, sep);
      }
      assert s == [s[0]] + s[1..];
    }
  }

  lemma {:induction false} SplitAllNoSeparator(s: string, sep: char)
    requires sep !in s
    ensures SplitAll(s, sep) == [s]
  {
    if s != "" {
      SplitAllNoSeparator(s[1..], sep);
      assert [s[0]] + s[1..] == s;
    }
  }

  lemma {:induction false} SplitAllAfterToken(a: string, sep: char, t: string)
    requires sep !in a
    ensures SplitAll(a + [sep] + t, sep) == [a] + SplitAll(t, sep)
  {
    if a == "" {
      assert a + [sep] + t == [sep] + t;
      assert ([sep] + t)[1..] == t;
    } else {
      assert (a + [sep] + t)[1..] == a[1..] + [sep] + t;
      SplitAllAfterToken(a[1..], sep, t);
      assert [a[0]] + a[1..] == a;
    }
  }

  /** Splitting a joined list of separator-free tokens gives the tokens back. */
  lemma {:induction false} SplitAllJoin(parts: seq<string>, sep: char)
    requires |parts| >= 1
    requires forall i :: 0 <= i < |parts| ==> sep !in parts[i]
    ensures SplitAll(Join(parts, sep), sep) == parts
  {
    if |parts| == 1 {
      SplitAllNoSeparator(parts[0], sep);
    } else {
      SplitAllJoin(parts[1..], sep);
      SplitAllAfterToken(parts[0], sep, Join(parts[1..], sep));
      assert [parts[0]] + parts[1..] == parts;
    }
  }

  /** The list without its trailing empty tokens. */
  function DropTrailingEmpty(parts: seq<string>): (r: seq<string>)
    ensures |r| <= |parts| && r == parts[..|r|]
    ensures r == [] || r[|r| - 1] != ""
    ensures forall i :: |r| <= i < |parts| ==> parts[i] == ""
  {
    if |parts| > 0 && parts[|parts| - 1] == "" then DropTrailingEmpty(parts[..|parts| - 1])
    else parts
  }

  /** The list without any of its empty tokens. */
  function RemoveEmpty(parts: seq<string>): (r: seq<string>)
    ensures forall i :: 0 <= i < |r| ==> r[i] != "" && r[i] in parts
    ensures Concat(r) == Concat(parts)
  {
    if |parts| == 0 then []
    else if parts[0] == "" then RemoveEmpty(parts[1..])
    else [parts[0]] + RemoveEmpty(parts[1..])
  }

  /**
   * Java's `String.split` with a one-character regular expression that is not a
   * metacharacter (`"\n"`, `"="`, `"&"`): split at every occurrence, keep inner
   * empty tokens, drop trailing empty ones; when `sep` does not occur at all the
   * whole string is the only token, even when it is empty.
   */
  function JavaSplit(s: string, sep: char): (r: seq<string>)
    ensures sep !in s ==> r == [s]
    ensures sep in s ==> |r| <= |SplitAll(s, sep)| && r == SplitAll(s, sep)[..|r|]
    ensures sep in s ==> r == [] || r[|r| - 1] != ""
    ensures sep in s ==> forall i :: |r| <= i < |SplitAll(s, sep)| ==> SplitAll(s, sep)[i] == ""
  {
    if sep !in s then [s] else DropTrailingEmpty(SplitAll(s, sep))
  }

  /** Joining two non-empty lists one after the other puts one separator between them. */
  lemma {:induction false} JoinAppend(a: seq<string>, b: seq<string>, sep: char)
    requires a != [] && b != []
    ensures Join(a + b, sep) == Join(a, sep) + [sep] + Join(b, sep)
  {
    if |a| == 1 {
      JoinCons(a[0], b, sep);
      assert a + b == [a[0]] + b;
    } else {
      JoinAppend(a[1..], b, sep);
      assert (a + b)[1..] == a[1..] + b;
    }
  }

  /** A list of empty tokens joins to separators only. */
  lemma {:induction false} JoinEmpties(parts: seq<string>, sep: char)
    requires forall i :: 0 <= i < |parts| ==> parts[i] == ""
    ensures forall i :: 0 <= i < |Join(parts, sep)| ==> Join(parts, sep)[i] == sep
  {
    if |parts| >= 2 {
      JoinEmpties(parts[1..], sep);
      assert Join(parts, sep) == [sep] + Join(parts[1..], sep);
    }
  }

  /**
   * What `String.split` drops is a run of separators at the end: the string is
   * its tokens joined back, followed by separators only.
   */
  lemma JavaSplitDropsTrailingSeparators(s: string, sep: char)
    ensures Join(JavaSplit(s, sep), sep) <= s
    ensures forall i :: |Join(JavaSplit(s, sep), sep)| <= i < |s| ==> s[i] == sep
  {
    if sep in s {
      var all := SplitAll(s, sep);
      var r := JavaSplit(s, sep);
      SplitAllJoinsBack(s, sep);
      assert all == r + all[|r|..];
      JoinTrailingEmpties(r, all[|r|..], sep);
    }
  }

  /** Joining a list followed by empty tokens adds separators only. */
  lemma JoinTrailingEmpties(r: seq<string>, rest: seq<string>, sep: char)
    requires forall i :: 0 <= i < |rest| ==> rest[i] == ""
    ensures Join(r, sep) <= Join(r + rest, sep)
    ensures forall i :: |Join(r, sep)| <= i < |Join(r + rest, sep)| ==> Join(r + rest, sep)[i] == sep
  {
    JoinEmpties(rest, sep);
    if r == [] {
      assert r + rest == rest;
    } else if rest == [] {
      assert r + rest == r;
    } else {
      JoinAppend(r, rest, sep);
    }
  }

  /**
   * When `String.split` gives two tokens, the string is the first, the
   * separator and the second, followed by separators only.
   */
  lemma SplitInTwo(s: string, sep: char)
    requires |JavaSplit(s, sep)| == 2
    ensures var parts := JavaSplit(s, sep);
      && parts[0] + [sep] + parts[1] <= s
      && sep !in parts[0] && sep !in parts[1] && parts[1] != ""
      && forall i :: |parts[0]| + 1 + |parts[1]| <= i < |s| ==> s[i] == sep
  {
    var parts := JavaSplit(s, sep);
    JavaSplitDropsTrailingSeparators(s, sep);
    assert parts == [parts[0]] + parts[1..];
    JoinCons(parts[0], parts[1..], sep);
    assert sep in s;
    assert parts[0] == SplitAll(s, sep)[0] && parts[1] == SplitAll(s, sep)[1];
  }

  /**
   * `s` with its leading and trailing separators removed and every run of
   * separators inside it collapsed to one.
   */
  function Squeeze(s: string, sep: char): string
  {
    if s == "" then ""
    else if s[0] == sep then Squeeze(s[1..], sep)
    else
      var rest := Squeeze(s[1..], sep);
      if |s| > 1 && s[1] == sep && rest != "" then [s[0], sep] + rest else [s[0]] + rest
  }

  /** A list of non-empty tokens joins to the empty string only when it is empty. */
  lemma JoinEmpty(parts: seq<string>, sep: char)
    requires forall i :: 0 <= i < |parts| ==> parts[i] != ""
    ensures Join(parts, sep) == "" <==> parts == []
  {
    if |parts| >= 2 {
      assert |Join(parts, sep)| >= |parts[0]|;
    }
  }

  /** Joining a list that starts with `a`. */
  lemma JoinCons(a: string, rest: seq<string>, sep: char)
    ensures Join([a] + rest, sep) == if rest == [] then a else a + [sep] + Join(rest, sep)
  {
    assert ([a] + rest)[0] == a;
    assert ([a] + rest)[1..] == rest;
  }

  /** Removing the empty tokens from a list that starts with `a`. */
  lemma RemoveEmptyCons(a: string, rest: seq<string>)
    ensures RemoveEmpty([a] + rest) == if a == "" then RemoveEmpty(rest) else [a] + RemoveEmpty(rest)
  {
    assert ([a] + rest)[0] == a;
    assert ([a] + rest)[1..] == rest;
  }

  /** The first token is empty exactly when the string is empty or starts with the separator. */
  lemma SplitAllHead(s: string, sep: char)
    ensures SplitAll(s, sep)[0] == "" <==> s == "" || s[0] == sep
  {
  }

  /** The non-empty tokens of `s`, joined with `sep`, are `s` squeezed. */
  lemma {:induction false} SqueezedTokens(s: string, sep: char)
    ensures Join(RemoveEmpty(SplitAll(s, sep)), sep) == Squeeze(s, sep)
  {
    if s != "" {
      var rest := SplitAll(s[1..], sep);
      SqueezedTokens(s[1..], sep);
      if s[0] == sep {
        RemoveEmptyCons("", rest);
      } else {
        assert SplitAll(s, sep) == [[s[0]] + rest[0]] + rest[1..];
        SqueezedTokensStep(s, sep);
      }
    }
  }

  /** The step of SqueezedTokens for a string that starts with a token character. */
  lemma {:induction false} SqueezedTokensStep(s: string, sep: char)
    requires s != "" && s[0] != sep
    requires Join(RemoveEmpty(SplitAll(s[1..], sep)), sep) == Squeeze(s[1..], sep)
    ensures var rest := SplitAll(s[1..], sep);
      Join(RemoveEmpty([[s[0]] + rest[0]] + rest[1..]), sep) == Squeeze(s, sep)
  {
    var rest := SplitAll(s[1..], sep);
    assert rest == [rest[0]] + rest[1..];
    SplitAllHead(s[1..], sep);
    assert s[1..] == "" ==> rest[1..] == [];
    SqueezeFirstToken(s, sep, rest[0], rest[1..]);
  }

  /** SqueezedTokensStep, with the first token `h` and the other tokens `t` of `s[1..]` named. */
  lemma SqueezeFirstToken(s: string, sep: char, h: string, t: seq<string>)
    requires s != "" && s[0] != sep
    requires Join(RemoveEmpty([h] + t), sep) == Squeeze(s[1..], sep)
    requires h == "" <==> s[1..] == "" || s[1] == sep
    requires s[1..] == "" ==> t == []
    ensures Join(RemoveEmpty([[s[0]] + h] + t), sep) == Squeeze(s, sep)
  {
    var q := Squeeze(s[1..], sep);
    SqueezeAfterToken(s, sep, q);
    var tail := RemoveEmpty(t);
    RemoveEmptyCons([s[0]] + h, t);
    RemoveEmptyCons(h, t);
    assert tail != [] ==> t != [];
    JoinSqueezeStep(s[0], h, tail, q, Squeeze(s, sep), |s| > 1 && s[1] == sep, sep);
  }

  /** The join-level content of SqueezeFirstToken. */
  lemma JoinSqueezeStep(c: char, h: string, tail: seq<string>, q: string, squeezed: string, sepNext: bool, sep: char)
    requires forall i :: 0 <= i < |tail| ==> tail[i] != ""
    requires q == Join(if h == "" then tail else [h] + tail, sep)
    requires squeezed == if sepNext && q != "" then [c, sep] + q else [c] + q
    requires h == "" && tail != [] ==> sepNext
    requires h != "" ==> !sepNext
    ensures Join([[c] + h] + tail, sep) == squeezed
  {
    JoinTokenStep([c], h, tail, sep);
    if h == "" {
      assert [c] + h == [c];
    }
  }

  /** Joining a list of non-empty tokens whose first token is `c + head`. */
  lemma JoinTokenStep(c: string, head: string, tail: seq<string>, sep: char)
    requires forall i :: 0 <= i < |tail| ==> tail[i] != ""
    ensures Join([c + head] + tail, sep) == (if tail == [] then c + head else c + head + [sep] + Join(tail, sep))
    ensures head != "" ==> Join([c + head] + tail, sep) == c + Join([head] + tail, sep)
    ensures Join(tail, sep) == "" <==> tail == []
  {
    JoinCons(c + head, tail, sep);
    JoinCons(head, tail, sep);
    JoinEmpty(tail, sep);
  }

  /** Squeezing a string that starts with a token character, given the squeezed rest. */
  lemma SqueezeAfterToken(s: string, sep: char, q: string)
    requires s != "" && s[0] != sep && Squeeze(s[1..], sep) == q
    ensures Squeeze(s, sep) == if |s| > 1 && s[1] == sep && q != "" then [s[0], sep] + q else [s[0]] + q
  {
  }

  /** Every token of a list of non-empty tokens survives the removal of empty ones. */
  lemma {:induction false} RemoveEmptyKeepsNonEmpty(parts: seq<string>)
    requires forall i :: 0 <= i < |parts| ==> parts[i] != ""
    ensures RemoveEmpty(parts) == parts
  {
    if parts != [] {
      RemoveEmptyKeepsNonEmpty(parts[1..]);
    }
  }

  /**
   * commons-lang `StringUtils.split(s, sepChars)` with one separator character:
   * the maximal non-empty runs of characters other than `sep`; empty tokens,
   * wherever they occur, are dropped.
   */
  function CommonsSplit(s: string, sep: char): (r: seq<string>)
    ensures forall i :: 0 <= i < |r| ==> r[i] != "" && sep !in r[i]
    ensures Concat(r) == Without(s, sep)
    ensures Join(r, sep) == Squeeze(s, sep)
  {
    SplitAllJoinsBack(s, sep);
    SqueezedTokens(s, sep);
    RemoveEmpty(SplitAll(s, sep))
  }

  /** Splitting a join of non-empty separator-free tokens gives the tokens back. */
  lemma CommonsSplitJoin(parts: seq<string>, sep: char)
    requires forall i :: 0 <= i < |parts| ==> parts[i] != "" && sep !in parts[i]
    ensures CommonsSplit(Join(parts, sep), sep) == parts
  {
    if parts != [] {
      SplitAllJoin(parts, sep);
      RemoveEmptyKeepsNonEmpty(parts);
    }
  }

  /**
   * Java 8+ `s.split("|")`. The regular expression `|` is an empty alternation,
   * so it matches the empty string at every position 0..|s|. `Pattern.split`
   * skips the zero-width match at position 0, cuts at each later match and then
   * drops the trailing empty remainder; when nothing was cut the input is
   * returned whole. The result is one string per character.
   */
  function PipeRegexSplit(s: string): (r: seq<string>)
    ensures s == "" ==> r == [""]
    ensures s != "" ==> |r| == |s| && forall i :: 0 <= i < |s| ==> r[i] == [s[i]]
  {
    if s == "" then [s]
    else
      var cuts := seq(|s|, i requires 0 <= i < |s| => s[i..i + 1]) + [s[|s|..]];
      assert cuts[|s|] == "" && cuts[|s| - 1] != "";
      assert cuts[..|s|][..|s| - 1] == cuts[..|s| - 1];
      DropTrailingEmpty(cuts)
  }

  /** commons-lang `StringUtils.removeStart`: `s` without `prefix` when it starts with it. */
  function RemoveStart(s: string, prefix: string): (r: string)
    ensures prefix <= s ==> s == prefix + r
    ensures !(prefix <= s) ==> r == s
  {
    if s == "" || prefix == "" then s
    else if prefix <= s then s[|prefix|..]
    else s
  }

  /** `sub` occurs in `s` starting at index `k`. */
  predicate OccursAt(s: string, sub: string, k: int)
  {
    0 <= k && k + |sub| <= |s| && s[k..k + |sub|] == sub
  }

  /** Java's `s.indexOf(sub, from)`, for `from` within `s`. */
  function IndexOfFrom(s: string, sub: string, from: nat): (r: int)
    requires from <= |s|
    ensures r == -1 || (from <= r && OccursAt(s, sub, r))
    ensures forall k :: from <= k && (r == -1 || k < r) ==> !OccursAt(s, sub, k)
    decreases |s| - from
  {
    if from + |sub| > |s| then -1
    else if s[from..from + |sub|] == sub then from
    else IndexOfFrom(s, sub, from + 1)
  }

  /** Java's `s.indexOf(sub)`: the first index at which `sub` occurs, or -1. */
  function IndexOf(s: string, sub: string): (r: int)
    ensures r == -1 || OccursAt(s, sub, r)
    ensures forall k :: 0 <= k && (r == -1 || k < r) ==> !OccursAt(s, sub, k)
  {
    IndexOfFrom(s, sub, 0)
  }

  /** ASCII lower case; the only letters compared below are ASCII. */
  function AsciiLower(c: char): char
  {
    if 'A' <= c <= 'Z' then (c as int + 32) as char else c
  }

  /** Java's `a.equalsIgnoreCase(b)` where `b` is lower-case ASCII. */
  predicate EqualsIgnoreCase(a: string, b: string)
    ensures EqualsIgnoreCase(a, b) <==> |a| == |b| && forall i :: 0 <= i < |a| ==> AsciiLower(a[i]) == b[i]
  {
    if a == "" || b == "" then a == b
    else AsciiLower(a[0]) == b[0] && EqualsIgnoreCase(a[1..], b[1..])
  }

  /** Java's `Boolean.valueOf(String)`: true exactly for "true" in any letter case, never for null. */
  function BooleanValueOf(s: Option<string>): (r: bool)
    ensures r ==> s.Some? && |s.value| == 4
    ensures r <==> s.Some? && |s.value| == 4 && forall i :: 0 <= i < 4 ==> AsciiLower(s.value[i]) == "true"[i]
  {
    s.Some? && EqualsIgnoreCase(s.value, "true")
  }
}
