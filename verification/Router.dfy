/** Route matching (src/Network/HTTPServer.cpp): patterns with ":name" placeholders against paths. */
module Router {
  import opened Options
  import opened Games

  // ---------- What a match is ----------

  /** The next slash at or after an index, or the end of the string. */
  function SegmentEnd(s: string, from: nat): (end: nat)
    requires from <= |s|
    ensures from <= end <= |s|
    ensures end < |s| ==> s[end] == '/'
    ensures forall i :: from <= i < end ==> s[i] != '/'
    decreases |s| - from
  {
    if from == |s| || s[from] == '/' then from else SegmentEnd(s, from + 1)
  }

  /** The pattern after its leading placeholder. */
  function AfterHole(pattern: string): (rest: string)
    requires pattern != [] && pattern[0] == ':'
    ensures |rest| < |pattern|
    ensures rest != [] ==> rest[0] == '/'
  {
    pattern[SegmentEnd(pattern, 1)..]
  }

  /** The placeholder names of a pattern, in order. */
  function Names(pattern: string): seq<string>
    decreases |pattern|
  {
    if pattern == [] then []
    else if pattern[0] == ':' then [pattern[1..SegmentEnd(pattern, 1)]] + Names(AfterHole(pattern))
    else Names(pattern[1..])
  }

  /** The path a pattern becomes when its placeholders are filled with values. */
  function Fill(pattern: string, values: seq<string>): string
    requires |values| == |Names(pattern)|
    decreases |pattern|
  {
    if pattern == [] then []
    else if pattern[0] == ':' then values[0] + Fill(AfterHole(pattern), values[1..])
    else [pattern[0]] + Fill(pattern[1..], values)
  }

  predicate EndsInHole(pattern: string): (ends: bool)
    ensures ends ==> Names(pattern) != []
    decreases |pattern|
  {
    pattern != [] &&
    if pattern[0] == ':' then AfterHole(pattern) == [] || EndsInHole(AfterHole(pattern))
    else EndsInHole(pattern[1..])
  }

  predicate SlashFree(s: string) { forall i :: 0 <= i < |s| ==> s[i] != '/' }

  /** Values that turn the pattern into the path: without slashes, and not empty at the very end. */
  ghost predicate Assignment(pattern: string, values: seq<string>, path: string) {
    && |values| == |Names(pattern)|
    && (forall i :: 0 <= i < |values| ==> SlashFree(values[i]))
    && (EndsInHole(pattern) ==> values != [] && Last(values) != [])
    && Fill(pattern, values) == path
  }

  // ---------- Matching as a function ----------

  function Match(pattern: string, path: string): Option<seq<string>>
    decreases |pattern|
  {
    if pattern == [] || path == [] then if pattern == [] && path == [] then Some([]) else None
    else if pattern[0] == ':' then
      var end := SegmentEnd(path, 0);
      Prepend([path[..end]], Match(AfterHole(pattern), path[end..]))
    else if pattern[0] != path[0] then None
    else Match(pattern[1..], path[1..])
  }

  function Prepend(values: seq<string>, rest: Option<seq<string>>): Option<seq<string>> {
    if rest.Some? then Some(values + rest.value) else None
  }

  lemma {:induction false} MatchSound(pattern: string, path: string)
    requires Match(pattern, path).Some?
    ensures Assignment(pattern, Match(pattern, path).value, path)
    decreases |pattern|
  {
    if pattern != [] {
      if pattern[0] == ':' {
        var end := SegmentEnd(path, 0);
        MatchSound(AfterHole(pattern), path[end..]);
        var rest := Match(AfterHole(pattern), path[end..]).value;
        var all := [path[..end]] + rest;
        assert all[1..] == rest;
        assert path == path[..end] + path[end..];
      } else {
        MatchSound(pattern[1..], path[1..]);
        assert path == [path[0]] + path[1..];
      }
    }
  }

  /** The end of a slash-free value is found again in what the value was put before. */
  lemma {:induction false} SegmentEndFound(value: string, rest: string, from: nat)
    requires SlashFree(value) && (rest != [] ==> rest[0] == '/') && from <= |value|
    ensures SegmentEnd(value + rest, from) == |value|
    decreases |value| - from
  {
    if from < |value| {
      SegmentEndFound(value, rest, from + 1);
    }
  }

  lemma {:induction false} MatchComplete(pattern: string, values: seq<string>, path: string)
    requires Assignment(pattern, values, path)
    ensures Match(pattern, path) == Some(values)
    decreases |pattern|
  {
    if pattern != [] {
      if pattern[0] == ':' {
        var after := AfterHole(pattern);
        var rest := Fill(after, values[1..]);
        if after == [] {
          assert EndsInHole(pattern) && values[1..] == [];
        }
        SegmentEndFound(values[0], rest, 0);
        assert path[..|values[0]|] == values[0] && path[|values[0]|..] == rest;
        assert values == [values[0]] + values[1..];
        MatchComplete(after, values[1..], rest);
      } else {
        assert path[1..] == Fill(pattern[1..], values);
        MatchComplete(pattern[1..], values, path[1..]);
      }
    }
  }

  /** At most one assignment turns a pattern into a path. */
  lemma AssignmentIsUnique(pattern: string, vs: seq<string>, ws: seq<string>, path: string)
    requires Assignment(pattern, vs, path) && Assignment(pattern, ws, path)
    ensures vs == ws
  {
    MatchComplete(pattern, vs, path);
    MatchComplete(pattern, ws, path);
  }

  // ---------- Patterns piece by piece ----------

  /** A pattern without a placeholder matches itself only. */
  lemma {:induction false} PlainRoute(pattern: string, path: string)
    requires ':' !in pattern
    ensures Names(pattern) == [] && Fill(pattern, []) == pattern && !EndsInHole(pattern)
    ensures Assignment(pattern, [], path) <==> path == pattern
    decreases |pattern|
  {
    if pattern != [] { PlainRoute(pattern[1..], path); }
  }

  /** A placeholder runs to the next slash, has the name after its colon and stands for its value. */
  lemma HoleRoute(name: string, rest: string, v: string, values: seq<string>)
    requires SlashFree(name) && (rest != [] ==> rest[0] == '/') && |values| == |Names(rest)|
    ensures Names([':'] + name + rest) == [name] + Names(rest)
    ensures Fill([':'] + name + rest, [v] + values) == v + Fill(rest, values)
    ensures EndsInHole([':'] + name + rest) <==> rest == [] || EndsInHole(rest)
  {
    var pattern := [':'] + name + rest;
    SegmentEndFound([':'] + name, rest, 1);
    assert pattern[1..1 + |name|] == name && AfterHole(pattern) == rest;
    assert ([v] + values)[1..] == values;
  }

  /** Any other character stands for itself. */
  lemma CharRoute(c: char, rest: string, values: seq<string>)
    requires c != ':' && |values| == |Names(rest)|
    ensures Names([c] + rest) == Names(rest)
    ensures Fill([c] + rest, values) == [c] + Fill(rest, values)
    ensures EndsInHole([c] + rest) <==> EndsInHole(rest)
  {
    assert ([c] + rest)[1..] == rest;
  }

  // ---------- The parameter map ----------

  /** Names bound to values in order, a later one replacing an earlier one of the same name. */
  ghost function Bind(names: seq<string>, values: seq<string>): map<string, string>
    requires |names| == |values|
  {
    if names == [] then map[] else Bind(Front(names), Front(values))[Last(names) := Last(values)]
  }

  /** With distinct names the map is the assignment, name by name. */
  lemma {:induction false} BindDistinct(names: seq<string>, values: seq<string>)
    requires |names| == |values|
    requires forall i, j :: 0 <= i < j < |names| ==> names[i] != names[j]
    ensures Bind(names, values).Keys == set n | n in names
    ensures forall i :: 0 <= i < |names| ==>
      names[i] in Bind(names, values) && Bind(names, values)[names[i]] == values[i]
  {
    if names != [] {
      BindDistinct(Front(names), Front(values));
    }
  }

  // ---------- The matcher ----------

  /** Names and values taken so far, with the rest of the pattern still to match the rest of the path. */
  ghost predicate Underway(pattern: string, path: string, pi: nat, qi: nat, names: seq<string>, values: seq<string>) {
    && pi <= |pattern| && qi <= |path| && |names| == |values|
    && Names(pattern) == names + Names(pattern[pi..])
    && Match(pattern, path) == Prepend(values, Match(pattern[pi..], path[qi..]))
  }

  lemma UnderwayAtStart(pattern: string, path: string)
    ensures Underway(pattern, path, 0, 0, [], [])
  {
    assert pattern[0..] == pattern && path[0..] == path;
    assert Match(pattern, path).Some? ==> [] + Match(pattern, path).value == Match(pattern, path).value;
  }

  lemma UnderwayPastLiteral(pattern: string, path: string, pi: nat, qi: nat, names: seq<string>, values: seq<string>)
    requires Underway(pattern, path, pi, qi, names, values)
    requires pi < |pattern| && qi < |path| && pattern[pi] != ':'
    ensures if pattern[pi] == path[qi] then Underway(pattern, path, pi + 1, qi + 1, names, values)
            else Match(pattern, path) == None
  {
    assert pattern[pi..][1..] == pattern[pi + 1..] && path[qi..][1..] == path[qi + 1..];
  }

  lemma UnderwayPastHole(pattern: string, path: string, pi: nat, qi: nat, names: seq<string>, values: seq<string>)
    requires Underway(pattern, path, pi, qi, names, values)
    requires pi < |pattern| && qi < |path| && pattern[pi] == ':'
    ensures var e, v := SegmentEnd(pattern, pi + 1), SegmentEnd(path, qi);
      Underway(pattern, path, e, v, names + [pattern[pi + 1..e]], values + [path[qi..v]])
  {
    hide Prepend;
    var e, v := SegmentEnd(pattern, pi + 1), SegmentEnd(path, qi);
    HoleAtFront(pattern, pi, path, qi);
    PrependTwice(values, [path[qi..v]], Match(pattern[e..], path[v..]));
    assert names + ([pattern[pi + 1..e]] + Names(pattern[e..])) == names + [pattern[pi + 1..e]] + Names(pattern[e..]);
  }

  lemma PrependTwice(a: seq<string>, b: seq<string>, rest: Option<seq<string>>)
    ensures Prepend(a, Prepend(b, rest)) == Prepend(a + b, rest)
  {
    if rest.Some? {
      assert a + (b + rest.value) == a + b + rest.value;
    }
  }

  /** A placeholder at the front of the rest of the pattern takes the rest of the path's segment. */
  lemma HoleAtFront(pattern: string, pi: nat, path: string, qi: nat)
    requires pi < |pattern| && qi < |path| && pattern[pi] == ':'
    ensures var e, v := SegmentEnd(pattern, pi + 1), SegmentEnd(path, qi);
      && Names(pattern[pi..]) == [pattern[pi + 1..e]] + Names(pattern[e..])
      && Match(pattern[pi..], path[qi..]) == Prepend([path[qi..v]], Match(pattern[e..], path[v..]))
  {
    hide Prepend;
    var p, q := pattern[pi..], path[qi..];
    SegmentEndOfSuffix(pattern, pi, 1);
    SegmentEndOfSuffix(path, qi, 0);
    var e, v := SegmentEnd(pattern, pi + 1), SegmentEnd(path, qi);
    assert p[1..e - pi] == pattern[pi + 1..e] && p[e - pi..] == pattern[e..];
    assert q[..v - qi] == path[qi..v] && q[v - qi..] == path[v..];
  }

  lemma {:induction false} SegmentEndOfSuffix(s: string, i: nat, from: nat)
    requires i + from <= |s|
    ensures SegmentEnd(s[i..], from) + i == SegmentEnd(s, i + from)
    decreases |s| - i - from
  {
    if i + from < |s| {
      SegmentEndOfSuffix(s, i, from + 1);
    }
  }

  /** With either side used up, all is matched exactly when both are. */
  lemma UnderwayAtEnd(pattern: string, path: string, pi: nat, qi: nat, names: seq<string>, values: seq<string>)
    requires Underway(pattern, path, pi, qi, names, values) && (pi == |pattern| || qi == |path|)
    ensures if pi == |pattern| && qi == |path| then Match(pattern, path) == Some(values) && names == Names(pattern)
            else Match(pattern, path) == None
  {
    assert values + [] == values && names + [] == names;
  }

  /** A pattern the function does not match has no assignment. */
  lemma NoMatch(pattern: string, path: string)
    requires Match(pattern, path) == None
    ensures !exists values :: Assignment(pattern, values, path)
  {
    forall values | Assignment(pattern, values, path) ensures false {
      MatchComplete(pattern, values, path);
    }
  }

  /**
   Succeeds exactly when some assignment turns the pattern into the path, and then returns that
   assignment under the placeholders' names.
   */
  method MatchRoute(pattern: string, path: string) returns (matched: bool, params: map<string, string>)
    ensures matched <==> exists values :: Assignment(pattern, values, path)
    ensures matched ==> exists values ::
      Assignment(pattern, values, path) && params == Bind(Names(pattern), values)
  {
    hide Match, Names, Assignment, Underway;
    params := map[];
    var pi, qi := 0, 0;
    ghost var names: seq<string>, values: seq<string> := [], [];
    UnderwayAtStart(pattern, path);
    while pi < |pattern| && qi < |path|
      invariant pi <= |pattern| && qi <= |path|
      invariant |names| == |values| && params == Bind(names, values)
      invariant Underway(pattern, path, pi, qi, names, values)
      decreases |pattern| - pi
    {
      if pattern[pi] == ':' {
        var nameStart := pi + 1;
        var nameEnd := SegmentEnd(pattern, nameStart);
        var name := pattern[nameStart..nameEnd];
        var valueEnd := SegmentEnd(path, qi);
        UnderwayPastHole(pattern, path, pi, qi, names, values);
        assert Front(names + [name]) == names && Front(values + [path[qi..valueEnd]]) == values;
        params := params[name := path[qi..valueEnd]];
        names, values := names + [name], values + [path[qi..valueEnd]];
        pi, qi := nameEnd, valueEnd;
        continue;
      }
      UnderwayPastLiteral(pattern, path, pi, qi, names, values);
      if pattern[pi] != path[qi] {
        NoMatch(pattern, path);
        return false, params;
      }
      pi, qi := pi + 1, qi + 1;
    }
    UnderwayAtEnd(pattern, path, pi, qi, names, values);
    if pi != |pattern| || qi != |path| {
      NoMatch(pattern, path);
      return false, params;
    }
    MatchSound(pattern, path);
    matched := true;
  }
}
