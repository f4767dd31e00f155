/** `HandlePluginCommand` of pkg/kn/commands/plugin/handler.go: from the
    tokens no built-in command matched, find the longest plugin name they
    spell and hand the plugin the remaining arguments. */
module PluginCommand {
  import opened Results
  import opened Text
  import PluginLookup

  /** The error returned when no plugin matches. */
  const NotFoundMessage: string := "Could not find plugin to execute"

  /** What `Execute` is called with: the executable, its argv, and the
      environment relayed to it. */
  datatype ExecCall = ExecCall(path: string, argv: seq<string>, environment: seq<string>)

  /** The `PluginHandler` interface: `lookup` answers `(path, found)` for a
      hyphen-joined name; `execute` runs a call and yields its error, if any. */
  datatype PluginHandler = PluginHandler(
    lookup: string -> (string, bool),
    execute: ExecCall -> Option<string>)

  /** The default handler, looking plugins up on `host`. */
  function DefaultHandler(h: PluginLookup.DefaultPluginHandler, host: PluginLookup.Host,
                          execute: ExecCall -> Option<string>): PluginHandler
  {
    PluginHandler(name => PluginLookup.Lookup(h, host, name), execute)
  }

  /** What `HandlePluginCommand` did: the `Execute` call it made, if any, and
      the error it returned, if any. */
  datatype HandleOutcome = HandleOutcome(executed: Option<ExecCall>, err: Option<string>)

  /** A token is flag-like when it starts with `-`. */
  predicate IsFlag(token: string)
  {
    HasPrefix(token, "-")
  }

  /** Inside a candidate token every `-` becomes `_`. */
  function Normalize(token: string): (r: string)
    ensures |r| == |token|
    ensures '-' !in r
  {
    ReplaceChar(token, '-', '_')
  }

  /** The hyphen-joined name handed to `lookup`. */
  function HyphenJoin(tokens: seq<string>): string
  {
    Join(tokens, "-")
  }

  /** The candidate list: the non-flag tokens, in order, normalised. */
  function Candidates(args: seq<string>): (r: seq<string>)
    ensures |r| <= |args|
    ensures forall t :: t in r ==> '-' !in t
  {
    if |args| == 0 then []
    else (if IsFlag(args[0]) then [] else [Normalize(args[0])]) + Candidates(args[1..])
  }

  /** How many tokens of `args` are not flags. */
  function CountNonFlags(args: seq<string>): nat
  {
    if |args| == 0 then 0
    else (if IsFlag(args[0]) then 0 else 1) + CountNonFlags(args[1..])
  }

  /** The candidate list has one entry per non-flag token, and the non-flag
      token at position `i` lands, normalised, right after the candidates of
      the tokens before it; so nothing is reordered, dropped or invented. */
  lemma {:induction false} CandidatesPositions(args: seq<string>)
    ensures |Candidates(args)| == CountNonFlags(args)
    ensures forall i :: 0 <= i < |args| && !IsFlag(args[i]) ==>
      CountNonFlags(args[..i]) < |Candidates(args)| &&
      Candidates(args)[CountNonFlags(args[..i])] == Normalize(args[i])
  {
    if |args| > 0 {
      CandidatesPositions(args[1..]);
      var head := if IsFlag(args[0]) then 0 else 1;
      forall i | 0 <= i < |args| && !IsFlag(args[i])
        ensures CountNonFlags(args[..i]) < |Candidates(args)|
        ensures Candidates(args)[CountNonFlags(args[..i])] == Normalize(args[i])
      {
        if i > 0 {
          assert args[..i][1..] == args[1..][..i - 1];
          assert args[i] == args[1..][i - 1];
          assert CountNonFlags(args[..i]) == head + CountNonFlags(args[1..][..i - 1]);
        }
      }
    }
  }

  /** Input made of flags only (or no input) yields no candidate. */
  lemma {:induction false} FlagsOnlyNoCandidates(args: seq<string>)
    requires forall t :: t in args ==> IsFlag(t)
    ensures Candidates(args) == []
  {
    if |args| > 0 {
      assert forall t :: t in args[1..] ==> t in args;
      FlagsOnlyNoCandidates(args[1..]);
    }
  }

  /** `lookup` succeeds on the hyphen-joined first `m` candidates. */
  predicate Matches(lookup: string -> (string, bool), cands: seq<string>, m: int)
  {
    1 <= m <= |cands| && lookup(HyphenJoin(cands[..m])).1
  }

  /** `k` is the longest matching candidate prefix. */
  predicate IsLongestMatch(lookup: string -> (string, bool), cands: seq<string>, k: int)
  {
    Matches(lookup, cands, k) && forall m :: k < m <= |cands| ==> !Matches(lookup, cands, m)
  }

  /** The search loop: `matched` candidates were consumed (0 when none
      matched) and `path` is what `lookup` answered there. */
  datatype SearchResult = SearchResult(matched: nat, path: string)

  /** The loop of `HandlePluginCommand` that drops the last candidate after
      every failed lookup. */
  function Search(lookup: string -> (string, bool), cands: seq<string>): (r: SearchResult)
    ensures r.matched <= |cands|
    ensures r.matched > 0 ==> IsLongestMatch(lookup, cands, r.matched)
    ensures r.matched > 0 ==> r.path == lookup(HyphenJoin(cands[..r.matched])).0
    ensures r.matched == 0 ==> r.path == "" && forall m :: !Matches(lookup, cands, m)
    decreases |cands|
  {
    if |cands| == 0 then SearchResult(0, "")
    else
      var answer := lookup(HyphenJoin(cands));
      assert cands[..|cands|] == cands;
      if answer.1 then SearchResult(|cands|, answer.0)
      else
        var shorter := cands[..|cands| - 1];
        assert forall m :: 0 <= m <= |shorter| ==> shorter[..m] == cands[..m];
        assert !Matches(lookup, cands, |cands|);
        assert forall m :: m != |cands| ==> (Matches(lookup, shorter, m) <==> Matches(lookup, cands, m));
        Search(lookup, shorter)
  }

  /** The names the search loop passes to `lookup`, in call order: the
      full join first, then one candidate fewer each time, stopping after
      the first success; so at most one call per candidate. */
  function LookupCalls(lookup: string -> (string, bool), cands: seq<string>): (names: seq<string>)
    ensures |names| == if Search(lookup, cands).matched == 0 then |cands| else |cands| - Search(lookup, cands).matched + 1
    ensures forall i :: 0 <= i < |names| ==> names[i] == HyphenJoin(cands[..|cands| - i])
    decreases |cands|
  {
    if |cands| == 0 then []
    else
      var name := HyphenJoin(cands);
      assert cands[..|cands|] == cands;
      if lookup(name).1 then [name]
      else
        var shorter := cands[..|cands| - 1];
        assert forall m :: 0 <= m <= |shorter| ==> shorter[..m] == cands[..m];
        [name] + LookupCalls(lookup, shorter)
  }

  /** Each name passed to `lookup` in one search is different from the
      others: since candidates contain no `-`, a hyphen-joined name
      determines how many candidates it spells. */
  lemma LookupNamesDistinct(lookup: string -> (string, bool), cands: seq<string>)
    requires forall t :: t in cands ==> '-' !in t
    ensures forall i, j :: 0 <= i < j < |LookupCalls(lookup, cands)| ==>
      LookupCalls(lookup, cands)[i] != LookupCalls(lookup, cands)[j]
  {
    var names := LookupCalls(lookup, cands);
    forall i, j | 0 <= i < j < |names|
      ensures names[i] != names[j]
    {
      var a := cands[..|cands| - i];
      var b := cands[..|cands| - j];
      assert forall t :: t in a ==> t in cands;
      assert forall t :: t in b ==> t in cands;
      assert |a| != |b|;
      JoinInjective(a, b, '-');
    }
  }

  /** `HandlePluginCommand(handler, cmdArgs)` with `os.Environ()` given as
      `environment`. */
  function HandlePluginCommand(handler: PluginHandler, cmdArgs: seq<string>, environment: seq<string>): (r: HandleOutcome)
    ensures r.executed.None? ==> r.err == Some(NotFoundMessage)
    ensures r.executed.Some? ==> r.err == handler.execute(r.executed.value)
    ensures r.executed.Some? ==>
      exists k :: IsLongestMatch(handler.lookup, Candidates(cmdArgs), k) &&
        var path := handler.lookup(HyphenJoin(Candidates(cmdArgs)[..k])).0;
        path != "" && r.executed.value == ExecCall(path, [path] + cmdArgs[k..], environment)
    ensures r.executed.None? ==>
      forall k :: IsLongestMatch(handler.lookup, Candidates(cmdArgs), k) ==>
        handler.lookup(HyphenJoin(Candidates(cmdArgs)[..k])).0 == ""
  {
    var cands := Candidates(cmdArgs);
    var s := Search(handler.lookup, cands);
    if |s.path| == 0 then
      assert forall k :: IsLongestMatch(handler.lookup, cands, k) ==> k == s.matched;
      HandleOutcome(None, Some(NotFoundMessage))
    else
      var call := ExecCall(s.path, [s.path] + cmdArgs[s.matched..], environment);
      assert IsLongestMatch(handler.lookup, cands, s.matched);
      HandleOutcome(Some(call), handler.execute(call))
  }

  /** No matching prefix at all (this covers empty and all-flag input):
      the not-found error, and `Execute` is never called. */
  lemma NoMatchNotFound(handler: PluginHandler, cmdArgs: seq<string>, environment: seq<string>)
    requires forall m :: !Matches(handler.lookup, Candidates(cmdArgs), m)
    ensures HandlePluginCommand(handler, cmdArgs, environment) == HandleOutcome(None, Some(NotFoundMessage))
  {
  }

  /** Empty or all-flag input never executes anything. */
  lemma FlagsOnlyNotFound(handler: PluginHandler, cmdArgs: seq<string>, environment: seq<string>)
    requires forall t :: t in cmdArgs ==> IsFlag(t)
    ensures HandlePluginCommand(handler, cmdArgs, environment) == HandleOutcome(None, Some(NotFoundMessage))
  {
    FlagsOnlyNoCandidates(cmdArgs);
  }

  /** With the default handler, a plugins directory that cannot be expanded
      means no plugin is ever executed. */
  lemma ExpansionErrorNeverExecutes(h: PluginLookup.DefaultPluginHandler, host: PluginLookup.Host,
                                    execute: ExecCall -> Option<string>, cmdArgs: seq<string>, environment: seq<string>)
    requires host.expandHome(h.pluginsDir).None?
    ensures HandlePluginCommand(DefaultHandler(h, host, execute), cmdArgs, environment) ==
      HandleOutcome(None, Some(NotFoundMessage))
  {
    var handler := DefaultHandler(h, host, execute);
    forall m | Matches(handler.lookup, Candidates(cmdArgs), m)
      ensures false
    {
      PluginLookup.ExpansionErrorNotFound(h, host, HyphenJoin(Candidates(cmdArgs)[..m]));
    }
    NoMatchNotFound(handler, cmdArgs, environment);
  }

  /** With plugins for "a" and "a-b", the tokens `a b` select "a-b" and
      the tokens `a c` fall back to "a". */
  lemma LongerPrefixWins(lookup: string -> (string, bool))
    requires lookup("a-b").1 && lookup("a").1 && !lookup("a-c").1
    ensures Search(lookup, ["a", "b"]).matched == 2
    ensures Search(lookup, ["a", "c"]).matched == 1
  {
    assert HyphenJoin(["a", "b"]) == "a-b";
    assert HyphenJoin(["a", "c"]) == "a-c";
    assert ["a", "c"][..1] == ["a"];
  }

  /** The forwarded arguments are sliced by the number of matched
      candidates, not by the position of the match in the original tokens:
      with a flag in front, the matched plugin name itself is forwarded and
      the flag is lost. */
  lemma ForwardedArgsIndexQuirk(handler: PluginHandler, path: string, environment: seq<string>)
    requires !handler.lookup("foo-bar").1
    requires handler.lookup("foo") == (path, true) && path != ""
    ensures HandlePluginCommand(handler, ["--verbose", "foo", "bar"], environment).executed ==
      Some(ExecCall(path, [path, "foo", "bar"], environment))
  {
    var args := ["--verbose", "foo", "bar"];
    var cands := ["foo", "bar"];
    QuirkCandidates();
    assert HyphenJoin(cands[..2]) == "foo-bar" by { assert cands[..2] == cands; }
    assert HyphenJoin(cands[..1]) == "foo" by { assert cands[..1] == ["foo"]; }
    var found := Search(handler.lookup, cands);
    assert Matches(handler.lookup, cands, 1);
    assert !Matches(handler.lookup, cands, 2);
    assert found == SearchResult(1, path);
    assert [path] + args[1..] == [path, "foo", "bar"];
  }

  /** The candidates of `--verbose foo bar`. */
  lemma QuirkCandidates()
    ensures Candidates(["--verbose", "foo", "bar"]) == ["foo", "bar"]
  {
    var args := ["--verbose", "foo", "bar"];
    assert IsFlag(args[0]);
    assert !IsFlag("foo") && !IsFlag("bar");
    assert Normalize("foo") == "foo";
    assert Normalize("bar") == "bar";
    assert args[1..] == ["foo", "bar"];
    assert args[1..][1..] == ["bar"];
  }
}
