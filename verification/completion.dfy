/** Shell completion of resource names, pkg/kn/commands/completion_helper.go.
    The cluster is reduced to the answers of the calls the helper makes. */
module Completion {
  import opened Results
  import opened Text

  /** The resource kinds a completer lists. */
  datatype Resource = Services | Brokers | Revisions | Routes | DomainMappings | Triggers

  /** The client a completer builds for a namespace. */
  datatype ClientKind = ServingClient | GitopsServingClient(target: string) | EventingClient | ServingV1alpha1Client

  /** The command being completed: the name of its parent, if it has one,
      and the value of its `target` flag, if that flag is defined. */
  datatype Command = Command(parent: Option<string>, targetFlag: Option<string>)

  /** The collaborators: namespace resolution for a command, client
      construction for a namespace, and the list call of a client, which
      yields the `Name` of every listed item in list order. */
  datatype Params = Params(
    getNamespace: Command -> Result<string>,
    newClient: (ClientKind, string) -> Outcome,
    list: (ClientKind, string, Resource) -> Result<seq<string>>)

  /** `completionConfig`. */
  datatype CompletionConfig = CompletionConfig(params: Params, command: Command, args: seq<string>, toComplete: string)

  /** One entry of the dispatch table. */
  datatype Completer = BrokerCompleter | DomainCompleter | RevisionCompleter | RouteCompleter | ServiceCompleter | TriggerCompleter

  /** `resourceToFuncMap`: parent command name to completer. */
  const ResourceToFunc: map<string, Completer> := map[
    "broker" := BrokerCompleter,
    "domain" := DomainCompleter,
    "revision" := RevisionCompleter,
    "route" := RouteCompleter,
    "service" := ServiceCompleter,
    "trigger" := TriggerCompleter]

  /** `a` is `b` with some elements removed, order kept. */
  predicate IsSubsequence<T(==)>(a: seq<T>, b: seq<T>)
    decreases |b|
  {
    if |a| == 0 then true
    else if |b| == 0 then false
    else if a[0] == b[0] then IsSubsequence(a[1..], b[1..])
    else IsSubsequence(a, b[1..])
  }

  /** The suggestion loop: the names that start with `prefix`, in order. */
  function FilterPrefix(names: seq<string>, prefix: string): (r: seq<string>)
    ensures IsSubsequence(r, names)
    ensures forall x :: x in r ==> HasPrefix(x, prefix)
    ensures forall x :: multiset(r)[x] == if HasPrefix(x, prefix) then multiset(names)[x] else 0
  {
    if |names| == 0 then []
    else
      var rest := FilterPrefix(names[1..], prefix);
      assert names == [names[0]] + names[1..];
      if HasPrefix(names[0], prefix) then [names[0]] + rest
      else
        assert |rest| > 0 ==> rest[0] != names[0];
        rest
  }

  /** With nothing typed yet, every listed name is suggested. */
  lemma {:induction false} EmptyPrefixKeepsAll(names: seq<string>)
    ensures FilterPrefix(names, "") == names
  {
    if |names| > 0 {
      EmptyPrefixKeepsAll(names[1..]);
      assert names == [names[0]] + names[1..];
    }
  }

  /** A subsequence never holds an element more often than the sequence. */
  lemma {:induction false} SubsequenceMultiset<T>(a: seq<T>, b: seq<T>)
    requires IsSubsequence(a, b)
    ensures multiset(a) <= multiset(b)
    decreases |b|
  {
    if |a| > 0 {
      assert b == [b[0]] + b[1..];
      if a[0] == b[0] {
        SubsequenceMultiset(a[1..], b[1..]);
        assert a == [a[0]] + a[1..];
      } else {
        SubsequenceMultiset(a, b[1..]);
      }
    }
  }

  /** The contract of `FilterPrefix` determines its result: any subsequence
      of `names` that holds each prefixed name as often as `names` does, and
      nothing else, is exactly the suggestion list. */
  lemma {:induction false} FilterPrefixUnique(r: seq<string>, names: seq<string>, prefix: string)
    requires IsSubsequence(r, names)
    requires forall x :: multiset(r)[x] == if HasPrefix(x, prefix) then multiset(names)[x] else 0
    ensures r == FilterPrefix(names, prefix)
    decreases |names|
  {
    if |names| > 0 {
      var n := names[0];
      var rest := names[1..];
      assert names == [n] + rest;
      if HasPrefix(n, prefix) {
        assert multiset(r)[n] > 0;
        if r[0] == n {
          assert r == [n] + r[1..];
          FilterPrefixUnique(r[1..], rest, prefix);
        } else {
          SubsequenceMultiset(r, rest);
        }
      } else {
        if |r| > 0 {
          assert r[0] in r;
          assert r[0] != n;
        }
        assert IsSubsequence(r, rest);
        FilterPrefixUnique(r, rest, prefix);
      }
    }
  }

  /** The names the collaborators list, or None when resolving the
      namespace, building the client or listing fails. */
  function Listed(config: CompletionConfig, kind: ClientKind, resource: Resource): Option<seq<string>>
  {
    match config.params.getNamespace(config.command)
    case Err(_) => None
    case Ok(namespace) =>
      match config.params.newClient(kind, namespace)
      case Fail(_) => None
      case Pass =>
        match config.params.list(kind, namespace, resource)
        case Err(_) => None
        case Ok(names) => Some(names)
  }

  /** The shared body of the `complete*` functions. */
  function CompleteWith(config: CompletionConfig, kind: ClientKind, resource: Resource): (r: seq<string>)
    ensures |config.args| != 0 ==> r == []
    ensures Listed(config, kind, resource).None? ==> r == []
    ensures forall x :: x in r ==> HasPrefix(x, config.toComplete)
    ensures |config.args| == 0 && Listed(config, kind, resource).Some? ==>
      var names := Listed(config, kind, resource).value;
      IsSubsequence(r, names) &&
      forall x :: multiset(r)[x] == if HasPrefix(x, config.toComplete) then multiset(names)[x] else 0
  {
    if |config.args| != 0 then []
    else
      match Listed(config, kind, resource)
      case None => []
      case Some(names) => FilterPrefix(names, config.toComplete)
  }

  /** `getTargetFlagValue`. */
  function TargetFlagValue(command: Command): (r: string)
    ensures command.targetFlag.None? ==> r == ""
  {
    match command.targetFlag
    case None => ""
    case Some(v) => v
  }

  function CompleteGitOps(config: CompletionConfig): seq<string>
  {
    CompleteWith(config, GitopsServingClient(TargetFlagValue(config.command)), Services)
  }

  function CompleteService(config: CompletionConfig): seq<string>
  {
    if TargetFlagValue(config.command) != "" then CompleteGitOps(config)
    else CompleteWith(config, ServingClient, Services)
  }

  function CompleteBroker(config: CompletionConfig): seq<string>
  {
    CompleteWith(config, EventingClient, Brokers)
  }

  function CompleteRevision(config: CompletionConfig): seq<string>
  {
    CompleteWith(config, ServingClient, Revisions)
  }

  function CompleteRoute(config: CompletionConfig): seq<string>
  {
    CompleteWith(config, ServingClient, Routes)
  }

  function CompleteDomain(config: CompletionConfig): seq<string>
  {
    CompleteWith(config, ServingV1alpha1Client, DomainMappings)
  }

  function CompleteTrigger(config: CompletionConfig): seq<string>
  {
    CompleteWith(config, EventingClient, Triggers)
  }

  /** Runs one completer of the table. */
  function Run(completer: Completer, config: CompletionConfig): seq<string>
  {
    match completer
    case BrokerCompleter => CompleteBroker(config)
    case DomainCompleter => CompleteDomain(config)
    case RevisionCompleter => CompleteRevision(config)
    case RouteCompleter => CompleteRoute(config)
    case ServiceCompleter => CompleteService(config)
    case TriggerCompleter => CompleteTrigger(config)
  }

  /** The client and resource each completer consults. */
  function Source(completer: Completer, command: Command): (ClientKind, Resource)
  {
    match completer
    case BrokerCompleter => (EventingClient, Brokers)
    case DomainCompleter => (ServingV1alpha1Client, DomainMappings)
    case RevisionCompleter => (ServingClient, Revisions)
    case RouteCompleter => (ServingClient, Routes)
    case ServiceCompleter =>
      if TargetFlagValue(command) != "" then (GitopsServingClient(TargetFlagValue(command)), Services)
      else (ServingClient, Services)
    case TriggerCompleter => (EventingClient, Triggers)
  }

  /** `getCompletion(parent)`. */
  function GetCompletion(config: CompletionConfig, parent: string): (r: seq<string>)
    ensures parent !in ResourceToFunc ==> r == []
    ensures |config.args| != 0 ==> r == []
    ensures forall x :: x in r ==> HasPrefix(x, config.toComplete)
    ensures parent in ResourceToFunc ==>
      var (kind, resource) := Source(ResourceToFunc[parent], config.command);
      (Listed(config, kind, resource).None? ==> r == []) &&
      (|config.args| == 0 && Listed(config, kind, resource).Some? ==>
         IsSubsequence(r, Listed(config, kind, resource).value) &&
         forall x :: multiset(r)[x] ==
           if HasPrefix(x, config.toComplete) then multiset(Listed(config, kind, resource).value)[x] else 0)
  {
    if parent in ResourceToFunc then Run(ResourceToFunc[parent], config) else []
  }

  /** The function `ResourceNameCompletionFunc` returns: the parent's name,
      or "" for a command without parent, selects the completer. */
  function ResourceNameCompletion(config: CompletionConfig): (r: seq<string>)
    ensures config.command.parent.None? ==> r == []
  {
    var parent := if config.command.parent.Some? then config.command.parent.value else "";
    GetCompletion(config, parent)
  }

  /** Only the six table keys complete anything. */
  lemma DispatchKeys()
    ensures ResourceToFunc.Keys == {"broker", "domain", "revision", "route", "service", "trigger"}
  {
  }

  /** With positional arguments present no collaborator is consulted: the
      answer is empty whatever the cluster would have said. */
  lemma ArgsPresentIgnoreCluster(config: CompletionConfig, other: Params, parent: string)
    requires |config.args| != 0
    ensures GetCompletion(config, parent) == GetCompletion(config.(params := other), parent) == []
  {
  }

  /** The service completer switches to the GitOps client exactly when the
      `target` flag has a non-empty value, and passes that value on. */
  lemma ServiceUsesGitOpsForTarget(config: CompletionConfig, target: string)
    requires config.command.targetFlag == Some(target) && target != ""
    ensures CompleteService(config) == CompleteWith(config, GitopsServingClient(target), Services)
  {
  }

  /** Without a `target` flag, or with an empty one, the ordinary serving
      client is used. */
  lemma ServiceUsesServingWithoutTarget(config: CompletionConfig)
    requires config.command.targetFlag.None? || config.command.targetFlag == Some("")
    ensures CompleteService(config) == CompleteWith(config, ServingClient, Services)
  {
  }
}
