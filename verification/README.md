# Plugin resolution and resource-name completion of the Knative `kn` client

This project models two parts of the `kn` command-line client and proves properties about them in Dafny 4.11.

- **Plugin resolution** (`pkg/kn/commands/plugin/handler.go`). `kn` cannot match some command-line tokens to a built-in command. `HandlePluginCommand` then proceeds in four steps:
  - It drops the flag-like tokens.
  - It rewrites `-` to `_` inside the tokens that remain.
  - It searches for the longest leading run of those tokens whose hyphen-joined name the plugin handler can `Lookup`.
  - It calls `Execute` with argv `[path] + cmdArgs[k:]`.
- **`DefaultPluginHandler.Lookup`** walks the configured file-name prefixes in order. For each prefix it tries these places:
  - the plugins directory;
  - on Windows, the same path with the extensions `.bat`, `.cmd`, `.com`, `.exe` and `.ps1`, in that order;
  - `PATH`, when that lookup is enabled.
- **Resource-name completion** (`pkg/kn/commands/completion_helper.go`). The parent command's name selects a completer from a six-entry table. Each completer lists the resources of the current namespace. It returns the names that start with the typed text, in list order. On positional arguments or on any collaborator failure it returns nothing.

Files:

- `results.dfy` (`Results`): Option, Result and Outcome values for Go's `(value, err)` returns.
- `text.dfy` (`Text`): `HasPrefix`, the all-occurrences character replacement, `Join`, and a `Split` that undoes `Join`.
- `lookup.dfy` (`PluginLookup`): `DefaultPluginHandler.Lookup` over an abstract `Host`.
- `command.dfy` (`PluginCommand`): `HandlePluginCommand` over an abstract `PluginHandler`.
- `completion.dfy` (`Completion`): the completion dispatch and the completers.

The operating system is a parameter. The `Host` record supplies these answers:
- `isWindows` stands for `runtime.GOOS`.
- `expandHome` stands for `homedir.Expand`.
- `stat` stands for `os.Stat`. Its answer is classified as present, not-exist, or another error.
- `lookPath` stands for `exec.LookPath`.
- `joinPath` stands for `filepath.Join`.

The `PluginHandler` interface is a record of two functions: `lookup` and `execute`. The `execute` function maps the call record (path, argv, environment) to the error it returns. `os.Environ()` is passed in as `environment`.

In this code:
- A missing plugin is an error. `HandlePluginCommand` returns the error "Could not find plugin to execute"; it is not a neutral "not found" result.
- There are no in-process (internal) plugins in this code.
- A directory candidate counts as found whenever `os.Stat` does not report "does not exist". A permission error is enough; the path need not be a regular file.
- The loop stops at the first `found` answer. If that answer carries an empty path, the result is the not-found error, and no shorter prefix is tried.

The forwarded argv is `[path] + cmdArgs[k:]`, where `k` counts the matched candidate tokens, not positions in the original tokens. So a flag before the plugin name shifts the slice. For `--verbose foo bar` with plugin `foo`, the result forwards `foo bar`, and the flag is lost. `PluginCommand.ForwardedArgsIndexQuirk` proves this behaviour. The model keeps it as written: nothing in the code says which argv was intended.

## Model

| member | source | states |
|---|---|---|
| PluginCommand.Normalize | pkg/kn/commands/plugin/handler.go:131 | a normalised token has the same length and contains no `-` |
| Text.ReplaceChar | pkg/kn/commands/plugin/handler.go:131 | every `-` becomes `_`, and every other character stays where it was |
| PluginCommand.Candidates | pkg/kn/commands/plugin/handler.go:125-132 | the candidate list is no longer than the input, and no candidate contains `-` |
| PluginCommand.CandidatesPositions | pkg/kn/commands/plugin/handler.go:127-132 | one candidate per non-flag token; the non-flag token at position i appears, normalised, at index "number of non-flag tokens before i"; so the list is exactly the non-flag tokens, in order |
| PluginCommand.FlagsOnlyNoCandidates | pkg/kn/commands/plugin/handler.go:127-132 | input made only of flags (or empty) gives no candidates |
| PluginCommand.Search | pkg/kn/commands/plugin/handler.go:134-146 | the result is the longest matching candidate prefix: that prefix matches and no longer one does; the path is the one `Lookup` gave for it; no match gives 0 and "" |
| PluginCommand.LookupCalls | pkg/kn/commands/plugin/handler.go:137-142 | `Lookup` is called with the full hyphen-joined candidate list first, then with one candidate fewer each time; it stops after the first success, so it is called at most once per candidate |
| PluginCommand.LookupNamesDistinct | pkg/kn/commands/plugin/handler.go:137-142 | the names passed to `Lookup` in one search are pairwise different |
| PluginCommand.HandlePluginCommand | pkg/kn/commands/plugin/handler.go:124-161 | `Execute` is called exactly when the longest matching prefix gives a non-empty path; it then receives argv `[path] + cmdArgs[k:]`, with the original, un-normalised tokens and flags, plus the environment; its error is returned unchanged; otherwise the result is the not-found error |
| PluginCommand.NoMatchNotFound | pkg/kn/commands/plugin/handler.go:148-150 | when no candidate prefix matches, the result is the not-found error and nothing is executed |
| PluginCommand.FlagsOnlyNotFound | pkg/kn/commands/plugin/handler.go:124-150 | empty or all-flag input gives the not-found error and no execution |
| PluginCommand.ExpansionErrorNeverExecutes | pkg/kn/commands/plugin/handler.go:63-150 | with the default handler, a plugins directory that cannot be expanded means not-found and no execution, for every input |
| PluginCommand.LongerPrefixWins | pkg/kn/commands/plugin/handler.go:137-146 | with plugins `a` and `a-b`, tokens `a b` select `a-b`, and tokens `a c` fall back to `a` |
| PluginCommand.ForwardedArgsIndexQuirk | pkg/kn/commands/plugin/handler.go:152-155 | for `--verbose foo bar` with plugin `foo`, the argv is `[path, foo, bar]`: the slice counts candidates, not original positions |
| PluginLookup.FirstExisting | pkg/kn/commands/plugin/handler.go:80-87 | the chosen extension is the first one, in list order, that `os.Stat` does not report as missing; all earlier ones are missing |
| PluginLookup.TryPrefix | pkg/kn/commands/plugin/handler.go:64-99 | one prefix aborts exactly when the plugins directory cannot be expanded; its hit is either an existing path or, only when `PATH` lookup is on, the non-empty `PATH` resolution of `prefix-name` (the converse for each tier is stated by `DirectoryHitWins`, `WindowsExtensionOrder` and `PathLookupWhenDirectoryMisses`) |
| PluginLookup.PathLookupWhenDirectoryMisses | pkg/kn/commands/plugin/handler.go:89-99 | when the directory file and the Windows extensions all miss, the hit is the non-empty `PATH` resolution exactly when `PATH` lookup is on and succeeds; otherwise the prefix is a miss and the next prefix is tried |
| PluginLookup.LookupIn | pkg/kn/commands/plugin/handler.go:63-103 | the loop of `Lookup` (which is `LookupIn` over the configured prefixes): found means some prefix hit and every earlier prefix missed, and the path is that hit; not-found means the path is "" and every hit comes after an earlier prefix that aborted |
| PluginLookup.ExpansionErrorNotFound | pkg/kn/commands/plugin/handler.go:68-71 | an expansion error gives `("", false)` even when later prefixes would match |
| PluginLookup.DirectoryHitWins | pkg/kn/commands/plugin/handler.go:73-77 | a directory candidate that is not missing is the hit, ahead of the extensions and `PATH` |
| PluginLookup.WindowsExtensionOrder | pkg/kn/commands/plugin/handler.go:79-87 | on Windows, when the plain file is missing, the first existing extension in the order `.bat`, `.cmd`, `.com`, `.exe`, `.ps1` is the hit |
| PluginLookup.NoExtensionsOffWindows | pkg/kn/commands/plugin/handler.go:79-99 | off Windows a hit is the plain directory path or a `PATH` resolution |
| PluginLookup.NoPathLookupMeansExistingFile | pkg/kn/commands/plugin/handler.go:89-102 | with `PATH` lookup off, every path found is one `os.Stat` does not report as missing |
| PluginLookup.PathLookupOnlyAdds | pkg/kn/commands/plugin/handler.go:89-102 | turning `PATH` lookup on never turns a found plugin into not-found |
| Completion.FilterPrefix | pkg/kn/commands/completion_helper.go:123-129 | the suggestions are a subsequence of the listed names, each one starts with the typed text, and each prefixed name occurs as often as in the list |
| Completion.FilterPrefixUnique | pkg/kn/commands/completion_helper.go:123-129 | those three facts fix the suggestion list: any list with them equals the filter's result |
| Completion.EmptyPrefixKeepsAll | pkg/kn/commands/completion_helper.go:123-129 | with nothing typed, every listed name is suggested, in order |
| Completion.CompleteWith | pkg/kn/commands/completion_helper.go:76-260 | the shared body of `CompleteGitOps`, `CompleteService`, `CompleteBroker`, `CompleteRevision`, `CompleteRoute`, `CompleteDomain` and `CompleteTrigger`, which differ only in the client and resource given in `Source`: positional arguments, or a failed namespace, client or list call, give the empty list; otherwise the result is exactly the prefixed names, in list order |
| Completion.TargetFlagValue | pkg/kn/commands/completion_helper.go:68-74 | an undefined `target` flag reads as "" |
| Completion.GetCompletion | pkg/kn/commands/completion_helper.go:60-66 | covers the dispatch to the seven `Complete*` functions: a parent name outside the table gives the empty list; a name in the table gives the filter over what that completer's client lists, or empty on arguments or failure |
| Completion.ResourceNameCompletion | pkg/kn/commands/completion_helper.go:43-58 | a command without a parent gets no suggestions |
| Completion.DispatchKeys | pkg/kn/commands/completion_helper.go:30-39 | the table's keys are exactly `broker`, `domain`, `revision`, `route`, `service` and `trigger` |
| Completion.ArgsPresentIgnoreCluster | pkg/kn/commands/completion_helper.go:76-80 | with positional arguments the answer is empty and is the same for any collaborators, so none is consulted |
| Completion.ServiceUsesGitOpsForTarget | pkg/kn/commands/completion_helper.go:102-105 | a non-empty `target` flag makes service completion use the GitOps client built with that target |
| Completion.ServiceUsesServingWithoutTarget | pkg/kn/commands/completion_helper.go:102-130 | without a `target` flag, or with an empty one, service completion uses the ordinary serving client |

## Left out

- `DefaultPluginHandler.Execute` (pkg/kn/commands/plugin/handler.go:106-120) is left out. Process replacement through `syscall.Exec`, the Windows child process with stdio wiring, and `os.Exit` are operating-system effects. Only the call record that `Execute` receives, and its error result, are modelled.
- The internals of `homedir.Expand`, `os.Stat`, `exec.LookPath`, `filepath.Join` and `os.Environ` are foreign calls. They are parameters of `Host`, so path cleaning, home-directory expansion and `PATH` splitting are not modelled.
- Plugin manager behaviour is not part of this model: internal plugins, plugin listing and sorting, command-group filtering, help rendering, and plugin descriptions. Its implementation is not among the modelled sources.
- The cobra command tree, `context.Context` and the Knative client types are external libraries. A command is reduced to its parent's name and its `target` flag value. A list call is reduced to the list of item names.
- `ResourceNameCompletion` returns only the suggestions: the constant second result `cobra.ShellCompDirectiveNoFileComp` (pkg/kn/commands/completion_helper.go:56) is a cobra directive that carries no logic.
- Go strings are byte sequences; here they are `seq<char>`. The model only replaces the ASCII `-` and compares prefixes element by element, which gives the same results on either representation.
- Completion.TargetFlagValue: its contract covers only the undefined-flag case. A defined flag yields its value, and the service-completion lemmas state the cases that matter.
