/** `DefaultPluginHandler.Lookup` of pkg/kn/commands/plugin/handler.go: where a
    candidate plugin name resolves, over an abstract host. */
module PluginLookup {
  import opened Results

  /** How `os.Stat` answered: only "does not exist" counts as absent; any
      other error (a permission problem, say) counts as present. */
  datatype StatResult = Present | NotExist | StatFailed

  /** The host the lookup runs on. Each field stands for a call the Go code
      makes into the operating system or a library:
      `isWindows` for `runtime.GOOS == "windows"`, `expandHome` for
      `homedir.Expand` (None on error), `stat` for `os.Stat`, `lookPath` for
      `exec.LookPath` (None on error) and `joinPath` for `filepath.Join`. */
  datatype Host = Host(
    isWindows: bool,
    expandHome: string -> Option<string>,
    stat: string -> StatResult,
    lookPath: string -> Option<string>,
    joinPath: (string, string) -> string)

  /** The handler's configuration. */
  datatype DefaultPluginHandler = DefaultPluginHandler(
    validPrefixes: seq<string>,
    pluginsDir: string,
    lookupPluginsInPath: bool)

  /** The executable extensions probed on Windows, in probing order. */
  const WindowsExtensions: seq<string> := [".bat", ".cmd", ".com", ".exe", ".ps1"]

  /** The file name a plugin called `name` has under `prefix`. */
  function PluginFileName(prefix: string, name: string): string
  {
    prefix + "-" + name
  }

  /** A path is taken as existing unless `os.Stat` says it does not exist. */
  predicate Exists(host: Host, path: string)
  {
    host.stat(path) != NotExist
  }

  /** Index of the first extension in `exts` whose `base + ext` exists, or
      `|exts|` when none does. */
  function FirstExisting(host: Host, base: string, exts: seq<string>): (i: nat)
    ensures i <= |exts|
    ensures i < |exts| ==> Exists(host, base + exts[i])
    ensures forall j :: 0 <= j < i ==> !Exists(host, base + exts[j])
  {
    if |exts| == 0 then 0
    else if Exists(host, base + exts[0]) then 0
    else 1 + FirstExisting(host, base, exts[1..])
  }

  /** What one prefix contributes: a hit, "give up now" (the plugins
      directory cannot be expanded), or "try the next prefix". */
  datatype Probe = Hit(path: string) | Abort | Miss

  /** The body of the loop over prefixes in `Lookup`, for one prefix. */
  function TryPrefix(h: DefaultPluginHandler, host: Host, prefix: string, name: string): (r: Probe)
    ensures r.Abort? <==> host.expandHome(h.pluginsDir).None?
    ensures r.Hit? ==>
      Exists(host, r.path) ||
      (h.lookupPluginsInPath && r.path != "" && host.lookPath(PluginFileName(prefix, name)) == Some(r.path))
  {
    match host.expandHome(h.pluginsDir)
    case None => Abort
    case Some(dir) =>
      var file := PluginFileName(prefix, name);
      var inDir := host.joinPath(dir, file);
      var ext := if host.isWindows then FirstExisting(host, inDir, WindowsExtensions) else |WindowsExtensions|;
      if Exists(host, inDir) then Hit(inDir)
      else if ext < |WindowsExtensions| then Hit(inDir + WindowsExtensions[ext])
      else if h.lookupPluginsInPath then
        match host.lookPath(file)
        case Some(p) => if p != "" then Hit(p) else Miss
        case None => Miss
      else Miss
  }

  /** The loop of `Lookup` over the remaining `prefixes`. The answer is the
      hit of the first prefix that is not a miss; an abort, or running out
      of prefixes, is `("", false)`. */
  function LookupIn(h: DefaultPluginHandler, host: Host, prefixes: seq<string>, name: string): (r: (string, bool))
    ensures r.1 ==>
      exists i :: 0 <= i < |prefixes| && TryPrefix(h, host, prefixes[i], name) == Hit(r.0) &&
        forall j :: 0 <= j < i ==> TryPrefix(h, host, prefixes[j], name) == Miss
    ensures !r.1 ==> r.0 == ""
    ensures !r.1 ==>
      forall i :: 0 <= i < |prefixes| && TryPrefix(h, host, prefixes[i], name).Hit? ==>
        exists j :: 0 <= j < i && TryPrefix(h, host, prefixes[j], name) != Miss
  {
    if |prefixes| == 0 then ("", false)
    else
      match TryPrefix(h, host, prefixes[0], name)
      case Hit(p) => (p, true)
      case Abort => ("", false)
      case Miss =>
        var r := LookupIn(h, host, prefixes[1..], name);
        assert forall i :: 1 <= i < |prefixes| ==> prefixes[i] == prefixes[1..][i - 1];
        if r.1 then
          ghost var i :| 0 <= i < |prefixes[1..]| && TryPrefix(h, host, prefixes[1..][i], name) == Hit(r.0) &&
            forall j :: 0 <= j < i ==> TryPrefix(h, host, prefixes[1..][j], name) == Miss;
          assert TryPrefix(h, host, prefixes[i + 1], name) == Hit(r.0);
          r
        else
          r
  }

  /** `DefaultPluginHandler.Lookup(name)`. */
  function Lookup(h: DefaultPluginHandler, host: Host, name: string): (string, bool)
  {
    LookupIn(h, host, h.validPrefixes, name)
  }

  /** A plugins directory that cannot be expanded makes every lookup fail,
      whatever the later prefixes, the extensions or the search path hold. */
  lemma ExpansionErrorNotFound(h: DefaultPluginHandler, host: Host, name: string)
    requires host.expandHome(h.pluginsDir).None?
    ensures Lookup(h, host, name) == ("", false)
  {
  }

  /** A file in the plugins directory wins over the Windows extensions and
      over the search path for the same prefix. */
  lemma DirectoryHitWins(h: DefaultPluginHandler, host: Host, prefix: string, name: string, dir: string)
    requires host.expandHome(h.pluginsDir) == Some(dir)
    requires Exists(host, host.joinPath(dir, PluginFileName(prefix, name)))
    ensures TryPrefix(h, host, prefix, name) == Hit(host.joinPath(dir, PluginFileName(prefix, name)))
  {
  }

  /** On Windows, when the plain file is absent, the first extension in the
      order `.bat`, `.cmd`, `.com`, `.exe`, `.ps1` that exists is the hit,
      before the search path is consulted. */
  lemma WindowsExtensionOrder(h: DefaultPluginHandler, host: Host, prefix: string, name: string, dir: string, k: nat)
    requires host.isWindows
    requires host.expandHome(h.pluginsDir) == Some(dir)
    requires !Exists(host, host.joinPath(dir, PluginFileName(prefix, name)))
    requires k < |WindowsExtensions|
    requires Exists(host, host.joinPath(dir, PluginFileName(prefix, name)) + WindowsExtensions[k])
    requires forall j :: 0 <= j < k ==> !Exists(host, host.joinPath(dir, PluginFileName(prefix, name)) + WindowsExtensions[j])
    ensures TryPrefix(h, host, prefix, name) == Hit(host.joinPath(dir, PluginFileName(prefix, name)) + WindowsExtensions[k])
  {
  }

  /** Off Windows no extension is tried: a hit is the plain directory path
      or a search-path resolution. */
  lemma NoExtensionsOffWindows(h: DefaultPluginHandler, host: Host, prefix: string, name: string, dir: string)
    requires !host.isWindows
    requires host.expandHome(h.pluginsDir) == Some(dir)
    requires TryPrefix(h, host, prefix, name).Hit?
    ensures TryPrefix(h, host, prefix, name).path == host.joinPath(dir, PluginFileName(prefix, name)) ||
            (h.lookupPluginsInPath && host.lookPath(PluginFileName(prefix, name)) == Some(TryPrefix(h, host, prefix, name).path))
  {
  }

  /** When neither the directory file nor (on Windows) an extension exists,
      the search path decides: its non-empty resolution is the hit when that
      lookup is enabled, and otherwise the prefix is a miss. */
  lemma PathLookupWhenDirectoryMisses(h: DefaultPluginHandler, host: Host, prefix: string, name: string, dir: string)
    requires host.expandHome(h.pluginsDir) == Some(dir)
    requires !Exists(host, host.joinPath(dir, PluginFileName(prefix, name)))
    requires !host.isWindows ||
      FirstExisting(host, host.joinPath(dir, PluginFileName(prefix, name)), WindowsExtensions) == |WindowsExtensions|
    ensures TryPrefix(h, host, prefix, name) ==
      (var found := host.lookPath(PluginFileName(prefix, name));
       if h.lookupPluginsInPath && found.Some? && found.value != "" then Hit(found.value) else Miss)
  {
  }

  /** Without search-path lookup every hit is a path `os.Stat` does not
      report as missing. */
  lemma NoPathLookupMeansExistingFile(h: DefaultPluginHandler, host: Host, prefixes: seq<string>, name: string)
    requires !h.lookupPluginsInPath
    requires LookupIn(h, host, prefixes, name).1
    ensures Exists(host, LookupIn(h, host, prefixes, name).0)
  {
  }

  /** Turning search-path lookup on never loses a plugin that was found
      with it off. */
  lemma {:induction false} PathLookupOnlyAdds(h: DefaultPluginHandler, host: Host, prefixes: seq<string>, name: string)
    requires LookupIn(h.(lookupPluginsInPath := false), host, prefixes, name).1
    ensures LookupIn(h.(lookupPluginsInPath := true), host, prefixes, name).1
    decreases |prefixes|
  {
    var off := h.(lookupPluginsInPath := false);
    var on := h.(lookupPluginsInPath := true);
    var p := TryPrefix(off, host, prefixes[0], name);
    if p.Miss? {
      if TryPrefix(on, host, prefixes[0], name).Miss? {
        PathLookupOnlyAdds(h, host, prefixes[1..], name);
      }
    }
  }
}
