/**
  Preloading modules on several architectures: the lists of modules for each architecture
  become one list of paths with dynamic tokens for each variable, and one table of links.
 */
module Preload {
  import opened Wrappers
  import opened Splitting
  import opened Paths
  import opened Environ
  import opened BwrapBuilder
  import opened PerArchDirs

  datatype Variable = LdAudit | LdPreload

  function VariableName(v: Variable): string {
    match v
    case LdAudit => "LD_AUDIT"
    case LdPreload => "LD_PRELOAD"
  }

  /** What the dynamic linker takes as separators. */
  function Separators(v: Variable): set<char> {
    match v
    case LdAudit => {':'}
    case LdPreload => {':', ' '}
  }

  /** No architecture means all of them. */
  datatype PreloadModule = PreloadModule(name: string, variable: Variable, abi: Option<nat>)

  // ---------------------------------------------------------------------------
  // The architecture that a module is for

  function OverlaySuffix(layout: Layout, abi: nat): string
    requires abi < |layout.overlayDirs|
  {
    "/" + layout.overlayDirs[abi] + "/" + layout.overlayName
  }

  function OverlayAbiFrom(layout: Layout, name: string, from: nat): (abi: Option<nat>)
    ensures abi.Some? ==> from <= abi.value < |layout.overlayDirs|
                          && HasSuffix(name, OverlaySuffix(layout, abi.value))
    ensures forall k :: from <= k < (if abi.Some? then abi.value else |layout.overlayDirs|) ==>
              !HasSuffix(name, OverlaySuffix(layout, k))
    decreases |layout.overlayDirs| - from
  {
    if |layout.overlayDirs| <= from then None
    else if HasSuffix(name, OverlaySuffix(layout, from)) then Some(from)
    else OverlayAbiFrom(layout, name, from + 1)
  }

  /** The module's own architecture, or for Steam's overlay the one that its path suggests. */
  function EffectiveAbi(layout: Layout, m: PreloadModule): Option<nat> {
    if m.abi.None? && m.variable == LdPreload && Base(m.name) == layout.overlayName then
      OverlayAbiFrom(layout, m.name, 0)
    else m.abi
  }

  method FindAbi(layout: Layout, m: PreloadModule) returns (abi: Option<nat>)
    ensures abi == EffectiveAbi(layout, m)
  {
    abi := m.abi;
    if abi.None? && m.variable == LdPreload && Base(m.name) == layout.overlayName {
      for k := 0 to |layout.overlayDirs|
        invariant abi.None?
        invariant OverlayAbiFrom(layout, m.name, 0) == OverlayAbiFrom(layout, m.name, k)
      {
        if HasSuffix(m.name, OverlaySuffix(layout, k)) {
          return Some(k);
        }
      }
    }
  }

  // ---------------------------------------------------------------------------
  // What is done with the modules

  /** Where the module's link goes, if it is for one architecture. */
  function Slot(layout: Layout, m: PreloadModule): Option<(nat, string)> {
    var abi := EffectiveAbi(layout, m);
    if m.name == "" || abi.None? then None else Some((abi.value, Base(m.name)))
  }

  function LinkOne(layout: Layout, links: Links, m: PreloadModule): Links {
    match Slot(layout, m)
    case None => links
    case Some(key) => if CanLink(layout, links, key) then links[key := m.name] else links
  }

  function LinkAll(layout: Layout, links: Links, modules: seq<PreloadModule>): Links
    decreases modules
  {
    if modules == [] then links else LinkAll(layout, LinkOne(layout, links, modules[0]), modules[1..])
  }

  /** Whether the module can be loaded through its link. */
  predicate IsLinked(layout: Layout, links: Links, m: PreloadModule) {
    match Slot(layout, m)
    case None => false
    case Some(key) => key in links && links[key] == m.name
  }

  function AddUnique(path: seq<string>, item: string): seq<string> {
    if item in path then path else path + [item]
  }

  function ListOne(layout: Layout, links: Links, path: seq<string>, m: PreloadModule): seq<string> {
    if m.name == "" then path
    else if IsLinked(layout, links, m) then AddUnique(path, Token(layout, Base(m.name)))
    else path + [m.name]
  }

  /** The list for one variable, when the links are made and looked at module by module. */
  function ListAll(layout: Layout, links: Links, path: seq<string>, v: Variable, modules: seq<PreloadModule>)
    : seq<string>
    decreases modules
  {
    if modules == [] then path
    else
      var after := LinkOne(layout, links, modules[0]);
      ListAll(layout, after, if modules[0].variable == v then ListOne(layout, after, path, modules[0]) else path, v,
              modules[1..])
  }

  /** The names given for a variable, without any adjustment. */
  function Names(path: seq<string>, v: Variable, modules: seq<PreloadModule>): seq<string>
    decreases modules
  {
    if modules == [] then path
    else
      var m := modules[0];
      Names(if m.variable == v && m.name != "" then path + [m.name] else path, v, modules[1..])
  }

  /** `pv_search_path_append`, for all items. */
  function Joined(path: seq<string>): string {
    if path == [] then "" else Appended(Joined(path[..|path| - 1]), path[|path| - 1])
  }

  function Appended(value: string, item: string): string {
    if item == "" then value else if value == "" then item else value + ":" + item
  }

  function SetUnlessEmpty(env: Env, v: Variable, value: string): Env {
    if value == "" then env else Set(env, VariableName(v), value, true)
  }

  // ---------------------------------------------------------------------------
  // The code

  /** `do_one_preload_module` */
  method DoOneModule(dirs: LinkDirs?, m: PreloadModule, path: seq<string>) returns (result: seq<string>)
    modifies if dirs == null then {} else {dirs}
    ensures dirs == null ==> result == if m.name == "" then path else path + [m.name]
    ensures dirs != null ==>
              && dirs.links == LinkOne(dirs.layout, old(dirs.links), m)
              && result == ListOne(dirs.layout, dirs.links, path, m)
  {
    result := path;
    if m.name == "" {
      return;
    }
    var base := Base(m.name);
    if dirs == null {
      return path + [m.name];
    }
    var abi := FindAbi(dirs.layout, m);
    if abi.Some? {
      var token := BuildFilename(dirs.layout.tokenDir, base);
      var ok := dirs.Symlink(m.name, abi.value, base);
      if ok {
        return AddUnique(path, token);
      }
      if (abi.value, base) in dirs.links && dirs.links[(abi.value, base)] == m.name {
        return AddUnique(path, token);
      }
    }
    result := path + [m.name];
  }

  /** `pv_adverb_set_up_preload_modules` */
  method SetUpPreloadModules(command: FlatpakBwrap, dirs: LinkDirs?, modules: seq<PreloadModule>)
    modifies command`envp, if dirs == null then {} else {dirs}
    ensures dirs != null ==> dirs.links == LinkAll(dirs.layout, old(dirs.links), modules)
    ensures dirs != null ==>
              command.envp == EnvAfter(dirs.layout, old(dirs.links), modules, old(command.envp))
    ensures dirs == null ==>
              command.envp
              == SetUnlessEmpty(SetUnlessEmpty(old(command.envp), LdAudit, Joined(Names([], LdAudit, modules))),
                                LdPreload, Joined(Names([], LdPreload, modules)))
  {
    var audit, preload := [], [];
    for i := 0 to |modules|
      invariant command.envp == old(command.envp)
      invariant dirs == null ==>
                  && Names([], LdAudit, modules) == Names(audit, LdAudit, modules[i..])
                  && Names([], LdPreload, modules) == Names(preload, LdPreload, modules[i..])
      invariant dirs != null ==>
                  && LinkAll(dirs.layout, old(dirs.links), modules) == LinkAll(dirs.layout, dirs.links, modules[i..])
                  && ListAll(dirs.layout, old(dirs.links), [], LdAudit, modules)
                     == ListAll(dirs.layout, dirs.links, audit, LdAudit, modules[i..])
                  && ListAll(dirs.layout, old(dirs.links), [], LdPreload, modules)
                     == ListAll(dirs.layout, dirs.links, preload, LdPreload, modules[i..])
    {
      assert modules[i..][1..] == modules[i + 1..];
      match modules[i].variable
      case LdAudit => audit := DoOneModule(dirs, modules[i], audit);
      case LdPreload => preload := DoOneModule(dirs, modules[i], preload);
    }
    assert modules[|modules|..] == [];
    SetVariable(command, LdAudit, audit);
    SetVariable(command, LdPreload, preload);
  }

  /** Serialize one list. */
  method SetVariable(command: FlatpakBwrap, v: Variable, path: seq<string>)
    modifies command`envp
    ensures command.envp == SetUnlessEmpty(old(command.envp), v, Joined(path))
  {
    var buffer := "";
    for i := 0 to |path|
      invariant buffer == Joined(path[..i])
    {
      assert path[..i + 1][..i] == path[..i];
      if path[i] != "" {
        if buffer != "" {
          buffer := buffer + ":";
        }
        buffer := buffer + path[i];
      }
    }
    assert path[..|path|] == path;
    if buffer != "" {
      VariableNameIsValid(v);
      command.SetEnv(VariableName(v), buffer);
    }
  }

  lemma VariableNameIsValid(v: Variable)
    ensures ValidName(VariableName(v))
  {
  }

  function EnvAfter(layout: Layout, links: Links, modules: seq<PreloadModule>, env: Env): Env {
    SetUnlessEmpty(SetUnlessEmpty(env, LdAudit, Joined(ListAll(layout, links, [], LdAudit, modules))),
                   LdPreload, Joined(ListAll(layout, links, [], LdPreload, modules)))
  }
}
