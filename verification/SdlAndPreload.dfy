/** Setting up SDL and then preloading: both share one write-once table of links. */
module SdlAndPreload {
  import opened Wrappers
  import opened Environ
  import opened PerArchDirs
  import opened Preload
  import opened PreloadGuarantees
  import opened Sdl

  lemma PreloadKeepsVariable(layout: Layout, links: Links, modules: seq<PreloadModule>, env: Env, variable: string)
    requires ValidName(variable) && variable != VariableName(LdAudit) && variable != VariableName(LdPreload)
    ensures Get(EnvAfter(layout, links, modules, env), variable) == Get(env, variable)
  {
    var audit := Joined(ListAll(layout, links, [], LdAudit, modules));
    VariableNameIsValid(LdAudit);
    VariableNameIsValid(LdPreload);
    GetAfterSet(env, VariableName(LdAudit), audit, true, variable);
    GetAfterSet(SetUnlessEmpty(env, LdAudit, audit), VariableName(LdPreload),
                Joined(ListAll(layout, links, [], LdPreload, modules)), true, variable);
  }

  /**
    A variable that was set for SDL still leads to the same libraries after preloading has been
    set up, whatever modules with the same file names are preloaded. `between` stands for links
    that are made in the meantime.
   */
  lemma SdlSurvivesPreload(layout: Layout, places: Places, table: seq<Library>, s: State, variable: string,
                           between: Links, modules: seq<PreloadModule>)
    returns (i: nat)
    requires ValidTable(table) && ValidName(variable)
    requires variable != "LD_AUDIT" && variable != "LD_PRELOAD"
    requires var after := SetUpAll(layout, places, table, s);
             && Get(s.env, variable).None? && Get(after.env, variable).Some? && Extends(after.links, between)
    ensures var env := EnvAfter(layout, between, modules, SetUpAll(layout, places, table, s).env);
            i < |table|
            && Provides(layout, places, table[i], variable, State(env, LinkAll(layout, between, modules)))
  {
    var after := SetUpAll(layout, places, table, s);
    NamesOfVariables();
    i := SetVariableProvides(layout, places, table, s, variable);
    PreloadKeepsVariable(layout, between, modules, after.env, variable);
    LinksExtend(layout, between, modules);
    ProvidesLater(layout, places, table[i], variable, after,
                  State(EnvAfter(layout, between, modules, after.env), LinkAll(layout, between, modules)));
  }

  /** And so the dynamic linker finds the override, or else the runtime's copy. */
  lemma SdlResolves(layout: Layout, places: Places, library: Library, variable: string, s: State, abi: nat)
    requires Provides(layout, places, library, variable, s)
    requires Base(library.path) != "" && IsAvailable(layout, places, library.path, abi)
    ensures Get(s.env, variable).Some?
    ensures Resolve(layout, s.links, abi, Get(s.env, variable).value)
            == var override := Override(places, layout.tuples[abi], library.path);
               if override.Some? && places.isFile(override.value) then override
               else Some(PathBelow(places.prefix, layout.tuples[abi], library.path))
  {
    BaseOfToken(layout, Base(library.path));
  }

  /** The program's own table uses valid variables, none of them the dynamic linker's. */
  lemma ProgramTableIsValid(sdl2Compat: bool, sdl2: bool, sdl3: bool, i: nat)
    requires i < |ProgramTable(sdl2Compat, sdl2, sdl3)|
    ensures var library := ProgramTable(sdl2Compat, sdl2, sdl3)[i];
            && ValidName(library.variable)
            && library.variable != "LD_AUDIT" && library.variable != "LD_PRELOAD"
            && Base(library.path) != ""
  {
    var library := ProgramTable(sdl2Compat, sdl2, sdl3)[i];
    assert library.path[|library.path| - 1] == '0';
    assert library.variable[0] == 'S';
    assert "LD_AUDIT"[0] == 'L' && "LD_PRELOAD"[0] == 'L';
  }

  /**
    A preloaded module keeps an entry of its own even if SDL's links, or any others, already
    use its file name.
   */
  lemma ModulesSurviveSdl(layout: Layout, places: Places, table: seq<Library>, s: State, modules: seq<PreloadModule>,
                          i: nat, abi: nat)
    returns (entry: string)
    requires ValidTable(table)
    requires ValidLayout(layout) && ValidLinks(layout, s.links)
    requires i < |modules| && modules[i].name != "" && !IsToken(layout, modules[i].name)
    requires EffectiveAbi(layout, modules[i]).None? || EffectiveAbi(layout, modules[i]) == Some(abi)
    ensures var links := SetUpAll(layout, places, table, s).links;
            && entry in ListAll(layout, links, [], modules[i].variable, modules)
            && Resolve(layout, LinkAll(layout, links, modules), abi, entry) == Some(modules[i].name)
  {
    SetUpKeepsValid(layout, places, table, s);
    entry := EveryModuleIsReachable(layout, SetUpAll(layout, places, table, s).links, modules, i, abi);
  }

  lemma {:induction false} SetUpKeepsValid(layout: Layout, places: Places, table: seq<Library>, s: State)
    requires ValidLinks(layout, s.links)
    ensures ValidLinks(layout, SetUpAll(layout, places, table, s).links)
    decreases table
  {
    if table != [] {
      LinkFromAdds(layout, Targets(layout, places, table[0].path), Base(table[0].path), s.links, 0, false);
      SetUpKeepsValid(layout, places, table[1..],
                      if table[0].wanted then SetUpOne(layout, places, table[0], s) else s);
    }
  }
}
