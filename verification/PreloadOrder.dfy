/** Which modules make up each preload list and in which order, and which architecture they are for. */
module PreloadOrder {
  import opened Wrappers
  import opened Splitting
  import opened Environ
  import opened PerArchDirs
  import opened Preload
  import opened PreloadGuarantees

  // ---------------------------------------------------------------------------
  // The order of a list

  /** The entries of a variable's modules in order, with a token path only where it first occurs. */
  function InOrder(layout: Layout, links: Links, path: seq<string>, v: Variable, modules: seq<PreloadModule>)
    : seq<string>
    decreases modules
  {
    if modules == [] then path
    else
      var m := modules[0];
      var entry := EntryFor(layout, links, m);
      var skip := m.variable != v || m.name == "" || (IsLinked(layout, links, m) && entry in path);
      InOrder(layout, links, if skip then path else path + [entry], v, modules[1..])
  }

  /** The list that is made along with the links is the entries by the finished table, in order. */
  lemma {:induction false} ListIsInOrder(layout: Layout, links: Links, path: seq<string>, v: Variable,
                                         modules: seq<PreloadModule>)
    ensures ListAll(layout, links, path, v, modules)
            == InOrder(layout, LinkAll(layout, links, modules), path, v, modules)
    decreases modules
  {
    if modules != [] {
      var m := modules[0];
      var after := LinkOne(layout, links, m);
      LinkedForGood(layout, links, m, modules[1..]);
      ListIsInOrder(layout, after, if m.variable == v then ListOne(layout, after, path, m) else path, v, modules[1..]);
    }
  }

  /** Without directories there are no links, and the names are listed in order as they were given. */
  lemma {:induction false} NamesAreInOrder(layout: Layout, path: seq<string>, v: Variable, modules: seq<PreloadModule>)
    ensures Names(path, v, modules) == InOrder(layout, map[], path, v, modules)
    decreases modules
  {
    if modules != [] {
      var m := modules[0];
      NamesAreInOrder(layout, if m.variable == v && m.name != "" then path + [m.name] else path, v, modules[1..]);
    }
  }

  // ---------------------------------------------------------------------------
  // The variables by name

  /** What a variable that the dynamic linker reads with these separators is to contain. */
  ghost predicate Holds(value: Option<string>, before: Option<string>, list: seq<string>, seps: set<char>, fits: bool) {
    if list == [] then value == before
    else value == Some(Joined(list)) && (Items(value.value, seps) == list <==> fits)
  }

  /**
    The modules given for preloading end up in LD_PRELOAD, which is read with colons and spaces,
    and those given for auditing in LD_AUDIT, which is read with colons; each list in order.
   */
  lemma EachListHasItsVariable(layout: Layout, links: Links, modules: seq<PreloadModule>, env: Env)
    requires ValidLayout(layout) && ValidLinks(layout, links)
    ensures var final := LinkAll(layout, links, modules);
            var after := EnvAfter(layout, links, modules, env);
            && Holds(Get(after, "LD_PRELOAD"), Get(env, "LD_PRELOAD"), InOrder(layout, final, [], LdPreload, modules),
                     {':', ' '}, VariableFits(layout, links, modules, LdPreload))
            && Holds(Get(after, "LD_AUDIT"), Get(env, "LD_AUDIT"), InOrder(layout, final, [], LdAudit, modules),
                     {':'}, VariableFits(layout, links, modules, LdAudit))
  {
    ListIsInOrder(layout, links, [], LdPreload, modules);
    ListIsInOrder(layout, links, [], LdAudit, modules);
    VariableHoldsList(layout, links, modules, LdPreload, env);
    VariableHoldsList(layout, links, modules, LdAudit, env);
  }

  lemma {:induction false} NamesAreNotEmpty(path: seq<string>, v: Variable, modules: seq<PreloadModule>)
    requires forall k :: 0 <= k < |path| ==> path[k] != ""
    ensures forall k :: 0 <= k < |Names(path, v, modules)| ==> Names(path, v, modules)[k] != ""
    decreases modules
  {
    if modules != [] {
      var m := modules[0];
      NamesAreNotEmpty(if m.variable == v && m.name != "" then path + [m.name] else path, v, modules[1..]);
    }
  }

  ghost predicate AllItemsFit(list: seq<string>, seps: set<char>) {
    forall k :: 0 <= k < |list| ==> IsItem(list[k], seps)
  }

  lemma PlainListIsHeld(modules: seq<PreloadModule>, v: Variable, seps: set<char>, before: Option<string>)
    requires ':' in seps
    ensures var list := Names([], v, modules);
            Holds(if Joined(list) == "" then before else Some(Joined(list)), before, list, seps,
                  AllItemsFit(list, seps))
  {
    var list := Names([], v, modules);
    NamesAreNotEmpty([], v, modules);
    JoinedIsEmpty(list);
    ItemsOfJoined(list, seps);
  }

  /** Without directories each variable gets the names that were given for it, in order. */
  lemma NamesHaveTheirVariable(layout: Layout, modules: seq<PreloadModule>, env: Env)
    ensures var preload := InOrder(layout, map[], [], LdPreload, modules);
            var audit := InOrder(layout, map[], [], LdAudit, modules);
            var after := SetUnlessEmpty(SetUnlessEmpty(env, LdAudit, Joined(Names([], LdAudit, modules))), LdPreload,
                                        Joined(Names([], LdPreload, modules)));
            && Holds(Get(after, "LD_PRELOAD"), Get(env, "LD_PRELOAD"), preload, {':', ' '},
                     AllItemsFit(preload, {':', ' '}))
            && Holds(Get(after, "LD_AUDIT"), Get(env, "LD_AUDIT"), audit, {':'}, AllItemsFit(audit, {':'}))
  {
    var audit, preload := Joined(Names([], LdAudit, modules)), Joined(Names([], LdPreload, modules));
    NamesOfVariables();
    NamesAreInOrder(layout, [], LdPreload, modules);
    NamesAreInOrder(layout, [], LdAudit, modules);
    GetAfterBoth(env, audit, preload, LdAudit);
    GetAfterBoth(env, audit, preload, LdPreload);
    PlainListIsHeld(modules, LdPreload, {':', ' '}, Get(env, "LD_PRELOAD"));
    PlainListIsHeld(modules, LdAudit, {':'}, Get(env, "LD_AUDIT"));
  }

  /** One module for all architectures and preloading ends up in LD_PRELOAD, and LD_AUDIT is left alone. */
  lemma PreloadedIsNotAudited(layout: Layout, name: string, env: Env)
    requires ValidLayout(layout) && name != ""
    requires EffectiveAbi(layout, PreloadModule(name, LdPreload, None)).None?
    ensures var after := EnvAfter(layout, map[], [PreloadModule(name, LdPreload, None)], env);
            Get(after, "LD_PRELOAD") == Some(name) && Get(after, "LD_AUDIT") == Get(env, "LD_AUDIT")
  {
    var m := PreloadModule(name, LdPreload, None);
    var modules := [m];
    OneUnlinkedModule(layout, m);
    EachListHasItsVariable(layout, map[], modules, env);
    ListIsInOrder(layout, map[], [], LdPreload, modules);
    assert modules[1..] == [];
    assert InOrder(layout, map[], [], LdAudit, modules) == InOrder(layout, map[], [], LdAudit, modules[1..]) == [];
    assert [name][..0] == [];
    assert Joined([name]) == Appended(Joined([]), name) == name;
  }

  // ---------------------------------------------------------------------------
  // Steam's overlay library

  /** A path that ends with an overlay library's suffix has its file name. */
  lemma SuffixGivesBase(layout: Layout, name: string, k: nat)
    requires k < |layout.overlayDirs| && '/' !in layout.overlayName
    requires HasSuffix(name, OverlaySuffix(layout, k))
    ensures Base(name) == layout.overlayName
  {
    var suffix := OverlaySuffix(layout, k);
    var dir := name[..|name| - |suffix|] + "/" + layout.overlayDirs[k];
    assert name == name[..|name| - |suffix|] + suffix;
    assert name == dir + "/" + layout.overlayName;
    BaseOfJoin(dir, layout.overlayName);
  }

  /**
    A preloaded module without an architecture is taken to be for the first one whose overlay
    library its path ends with, and any other module for the one that was given, if any.
   */
  lemma OverlayDecides(layout: Layout, m: PreloadModule, k: nat)
    requires '/' !in layout.overlayName && k < |layout.overlayDirs|
    ensures EffectiveAbi(layout, m) == Some(k) <==>
            || m.abi == Some(k)
            || (&& m.abi.None? && m.variable == LdPreload && HasSuffix(m.name, OverlaySuffix(layout, k))
                && forall j :: 0 <= j < k ==> !HasSuffix(m.name, OverlaySuffix(layout, j)))
  {
    if HasSuffix(m.name, OverlaySuffix(layout, k)) {
      SuffixGivesBase(layout, m.name, k);
    }
  }

  lemma Suffix64()
    ensures "/" + "ubuntu12_64" + "/" + "gameoverlayrenderer.so" == "/ubuntu12_64/gameoverlayrenderer.so"
  {
  }

  lemma Suffix32()
    ensures "/" + "ubuntu12_32" + "/" + "gameoverlayrenderer.so" == "/ubuntu12_32/gameoverlayrenderer.so"
  {
  }

  lemma X86Suffixes(tokenDir: string, blocked: (nat, string) -> bool)
    ensures var layout := X86Layout(tokenDir, blocked);
            && '/' !in layout.overlayName && |layout.overlayDirs| == 2
            && OverlaySuffix(layout, 0) == "/" + "ubuntu12_64" + "/" + "gameoverlayrenderer.so"
            && OverlaySuffix(layout, 1) == "/" + "ubuntu12_32" + "/" + "gameoverlayrenderer.so"
  {
  }

  lemma SuffixesDiffer(name: string, a: string, b: string)
    requires |a| == |b| && a != b
    ensures !(HasSuffix(name, a) && HasSuffix(name, b))
  {
  }

  /** On x86, Steam's two overlay libraries are each preloaded on their own architecture only. */
  lemma X86Overlays(tokenDir: string, blocked: (nat, string) -> bool, name: string, v: Variable)
    ensures var layout := X86Layout(tokenDir, blocked);
            var abi := EffectiveAbi(layout, PreloadModule(name, v, None));
            && (abi == Some(0) <==> v == LdPreload && HasSuffix(name, "/ubuntu12_64/gameoverlayrenderer.so"))
            && (abi == Some(1) <==> v == LdPreload && HasSuffix(name, "/ubuntu12_32/gameoverlayrenderer.so"))
  {
    var layout, m := X86Layout(tokenDir, blocked), PreloadModule(name, v, None);
    X86Suffixes(tokenDir, blocked);
    Suffix64();
    Suffix32();
    assert OverlaySuffix(layout, 0)[11] == '4' && OverlaySuffix(layout, 1)[11] == '2';
    SuffixesDiffer(name, OverlaySuffix(layout, 0), OverlaySuffix(layout, 1));
    OverlayDecides(layout, m, 0);
    OverlayDecides(layout, m, 1);
  }
}
