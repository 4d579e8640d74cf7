/** Which words and which variables a selection comes to, one after the other. */
module LaunchCommandParts {
  import opened Wrappers
  import opened Environ
  import opened Peeling
  import opened LaunchCommand

  // ---------------------------------------------------------------------------
  // The words

  function RuntimeWords(s: Selection): Words {
    match s.container
    case None => []
    case Some(Depot(argv, _)) => argv
    case Some(Directory(path)) => [s.pressureVessel.unruntime, "--runtime=" + path, "--"]
  }

  /** A terminal or a shell without a container runtime, if there is a pressure-vessel to ask. */
  function TerminalWords(s: Selection): Words {
    if s.container.None? && s.anyPressureVessel.Some? && (s.shell.Some? || s.terminal.Some?) then
      [s.anyPressureVessel.value.adverb]
      + (match s.shell case None => [] case Some(shell) => ["--shell=" + shell])
      + (match s.terminal case None => [] case Some(terminal) => ["--terminal=" + terminal]) + ["--"]
    else []
  }

  lemma {:induction false} AllArgsPlain(s: Selection, adverbs: seq<Words>)
    ensures AllArgs(s, Plain(adverbs)) == Concat(adverbs)
  {
    if adverbs != [] {
      AllArgsPlain(s, adverbs[1..]);
      assert Plain(adverbs)[1..] == Plain(adverbs[1..]);
    }
  }

  lemma AllArgsOptional(s: Selection, argv: Words)
    ensures AllArgs(s, Optional(argv)) == argv
  {
    if argv != [] {
      AllArgsOne(s, Other(argv));
    }
  }

  lemma AllArgsContainer(s: Selection)
    ensures AllArgs(s, if s.container.Some? then [ContainerRuntime(s.container.value)] + Optional(s.layered) else [])
            == RuntimeWords(s) + if s.container.Some? then s.layered else []
  {
    if s.container.Some? {
      AllArgsOne(s, ContainerRuntime(s.container.value));
      AllArgsOptional(s, s.layered);
      AllArgsAppend(s, [ContainerRuntime(s.container.value)], Optional(s.layered));
    }
  }

  /**
    The argument list is the old runtime, the adverbs, the container runtime and in it the
    layered one, Proton, what a terminal needs, and the app.
   */
  lemma ArgvIs(s: Selection)
    ensures Argv(s) == (if s.oldRuntime.OldRuntime? then s.oldRuntime.argv else [])
                       + (Concat(s.adverbs)
                          + ((RuntimeWords(s) + if s.container.Some? then s.layered else [])
                             + (s.proton + (TerminalWords(s) + s.app))))
  {
    var start: seq<Component> := if s.oldRuntime.OldRuntime? then [Other(s.oldRuntime.argv)] else [];
    var middle := if s.container.Some? then [ContainerRuntime(s.container.value)] + Optional(s.layered) else [];
    var words := if s.oldRuntime.OldRuntime? then s.oldRuntime.argv else [];
    if s.oldRuntime.OldRuntime? {
      AllArgsOne(s, Other(s.oldRuntime.argv));
    }
    AllArgsPlain(s, s.adverbs);
    AllArgsContainer(s);
    AllArgsOptional(s, s.proton);
    AllArgsAppend(s, middle, Optional(s.proton));
    AllArgsAppend(s, Plain(s.adverbs), middle + Optional(s.proton));
    AllArgsAppend(s, start, Plain(s.adverbs) + (middle + Optional(s.proton)));
    assert Adverb(s) == TerminalWords(s);
    Regrouped(words, Concat(s.adverbs), AllArgs(s, middle), s.proton, Adverb(s), s.app);
  }

  lemma Regrouped(a: Words, b: Words, c: Words, d: Words, e: Words, f: Words)
    ensures a + (b + (c + d)) + e + f == a + (b + (c + (d + (e + f))))
  {
  }

  // ---------------------------------------------------------------------------
  // The variables

  /** The last option that gives this variable a value. */
  ghost predicate IsLastOption(vars: seq<(string, Option<string>)>, name: string, i: int) {
    && 0 <= i < |vars| && vars[i].0 == name && vars[i].1.Some?
    && forall k :: i < k < |vars| ==> vars[k].0 != name || vars[k].1.None?
  }

  function Lookup(environ: Environment, name: string): Option<string> {
    if name in environ then Some(environ[name]) else None
  }

  /** The last option for a variable decides, and without any it stays as it was. */
  lemma {:induction false} LastOptionDecides(environ: Environment, vars: seq<(string, Option<string>)>, name: string)
    ensures forall i :: IsLastOption(vars, name, i) ==> Lookup(WithOptions(environ, vars), name) == vars[i].1
    ensures (forall i :: 0 <= i < |vars| ==> vars[i].0 != name || vars[i].1.None?) ==>
              Lookup(WithOptions(environ, vars), name) == Lookup(environ, name)
  {
    if vars != [] {
      var n := |vars| - 1;
      LastOptionDecides(environ, vars[..n], name);
      forall i | IsLastOption(vars, name, i)
        ensures Lookup(WithOptions(environ, vars), name) == vars[i].1
      {
        assert i < n ==> IsLastOption(vars[..n], name, i);
      }
      assert forall i :: 0 <= i < n ==> vars[..n][i] == vars[i];
    }
  }

  lemma {:induction false} ComponentEnvironAppend(s: Selection, a: seq<Component>, b: seq<Component>,
                                                  environ: Environment)
    ensures ComponentEnviron(s, a + b, environ) == ComponentEnviron(s, b, ComponentEnviron(s, a, environ))
  {
    if b == [] {
      assert a + b == a;
    } else {
      ComponentEnvironAppend(s, a, b[..|b| - 1], environ);
      assert (a + b)[..|a + b| - 1] == a + b[..|b| - 1];
    }
  }

  lemma {:induction false} OthersKeepEnviron(s: Selection, components: seq<Component>, environ: Environment)
    requires forall i :: 0 <= i < |components| ==> components[i].Other?
    ensures ComponentEnviron(s, components, environ) == environ
  {
    if components != [] {
      OthersKeepEnviron(s, components[..|components| - 1], environ);
    }
  }

  lemma {:induction false} PlainIsOther(adverbs: seq<Words>)
    ensures forall i :: 0 <= i < |Plain(adverbs)| ==> Plain(adverbs)[i].Other?
  {
    if adverbs != [] {
      PlainIsOther(adverbs[1..]);
    }
  }

  lemma OneContainerSets(s: Selection, before: seq<Component>, container: Container, after: seq<Component>,
                         environ: Environment)
    requires forall i :: 0 <= i < |before| ==> before[i].Other?
    requires forall i :: 0 <= i < |after| ==> after[i].Other?
    ensures ComponentEnviron(s, before + ([ContainerRuntime(container)] + after), environ)
            == ContainerEnviron(s, container, environ)
  {
    var runtime := [ContainerRuntime(container)];
    OthersKeepEnviron(s, before, environ);
    ComponentEnvironAppend(s, before, runtime + after, environ);
    ComponentEnvironAppend(s, runtime, after, environ);
    assert runtime[..0] == [];
    OthersKeepEnviron(s, after, ContainerEnviron(s, container, environ));
  }

  lemma RegroupedComponents(a: seq<Component>, b: seq<Component>, c: seq<Component>, d: seq<Component>,
                            e: seq<Component>)
    ensures a + (b + ((c + d) + e)) == (a + b) + (c + (d + e))
  {
  }

  /** Of the components only a container runtime sets variables. */
  lemma OnlyContainersSet(s: Selection, environ: Environment)
    ensures ComponentEnviron(s, Components(s), environ)
            == if s.container.Some? then ContainerEnviron(s, s.container.value, environ) else environ
  {
    var start: seq<Component> := if s.oldRuntime.OldRuntime? then [Other(s.oldRuntime.argv)] else [];
    PlainIsOther(s.adverbs);
    if s.container.Some? {
      RegroupedComponents(start, Plain(s.adverbs), [ContainerRuntime(s.container.value)], Optional(s.layered),
                          Optional(s.proton));
      OneContainerSets(s, start + Plain(s.adverbs), s.container.value, Optional(s.layered) + Optional(s.proton),
                       environ);
    } else {
      RegroupedComponents(start, Plain(s.adverbs), [], [], Optional(s.proton));
      OthersKeepEnviron(s, Components(s), environ);
    }
  }

  /** The settings that override everything else: a value, or `Some(None)` for removal. */
  function Overriding(s: Selection, name: string): Option<Option<string>> {
    if s.debug && (name == "DEBUG_INVOCATION" || name == "STEAM_LINUX_RUNTIME_VERBOSE") then Some(Some("1"))
    else if s.debug && name == "G_MESSAGES_DEBUG" then Some(Some("all"))
    else if s.sdl3.Some? && name == "STEAM_COMPAT_RUNTIME_SDL3" then Some(s.sdl3)
    else if s.sdl3.Some? && name == "SDL3_DYNAMIC_API" then Some(None)
    else if s.sdl2.Some? && name == "STEAM_COMPAT_RUNTIME_SDL2" then Some(s.sdl2)
    else if s.sdl2.Some? && name == "SDL_DYNAMIC_API" then Some(None)
    else if s.videoDriver.Some? && (name == "SDL_VIDEODRIVER" || name == "SDL_VIDEO_DRIVER") then Some(s.videoDriver)
    else None
  }

  /** What is set without the options of the container. */
  function Inherited(s: Selection, name: string): Option<string> {
    if s.container.Some? && s.container.value.Depot? && name == "PRESSURE_VESSEL_PREFIX" then
      Some(s.pressureVessel.path)
    else if s.oldRuntime != NoRuntime && name in s.steamRuntimeEnv then Some(s.steamRuntimeEnv[name])
    else if s.container.Some? && s.layered != [] && s.oldRuntime.OldRuntime? && name == "STEAM_RUNTIME_SCOUT" then
      Some(s.oldRuntime.path)
    else None
  }

  lemma LateAt(s: Selection, environ: Environment, name: string)
    ensures Lookup(LateEnviron(s, environ), name)
            == if Overriding(s, name).Some? then Overriding(s, name).value else Lookup(environ, name)
  {
  }

  /**
    Each variable that a selection sets: the late settings override the last option of the
    container for it, that overrides the path of pressure-vessel, that what was given with
    `--steam-runtime-env`, and that the runtime inside a layered one.
   */
  lemma EnvironAt(s: Selection, name: string)
    ensures var value := Lookup(EnvironOf(s), name);
            && (Overriding(s, name).Some? ==> value == Overriding(s, name).value)
            && (Overriding(s, name).None? && s.container.Some? ==>
                  forall i :: IsLastOption(s.containerVars, name, i) ==> value == s.containerVars[i].1)
            && (Overriding(s, name).None?
                && (s.container.None? || forall i :: 0 <= i < |s.containerVars| ==>
                                           s.containerVars[i].0 != name || s.containerVars[i].1.None?) ==>
                  value == Inherited(s, name))
  {
    var early := EarlyEnviron(s);
    OnlyContainersSet(s, early);
    LateAt(s, ComponentEnviron(s, Components(s), early), name);
    if s.container.Some? {
      LastOptionDecides(if s.container.value.Depot? then early[PREFIX_VAR := s.pressureVessel.path] else early,
                        s.containerVars, name);
    }
  }

  /** The returned environment: what is set, or else what was there, except for the window's own variable. */
  lemma ReturnedAt(s: Selection, os: Environment, name: string)
    ensures Lookup(FinalEnv(os, EnvironOf(s), {WRAP_GUI_VAR}), name)
            == if Lookup(EnvironOf(s), name).Some? then Lookup(EnvironOf(s), name)
               else if name == "PRESSURE_VESSEL_WRAP_GUI" then None else Lookup(os, name)
  {
  }
}
