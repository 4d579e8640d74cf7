/**
  Putting a launch command together from the selected components, as an argument list with
  an environment and as a shell command line, which are to mean the same.
 */
module LaunchCommand {
  import opened Wrappers
  import opened Environ
  import opened LaunchEnv
  import opened Peeling

  datatype PressureVessel = PressureVessel(path: string, unruntime: string, adverb: string)

  /** A container runtime from a depot, perhaps with its own pressure-vessel, or from a directory. */
  datatype Container = Depot(argv: Words, ownPressureVessel: Option<string>) | Directory(path: string)

  datatype Component = Other(argv: Words) | ContainerRuntime(container: Container)

  /** The old runtime to put on the library path: no choice, explicitly none, or one of them. */
  datatype OldRuntime = Default | NoRuntime | OldRuntime(path: string, argv: Words)

  /** What is selected in the window; an empty list of words stands for no such component. */
  datatype Selection = Selection(
    oldRuntime: OldRuntime,
    adverbs: seq<Words>,
    container: Option<Container>,
    layered: Words,
    proton: Words,
    app: Words,
    pressureVessel: PressureVessel,
    anyPressureVessel: Option<PressureVessel>,
    containerVars: seq<(string, Option<string>)>, // options that need a container, in order
    videoDriver: Option<string>,
    sdl2: Option<string>,
    sdl3: Option<string>,
    debug: bool,
    shell: Option<string>,
    terminal: Option<string>,
    steamRuntimeEnv: map<string, string>)

  type Environment = map<string, string>

  const SCOUT_VAR := "STEAM_RUNTIME_SCOUT"
  const PREFIX_VAR := "PRESSURE_VESSEL_PREFIX"
  const WRAP_GUI_VAR := "PRESSURE_VESSEL_WRAP_GUI"

  // ---------------------------------------------------------------------------
  // The argument list

  function Optional(argv: Words): seq<Component> {
    if argv == [] then [] else [Other(argv)]
  }

  function Plain(adverbs: seq<Words>): seq<Component> {
    if adverbs == [] then [] else [Other(adverbs[0])] + Plain(adverbs[1..])
  }

  /** The selected components in order; a layered runtime needs a container. */
  function Components(s: Selection): seq<Component> {
    (if s.oldRuntime.OldRuntime? then [Other(s.oldRuntime.argv)] else [])
    + (Plain(s.adverbs)
       + ((if s.container.Some? then [ContainerRuntime(s.container.value)] + Optional(s.layered) else [])
          + Optional(s.proton)))
  }

  function Args(s: Selection, component: Component): Words {
    match component
    case Other(argv) => argv
    case ContainerRuntime(Depot(argv, _)) => argv
    case ContainerRuntime(Directory(path)) => [s.pressureVessel.unruntime, "--runtime=" + path, "--"]
  }

  function AllArgs(s: Selection, components: seq<Component>): Words {
    if components == [] then [] else Args(s, components[0]) + AllArgs(s, components[1..])
  }

  /** Without a container, a terminal or a shell needs an adverb of its own. */
  function Adverb(s: Selection): Words {
    if (s.shell.None? && s.terminal.None?) || s.container.Some? || s.anyPressureVessel.None? then []
    else [s.anyPressureVessel.value.adverb] + (if s.shell.Some? then ["--shell=" + s.shell.value] else [])
         + (if s.terminal.Some? then ["--terminal=" + s.terminal.value] else []) + ["--"]
  }

  function Argv(s: Selection): Words {
    AllArgs(s, Components(s)) + Adverb(s) + s.app
  }

  // ---------------------------------------------------------------------------
  // The environment

  /** Whether a second runtime is to be used inside a layered one. */
  predicate HasInnerRuntime(s: Selection) {
    s.container.Some? && s.layered != [] && s.oldRuntime.OldRuntime?
  }

  function WithOptions(environ: Environment, vars: seq<(string, Option<string>)>): Environment {
    if vars == [] then environ
    else
      var before := WithOptions(environ, vars[..|vars| - 1]);
      var (name, value) := vars[|vars| - 1];
      if value.Some? then before[name := value.value] else before
  }

  function ContainerEnviron(s: Selection, container: Container, environ: Environment): Environment {
    WithOptions(if container.Depot? then environ[PREFIX_VAR := s.pressureVessel.path] else environ, s.containerVars)
  }

  function EarlyEnviron(s: Selection): Environment {
    var scout := if HasInnerRuntime(s) then map[SCOUT_VAR := s.oldRuntime.path] else map[];
    if s.oldRuntime.NoRuntime? then scout else scout + s.steamRuntimeEnv
  }

  function LateEnviron(s: Selection, environ: Environment): Environment {
    var e1 := if s.videoDriver.Some? then
                environ["SDL_VIDEODRIVER" := s.videoDriver.value]["SDL_VIDEO_DRIVER" := s.videoDriver.value]
              else environ;
    var e2 := if s.sdl2.Some? then (e1 - {"SDL_DYNAMIC_API"})["STEAM_COMPAT_RUNTIME_SDL2" := s.sdl2.value] else e1;
    var e3 := if s.sdl3.Some? then (e2 - {"SDL3_DYNAMIC_API"})["STEAM_COMPAT_RUNTIME_SDL3" := s.sdl3.value] else e2;
    if s.debug then e3["DEBUG_INVOCATION" := "1"]["G_MESSAGES_DEBUG" := "all"]["STEAM_LINUX_RUNTIME_VERBOSE" := "1"]
    else e3
  }

  function ComponentEnviron(s: Selection, components: seq<Component>, environ: Environment): Environment {
    if components == [] then environ
    else
      var before := ComponentEnviron(s, components[..|components| - 1], environ);
      match components[|components| - 1]
      case Other(_) => before
      case ContainerRuntime(container) => ContainerEnviron(s, container, before)
  }

  function EnvironOf(s: Selection): Environment {
    LateEnviron(s, ComponentEnviron(s, Components(s), EarlyEnviron(s)))
  }

  /** The environment that is returned. */
  function FinalEnv(os: Environment, environ: Environment, unsetenv: set<string>): Environment {
    (os - unsetenv) + environ
  }

  // ---------------------------------------------------------------------------
  // The shell command line, as words

  /** Sorting gives each element once. */
  ghost predicate Sorts(sorted: set<string> -> seq<string>) {
    forall names: set<string> :: Enumerates(sorted(names), names)
  }

  ghost predicate Enumerates(order: seq<string>, names: set<string>) {
    && (forall i :: 0 <= i < |order| ==> order[i] in names)
    && (forall name :: name in names ==> name in order)
    && (forall i, j :: 0 <= i < j < |order| ==> order[i] != order[j])
  }

  function Unsets(os: Environment, order: seq<string>): seq<string> {
    if order == [] then []
    else
      var before := Unsets(os, order[..|order| - 1]);
      if order[|order| - 1] in os then before + [order[|order| - 1]] else before
  }

  predicate Differs(os: Environment, environ: Environment, name: string) {
    name in environ && !(name in os && os[name] == environ[name])
  }

  function Assignments(os: Environment, environ: Environment, order: seq<string>): Words {
    if order == [] then []
    else
      var before := Assignments(os, environ, order[..|order| - 1]);
      var name := order[|order| - 1];
      if Differs(os, environ, name) then before + [Entry(name, environ[name])] else before
  }

  function Prefix(os: Environment, environ: Environment, unsetOrder: seq<string>, setOrder: seq<string>): Words {
    ["env"] + (UnsetOptions(Unsets(os, unsetOrder)) + Assignments(os, environ, setOrder))
  }

  function Inner(s: Selection): Words {
    if HasInnerRuntime(s) then ["env", Entry(SCOUT_VAR, s.oldRuntime.path)] else []
  }

  // ---------------------------------------------------------------------------
  // The code

  lemma {:induction false} AllArgsAppend(s: Selection, a: seq<Component>, b: seq<Component>)
    ensures AllArgs(s, a + b) == AllArgs(s, a) + AllArgs(s, b)
  {
    if a == [] {
      assert a + b == b;
    } else {
      AllArgsAppend(s, a[1..], b);
      assert (a + b)[1..] == a[1..] + b;
      Regroup(Args(s, a[0]), AllArgs(s, a[1..]), AllArgs(s, b));
    }
  }

  lemma AllArgsOne(s: Selection, component: Component)
    ensures AllArgs(s, [component]) == Args(s, component)
  {
    assert [component][1..] == [];
    assert Args(s, component) + [] == Args(s, component);
  }

  lemma {:induction false} ConcatAppend(a: seq<Words>, b: seq<Words>)
    ensures Concat(a + b) == Concat(a) + Concat(b)
  {
    if a == [] {
      assert a + b == b;
    } else {
      ConcatAppend(a[1..], b);
      assert (a + b)[1..] == a[1..] + b;
      Regroup(a[0], Concat(a[1..]), Concat(b));
    }
  }

  lemma ConcatOne(line: Words)
    ensures Concat([line]) == line
  {
    assert [line][1..] == [] && line + [] == line;
  }

  method SelectComponents(s: Selection) returns (components: seq<Component>)
    ensures components == Components(s)
  {
    components := [];
    if s.oldRuntime.OldRuntime? {
      components := components + [Other(s.oldRuntime.argv)];
    }
    components := components + Plain(s.adverbs);
    if s.container.Some? {
      components := components + [ContainerRuntime(s.container.value)];
      if s.layered != [] {
        components := components + [Other(s.layered)];
      }
    }
    if s.proton != [] {
      components := components + [Other(s.proton)];
    }
  }

  method SetOptions(environ: Environment, vars: seq<(string, Option<string>)>) returns (result: Environment)
    ensures result == WithOptions(environ, vars)
  {
    result := environ;
    for i := 0 to |vars|
      invariant result == WithOptions(environ, vars[..i])
    {
      assert vars[..i + 1][..i] == vars[..i];
      if vars[i].1.Some? {
        result := result[vars[i].0 := vars[i].1.value];
      }
    }
    assert vars[..|vars|] == vars;
  }

  method EnvLines(os: Environment, environ: Environment, unsetOrder: seq<string>, setOrder: seq<string>)
    returns (words: Words)
    requires forall i :: 0 <= i < |setOrder| ==> setOrder[i] in environ
    ensures words == Prefix(os, environ, unsetOrder, setOrder)
  {
    words := ["env"];
    for i := 0 to |unsetOrder|
      invariant words == ["env"] + UnsetOptions(Unsets(os, unsetOrder[..i]))
    {
      assert unsetOrder[..i + 1][..i] == unsetOrder[..i];
      if unsetOrder[i] in os {
        ghost var before := Unsets(os, unsetOrder[..i]);
        assert (before + [unsetOrder[i]])[..|before|] == before;
        words := words + ["-u", unsetOrder[i]];
      }
    }
    assert unsetOrder[..|unsetOrder|] == unsetOrder;
    ghost var start := words;
    for i := 0 to |setOrder|
      invariant words == start + Assignments(os, environ, setOrder[..i])
    {
      assert setOrder[..i + 1][..i] == setOrder[..i];
      var name := setOrder[i];
      if !(name in os && os[name] == environ[name]) {
        words := words + [name + "=" + environ[name]];
      }
    }
    assert setOrder[..|setOrder|] == setOrder;
    assert start + Assignments(os, environ, setOrder) == Prefix(os, environ, unsetOrder, setOrder);
  }

  /** The loop over the components. */
  method AddComponents(s: Selection, components: seq<Component>, environ: Environment)
    returns (argv: Words, lines: seq<Words>, result: Environment)
    ensures argv == AllArgs(s, components) == Concat(lines)
    ensures result == ComponentEnviron(s, components, environ)
  {
    argv, lines, result := [], [], environ;
    for i := 0 to |components|
      invariant argv == AllArgs(s, components[..i]) == Concat(lines)
      invariant result == ComponentEnviron(s, components[..i], environ)
    {
      var component := components[i];
      assert components[..i + 1] == components[..i] + [component];
      assert components[..i + 1][..i] == components[..i];
      AllArgsAppend(s, components[..i], [component]);
      AllArgsOne(s, component);
      var args;
      match component {
        case Other(own) => args := own;
        case ContainerRuntime(container) =>
          args, result := AddContainer(s, container, result);
      }
      ConcatAppend(lines, [args]);
      ConcatOne(args);
      lines := lines + [args];
      argv := argv + args;
    }
    assert components[..|components|] == components;
  }

  method AddContainer(s: Selection, container: Container, environ: Environment)
    returns (args: Words, result: Environment)
    ensures args == Args(s, ContainerRuntime(container))
    ensures result == ContainerEnviron(s, container, environ)
  {
    var pv := s.pressureVessel;
    result := environ;
    match container {
      case Depot(own, itsPv) =>
        args := own;
        if itsPv.None? || pv.path != itsPv.value || !(PREFIX_VAR in result && result[PREFIX_VAR] == pv.path) {
          result := result[PREFIX_VAR := pv.path];
        }
      case Directory(path) =>
        args := [pv.unruntime];
        args := args + ["--runtime=" + path];
        args := args + ["--"];
    }
    assert result == if container.Depot? then environ[PREFIX_VAR := pv.path] else environ;
    result := SetOptions(result, s.containerVars);
  }

  /** The lines of the command itself, and the argument list. */
  method BuildWords(s: Selection) returns (lines: seq<Words>, argv: Words, environ: Environment)
    ensures argv == Argv(s) && Concat(lines) == Inner(s) + Argv(s)
    ensures environ == ComponentEnviron(s, Components(s), EarlyEnviron(s))
  {
    var inner: seq<Words>;
    inner, environ := InnerLines(s);
    var components := SelectComponents(s);
    argv, lines, environ := AddComponents(s, components, environ);
    var adverb := Adverb(s);
    if adverb != [] {
      argv := argv + adverb;
      ConcatAppend(lines, [adverb]);
      ConcatOne(adverb);
      lines := lines + [adverb];
    } else {
      assert argv + [] == argv;
    }
    argv := argv + s.app;
    ConcatAppend(lines, [s.app]);
    ConcatOne(s.app);
    lines := lines + [s.app];
    ConcatAppend(inner, lines);
    lines := inner + lines;
  }

  method InnerLines(s: Selection) returns (lines: seq<Words>, environ: Environment)
    ensures Concat(lines) == Inner(s) && environ == EarlyEnviron(s)
  {
    lines, environ := [], map[];
    if s.container.Some? && s.layered != [] && s.oldRuntime.OldRuntime? {
      environ := environ[SCOUT_VAR := s.oldRuntime.path];
      lines := [["env", Entry(SCOUT_VAR, s.oldRuntime.path)]];
      ConcatOne(lines[0]);
    }
    if s.oldRuntime != NoRuntime {
      environ := environ + s.steamRuntimeEnv;
    }
  }

  /**
    `Gui.build_argv`: the lines of the shell command as lists of words, the argument list and
    the environment.
   */
  method BuildArgv(s: Selection, os: Environment, sorted: set<string> -> seq<string>)
    returns (lines: seq<Words>, argv: Words, finalEnv: Environment)
    requires Sorts(sorted)
    ensures argv == Argv(s)
    ensures finalEnv == FinalEnv(os, EnvironOf(s), {WRAP_GUI_VAR})
    ensures Concat(lines) == Prefix(os, EnvironOf(s), sorted({WRAP_GUI_VAR}), sorted(EnvironOf(s).Keys))
                             + (Inner(s) + Argv(s))
  {
    var environ;
    lines, argv, environ := BuildWords(s);
    environ := LateSettings(s, environ);
    var unsetenv := {WRAP_GUI_VAR};
    assert Enumerates(sorted(environ.Keys), environ.Keys);
    var envLine := EnvLines(os, environ, sorted(unsetenv), sorted(environ.Keys));
    assert ([envLine] + lines)[1..] == lines;
    lines := [envLine] + lines;
    finalEnv := (os - unsetenv) + environ;
  }

  method LateSettings(s: Selection, environ: Environment) returns (result: Environment)
    ensures result == LateEnviron(s, environ)
  {
    result := environ;
    if s.videoDriver.Some? {
      result := result["SDL_VIDEODRIVER" := s.videoDriver.value];
      result := result["SDL_VIDEO_DRIVER" := s.videoDriver.value];
    }
    if s.sdl2.Some? {
      result := result - {"SDL_DYNAMIC_API"};
      result := result["STEAM_COMPAT_RUNTIME_SDL2" := s.sdl2.value];
    }
    if s.sdl3.Some? {
      result := result - {"SDL3_DYNAMIC_API"};
      result := result["STEAM_COMPAT_RUNTIME_SDL3" := s.sdl3.value];
    }
    if s.debug {
      result := result["DEBUG_INVOCATION" := "1"];
      result := result["G_MESSAGES_DEBUG" := "all"];
      result := result["STEAM_LINUX_RUNTIME_VERBOSE" := "1"];
    }
  }
}
