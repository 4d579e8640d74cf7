/**
  Pointing SDL's `*_DYNAMIC_API` variables at the runtime's libraries, through the same
  per-architecture links that preloading uses afterwards.
 */
module Sdl {
  import opened Wrappers
  import opened Splitting
  import opened Paths
  import opened Environ
  import opened BwrapBuilder
  import opened PerArchDirs

  /** A library, the variable that selects it, and whether the game's flags ask for it. */
  datatype Library = Library(variable: string, path: string, wanted: bool)

  function ProgramTable(sdl2Compat: bool, sdl2: bool, sdl3: bool): seq<Library> {
    [Library("SDL_DYNAMIC_API", "sdl2-compat/libSDL2-2.0.so.0", sdl2Compat),
     Library("SDL_DYNAMIC_API", "libSDL2-2.0.so.0", sdl2),
     Library("SDL3_DYNAMIC_API", "libSDL3.so.0", sdl3)]
  }

  /** Where libraries are looked for, and which files exist. */
  datatype Places = Places(prefix: string, overrides: Option<string>, isFile: string -> bool)

  function PathBelow(root: string, tuple: string, library: string): string {
    BuildFilename(BuildFilename(BuildFilename(root, "lib"), tuple), library)
  }

  function Override(places: Places, tuple: string, library: string): Option<string> {
    if places.overrides.None? then None else Some(PathBelow(places.overrides.value, tuple, library))
  }

  /** The copy of a library that an architecture is to use: an override, or else the runtime's. */
  function Target(places: Places, library: string, tuple: string): Option<string> {
    var override := Override(places, tuple, library);
    var fromRuntime := PathBelow(places.prefix, tuple, library);
    if override.Some? && places.isFile(override.value) then override
    else if places.isFile(fromRuntime) then Some(fromRuntime)
    else None
  }

  /** The same for each architecture in turn. */
  function Targets(layout: Layout, places: Places, library: string): (targets: seq<Option<string>>)
    ensures |targets| == |layout.tuples|
  {
    seq(|layout.tuples|, abi requires 0 <= abi < |layout.tuples| => Target(places, library, layout.tuples[abi]))
  }

  // ---------------------------------------------------------------------------
  // One library

  /** The links after the loop, whether any was made by it, and whether none failed. */
  datatype Outcome = Outcome(links: Links, any: bool, ok: bool)

  function LinkFrom(layout: Layout, targets: seq<Option<string>>, base: string, links: Links, from: nat, any: bool)
    : Outcome
    decreases |targets| - from
  {
    if |targets| <= from then Outcome(links, any, true)
    else if targets[from].None? then LinkFrom(layout, targets, base, links, from + 1, any)
    else if CanLink(layout, links, (from, base)) then
      LinkFrom(layout, targets, base, links[(from, base) := targets[from].value], from + 1, true)
    else Outcome(links, any, false)
  }

  predicate HasTarget(targets: seq<Option<string>>, abi: nat) {
    abi < |targets| && targets[abi].Some?
  }

  /** Each link that is new is the target for its architecture. */
  ghost predicate OnlyAddsTargets(targets: seq<Option<string>>, base: string, links: Links, after: Links) {
    forall key :: key in after && key !in links ==>
      key.1 == base && HasTarget(targets, key.0) && targets[key.0].value == after[key]
  }

  lemma {:induction false} LinkFromAdds(layout: Layout, targets: seq<Option<string>>, base: string, links: Links,
                                        from: nat, any: bool)
    ensures var r := LinkFrom(layout, targets, base, links, from, any);
            && Extends(links, r.links) && OnlyAddsTargets(targets, base, links, r.links)
            && (ValidLinks(layout, links) ==> ValidLinks(layout, r.links))
    decreases |targets| - from
  {
    if from < |targets| {
      if targets[from].None? {
        LinkFromAdds(layout, targets, base, links, from + 1, any);
      } else if CanLink(layout, links, (from, base)) {
        assert HasTarget(targets, from);
        LinkFromAdds(layout, targets, base, links[(from, base) := targets[from].value], from + 1, true);
      }
    }
  }

  /** The loop links every architecture that has the library, exactly if nothing is in the way. */
  lemma {:induction false} LinkFromSucceeds(layout: Layout, targets: seq<Option<string>>, base: string, links: Links,
                                            from: nat, any: bool)
    ensures var r := LinkFrom(layout, targets, base, links, from, any);
            && (r.ok <==> forall abi: nat :: from <= abi && HasTarget(targets, abi) ==>
                            CanLink(layout, links, (abi, base)))
            && (r.ok ==> forall abi: nat :: from <= abi && HasTarget(targets, abi) ==> (abi, base) in r.links)
    decreases |targets| - from
  {
    if from < |targets| {
      if targets[from].None? {
        LinkFromSucceeds(layout, targets, base, links, from + 1, any);
        assert !HasTarget(targets, from);
      } else {
        assert HasTarget(targets, from);
        if CanLink(layout, links, (from, base)) {
          var next := links[(from, base) := targets[from].value];
          LinkFromSucceeds(layout, targets, base, next, from + 1, true);
          LinkFromAdds(layout, targets, base, next, from + 1, true);
          assert forall abi: nat :: from < abi ==>
                   (CanLink(layout, next, (abi, base)) <==> CanLink(layout, links, (abi, base)));
        }
      }
    }
  }

  /** It notices whether there was anything to link. */
  lemma {:induction false} LinkFromNotices(layout: Layout, targets: seq<Option<string>>, base: string, links: Links,
                                           from: nat, any: bool)
    ensures var r := LinkFrom(layout, targets, base, links, from, any);
            r.ok ==> (r.any <==> any || exists abi: nat :: from <= abi && HasTarget(targets, abi))
    decreases |targets| - from
  {
    if from < |targets| {
      if targets[from].None? {
        LinkFromNotices(layout, targets, base, links, from + 1, any);
        assert !HasTarget(targets, from);
      } else {
        assert HasTarget(targets, from);
        if CanLink(layout, links, (from, base)) {
          LinkFromNotices(layout, targets, base, links[(from, base) := targets[from].value], from + 1, true);
        }
      }
    }
  }

  datatype State = State(env: Env, links: Links)

  function SetUpOne(layout: Layout, places: Places, library: Library, s: State): State {
    if Get(s.env, library.variable).Some? then s
    else
      var r := LinkFrom(layout, Targets(layout, places, library.path), Base(library.path), s.links, 0, false);
      State(if r.ok && r.any then Set(s.env, library.variable, Token(layout, Base(library.path)), true) else s.env,
            r.links)
  }

  /** `pv_adverb_set_up_dynamic_sdl` */
  method SetUpDynamicSdl(command: FlatpakBwrap, dirs: LinkDirs?, places: Places, library: Library) returns (ok: bool)
    requires ValidName(library.variable)
    modifies command`envp, if dirs == null then {} else {dirs}
    ensures dirs == null ==> command.envp == old(command.envp)
    ensures dirs != null ==>
              State(command.envp, dirs.links)
              == SetUpOne(dirs.layout, places, library, State(old(command.envp), old(dirs.links)))
    ensures ok ==> Get(command.envp, library.variable).Some?
    ensures !ok ==> command.envp == old(command.envp)
  {
    if Get(command.envp, library.variable).Some? {
      return true;
    }
    if dirs == null {
      return false;
    }
    var soname := Base(library.path);
    ghost var targets := Targets(dirs.layout, places, library.path);
    var haveAny := false;
    for abi := 0 to |dirs.layout.tuples|
      invariant command.envp == old(command.envp)
      invariant LinkFrom(dirs.layout, targets, soname, old(dirs.links), 0, false)
                == LinkFrom(dirs.layout, targets, soname, dirs.links, abi, haveAny)
    {
      var override := Override(places, dirs.layout.tuples[abi], library.path);
      var fromRuntime := PathBelow(places.prefix, dirs.layout.tuples[abi], library.path);
      var target := None;
      if override.Some? && places.isFile(override.value) {
        target := override;
      } else if places.isFile(fromRuntime) {
        target := Some(fromRuntime);
      }
      assert target == targets[abi];
      if target.Some? {
        var linked := dirs.Symlink(target.value, abi, soname);
        if !linked {
          return false;
        }
        haveAny := true;
      }
    }
    if haveAny {
      GetAfterSet(command.envp, library.variable, Token(dirs.layout, soname), true, library.variable);
      command.SetEnv(library.variable, BuildFilename(dirs.layout.tokenDir, soname));
    }
    ok := haveAny;
  }

  // ---------------------------------------------------------------------------
  // All libraries

  function SetUpAll(layout: Layout, places: Places, table: seq<Library>, s: State): State
    decreases table
  {
    if table == [] then s
    else
      SetUpAll(layout, places, table[1..], if table[0].wanted then SetUpOne(layout, places, table[0], s) else s)
  }

  ghost predicate ValidTable(table: seq<Library>) {
    forall i :: 0 <= i < |table| ==> ValidName(table[i].variable)
  }

  /** `pv_adverb_set_up_dynamic_sdls`; failures are only warnings. */
  method SetUpDynamicSdls(command: FlatpakBwrap, dirs: LinkDirs?, places: Places, table: seq<Library>)
    requires ValidTable(table)
    modifies command`envp, if dirs == null then {} else {dirs}
    ensures dirs == null ==> command.envp == old(command.envp)
    ensures dirs != null ==>
              State(command.envp, dirs.links)
              == SetUpAll(dirs.layout, places, table, State(old(command.envp), old(dirs.links)))
  {
    for i := 0 to |table|
      invariant dirs == null ==> command.envp == old(command.envp)
      invariant dirs != null ==>
                  SetUpAll(dirs.layout, places, table, State(old(command.envp), old(dirs.links)))
                  == SetUpAll(dirs.layout, places, table[i..], State(command.envp, dirs.links))
    {
      assert table[i..][1..] == table[i + 1..];
      if table[i].wanted {
        var _ := SetUpDynamicSdl(command, dirs, places, table[i]);
      }
    }
    assert table[|table|..] == [];
  }

  predicate IsAvailable(layout: Layout, places: Places, library: string, abi: nat) {
    HasTarget(Targets(layout, places, library), abi)
  }

  /** The variable leads to the library on every architecture that has it, and on at least one. */
  ghost predicate Provides(layout: Layout, places: Places, library: Library, variable: string, s: State) {
    && library.variable == variable && library.wanted
    && Get(s.env, variable) == Some(Token(layout, Base(library.path)))
    && LinksTargets(Targets(layout, places, library.path), Base(library.path), s.links)
  }

  ghost predicate LinksTargets(targets: seq<Option<string>>, base: string, links: Links) {
    && (exists abi: nat :: HasTarget(targets, abi))
    && forall abi: nat :: HasTarget(targets, abi) ==> (abi, base) in links && links[(abi, base)] == targets[abi].value
  }

  lemma SuccessLinksTargets(layout: Layout, targets: seq<Option<string>>, base: string, links: Links)
    ensures var r := LinkFrom(layout, targets, base, links, 0, false);
            r.ok && r.any ==> LinksTargets(targets, base, r.links)
  {
    var r := LinkFrom(layout, targets, base, links, 0, false);
    LinkFromAdds(layout, targets, base, links, 0, false);
    LinkFromSucceeds(layout, targets, base, links, 0, false);
    LinkFromNotices(layout, targets, base, links, 0, false);
    if r.ok && r.any {
      forall abi: nat | HasTarget(targets, abi)
        ensures (abi, base) in r.links && r.links[(abi, base)] == targets[abi].value
      {
        assert CanLink(layout, links, (abi, base));
      }
    }
  }

  /**
    A variable that was not set before gets set exactly if some architecture has the library
    and for each one that has it nothing is in the way of the link.
   */
  lemma SetsVariableIff(layout: Layout, places: Places, library: Library, s: State)
    requires ValidName(library.variable) && Get(s.env, library.variable).None?
    ensures var targets := Targets(layout, places, library.path);
            Get(SetUpOne(layout, places, library, s).env, library.variable).Some? <==>
            && (exists abi: nat :: HasTarget(targets, abi))
            && (forall abi: nat :: HasTarget(targets, abi) ==> CanLink(layout, s.links, (abi, Base(library.path))))
  {
    var base, targets := Base(library.path), Targets(layout, places, library.path);
    LinkFromSucceeds(layout, targets, base, s.links, 0, false);
    LinkFromNotices(layout, targets, base, s.links, 0, false);
    GetAfterSet(s.env, library.variable, Token(layout, base), true, library.variable);
  }

  /** Nothing that is set up is changed by what follows. */
  lemma OneKeeps(layout: Layout, places: Places, library: Library, s: State, variable: string)
    requires ValidName(library.variable) && ValidName(variable)
    ensures var after := SetUpOne(layout, places, library, s);
            && Extends(s.links, after.links)
            && (Get(s.env, variable).Some? ==> Get(after.env, variable) == Get(s.env, variable))
            && (Get(after.env, variable) == Get(s.env, variable)
                || (library.wanted ==> Provides(layout, places, library, variable, after)))
  {
    var base, targets := Base(library.path), Targets(layout, places, library.path);
    LinkFromAdds(layout, targets, base, s.links, 0, false);
    SuccessLinksTargets(layout, targets, base, s.links);
    GetAfterSet(s.env, library.variable, Token(layout, base), true, variable);
  }

  lemma {:induction false} AllKeep(layout: Layout, places: Places, table: seq<Library>, s: State, variable: string)
    requires ValidTable(table) && ValidName(variable)
    ensures var after := SetUpAll(layout, places, table, s);
            && Extends(s.links, after.links)
            && (Get(s.env, variable).Some? ==> Get(after.env, variable) == Get(s.env, variable))
    decreases table
  {
    if table != [] {
      var next := if table[0].wanted then SetUpOne(layout, places, table[0], s) else s;
      OneKeeps(layout, places, table[0], s, variable);
      AllKeep(layout, places, table[1..], next, variable);
    }
  }

  lemma ProvidesLater(layout: Layout, places: Places, library: Library, variable: string, s: State, later: State)
    requires Provides(layout, places, library, variable, s)
    requires Extends(s.links, later.links) && Get(later.env, variable) == Get(s.env, variable)
    ensures Provides(layout, places, library, variable, later)
  {
  }

  /**
    If a variable was set by this code, then some wanted library with that variable is linked
    on every architecture that has it, to its override if there is one.
   */
  lemma {:induction false} SetVariableProvides(layout: Layout, places: Places, table: seq<Library>, s: State,
                                               variable: string) returns (i: nat)
    requires ValidTable(table) && ValidName(variable)
    requires Get(s.env, variable).None? && Get(SetUpAll(layout, places, table, s).env, variable).Some?
    ensures i < |table| && Provides(layout, places, table[i], variable, SetUpAll(layout, places, table, s))
    decreases table
  {
    var next := if table[0].wanted then SetUpOne(layout, places, table[0], s) else s;
    OneKeeps(layout, places, table[0], s, variable);
    if Get(next.env, variable).Some? {
      i := 0;
      AllKeep(layout, places, table[1..], next, variable);
      ProvidesLater(layout, places, table[0], variable, next, SetUpAll(layout, places, table, s));
    } else {
      var k := SetVariableProvides(layout, places, table[1..], next, variable);
      i := k + 1;
    }
  }

  // ---------------------------------------------------------------------------
  // Two libraries with the same file name

  /** Nothing is in the way of any link that a library needs, and it needs at least one. */
  ghost predicate IsClear(layout: Layout, targets: seq<Option<string>>, base: string, links: Links) {
    && (exists abi: nat :: HasTarget(targets, abi))
    && (forall abi: nat :: HasTarget(targets, abi) ==> CanLink(layout, links, (abi, base)))
  }

  /** The loop gets as far as making the link for an architecture. */
  ghost predicate Reaches(layout: Layout, targets: seq<Option<string>>, base: string, links: Links, from: nat,
                          abi: nat)
  {
    && from <= abi && HasTarget(targets, abi)
    && (forall k: nat :: from <= k <= abi && HasTarget(targets, k) ==> CanLink(layout, links, (k, base)))
  }

  /** Whether it completes or not, the loop leaves exactly the links that it got as far as. */
  lemma {:induction false} LinkFromLeaves(layout: Layout, targets: seq<Option<string>>, base: string, links: Links,
                                          from: nat, any: bool, abi: nat)
    ensures var r := LinkFrom(layout, targets, base, links, from, any);
            (abi, base) in r.links <==> (abi, base) in links || Reaches(layout, targets, base, links, from, abi)
    decreases |targets| - from
  {
    if from < |targets| {
      if targets[from].None? {
        LinkFromLeaves(layout, targets, base, links, from + 1, any, abi);
        assert !HasTarget(targets, from);
      } else {
        assert HasTarget(targets, from);
        if CanLink(layout, links, (from, base)) {
          var next := links[(from, base) := targets[from].value];
          LinkFromLeaves(layout, targets, base, next, from + 1, true, abi);
          assert forall k: nat :: from < k ==>
                   (CanLink(layout, next, (k, base)) <==> CanLink(layout, links, (k, base)));
        }
      }
    }
  }

  lemma SetsIfClear(layout: Layout, places: Places, library: Library, s: State)
    requires ValidName(library.variable) && Get(s.env, library.variable).None?
    ensures Get(SetUpOne(layout, places, library, s).env, library.variable).Some?
            <==> IsClear(layout, Targets(layout, places, library.path), Base(library.path), s.links)
  {
    SetsVariableIff(layout, places, library, s);
  }

  /** What an earlier library of the same file name leaves in the way, if it could not be set up. */
  ghost predicate IsInTheWay(layout: Layout, places: Places, first: Library, s: State, abi: nat) {
    first.wanted && Reaches(layout, Targets(layout, places, first.path), Base(first.path), s.links, 0, abi)
  }

  /** The first library can be set up, or else the second one, and nothing of the first is in its way. */
  ghost predicate IsUsable(layout: Layout, places: Places, first: Library, second: Library, s: State) {
    var targets := Targets(layout, places, second.path);
    || (first.wanted && IsClear(layout, Targets(layout, places, first.path), Base(first.path), s.links))
    || (&& second.wanted && IsClear(layout, targets, Base(second.path), s.links)
        && forall abi: nat :: HasTarget(targets, abi) ==> !IsInTheWay(layout, places, first, s, abi))
  }

  /**
    Of two libraries with the same variable and file name, the second one is only used if the
    first one did not fail half-way: their variable gets set exactly if the first one is wanted
    and clear, or the second one is wanted and clear and the first one leaves none of its links.
   */
  lemma SecondLibraryIff(layout: Layout, places: Places, first: Library, second: Library, s: State)
    requires first.variable == second.variable && Base(first.path) == Base(second.path)
    requires ValidName(first.variable) && Get(s.env, first.variable).None?
    ensures Get(SetUpAll(layout, places, [first, second], s).env, first.variable).Some?
            <==> IsUsable(layout, places, first, second, s)
  {
    var base, variable := Base(first.path), first.variable;
    var targets := Targets(layout, places, second.path);
    var next := if first.wanted then SetUpOne(layout, places, first, s) else s;
    assert [first, second][1..] == [second] && [second][1..] == [];
    var last := if second.wanted then SetUpOne(layout, places, second, next) else next;
    assert SetUpAll(layout, places, [second], next) == last;
    SetsIfClear(layout, places, first, s);
    OneKeeps(layout, places, second, next, variable);
    if Get(next.env, variable).None? {
      SetsIfClear(layout, places, second, next);
      forall abi: nat | HasTarget(targets, abi)
        ensures CanLink(layout, next.links, (abi, base)) <==>
                CanLink(layout, s.links, (abi, base)) && !IsInTheWay(layout, places, first, s, abi)
      {
        LinkFromLeaves(layout, Targets(layout, places, first.path), base, s.links, 0, false, abi);
      }
    }
  }

  lemma SameFileName()
    ensures Base("sdl2-compat/libSDL2-2.0.so.0") == Base("libSDL2-2.0.so.0") == "libSDL2-2.0.so.0"
  {
    BaseOfJoin("sdl2-compat", "libSDL2-2.0.so.0");
    BaseOfName("libSDL2-2.0.so.0");
    assert "sdl2-compat" + "/" + "libSDL2-2.0.so.0" == "sdl2-compat/libSDL2-2.0.so.0";
  }

  /** A first library that fails after making one link keeps the second one out, which alone would do. */
  lemma FirstKeepsSecondOut(layout: Layout, places: Places, first: Library, second: Library, s: State, abi: nat)
    requires first.variable == second.variable && Base(first.path) == Base(second.path)
    requires ValidName(first.variable) && Get(s.env, first.variable).None? && second.wanted
    requires !IsClear(layout, Targets(layout, places, first.path), Base(first.path), s.links)
    requires IsClear(layout, Targets(layout, places, second.path), Base(second.path), s.links)
    requires IsInTheWay(layout, places, first, s, abi) && HasTarget(Targets(layout, places, second.path), abi)
    ensures Get(SetUpAll(layout, places, [first, second], s).env, first.variable).None?
    ensures Get(SetUpAll(layout, places, [second], s).env, first.variable).Some?
  {
    SecondLibraryIff(layout, places, first, second, s);
    SetsIfClear(layout, places, second, s);
    assert [second][1..] == [];
  }

  lemma {:induction false} SetUpAllAppend(layout: Layout, places: Places, table: seq<Library>, more: seq<Library>,
                                          s: State)
    ensures SetUpAll(layout, places, table + more, s)
            == SetUpAll(layout, places, more, SetUpAll(layout, places, table, s))
    decreases table
  {
    if table == [] {
      assert table + more == more;
    } else {
      assert (table + more)[1..] == table[1..] + more;
      SetUpAllAppend(layout, places, table[1..], more,
                     if table[0].wanted then SetUpOne(layout, places, table[0], s) else s);
    }
  }

  lemma OtherVariableKeeps(layout: Layout, places: Places, table: seq<Library>, other: Library, s: State,
                           variable: string)
    requires ValidName(variable) && ValidName(other.variable) && variable != other.variable
    ensures Get(SetUpAll(layout, places, table + [other], s).env, variable)
            == Get(SetUpAll(layout, places, table, s).env, variable)
  {
    var before := SetUpAll(layout, places, table, s);
    SetUpAllAppend(layout, places, table, [other], s);
    assert [other][1..] == [];
    LinkFromAdds(layout, Targets(layout, places, other.path), Base(other.path), before.links, 0, false);
    GetAfterSet(before.env, other.variable, Token(layout, Base(other.path)), true, variable);
  }

  lemma ThirdLibraryIff(layout: Layout, places: Places, first: Library, second: Library, other: Library, s: State)
    requires first.variable == second.variable != other.variable && Base(first.path) == Base(second.path)
    requires ValidName(first.variable) && ValidName(other.variable) && Get(s.env, first.variable).None?
    ensures Get(SetUpAll(layout, places, [first, second, other], s).env, first.variable).Some?
            <==> IsUsable(layout, places, first, second, s)
  {
    SecondLibraryIff(layout, places, first, second, s);
    OtherVariableKeeps(layout, places, [first, second], other, s, first.variable);
    assert [first, second, other] == [first, second] + [other];
  }

  lemma ProgramTableParts(sdl2Compat: bool, sdl2: bool, sdl3: bool)
    ensures var table := ProgramTable(sdl2Compat, sdl2, sdl3);
            && table == [table[0], table[1], table[2]]
            && table[0].variable == table[1].variable == "SDL_DYNAMIC_API" != table[2].variable
            && ValidName(table[0].variable) && ValidName(table[2].variable)
            && Base(table[0].path) == Base(table[1].path)
  {
    SameFileName();
    assert |"SDL_DYNAMIC_API"| != |"SDL3_DYNAMIC_API"|;
  }

  /** That is when the program sets SDL_DYNAMIC_API. */
  lemma SdlDynamicApiIff(layout: Layout, places: Places, sdl2Compat: bool, sdl2: bool, sdl3: bool, s: State)
    requires Get(s.env, "SDL_DYNAMIC_API").None?
    ensures var table := ProgramTable(sdl2Compat, sdl2, sdl3);
            Get(SetUpAll(layout, places, table, s).env, "SDL_DYNAMIC_API").Some?
            <==> IsUsable(layout, places, table[0], table[1], s)
  {
    var table := ProgramTable(sdl2Compat, sdl2, sdl3);
    ProgramTableParts(sdl2Compat, sdl2, sdl3);
    ThirdLibraryIff(layout, places, table[0], table[1], table[2], s);
  }

  /** Every file exists but one architecture's copy of a library. */
  function PlacesWithout(prefix: string, tuple: string, library: string): Places {
    Places(prefix, None, path => Elements(path) != Elements(PathBelow(prefix, tuple, library)))
  }

  lemma ElementsOfPathBelow(root: string, tuple: string, library: string)
    requires IsItem(tuple, {'/'})
    ensures Elements(PathBelow(root, tuple, library)) == Elements(root) + ["lib", tuple] + Elements(library)
  {
    var lib := BuildFilename(root, "lib");
    ElementsOfBuildFilename(root, "lib");
    ElementsOfBuildFilename(lib, tuple);
    ElementsOfBuildFilename(BuildFilename(lib, tuple), library);
    ItemsOfItem("lib", {'/'});
    ItemsOfItem(tuple, {'/'});
    assert Elements(root) + ["lib"] + [tuple] == Elements(root) + ["lib", tuple];
  }

  /** The other architecture has that library, and both have the one with a directory before its name. */
  lemma TargetsWithout(prefix: string, has: string, lacks: string, dir: string, base: string)
    requires IsItem(has, {'/'}) && IsItem(lacks, {'/'}) && has != lacks
    requires IsItem(dir, {'/'}) && IsItem(base, {'/'})
    ensures var places := PlacesWithout(prefix, lacks, base);
            && Target(places, base, has).Some? && Target(places, base, lacks).None?
            && Target(places, dir + "/" + base, has).Some? && Target(places, dir + "/" + base, lacks).Some?
  {
    ElementsOfPathBelow(prefix, lacks, base);
    ElementsOfPathBelow(prefix, has, base);
    ElementsOfPathBelow(prefix, has, dir + "/" + base);
    ElementsOfPathBelow(prefix, lacks, dir + "/" + base);
    ItemsOfItem(base, {'/'});
    ItemsOfItem(dir, {'/'});
    ElementsOfJoin(dir, base);
    var n := |Elements(prefix)|;
    assert (Elements(prefix) + ["lib", has] + [base])[n + 1] == has;
    assert (Elements(prefix) + ["lib", lacks] + [base])[n + 1] == lacks;
  }

  /** One link can be made, and the next one, which only the first library needs, is in the way. */
  lemma FailsHalfWay(layout: Layout, both: seq<Option<string>>, one: seq<Option<string>>, base: string)
    requires |both| == |one| == 2 && !layout.blocked(0, base) && layout.blocked(1, base)
    requires both[0].Some? && both[1].Some? && one[0].Some? && one[1].None?
    ensures !IsClear(layout, both, base, map[]) && Reaches(layout, both, base, map[], 0, 0)
    ensures IsClear(layout, one, base, map[]) && HasTarget(one, 0)
  {
    assert HasTarget(both, 1) && HasTarget(one, 0);
    assert CanLink(layout, map[], (0, base)) && !CanLink(layout, map[], (1, base));
  }

  lemma ProgramNames()
    ensures IsItem("sdl2-compat", {'/'}) && IsItem("libSDL2-2.0.so.0", {'/'})
    ensures IsItem(X86Tuples()[0], {'/'}) && IsItem(X86Tuples()[1], {'/'}) && X86Tuples()[0] != X86Tuples()[1]
    ensures "sdl2-compat" + "/" + "libSDL2-2.0.so.0" == "sdl2-compat/libSDL2-2.0.so.0"
  {
    assert |X86Tuples()[0]| != |X86Tuples()[1]|;
  }

  /**
    With the program's own table and layout: if there is a file in the way for the second
    architecture, and the runtime has SDL 2 for the first one only but sdl2-compat for both,
    then asking for both libraries sets nothing, where asking for SDL 2 alone would.
   */
  lemma Sdl2IsKeptOut(tokenDir: string, prefix: string, env: Env)
    requires Get(env, "SDL_DYNAMIC_API").None?
    ensures var layout := X86Layout(tokenDir, (abi, base) => base == "" || abi == 1);
            var places := PlacesWithout(prefix, X86Tuples()[1], "libSDL2-2.0.so.0");
            && Get(SetUpAll(layout, places, ProgramTable(true, true, false), State(env, map[])).env,
                   "SDL_DYNAMIC_API").None?
            && Get(SetUpAll(layout, places, ProgramTable(false, true, false), State(env, map[])).env,
                   "SDL_DYNAMIC_API").Some?
  {
    var layout := X86Layout(tokenDir, (abi, base) => base == "" || abi == 1);
    var places := PlacesWithout(prefix, X86Tuples()[1], "libSDL2-2.0.so.0");
    var table, s := ProgramTable(true, true, false), State(env, map[]);
    ProgramNames();
    SameFileName();
    TargetsWithout(prefix, X86Tuples()[0], X86Tuples()[1], "sdl2-compat", "libSDL2-2.0.so.0");
    FailsHalfWay(layout, Targets(layout, places, table[0].path), Targets(layout, places, table[1].path),
                 "libSDL2-2.0.so.0");
    SdlDynamicApiIff(layout, places, true, true, false, s);
    SdlDynamicApiIff(layout, places, false, true, false, s);
  }

  /** Links under another file name are neither made nor in the way. */
  lemma OtherNamesKeep(layout: Layout, places: Places, library: Library, s: State, abi: nat, base: string)
    requires base != Base(library.path)
    ensures CanLink(layout, SetUpOne(layout, places, library, s).links, (abi, base))
            <==> CanLink(layout, s.links, (abi, base))
  {
    LinkFromAdds(layout, Targets(layout, places, library.path), Base(library.path), s.links, 0, false);
  }

  lemma LastLibraryIff(layout: Layout, places: Places, first: Library, second: Library, last: Library, s: State)
    requires ValidName(first.variable) && ValidName(second.variable) && ValidName(last.variable)
    requires first.variable != last.variable && second.variable != last.variable
    requires Base(first.path) != Base(last.path) && Base(second.path) != Base(last.path)
    requires Get(s.env, last.variable).None?
    ensures Get(SetUpAll(layout, places, [first, second, last], s).env, last.variable).Some?
            <==> last.wanted && IsClear(layout, Targets(layout, places, last.path), Base(last.path), s.links)
  {
    var targets, base := Targets(layout, places, last.path), Base(last.path);
    var s1 := if first.wanted then SetUpOne(layout, places, first, s) else s;
    var s2 := if second.wanted then SetUpOne(layout, places, second, s1) else s1;
    ThreeInOrder(layout, places, first, second, last, s);
    SetKeepsOther(layout, places, first, s, last.variable);
    SetKeepsOther(layout, places, second, s1, last.variable);
    assert Get(s2.env, last.variable).None?;
    SetsIfClear(layout, places, last, s2);
    forall abi: nat | HasTarget(targets, abi)
      ensures CanLink(layout, s2.links, (abi, base)) <==> CanLink(layout, s.links, (abi, base))
    {
      OtherNamesKeep(layout, places, first, s, abi, base);
      OtherNamesKeep(layout, places, second, s1, abi, base);
    }
  }

  lemma ThreeInOrder(layout: Layout, places: Places, first: Library, second: Library, last: Library, s: State)
    ensures var s1 := if first.wanted then SetUpOne(layout, places, first, s) else s;
            var s2 := if second.wanted then SetUpOne(layout, places, second, s1) else s1;
            SetUpAll(layout, places, [first, second, last], s)
            == if last.wanted then SetUpOne(layout, places, last, s2) else s2
  {
    var s1 := if first.wanted then SetUpOne(layout, places, first, s) else s;
    var s2 := if second.wanted then SetUpOne(layout, places, second, s1) else s1;
    var s3 := if last.wanted then SetUpOne(layout, places, last, s2) else s2;
    assert [first, second, last][1..] == [second, last] && [second, last][1..] == [last] && [last][1..] == [];
    assert SetUpAll(layout, places, [last], s2) == s3;
    assert SetUpAll(layout, places, [second, last], s1) == s3;
  }

  lemma SetKeepsOther(layout: Layout, places: Places, library: Library, s: State, variable: string)
    requires ValidName(variable) && ValidName(library.variable) && variable != library.variable
    ensures Get(SetUpOne(layout, places, library, s).env, variable) == Get(s.env, variable)
  {
    GetAfterSet(s.env, library.variable, Token(layout, Base(library.path)), true, variable);
  }

  lemma Sdl3Parts(sdl2Compat: bool, sdl2: bool, sdl3: bool)
    ensures var table := ProgramTable(sdl2Compat, sdl2, sdl3);
            && table == [table[0], table[1], table[2]] && table[2].wanted == sdl3
            && table[2].variable == "SDL3_DYNAMIC_API" && Base(table[2].path) == "libSDL3.so.0"
            && table[2].path == "libSDL3.so.0"
            && Base(table[0].path) != "libSDL3.so.0" && Base(table[1].path) != "libSDL3.so.0"
  {
    SameFileName();
    BaseOfName("libSDL3.so.0");
    assert |"libSDL2-2.0.so.0"| != |"libSDL3.so.0"|;
  }

  /** SDL 3 has a file name and a variable of its own: nothing but its own links decides. */
  lemma Sdl3DynamicApiIff(layout: Layout, places: Places, sdl2Compat: bool, sdl2: bool, sdl3: bool, s: State)
    requires Get(s.env, "SDL3_DYNAMIC_API").None?
    ensures Get(SetUpAll(layout, places, ProgramTable(sdl2Compat, sdl2, sdl3), s).env, "SDL3_DYNAMIC_API").Some?
            <==> sdl3 && IsClear(layout, Targets(layout, places, "libSDL3.so.0"), "libSDL3.so.0", s.links)
  {
    var table := ProgramTable(sdl2Compat, sdl2, sdl3);
    ProgramTableParts(sdl2Compat, sdl2, sdl3);
    Sdl3Parts(sdl2Compat, sdl2, sdl3);
    LastLibraryIff(layout, places, table[0], table[1], table[2], s);
  }

  /** Where the caller has set the variables of all wanted libraries, nothing happens at all. */
  lemma {:induction false} ExistingValuesAreRespected(layout: Layout, places: Places, table: seq<Library>, s: State)
    requires forall i :: 0 <= i < |table| && table[i].wanted ==> Get(s.env, table[i].variable).Some?
    ensures SetUpAll(layout, places, table, s) == s
    decreases table
  {
    if table != [] {
      ExistingValuesAreRespected(layout, places, table[1..], s);
    }
  }
}
