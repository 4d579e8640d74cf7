/**
  Environment of a launched process: the client splits its overlay into variables to set and
  variables to unset, the service folds both over its own environment, and where the service
  cannot unset variables the client wraps the command in `/usr/bin/env -u`.
 */
module LaunchEnv {
  import opened Wrappers
  import opened Environ

  /** Variables to set (`Some`) or to unset (`None`); others are inherited. */
  type Overlay = map<string, Option<string>>

  ghost predicate ValidOverlay(overlay: Overlay) {
    forall name :: name in overlay ==> ValidName(name)
  }

  // ---------------------------------------------------------------------------
  // The service: handle_launch

  const PWD := "PWD"
  const MAINPID := "MAINPID"

  lemma SpecialNames()
    ensures ValidName(PWD) && ValidName(MAINPID) && PWD != MAINPID
    ensures PWD == "PWD" && MAINPID == "MAINPID"
  {
    assert |PWD| != |MAINPID|;
  }

  /**
    The value of `name` after a list of assignments. GLib refuses a name that contains `=`, and
    then leaves no block at all.
   */
  function AfterSets(sets: seq<(string, string)>, name: string, before: Option<string>): Option<string> {
    if sets == [] then before
    else
      var (last, value) := sets[|sets| - 1];
      if last == name then Some(value)
      else if !ValidName(last) then None
      else AfterSets(sets[..|sets| - 1], name, before)
  }

  predicate HasBadName(names: seq<string>) {
    exists i :: 0 <= i < |names| && !ValidName(names[i])
  }

  /** The same after a list of variables to unset, where refusal has the same effect. */
  function AfterUnsets(unsets: seq<string>, name: string, before: Option<string>): Option<string> {
    if name in unsets || HasBadName(unsets) then None else before
  }

  /** What a process launched by the service must see as the value of `name`. */
  function LaunchedValue(base: Env, clear: bool, mainPid: Option<string>, sets: seq<(string, string)>,
                         unsets: seq<string>, cwd: string, originalCwd: string, name: string): Option<string>
  {
    var inherited := if name == MAINPID then mainPid else if clear then None else Get(base, name);
    if name == PWD then Some(if cwd == "" then originalCwd else cwd)
    else AfterUnsets(unsets, name, AfterSets(sets, name, inherited))
  }

  method ComposeEnv(base: Env, clear: bool, mainPid: Option<string>, sets: seq<(string, string)>,
                    unsets: seq<string>, cwd: string, originalCwd: string) returns (env: Env)
    ensures forall name :: ValidName(name) ==>
              Get(env, name) == LaunchedValue(base, clear, mainPid, sets, unsets, cwd, originalCwd, name)
  {
    SpecialNames();
    env := if clear then [] else base;
    env := SetOrUnset(env, MAINPID, mainPid);
    env := ApplySets(env, sets);
    env := ApplyUnsets(env, unsets);
    if cwd == "" {
      env := SetAll(env, PWD, originalCwd);
    } else {
      env := SetAll(env, PWD, cwd);
    }
  }

  method SetOrUnset(env: Env, name: string, value: Option<string>) returns (result: Env)
    requires ValidName(name)
    ensures forall other :: ValidName(other) ==>
              Get(result, other) == if other == name then value else Get(env, other)
  {
    if value.Some? {
      result := SetAll(env, name, value.value);
    } else {
      result := UnsetAll(env, name);
    }
  }

  /** The loop over the variables to set, which skips PWD. */
  method ApplySets(start: Env, sets: seq<(string, string)>) returns (env: Env)
    ensures forall name :: ValidName(name) && name != PWD ==>
              Get(env, name) == AfterSets(sets, name, Get(start, name))
  {
    SpecialNames();
    env := start;
    for i := 0 to |sets|
      invariant forall name :: ValidName(name) && name != PWD ==>
        Get(env, name) == AfterSets(sets[..i], name, Get(start, name))
    {
      assert sets[..i + 1][..i] == sets[..i];
      if sets[i].0 == PWD {
        continue;
      }
      env := SetAll(env, sets[i].0, sets[i].1);
    }
    assert sets[..|sets|] == sets;
  }

  lemma AfterOneMore(unsets: seq<string>, i: nat, name: string, before: Option<string>)
    requires i < |unsets|
    ensures AfterUnsets(unsets[..i + 1], name, before)
            == if unsets[i] == name || !ValidName(unsets[i]) then None else AfterUnsets(unsets[..i], name, before)
  {
    var more, less := unsets[..i + 1], unsets[..i];
    assert more == less + [unsets[i]];
    assert more[i] == unsets[i];
    if HasBadName(less) {
      var k :| 0 <= k < |less| && !ValidName(less[k]);
      assert !ValidName(more[k]);
    }
  }

  /** The loop over the variables to unset, which skips PWD. */
  method ApplyUnsets(start: Env, unsets: seq<string>) returns (env: Env)
    ensures forall name :: ValidName(name) && name != PWD ==>
              Get(env, name) == AfterUnsets(unsets, name, Get(start, name))
  {
    SpecialNames();
    env := start;
    for i := 0 to |unsets|
      invariant forall name :: ValidName(name) && name != PWD ==>
        Get(env, name) == AfterUnsets(unsets[..i], name, Get(start, name))
    {
      ghost var before := env;
      if unsets[i] != PWD {
        env := UnsetAll(env, unsets[i]);
      }
      forall name | ValidName(name) && name != PWD
        ensures Get(env, name) == AfterUnsets(unsets[..i + 1], name, Get(start, name))
      {
        AfterOneMore(unsets, i, name, Get(start, name));
      }
    }
    assert unsets[..|unsets|] == unsets;
  }

  /** `g_environ_setenv`, which does not accept a name that contains `=` and returns no block. */
  method SetAll(env: Env, name: string, value: string) returns (result: Env)
    ensures forall other :: ValidName(other) ==>
              Get(result, other) == if !ValidName(name) then None
                                    else if other == name then Some(value)
                                    else Get(env, other)
  {
    if !ValidName(name) {
      return [];
    }
    result := Set(env, name, value, true);
    forall other | ValidName(other)
      ensures Get(result, other) == if other == name then Some(value) else Get(env, other)
    {
      GetAfterSet(env, name, value, true, other);
    }
  }

  /** `g_environ_unsetenv`, likewise. */
  method UnsetAll(env: Env, name: string) returns (result: Env)
    ensures forall other :: ValidName(other) ==>
              Get(result, other) == if !ValidName(name) || other == name then None else Get(env, other)
  {
    if !ValidName(name) {
      return [];
    }
    result := Unset(env, name);
    forall other | ValidName(other)
      ensures Get(result, other) == if other == name then None else Get(env, other)
    {
      GetAfterUnset(env, name, other);
    }
  }

  // ---------------------------------------------------------------------------
  // The client: splitting the overlay

  /** `sets` and `unsets` together say exactly what the overlay says, each variable once. */
  ghost predicate Splits(overlay: Overlay, sets: seq<(string, string)>, unsets: seq<string>) {
    && (forall i :: 0 <= i < |sets| ==> sets[i].0 in overlay && overlay[sets[i].0] == Some(sets[i].1))
    && (forall i :: 0 <= i < |unsets| ==> unsets[i] in overlay && overlay[unsets[i]] == None)
    && (forall name :: name in overlay && overlay[name].Some? ==> (name, overlay[name].value) in sets)
    && (forall name :: name in overlay && overlay[name].None? ==> name in unsets)
    && (forall i, j :: 0 <= i < j < |sets| ==> sets[i].0 != sets[j].0)
    && (forall i, j :: 0 <= i < j < |unsets| ==> unsets[i] != unsets[j])
  }

  method SplitOverlay(overlay: Overlay) returns (sets: seq<(string, string)>, unsets: seq<string>)
    ensures Splits(overlay, sets, unsets)
  {
    sets, unsets := [], [];
    var unsetenv := false;
    var todo := overlay.Keys;
    while todo != {}
      invariant todo <= overlay.Keys
      invariant forall i :: 0 <= i < |sets| ==>
        sets[i].0 in overlay.Keys - todo && overlay[sets[i].0] == Some(sets[i].1)
      invariant forall name :: name in overlay.Keys - todo && overlay[name].Some? ==>
        (name, overlay[name].value) in sets
      invariant unsetenv <==> exists name :: name in overlay.Keys - todo && overlay[name].None?
      invariant forall i, j :: 0 <= i < j < |sets| ==> sets[i].0 != sets[j].0
      decreases todo
    {
      var key :| key in todo;
      if overlay[key].Some? {
        sets := sets + [(key, overlay[key].value)];
      } else {
        unsetenv := true;
      }
      todo := todo - {key};
    }
    if unsetenv {
      todo := overlay.Keys;
      while todo != {}
        invariant todo <= overlay.Keys
        invariant forall i :: 0 <= i < |unsets| ==> unsets[i] in overlay.Keys - todo && overlay[unsets[i]].None?
        invariant forall name :: name in overlay.Keys - todo && overlay[name].None? ==> name in unsets
        invariant forall i, j :: 0 <= i < j < |unsets| ==> unsets[i] != unsets[j]
        decreases todo
      {
        var key :| key in todo;
        if overlay[key].None? {
          unsets := unsets + [key];
        }
        todo := todo - {key};
      }
    }
  }

  ghost predicate DistinctNames(sets: seq<(string, string)>) {
    forall i, j :: 0 <= i < j < |sets| ==> sets[i].0 != sets[j].0
  }

  lemma {:induction false} AfterDistinctSets(sets: seq<(string, string)>, name: string, before: Option<string>)
    requires DistinctNames(sets) && forall i :: 0 <= i < |sets| ==> ValidName(sets[i].0)
    ensures forall i :: 0 <= i < |sets| && sets[i].0 == name ==> AfterSets(sets, name, before) == Some(sets[i].1)
    ensures (forall i :: 0 <= i < |sets| ==> sets[i].0 != name) ==> AfterSets(sets, name, before) == before
  {
    if sets != [] {
      AfterDistinctSets(sets[..|sets| - 1], name, before);
    }
  }

  /** The last assignment to a variable. */
  ghost predicate IsLastSet(sets: seq<(string, string)>, name: string, i: int) {
    0 <= i < |sets| && sets[i].0 == name && forall k :: i < k < |sets| ==> sets[k].0 != name
  }

  lemma {:induction false} LastSetDecides(sets: seq<(string, string)>, name: string, before: Option<string>)
    requires forall i :: 0 <= i < |sets| ==> ValidName(sets[i].0)
    ensures forall i :: IsLastSet(sets, name, i) ==> AfterSets(sets, name, before) == Some(sets[i].1)
    ensures (forall i :: 0 <= i < |sets| ==> sets[i].0 != name) ==> AfterSets(sets, name, before) == before
  {
    if sets != [] {
      var n := |sets| - 1;
      LastSetDecides(sets[..n], name, before);
      forall i | IsLastSet(sets, name, i)
        ensures AfterSets(sets, name, before) == Some(sets[i].1)
      {
        assert i < n ==> IsLastSet(sets[..n], name, i);
      }
    }
  }

  /**
    With names that GLib accepts, whatever a caller sends: the working directory decides PWD; any
    other variable is gone if it is to be unset, or else has the last value set for it, or else
    is the main pid or inherited.
   */
  lemma LaunchedPrecedence(base: Env, clear: bool, mainPid: Option<string>, sets: seq<(string, string)>,
                           unsets: seq<string>, cwd: string, originalCwd: string, name: string)
    requires forall i :: 0 <= i < |sets| ==> ValidName(sets[i].0)
    requires forall i :: 0 <= i < |unsets| ==> ValidName(unsets[i])
    ensures var value := LaunchedValue(base, clear, mainPid, sets, unsets, cwd, originalCwd, name);
            if name == "PWD" then value == Some(if cwd == "" then originalCwd else cwd)
            else if name in unsets then value == None
            else
              && (forall i :: IsLastSet(sets, name, i) ==> value == Some(sets[i].1))
              && ((forall i :: 0 <= i < |sets| ==> sets[i].0 != name) ==>
                    value == if name == "MAINPID" then mainPid else if clear then None else Get(base, name))
  {
    SpecialNames();
    LastSetDecides(sets, name, if name == MAINPID then mainPid else if clear then None else Get(base, name));
  }

  /** After a refused name, nothing is left but what was set later. */
  lemma {:induction false} AfterBadSets(sets: seq<(string, string)>, name: string, before: Option<string>)
    requires exists i :: 0 <= i < |sets| && !ValidName(sets[i].0)
    ensures AfterSets(sets, name, before).Some? ==> (name, AfterSets(sets, name, before).value) in sets
  {
    var last := sets[|sets| - 1];
    if last.0 != name && ValidName(last.0) {
      var i :| 0 <= i < |sets| && !ValidName(sets[i].0);
      assert sets[..|sets| - 1][i] == sets[i];
      AfterBadSets(sets[..|sets| - 1], name, before);
    } else {
      assert last in sets;
      assert last == (last.0, last.1);
    }
  }

  /** What the overlay over the inherited environment gives a variable. */
  function OverlaidValue(overlay: Overlay, base: Env, clear: bool, mainPid: Option<string>, name: string)
    : Option<string>
  {
    if name in overlay then overlay[name]
    else if name == "MAINPID" then mainPid
    else if clear then None
    else Get(base, name)
  }

  lemma ValidOverlayIsApplied(overlay: Overlay, sets: seq<(string, string)>, unsets: seq<string>, base: Env,
                              clear: bool, mainPid: Option<string>, cwd: string, originalCwd: string, name: string)
    requires ValidOverlay(overlay) && Splits(overlay, sets, unsets) && name != PWD
    ensures LaunchedValue(base, clear, mainPid, sets, unsets, cwd, originalCwd, name)
            == OverlaidValue(overlay, base, clear, mainPid, name)
  {
    var inherited := if name == MAINPID then mainPid else if clear then None else Get(base, name);
    AfterDistinctSets(sets, name, inherited);
    if name in overlay && overlay[name].Some? {
      var i :| 0 <= i < |sets| && sets[i] == (name, overlay[name].value);
      assert sets[i].0 == name;
    }
  }

  /** A name that contains `=` in the overlay makes the process lose everything that it would inherit. */
  lemma BadOverlayInheritsNothing(overlay: Overlay, sets: seq<(string, string)>, unsets: seq<string>, base: Env,
                                  clear: bool, mainPid: Option<string>, cwd: string, originalCwd: string,
                                  name: string, bad: string)
    requires Splits(overlay, sets, unsets) && name != PWD && bad in overlay && !ValidName(bad)
    ensures var value := LaunchedValue(base, clear, mainPid, sets, unsets, cwd, originalCwd, name);
            && (value.Some? ==> name in overlay && overlay[name] == value)
            && (overlay[bad].None? ==> value.None?)
  {
    var inherited := if name == MAINPID then mainPid else if clear then None else Get(base, name);
    if overlay[bad].None? {
      var i :| 0 <= i < |unsets| && unsets[i] == bad;
      assert HasBadName(unsets);
    } else {
      var i :| 0 <= i < |sets| && sets[i] == (bad, overlay[bad].value);
      assert !ValidName(sets[i].0);
      AfterBadSets(sets, name, inherited);
      var value := AfterSets(sets, name, inherited);
      if value.Some? {
        var k :| 0 <= k < |sets| && sets[k] == (name, value.value);
        assert sets[k].0 in overlay;
      }
    }
  }

  /**
    Client and service together: a launched process sees the client's overlay over the
    service's environment, if no name in the overlay contains `=`. Unset wins, and variables
    that are not mentioned are inherited. Otherwise nothing is inherited, and if such a name is
    to be unset, nothing is set either.
   */
  method LaunchEnvironment(overlay: Overlay, base: Env, clear: bool, mainPid: Option<string>,
                           cwd: string, originalCwd: string) returns (env: Env)
    ensures ValidOverlay(overlay) ==> forall name :: ValidName(name) && name != "PWD" ==>
              Get(env, name) == OverlaidValue(overlay, base, clear, mainPid, name)
    ensures forall bad, name :: bad in overlay && !ValidName(bad) && ValidName(name) && name != "PWD" ==>
              && (Get(env, name).Some? ==> name in overlay && overlay[name] == Get(env, name))
              && (overlay[bad].None? ==> Get(env, name).None?)
    ensures Get(env, "PWD") == Some(if cwd == "" then originalCwd else cwd)
  {
    SpecialNames();
    var sets, unsets := SplitOverlay(overlay);
    env := ComposeEnv(base, clear, mainPid, sets, unsets, cwd, originalCwd);
    if ValidOverlay(overlay) {
      forall name | ValidName(name) && name != PWD
        ensures Get(env, name) == OverlaidValue(overlay, base, clear, mainPid, name)
      {
        ValidOverlayIsApplied(overlay, sets, unsets, base, clear, mainPid, cwd, originalCwd, name);
      }
    }
    forall bad, name | bad in overlay && !ValidName(bad) && ValidName(name) && name != PWD
      ensures (Get(env, name).Some? ==> name in overlay && overlay[name] == Get(env, name))
              && (overlay[bad].None? ==> Get(env, name).None?)
    {
      BadOverlayInheritsNothing(overlay, sets, unsets, base, clear, mainPid, cwd, originalCwd, name, bad);
    }
  }

  // ---------------------------------------------------------------------------
  // The client: unsetting variables through /usr/bin/env

  const ENV := "/usr/bin/env"
  const SH_EXEC := ["/bin/sh", "-euc", "exec \"$@\"", "sh"]

  function UnsetOptions(unsets: seq<string>): seq<string> {
    if unsets == [] then []
    else UnsetOptions(unsets[..|unsets| - 1]) + ["-u", unsets[|unsets| - 1]]
  }

  function Rewritten(unsets: seq<string>, command: seq<string>): seq<string>
    requires command != []
  {
    [ENV] + UnsetOptions(unsets) + (if '=' in command[0] then SH_EXEC else []) + command
  }

  method RewriteThroughEnv(unsets: seq<string>, command: seq<string>) returns (argv: seq<string>)
    requires command != []
    ensures argv == Rewritten(unsets, command)
  {
    argv := [ENV];
    for i := 0 to |unsets|
      invariant argv == [ENV] + UnsetOptions(unsets[..i])
    {
      assert unsets[..i + 1][..i] == unsets[..i];
      argv := argv + ["-u"];
      argv := argv + [unsets[i]];
      assert argv == [ENV] + (UnsetOptions(unsets[..i]) + ["-u", unsets[i]]);
    }
    assert unsets[..|unsets|] == unsets;
    if '=' in command[0] {
      argv := argv + SH_EXEC;
    }
    ghost var prefix := argv;
    for i := 0 to |command|
      invariant argv == prefix + command[..i]
    {
      argv := argv + [command[i]];
    }
    assert command[..|command|] == command;
  }

  lemma SpecialWords()
    ensures ENV == "/usr/bin/env" && SH_EXEC == ["/bin/sh", "-euc", "exec \"$@\"", "sh"]
  {
  }

  /** One variable: a plain command is put behind env(1), and one with `=` also behind a shell. */
  lemma RewrittenWords(name: string, command: seq<string>)
    requires command != []
    ensures Rewritten([name], command)
            == ["/usr/bin/env", "-u", name]
               + if '=' in command[0] then ["/bin/sh", "-euc", "exec \"$@\"", "sh"] + command else command
  {
    SpecialWords();
    assert [name][..0] == [];
    assert UnsetOptions([name]) == ["-u", name];
  }

  /** The program image that finally runs: its arguments and its environment. */
  datatype Image = Image(argv: seq<string>, env: map<string, string>)

  /**
    env(1) after its options: assignments, then a command. `None` stands for an error or for
    an option that this model does not interpret. Implementations differ in whether they accept
    an assignment to an empty name, which is `lax`.
   */
  function EnvAssignments(lax: bool, args: seq<string>, env: map<string, string>): Option<Image> {
    if args == [] then None
    else if '=' in args[0] then
      if (!lax && Name(args[0]) == "") || !HasName(args[0]) then None
      else EnvAssignments(lax, args[1..], env[Name(args[0]) := Value(args[0])])
    else Some(Image(args, env))
  }

  function EnvOptions(lax: bool, args: seq<string>, env: map<string, string>): Option<Image> {
    if args == [] then None
    else if args[0] == "-u" && 2 <= |args| then
      if args[1] == "" || '=' in args[1] then None
      else EnvOptions(lax, args[2..], env - {args[1]})
    else if |args[0]| > 0 && args[0][0] == '-' then None
    else EnvAssignments(lax, args, env)
  }

  lemma {:induction false} EnvAssignmentsShorter(lax: bool, args: seq<string>, env: map<string, string>)
    ensures EnvAssignments(lax, args, env).Some? ==> |EnvAssignments(lax, args, env).value.argv| <= |args|
  {
    if args != [] && '=' in args[0] && (lax || Name(args[0]) != "") && HasName(args[0]) {
      EnvAssignmentsShorter(lax, args[1..], env[Name(args[0]) := Value(args[0])]);
    }
  }

  lemma {:induction false} EnvOptionsShorter(lax: bool, args: seq<string>, env: map<string, string>)
    ensures EnvOptions(lax, args, env).Some? ==> |EnvOptions(lax, args, env).value.argv| <= |args|
  {
    if 2 <= |args| && args[0] == "-u" && !(args[1] == "" || '=' in args[1]) {
      EnvOptionsShorter(lax, args[2..], env - {args[1]});
    } else {
      EnvAssignmentsShorter(lax, args, env);
    }
  }

  /** What executing `argv` comes to, seeing through env(1) and through `sh -c 'exec "$@"'`. */
  function Run(lax: bool, argv: seq<string>, env: map<string, string>): Option<Image>
    decreases |argv|
  {
    if argv == [] then None
    else if argv[0] == ENV then
      EnvOptionsShorter(lax, argv[1..], env);
      var next := EnvOptions(lax, argv[1..], env);
      if next.Some? then Run(lax, next.value.argv, next.value.env) else None
    else if 4 < |argv| && argv[..4] == SH_EXEC then
      // an option to the shell's exec is not a command
      if |argv[4]| > 0 && argv[4][0] == '-' then None else Run(lax, argv[4..], env)
    else Some(Image(argv, env))
  }

  function Names(unsets: seq<string>): set<string> {
    set i | 0 <= i < |unsets| :: unsets[i]
  }

  lemma {:induction false} EnvSkipsUnsets(lax: bool, unsets: seq<string>, tail: seq<string>, env: map<string, string>)
    requires AllCanUnset(unsets)
    ensures EnvOptions(lax, UnsetOptions(unsets) + tail, env) == EnvOptions(lax, tail, env - Names(unsets))
  {
    if unsets == [] {
      assert [] + tail == tail;
      assert env - Names(unsets) == env;
    } else {
      var n := |unsets| - 1;
      var last := ["-u", unsets[n]] + tail;
      EnvSkipsUnsets(lax, unsets[..n], last, env);
      assert UnsetOptions(unsets) + tail == UnsetOptions(unsets[..n]) + last;
      assert last[2..] == tail;
      assert unsets == unsets[..n] + [unsets[n]];
      assert Names(unsets) == Names(unsets[..n]) + {unsets[n]};
      assert env - Names(unsets[..n]) - {unsets[n]} == env - Names(unsets);
    }
  }

  ghost predicate AllCanUnset(unsets: seq<string>) {
    forall i :: 0 <= i < |unsets| ==> CanSetenv(unsets[i])
  }

  /** Any other name makes env(1) fail. */
  lemma {:induction false} BadUnsetFails(lax: bool, unsets: seq<string>, tail: seq<string>, env: map<string, string>)
    requires !AllCanUnset(unsets)
    ensures EnvOptions(lax, UnsetOptions(unsets) + tail, env) == None
  {
    var n := |unsets| - 1;
    var before, last := unsets[..n], ["-u", unsets[n]] + tail;
    assert UnsetOptions(unsets) + tail == UnsetOptions(before) + last;
    if AllCanUnset(before) {
      assert forall i :: 0 <= i < n ==> unsets[i] == before[i];
      assert !CanSetenv(unsets[n]);
      EnvSkipsUnsets(lax, before, last, env);
    } else {
      BadUnsetFails(lax, before, last, env);
    }
  }

  lemma {:induction false} RunShorter(lax: bool, argv: seq<string>, env: map<string, string>)
    ensures Run(lax, argv, env).Some? ==> |Run(lax, argv, env).value.argv| <= |argv|
    decreases |argv|
  {
    if argv != [] && argv[0] == ENV {
      EnvOptionsShorter(lax, argv[1..], env);
      var next := EnvOptions(lax, argv[1..], env);
      if next.Some? {
        RunShorter(lax, next.value.argv, next.value.env);
      }
    } else if 4 < |argv| && argv[..4] == SH_EXEC && !(|argv[4]| > 0 && argv[4][0] == '-') {
      RunShorter(lax, argv[4..], env);
    }
  }

  predicate StartsWithDash(word: string) {
    |word| > 0 && word[0] == '-'
  }

  /** The rewritten command runs what env(1) makes of everything after the `-u` options. */
  lemma RunRewritten(lax: bool, unsets: seq<string>, command: seq<string>, env: map<string, string>)
    requires command != []
    requires AllCanUnset(unsets)
    ensures var tail := (if '=' in command[0] then SH_EXEC else []) + command;
            var next := EnvOptions(lax, tail, env - Names(unsets));
            Run(lax, Rewritten(unsets, command), env)
            == if next.Some? then Run(lax, next.value.argv, next.value.env) else None
  {
    var tail := (if '=' in command[0] then SH_EXEC else []) + command;
    var rewritten := Rewritten(unsets, command);
    assert rewritten[1..] == UnsetOptions(unsets) + tail;
    EnvSkipsUnsets(lax, unsets, tail, env);
  }

  lemma PlainCommandRunsAsIs(lax: bool, command: seq<string>, env: map<string, string>)
    requires command != [] && (StartsWithDash(command[0]) || '=' in command[0])
    ensures Run(lax, command, env) == Some(Image(command, env))
  {
    assert command[0] != ENV && command[0] != SH_EXEC[0];
    assert 4 < |command| ==> command[..4][0] == command[0];
  }

  /** Between env(1) and a command containing `=` there is a shell that only runs it. */
  lemma ShellRunsItsArguments(lax: bool, command: seq<string>, env: map<string, string>)
    requires command != []
    ensures EnvOptions(lax, SH_EXEC + command, env) == Some(Image(SH_EXEC + command, env))
    ensures Run(lax, SH_EXEC + command, env) == if StartsWithDash(command[0]) then None else Run(lax, command, env)
  {
    var tail := SH_EXEC + command;
    assert tail[0] == SH_EXEC[0];
    assert tail[..4] == SH_EXEC && tail[4..] == command && tail[4] == command[0];
  }

  /** For names that env(1) can unset, the rewrite is right unless the first word starts with a dash. */
  lemma RewriteOfUnsettable(lax: bool, unsets: seq<string>, command: seq<string>, env: map<string, string>)
    requires command != [] && AllCanUnset(unsets)
    ensures Run(lax, Rewritten(unsets, command), env) == Run(lax, command, env - Names(unsets))
            <==> !StartsWithDash(command[0])
  {
    var left := env - Names(unsets);
    RunRewritten(lax, unsets, command, env);
    if '=' in command[0] {
      ShellRunsItsArguments(lax, command, left);
      PlainCommandRunsAsIs(lax, command, left);
    } else {
      assert [] + command == command;
      if StartsWithDash(command[0]) {
        PlainCommandRunsAsIs(lax, command, left);
        if command[0] == "-u" && 2 <= |command| && command[1] != "" && '=' !in command[1] {
          var after := EnvOptions(lax, command[2..], left - {command[1]});
          EnvOptionsShorter(lax, command[2..], left - {command[1]});
          if after.Some? {
            RunShorter(lax, after.value.argv, after.value.env);
          }
        }
      }
    }
  }

  /** With any other name, the rewritten command does not run. */
  lemma RewriteOfBadNames(lax: bool, unsets: seq<string>, command: seq<string>, env: map<string, string>)
    requires command != [] && !AllCanUnset(unsets)
    ensures Run(lax, Rewritten(unsets, command), env) == None
  {
    var tail := (if '=' in command[0] then SH_EXEC else []) + command;
    assert Rewritten(unsets, command)[1..] == UnsetOptions(unsets) + tail;
    BadUnsetFails(lax, unsets, tail, env);
  }

  /**
    The rewrite through /usr/bin/env means the same as running the command without the
    variables: if no name is empty or contains `=`, exactly when the first word of the command
    does not start with a dash; and otherwise exactly when the command would not run anyway.
   */
  lemma RewriteMeansUnset(lax: bool, unsets: seq<string>, command: seq<string>, env: map<string, string>)
    requires command != []
    ensures Run(lax, Rewritten(unsets, command), env) == Run(lax, command, env - Names(unsets)) <==>
            if AllCanUnset(unsets) then !StartsWithDash(command[0]) else Run(lax, command, env - Names(unsets)) == None
  {
    if AllCanUnset(unsets) {
      RewriteOfUnsettable(lax, unsets, command, env);
    } else {
      RewriteOfBadNames(lax, unsets, command, env);
    }
  }

  /** `--unset-env=A=B` and the command `x`: without the variable it would run, but env(1) fails. */
  lemma BadNameIsNotUnset(lax: bool, env: map<string, string>)
    ensures Run(lax, Rewritten(["A=B"], ["x"]), env) == None
    ensures Run(lax, ["x"], env - Names(["A=B"])) == Some(Image(["x"], env - {"A=B"}))
  {
    assert '=' in "A=B" && !CanSetenv(["A=B"][0]);
    RewriteOfBadNames(lax, ["A=B"], ["x"], env);
    assert Names(["A=B"]) == {"A=B"};
    assert |ENV| == 12 && |["x"][0]| == 1;
  }
}
