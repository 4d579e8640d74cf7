/** What a launch command that was put together means. */
module LaunchCommandMeaning {
  import opened Wrappers
  import opened Environ
  import opened LaunchEnv
  import opened Peeling
  import opened LaunchCommand
  import opened LaunchCommandParts

  // ---------------------------------------------------------------------------
  // Rebuilding a command from what was peeled off it

  /** Exactly the peeled components are selected, and nothing that would add words. */
  ghost predicate SelectsPeeled(s: Selection, p: Peeled) {
    && s.adverbs == p.adverbs && s.layered == p.layered && s.proton == p.proton && s.app == p.app
    && (p.containers == [] ==> s.container == None)
    && (p.containers != [] ==> s.container.Some? && s.container.value.Depot?
                               && s.container.value.argv == p.containers[|p.containers| - 1].argv)
    && !s.oldRuntime.OldRuntime? && Adverb(s) == []
  }

  lemma ArgvOfPeeled(s: Selection, p: Peeled)
    requires SelectsPeeled(s, p)
    ensures Argv(s) == Concat(p.adverbs)
                       + ((if p.containers == [] then []
                           else p.containers[|p.containers| - 1].argv + p.layered) + (p.proton + p.app))
  {
    ArgvIs(s);
    var middle := RuntimeWords(s) + if s.container.Some? then s.layered else [];
    assert Adverb(s) == TerminalWords(s) == [];
    assert [] + s.app == s.app;
    var words := Concat(s.adverbs) + (middle + (s.proton + s.app));
    assert [] + words == words;
    assert s.container.None? ==> middle == [];
  }

  /**
    Selecting exactly what was peeled gives the original command back, exactly if at most one
    container runtime was peeled and any layered runtime was inside one.
   */
  lemma RebuildPeeled(rules: Rules, command: Words, s: Selection)
    requires SelectsPeeled(s, Peel(rules, command))
    ensures Argv(s) == command <==>
            var p := Peel(rules, command);
            |p.containers| <= 1 && (p.layered != [] ==> p.containers != [])
  {
    var p := Peel(rules, command);
    ArgvOfPeeled(s, p);
    KeptIsWhole(rules, command);
    if p.containers != [] {
      var container := p.containers[|p.containers| - 1].argv;
      Regroup(container, p.layered, p.proton + p.app);
      assert Argv(s) == Kept(p);
    } else {
      assert [] + (p.layered + (p.proton + p.app)) == p.layered + (p.proton + p.app);
      assert [] + (p.proton + p.app) == p.proton + p.app;
      assert |Argv(s)| == |command| - |p.layered|;
      if p.layered == [] {
        assert [] + (p.proton + p.app) == p.layered + (p.proton + p.app);
      }
    }
  }

  // ---------------------------------------------------------------------------
  // The env(1) prefix

  /** A name that env(1) takes as the name of a variable wherever it stands. */
  predicate IsVariable(name: string) {
    CanSetenv(name) && !StartsWithDash(name)
  }

  /** Names are what comes before the first `=` of an option, and so contain none. */
  ghost predicate ValidNames(environ: Environment) {
    forall name :: name in environ ==> ValidName(name)
  }

  /** The assignments, as a map. */
  function Changes(os: Environment, environ: Environment, order: seq<string>): Environment {
    if order == [] then map[]
    else
      var before := Changes(os, environ, order[..|order| - 1]);
      var name := order[|order| - 1];
      if Differs(os, environ, name) then before[name := environ[name]] else before
  }

  /** No assignment is refused for having an empty name. */
  ghost predicate NoneRefused(lax: bool, os: Environment, environ: Environment, order: seq<string>) {
    forall i :: 0 <= i < |order| && Differs(os, environ, order[i]) ==> lax || order[i] != ""
  }

  /** The first variable that gets an assignment. */
  ghost predicate IsFirstChange(os: Environment, environ: Environment, order: seq<string>, i: int) {
    && 0 <= i < |order| && Differs(os, environ, order[i])
    && forall k :: 0 <= k < i ==> !Differs(os, environ, order[k])
  }

  /** env(1) takes every assignment for one: none is refused, and the first is not an option. */
  ghost predicate NamesAreTaken(lax: bool, os: Environment, environ: Environment, order: seq<string>) {
    && NoneRefused(lax, os, environ, order)
    && forall i :: IsFirstChange(os, environ, order, i) ==> !StartsWithDash(order[i])
  }

  lemma OneAssignment(lax: bool, name: string, value: string, tail: Words, env: Environment)
    requires ValidName(name)
    ensures EnvAssignments(lax, [Entry(name, value)] + tail, env)
            == if !lax && name == "" then None else EnvAssignments(lax, tail, env[name := value])
    ensures '=' in Entry(name, value) && (StartsWithDash(Entry(name, value)) <==> StartsWithDash(name))
  {
    NameOfEntry(name, value);
    assert Entry(name, value)[|name|] == '=';
    assert name != "" ==> Entry(name, value)[0] == name[0];
    assert ([Entry(name, value)] + tail)[1..] == tail;
  }

  /** The assignments make their changes, if none is refused. */
  lemma {:induction false} EnvMakesChanges(lax: bool, os: Environment, environ: Environment, order: seq<string>,
                                           tail: Words, env: Environment)
    requires ValidNames(environ)
    ensures EnvAssignments(lax, Assignments(os, environ, order) + tail, env)
            == if NoneRefused(lax, os, environ, order) then EnvAssignments(lax, tail, env + Changes(os, environ, order))
               else None
  {
    if order == [] {
      assert [] + tail == tail;
      assert env + map[] == env;
    } else {
      var n := |order| - 1;
      var name, before := order[n], order[..n];
      assert NoneRefused(lax, os, environ, order)
             <==> NoneRefused(lax, os, environ, before) && (Differs(os, environ, name) ==> lax || name != "") by {
        assert forall i :: 0 <= i < n ==> order[i] == before[i];
      }
      if Differs(os, environ, name) {
        var entry := Entry(name, environ[name]);
        EnvMakesChanges(lax, os, environ, before, [entry] + tail, env);
        OneAssignment(lax, name, environ[name], tail, env + Changes(os, environ, before));
        Regroup(Assignments(os, environ, before), [entry], tail);
        UpdateUnion(env, Changes(os, environ, before), name, environ[name]);
      } else {
        EnvMakesChanges(lax, os, environ, before, tail, env);
      }
    }
  }

  lemma {:induction false} FirstAssignment(os: Environment, environ: Environment, order: seq<string>) returns (i: int)
    requires Assignments(os, environ, order) != []
    ensures IsFirstChange(os, environ, order, i)
    ensures Assignments(os, environ, order)[0] == Entry(order[i], environ[order[i]])
  {
    var n := |order| - 1;
    if Assignments(os, environ, order[..n]) == [] {
      AssignmentsExist(os, environ, order[..n]);
      assert forall k :: 0 <= k < n ==> order[..n][k] == order[k];
      i := n;
    } else {
      i := FirstAssignment(os, environ, order[..n]);
      assert forall k :: 0 <= k < n ==> order[..n][k] == order[k];
    }
  }

  lemma {:induction false} AssignmentsExist(os: Environment, environ: Environment, order: seq<string>)
    ensures Assignments(os, environ, order) != [] <==>
            exists i :: 0 <= i < |order| && Differs(os, environ, order[i])
  {
    if order != [] {
      var n := |order| - 1;
      AssignmentsExist(os, environ, order[..n]);
      assert forall i :: 0 <= i < n ==> order[..n][i] == order[i];
      if exists i :: 0 <= i < |order| && Differs(os, environ, order[i]) {
        var i :| 0 <= i < |order| && Differs(os, environ, order[i]);
        assert i < n ==> Differs(os, environ, order[..n][i]);
      }
    }
  }

  lemma {:induction false} ChangesAre(os: Environment, environ: Environment, order: seq<string>, name: string)
    ensures name in Changes(os, environ, order) <==> name in order && Differs(os, environ, name)
    ensures name in Changes(os, environ, order) ==> Changes(os, environ, order)[name] == environ[name]
  {
    if order != [] {
      ChangesAre(os, environ, order[..|order| - 1], name);
      assert order == order[..|order| - 1] + [order[|order| - 1]];
    }
  }

  lemma {:induction false} UnsetsAre(os: Environment, order: seq<string>, name: string)
    ensures name in Unsets(os, order) <==> name in order && name in os
  {
    if order != [] {
      UnsetsAre(os, order[..|order| - 1], name);
      assert order == order[..|order| - 1] + [order[|order| - 1]];
    }
  }

  /** The environment that the prefix makes. */
  function PrefixEnv(os: Environment, environ: Environment, unsetOrder: seq<string>, setOrder: seq<string>)
    : Environment
  {
    os - Names(Unsets(os, unsetOrder)) + Changes(os, environ, setOrder)
  }

  /** No variable is unset and also set to the value that it already has. */
  ghost predicate NoneDropped(os: Environment, environ: Environment, unsetenv: set<string>) {
    forall name :: name in unsetenv && name in environ && name in os ==> environ[name] != os[name]
  }

  lemma PrefixEnvAt(os: Environment, environ: Environment, unsetenv: set<string>, unsetOrder: seq<string>,
                    setOrder: seq<string>, name: string)
    requires Enumerates(unsetOrder, unsetenv) && Enumerates(setOrder, environ.Keys)
    ensures var made := PrefixEnv(os, environ, unsetOrder, setOrder);
            var final := FinalEnv(os, environ, unsetenv);
            (name in made <==> name in final) && (name in made ==> made[name] == final[name])
            <==> !(name in unsetenv && name in environ && name in os && environ[name] == os[name])
  {
    ChangesAre(os, environ, setOrder, name);
    UnsetsAre(os, unsetOrder, name);
    var unsets := Unsets(os, unsetOrder);
    assert name in Names(unsets) <==> name in unsets;
  }

  /** The prefix makes the returned environment, exactly if no unset variable is dropped. */
  lemma PrefixMakesFinalEnv(os: Environment, environ: Environment, unsetenv: set<string>, unsetOrder: seq<string>,
                            setOrder: seq<string>)
    requires Enumerates(unsetOrder, unsetenv) && Enumerates(setOrder, environ.Keys)
    ensures PrefixEnv(os, environ, unsetOrder, setOrder) == FinalEnv(os, environ, unsetenv)
            <==> NoneDropped(os, environ, unsetenv)
  {
    var made, final := PrefixEnv(os, environ, unsetOrder, setOrder), FinalEnv(os, environ, unsetenv);
    forall name
      ensures (name in made <==> name in final) && (name in made ==> made[name] == final[name])
              <==> !(name in unsetenv && name in environ && name in os && environ[name] == os[name])
    {
      PrefixEnvAt(os, environ, unsetenv, unsetOrder, setOrder, name);
    }
    if NoneDropped(os, environ, unsetenv) {
      assert made == final;
    }
    if made == final {
      forall name | name in unsetenv && name in environ && name in os
        ensures environ[name] != os[name]
      {
        assert name in made <==> name in final;
      }
    }
  }

  predicate IsEnv(word: string) {
    word == "env"
  }

  /** What running a list of words comes to, seeing through every env(1) at its start. */
  function RunThrough(lax: bool, words: Words, env: Environment): Option<Image>
    decreases |words|
  {
    if words == [] then None
    else if IsEnv(words[0]) then
      EnvOptionsShorter(lax, words[1..], env);
      var next := EnvOptions(lax, words[1..], env);
      if next.Some? then RunThrough(lax, next.value.argv, next.value.env) else None
    else Some(Image(words, env))
  }

  lemma {:induction false} RunThroughShorter(lax: bool, words: Words, env: Environment)
    ensures RunThrough(lax, words, env).Some? ==> |RunThrough(lax, words, env).value.argv| <= |words|
    decreases |words|
  {
    if words != [] && IsEnv(words[0]) {
      EnvOptionsShorter(lax, words[1..], env);
      var next := EnvOptions(lax, words[1..], env);
      if next.Some? {
        RunThroughShorter(lax, next.value.argv, next.value.env);
      }
    }
  }

  lemma OptionsThenAssignments(lax: bool, words: Words, env: Environment)
    requires words != [] ==> !StartsWithDash(words[0])
    ensures EnvOptions(lax, words, env) == EnvAssignments(lax, words, env)
  {
    assert StartsWithDash("-u");
  }

  lemma {:induction false} OptionsShorten(lax: bool, words: Words, env: Environment)
    requires words != [] && StartsWithDash(words[0])
    ensures EnvOptions(lax, words, env).Some? ==> |EnvOptions(lax, words, env).value.argv| < |words|
  {
    if 2 <= |words| && words[0] == "-u" && words[1] != "" && '=' !in words[1] {
      EnvOptionsShorter(lax, words[2..], env - {words[1]});
    }
  }

  /** A dash at the start of a command only matters if no assignment comes before it. */
  predicate DashIsHarmless(assignments: Words, command: Words) {
    command != [] && StartsWithDash(command[0]) ==> assignments != []
  }

  /** What env(1) makes of the assignments and a command. */
  ghost function AfterAssignments(lax: bool, os: Environment, environ: Environment, setOrder: seq<string>,
                                  command: Words, env: Environment): Option<Image>
  {
    if !NamesAreTaken(lax, os, environ, setOrder) then None
    else if DashIsHarmless(Assignments(os, environ, setOrder), command) then
      EnvAssignments(lax, command, env + Changes(os, environ, setOrder))
    else EnvOptions(lax, command, env)
  }

  lemma AssignmentsThenCommand(lax: bool, os: Environment, environ: Environment, setOrder: seq<string>, command: Words,
                               env: Environment)
    requires ValidNames(environ)
    ensures EnvOptions(lax, Assignments(os, environ, setOrder) + command, env)
            == AfterAssignments(lax, os, environ, setOrder, command, env)
  {
    var assignments := Assignments(os, environ, setOrder);
    AssignmentsExist(os, environ, setOrder);
    if assignments == [] {
      assert assignments + command == command;
      EnvMakesChanges(lax, os, environ, setOrder, command, env);
      if DashIsHarmless(assignments, command) {
        OptionsThenAssignments(lax, command, env);
      }
    } else {
      var i := FirstAssignment(os, environ, setOrder);
      OneAssignment(lax, setOrder[i], environ[setOrder[i]], command, env);
      FirstChangeDecides(lax, os, environ, setOrder, i);
      assert (assignments + command)[0] == assignments[0];
      if StartsWithDash(setOrder[i]) {
        OptionWithEquals(lax, assignments + command, env);
      } else {
        OptionsThenAssignments(lax, assignments + command, env);
        EnvMakesChanges(lax, os, environ, setOrder, command, env);
      }
    }
  }

  /** There is only one first change. */
  lemma FirstChangeDecides(lax: bool, os: Environment, environ: Environment, order: seq<string>, i: int)
    requires IsFirstChange(os, environ, order, i)
    ensures NamesAreTaken(lax, os, environ, order) <==>
            NoneRefused(lax, os, environ, order) && !StartsWithDash(order[i])
  {
    forall k | IsFirstChange(os, environ, order, k)
      ensures k == i
    {
    }
  }

  /** An option that contains `=` is not `-u`. */
  lemma OptionWithEquals(lax: bool, words: Words, env: Environment)
    requires words != [] && StartsWithDash(words[0]) && '=' in words[0]
    ensures EnvOptions(lax, words, env) == None
  {
    assert '=' !in "-u";
  }

  lemma UnsetsAreValid(os: Environment, unsetOrder: seq<string>)
    requires forall i :: 0 <= i < |unsetOrder| ==> IsVariable(unsetOrder[i])
    ensures AllCanUnset(Unsets(os, unsetOrder))
  {
    var unsets := Unsets(os, unsetOrder);
    forall i | 0 <= i < |unsets|
      ensures CanSetenv(unsets[i])
    {
      UnsetsAre(os, unsetOrder, unsets[i]);
    }
  }

  lemma PrefixWords(os: Environment, environ: Environment, unsetOrder: seq<string>, setOrder: seq<string>,
                    command: Words)
    ensures Prefix(os, environ, unsetOrder, setOrder) + command
            == ["env"] + (UnsetOptions(Unsets(os, unsetOrder)) + (Assignments(os, environ, setOrder) + command))
  {
  }

  // ---------------------------------------------------------------------------
  // The shell command and what is returned

  /** What is executed by an env(1) at the start of a list of words, or by the list itself. */
  function Exec(lax: bool, words: Words, env: Environment): Option<Image> {
    if words != [] && IsEnv(words[0]) then EnvOptions(lax, words[1..], env) else Some(Image(words, env))
  }

  /** What the one or two env(1) processes that the program puts in front finally execute. */
  function Executed(lax: bool, s: Selection, words: Words, os: Environment): Option<Image> {
    var first := Exec(lax, words, os);
    if HasInnerRuntime(s) && first.Some? then Exec(lax, first.value.argv, first.value.env) else first
  }

  /** The returned environment agrees with the runtime that the shell command sets once more. */
  ghost predicate InnerAgrees(s: Selection, finalEnv: Environment) {
    HasInnerRuntime(s) ==> SCOUT_VAR in finalEnv && finalEnv[SCOUT_VAR] == s.oldRuntime.path
  }

  lemma ExecPrefix(lax: bool, os: Environment, environ: Environment, unsetOrder: seq<string>, setOrder: seq<string>,
                   command: Words)
    requires ValidNames(environ) && forall i :: 0 <= i < |unsetOrder| ==> IsVariable(unsetOrder[i])
    ensures Exec(lax, Prefix(os, environ, unsetOrder, setOrder) + command, os)
            == AfterAssignments(lax, os, environ, setOrder, command, os - Names(Unsets(os, unsetOrder)))
  {
    var unsets, rest := Unsets(os, unsetOrder), Assignments(os, environ, setOrder) + command;
    PrefixWords(os, environ, unsetOrder, setOrder, command);
    assert (["env"] + (UnsetOptions(unsets) + rest))[1..] == UnsetOptions(unsets) + rest;
    UnsetsAreValid(os, unsetOrder);
    EnvSkipsUnsets(lax, unsets, rest, os);
    AssignmentsThenCommand(lax, os, environ, setOrder, command, os - Names(unsets));
  }

  /** With an inner env(1), its assignment comes on top. */
  lemma ExecInner(lax: bool, value: string, command: Words, env: Environment)
    requires IsVariable(SCOUT_VAR)
    ensures var words := ["env", Entry(SCOUT_VAR, value)] + command;
            && EnvAssignments(lax, words, env) == Some(Image(words, env)) && !StartsWithDash(words[0])
            && Exec(lax, words, env) == EnvAssignments(lax, command, env[SCOUT_VAR := value])
  {
    var words := ["env", Entry(SCOUT_VAR, value)] + command;
    assert words[0] == "env" && '=' !in words[0];
    assert words[1..] == [Entry(SCOUT_VAR, value)] + command;
    OneAssignment(lax, SCOUT_VAR, value, command, env);
    OptionsThenAssignments(lax, words[1..], env);
  }

  lemma SpecialNames()
    ensures IsVariable(SCOUT_VAR) && IsVariable(WRAP_GUI_VAR) && SCOUT_VAR != WRAP_GUI_VAR
  {
    assert |SCOUT_VAR| == 19 && |WRAP_GUI_VAR| == 24;
  }

  lemma InnerMakesFinalEnv(made: Environment, final: Environment, environ: Environment, os: Environment, scout: string,
                           path: string, unsetenv: set<string>)
    requires scout !in unsetenv && final == FinalEnv(os, environ, unsetenv)
    requires forall name :: (name in made <==> name in final) && (name in made ==> made[name] == final[name])
                            <==> !(name in unsetenv && name in environ && name in os && environ[name] == os[name])
    ensures made[scout := path] == final <==>
            NoneDropped(os, environ, unsetenv) && scout in final && final[scout] == path
  {
    if made[scout := path] == final {
      forall name | name in unsetenv && name in environ && name in os
        ensures environ[name] != os[name]
      {
        assert name != scout;
        assert name in made <==> name in final;
      }
      assert made[scout := path][scout] == path;
    }
    if NoneDropped(os, environ, unsetenv) && scout in final && final[scout] == path {
      assert made == final;
      assert made[scout := path] == made;
    }
  }

  lemma ShellEnvIsFinalEnv(s: Selection, os: Environment, environ: Environment, unsetOrder: seq<string>,
                           setOrder: seq<string>)
    requires Enumerates(unsetOrder, {WRAP_GUI_VAR}) && Enumerates(setOrder, environ.Keys)
    ensures var made := PrefixEnv(os, environ, unsetOrder, setOrder);
            var env := if HasInnerRuntime(s) then made[SCOUT_VAR := s.oldRuntime.path] else made;
            var finalEnv := FinalEnv(os, environ, {WRAP_GUI_VAR});
            env == finalEnv <==> NoneDropped(os, environ, {WRAP_GUI_VAR}) && InnerAgrees(s, finalEnv)
  {
    var made := PrefixEnv(os, environ, unsetOrder, setOrder);
    var finalEnv := FinalEnv(os, environ, {WRAP_GUI_VAR});
    PrefixMakesFinalEnv(os, environ, {WRAP_GUI_VAR}, unsetOrder, setOrder);
    SpecialNames();
    if HasInnerRuntime(s) {
      forall name
        ensures (name in made <==> name in finalEnv) && (name in made ==> made[name] == finalEnv[name])
                <==> !(name in {WRAP_GUI_VAR} && name in environ && name in os && environ[name] == os[name])
      {
        PrefixEnvAt(os, environ, {WRAP_GUI_VAR}, unsetOrder, setOrder, name);
      }
      InnerMakesFinalEnv(made, finalEnv, environ, os, SCOUT_VAR, s.oldRuntime.path, {WRAP_GUI_VAR});
    }
  }

  /** The shell command, as words. */
  function ShellWords(s: Selection, os: Environment, sorted: set<string> -> seq<string>): Words {
    Prefix(os, EnvironOf(s), sorted({WRAP_GUI_VAR}), sorted(EnvironOf(s).Keys)) + (Inner(s) + Argv(s))
  }

  function ReturnedEnv(s: Selection, os: Environment): Environment {
    FinalEnv(os, EnvironOf(s), {WRAP_GUI_VAR})
  }

  /** The first word is taken for a command: it is no assignment, and no option to env(1). */
  ghost predicate FirstWordIsCommand(s: Selection, os: Environment) {
    && Argv(s) != [] && '=' !in Argv(s)[0]
    && (StartsWithDash(Argv(s)[0]) ==> HasInnerRuntime(s) || exists name :: Differs(os, EnvironOf(s), name))
  }

  /** Every variable that is set gets set. */
  ghost predicate VariablesAreSet(lax: bool, s: Selection, os: Environment, sorted: set<string> -> seq<string>) {
    NamesAreTaken(lax, os, EnvironOf(s), sorted(EnvironOf(s).Keys))
  }

  ghost predicate EnvironmentsAgree(s: Selection, os: Environment) {
    NoneDropped(os, EnvironOf(s), {WRAP_GUI_VAR}) && InnerAgrees(s, ReturnedEnv(s, os))
  }

  lemma DashCondition(s: Selection, os: Environment, setOrder: seq<string>)
    requires Enumerates(setOrder, EnvironOf(s).Keys)
    ensures Assignments(os, EnvironOf(s), setOrder) + Inner(s) != [] <==>
            HasInnerRuntime(s) || exists name :: Differs(os, EnvironOf(s), name)
  {
    AssignmentsExist(os, EnvironOf(s), setOrder);
    if exists name :: Differs(os, EnvironOf(s), name) {
      var name :| Differs(os, EnvironOf(s), name);
      assert name in setOrder;
    }
  }

  lemma OrdersAreValid(s: Selection, sorted: set<string> -> seq<string>)
    requires Sorts(sorted)
    ensures Enumerates(sorted({WRAP_GUI_VAR}), {WRAP_GUI_VAR})
    ensures Enumerates(sorted(EnvironOf(s).Keys), EnvironOf(s).Keys)
    ensures forall i :: 0 <= i < |sorted({WRAP_GUI_VAR})| ==> IsVariable(sorted({WRAP_GUI_VAR})[i])
  {
    SpecialNames();
    assert Enumerates(sorted({WRAP_GUI_VAR}), {WRAP_GUI_VAR});
    assert forall i :: 0 <= i < |sorted({WRAP_GUI_VAR})| ==> sorted({WRAP_GUI_VAR})[i] in {WRAP_GUI_VAR};
  }

  /** The environment that the shell command makes for the app. */
  function ShellEnv(s: Selection, os: Environment, sorted: set<string> -> seq<string>): Environment {
    var made := PrefixEnv(os, EnvironOf(s), sorted({WRAP_GUI_VAR}), sorted(EnvironOf(s).Keys));
    if HasInnerRuntime(s) then made[SCOUT_VAR := s.oldRuntime.path] else made
  }

  /** A dash at the start of the app's words cannot be taken for an option. */
  predicate NoOption(s: Selection, os: Environment, sorted: set<string> -> seq<string>) {
    DashIsHarmless(Assignments(os, EnvironOf(s), sorted(EnvironOf(s).Keys)) + Inner(s), Argv(s))
  }

  lemma ExecutedShell(lax: bool, s: Selection, os: Environment, sorted: set<string> -> seq<string>)
    requires Sorts(sorted) && ValidNames(EnvironOf(s))
    ensures var executed := Executed(lax, s, ShellWords(s, os, sorted), os);
            if !VariablesAreSet(lax, s, os, sorted) then executed == None
            else if NoOption(s, os, sorted) then executed == EnvAssignments(lax, Argv(s), ShellEnv(s, os, sorted))
            else exists env :: executed == EnvOptions(lax, Argv(s), env)
    ensures RunThrough(lax, ShellWords(s, os, sorted), os)
            == match Executed(lax, s, ShellWords(s, os, sorted), os)
               case None => None
               case Some(image) => RunThrough(lax, image.argv, image.env)
  {
    var environ, unsetOrder, setOrder := EnvironOf(s), sorted({WRAP_GUI_VAR}), sorted(EnvironOf(s).Keys);
    var command, words := Inner(s) + Argv(s), ShellWords(s, os, sorted);
    var made := PrefixEnv(os, environ, unsetOrder, setOrder);
    SpecialNames();
    OrdersAreValid(s, sorted);
    ExecPrefix(lax, os, environ, unsetOrder, setOrder, command);
    assert words[0] == "env";
    if HasInnerRuntime(s) {
      ExecInner(lax, s.oldRuntime.path, Argv(s), made);
      assert command == ["env", Entry(SCOUT_VAR, s.oldRuntime.path)] + Argv(s);
    } else {
      assert command == Argv(s);
      assert Assignments(os, environ, setOrder) + Inner(s) == Assignments(os, environ, setOrder);
    }
  }

  /** A command is executed as it is, exactly if its first word is not an assignment. */
  lemma ExecutesCommand(lax: bool, command: Words, env: Environment, final: Environment)
    ensures EnvAssignments(lax, command, env) == Some(Image(command, final))
            <==> command != [] && '=' !in command[0] && env == final
  {
    if command != [] && '=' in command[0] && (lax || Name(command[0]) != "") && HasName(command[0]) {
      EnvAssignmentsShorter(lax, command[1..], env[Name(command[0]) := Value(command[0])]);
    }
  }

  /** The shell command and what is returned mean the same. */
  ghost predicate ShellAgrees(lax: bool, s: Selection, os: Environment, sorted: set<string> -> seq<string>) {
    FirstWordIsCommand(s, os) && VariablesAreSet(lax, s, os, sorted) && EnvironmentsAgree(s, os)
  }

  /**
    The shell command finally executes exactly the returned arguments in the returned
    environment, if and only if the first word is taken for a command, every variable gets set,
    no variable is both unset and set to the value that it had, and the inner runtime agrees
    with the returned environment.
   */
  lemma ShellMatchesReturned(lax: bool, s: Selection, os: Environment, sorted: set<string> -> seq<string>)
    requires Sorts(sorted) && ValidNames(EnvironOf(s))
    ensures Executed(lax, s, ShellWords(s, os, sorted), os) == Some(Image(Argv(s), ReturnedEnv(s, os)))
            <==> ShellAgrees(lax, s, os, sorted)
  {
    var setOrder := sorted(EnvironOf(s).Keys);
    OrdersAreValid(s, sorted);
    ExecutedShell(lax, s, os, sorted);
    DashCondition(s, os, setOrder);
    ShellEnvIsFinalEnv(s, os, EnvironOf(s), sorted({WRAP_GUI_VAR}), setOrder);
    ExecutesCommand(lax, Argv(s), ShellEnv(s, os, sorted), ReturnedEnv(s, os));
    if VariablesAreSet(lax, s, os, sorted) && !NoOption(s, os, sorted) {
      var env :| Executed(lax, s, ShellWords(s, os, sorted), os) == EnvOptions(lax, Argv(s), env);
      OptionsShorten(lax, Argv(s), env);
    }
  }

  /**
    Then it also does the same as the returned arguments in the returned environment, if one
    sees through an `env` that the arguments start with themselves.
   */
  lemma ShellRunsReturned(lax: bool, s: Selection, os: Environment, sorted: set<string> -> seq<string>)
    requires Sorts(sorted) && ValidNames(EnvironOf(s))
    requires ShellAgrees(lax, s, os, sorted)
    ensures RunThrough(lax, ShellWords(s, os, sorted), os) == RunThrough(lax, Argv(s), ReturnedEnv(s, os))
  {
    ShellMatchesReturned(lax, s, os, sorted);
    ExecutedShell(lax, s, os, sorted);
  }

  /** For a first word other than `env`, nothing else that it could come to is the same. */
  lemma ShellRunsReturnedIff(lax: bool, s: Selection, os: Environment, sorted: set<string> -> seq<string>)
    requires Sorts(sorted) && ValidNames(EnvironOf(s))
    requires Argv(s) != [] ==> !IsEnv(Argv(s)[0])
    ensures RunThrough(lax, ShellWords(s, os, sorted), os) == Some(Image(Argv(s), ReturnedEnv(s, os)))
            <==> ShellAgrees(lax, s, os, sorted)
  {
    var executed := Executed(lax, s, ShellWords(s, os, sorted), os);
    ShellMatchesReturned(lax, s, os, sorted);
    ExecutedShell(lax, s, os, sorted);
    if executed.Some? {
      ExecutedIsShorter(lax, s, os, sorted);
      RunThroughShorter(lax, executed.value.argv, executed.value.env);
    }
  }

  /** Whatever is executed is the command or part of it. */
  lemma ExecutedIsShorter(lax: bool, s: Selection, os: Environment, sorted: set<string> -> seq<string>)
    requires Sorts(sorted) && ValidNames(EnvironOf(s))
    requires Executed(lax, s, ShellWords(s, os, sorted), os).Some?
    ensures var image := Executed(lax, s, ShellWords(s, os, sorted), os).value;
            || |image.argv| < |Argv(s)|
            || (image.argv == Argv(s) && image.env == ShellEnv(s, os, sorted))
  {
    ExecutedShell(lax, s, os, sorted);
    if NoOption(s, os, sorted) {
      AssignmentsConsume(lax, Argv(s), ShellEnv(s, os, sorted));
    } else {
      var env :| Executed(lax, s, ShellWords(s, os, sorted), os) == EnvOptions(lax, Argv(s), env);
      OptionsShorten(lax, Argv(s), env);
    }
  }

  lemma AssignmentsConsume(lax: bool, command: Words, env: Environment)
    ensures EnvAssignments(lax, command, env).Some? ==>
              || |EnvAssignments(lax, command, env).value.argv| < |command|
              || EnvAssignments(lax, command, env).value == Image(command, env)
  {
    if command != [] && '=' in command[0] && (lax || Name(command[0]) != "") && HasName(command[0]) {
      EnvAssignmentsShorter(lax, command[1..], env[Name(command[0]) := Value(command[0])]);
    }
  }

  // ---------------------------------------------------------------------------
  // Inputs for which they differ

  /** Nothing is selected but an app and one variable from `--steam-runtime-env`. */
  function PlainSelection(app: Words, vars: map<string, string>): Selection {
    var nowhere := PressureVessel("", "", "");
    Selection(Default, [], None, [], [], app, nowhere, None, [], None, None, None, false, None, None, vars)
  }

  lemma PlainSelectionParts(app: Words, vars: map<string, string>)
    ensures var s := PlainSelection(app, vars);
            EnvironOf(s) == vars && Argv(s) == app && Inner(s) == [] && !HasInnerRuntime(s)
  {
    var s := PlainSelection(app, vars);
    assert Components(s) == [];
    assert [] + [] + app == app;
    assert map[] + vars == vars;
  }

  lemma EnumeratesOne(order: seq<string>, name: string)
    requires Enumerates(order, {name})
    ensures order == [name]
  {
    assert name in order;
    assert forall i :: 0 <= i < |order| ==> order[i] == name;
    assert order[0] == order[|order| - 1];
  }

  lemma RunPlain(lax: bool, app: string, vars: map<string, string>, os: Environment, sorted: set<string> -> seq<string>)
    requires Sorts(sorted) && ValidNames(vars) && '=' !in app && !StartsWithDash(app)
    requires NamesAreTaken(lax, os, vars, sorted(vars.Keys))
    ensures Executed(lax, PlainSelection([app], vars), ShellWords(PlainSelection([app], vars), os, sorted), os)
            == Some(Image([app], PrefixEnv(os, vars, sorted({WRAP_GUI_VAR}), sorted(vars.Keys))))
  {
    PlainSelectionParts([app], vars);
    ExecutedShell(lax, PlainSelection([app], vars), os, sorted);
  }

  /**
    A variable that is unset by default, and given with the value that it already has, is there
    in the returned environment but not when the shell command runs.
   */
  lemma UnsetWins(lax: bool, app: string, value: string, sorted: set<string> -> seq<string>)
    requires Sorts(sorted) && '=' !in app && !StartsWithDash(app)
    ensures var os := map[WRAP_GUI_VAR := value];
            var s := PlainSelection([app], os);
            && ReturnedEnv(s, os) == os
            && Executed(lax, s, ShellWords(s, os, sorted), os) == Some(Image([app], map[]))
  {
    var os := map[WRAP_GUI_VAR := value];
    var s := PlainSelection([app], os);
    PlainSelectionParts([app], os);
    SpecialNames();
    OrdersAreValid(s, sorted);
    assert os.Keys == {WRAP_GUI_VAR};
    EnumeratesOne(sorted({WRAP_GUI_VAR}), WRAP_GUI_VAR);
    UnsetPrefix(os, value);
    RunPlain(lax, app, os, os, sorted);
    assert os - {WRAP_GUI_VAR} == map[];
  }

  lemma UnsetPrefix(os: Environment, value: string)
    requires os == map[WRAP_GUI_VAR := value]
    ensures PrefixEnv(os, os, [WRAP_GUI_VAR], [WRAP_GUI_VAR]) == map[]
  {
    assert [WRAP_GUI_VAR][..0] == [];
    assert Unsets(os, [WRAP_GUI_VAR]) == [WRAP_GUI_VAR];
    assert Names([WRAP_GUI_VAR]) == {WRAP_GUI_VAR};
    assert Changes(os, os, [WRAP_GUI_VAR]) == map[];
    assert os - {WRAP_GUI_VAR} == map[];
  }

  /** An app called `-x` with nothing set is taken for an option to env(1). */
  lemma DashIsTakenForOption(lax: bool, os: Environment, sorted: set<string> -> seq<string>)
    requires Sorts(sorted)
    ensures var s := PlainSelection(["-x"], map[]);
            && VariablesAreSet(lax, s, os, sorted) && EnvironmentsAgree(s, os)
            && Executed(lax, s, ShellWords(s, os, sorted), os) != Some(Image(Argv(s), ReturnedEnv(s, os)))
  {
    var s := PlainSelection(["-x"], map[]);
    PlainSelectionParts(["-x"], map[]);
    OrdersAreValid(s, sorted);
    assert StartsWithDash("-x");
    ShellMatchesReturned(lax, s, os, sorted);
  }

  /** `--steam-runtime-env=-u=A`: what is to be a variable is taken for an option to env(1). */
  lemma VariableIsTakenForOption(lax: bool, os: Environment, sorted: set<string> -> seq<string>)
    requires Sorts(sorted) && !("-u" in os && os["-u"] == "A")
    ensures var s := PlainSelection(["x"], map["-u" := "A"]);
            && FirstWordIsCommand(s, os) && EnvironmentsAgree(s, os)
            && Executed(lax, s, ShellWords(s, os, sorted), os) == None
  {
    var vars := map["-u" := "A"];
    var s := PlainSelection(["x"], vars);
    PlainSelectionParts(["x"], vars);
    OrdersAreValid(s, sorted);
    assert vars.Keys == {"-u"};
    EnumeratesOne(sorted({"-u"}), "-u");
    assert |WRAP_GUI_VAR| == 24 && |"-u"| == 2 && '=' !in "-u" && StartsWithDash("-u");
    assert IsFirstChange(os, vars, ["-u"], 0);
    ExecutedShell(lax, s, os, sorted);
  }

  /** `--steam-runtime-env==A`: an empty name depends on which env(1) it is. */
  lemma EmptyVariable(lax: bool, os: Environment, sorted: set<string> -> seq<string>)
    requires Sorts(sorted) && !("" in os && os[""] == "A")
    ensures var s := PlainSelection(["x"], map["" := "A"]);
            && FirstWordIsCommand(s, os) && EnvironmentsAgree(s, os)
            && (Executed(lax, s, ShellWords(s, os, sorted), os) == Some(Image(Argv(s), ReturnedEnv(s, os))) <==> lax)
  {
    var vars := map["" := "A"];
    var s := PlainSelection(["x"], vars);
    PlainSelectionParts(["x"], vars);
    OrdersAreValid(s, sorted);
    assert vars.Keys == {""};
    EnumeratesOne(sorted({""}), "");
    assert |WRAP_GUI_VAR| == 24 && |""| == 0 && |"x"| == 1 && "x"[0] == 'x';
    assert Differs(os, vars, [""][0]);
    ShellMatchesReturned(lax, s, os, sorted);
  }

  // ---------------------------------------------------------------------------
  // Where the inner runtime can be overridden

  ghost predicate NoScoutOption(vars: seq<(string, Option<string>)>) {
    forall i :: 0 <= i < |vars| ==> vars[i].0 != SCOUT_VAR
  }

  /** Two environments give a variable the same value, or neither has it. */
  predicate SameAt(a: Environment, b: Environment, name: string) {
    (name in a <==> name in b) && (name in a ==> a[name] == b[name])
  }

  lemma {:induction false} OptionsKeep(environ: Environment, vars: seq<(string, Option<string>)>)
    requires NoScoutOption(vars)
    ensures SameAt(WithOptions(environ, vars), environ, SCOUT_VAR)
  {
    if vars != [] {
      OptionsKeep(environ, vars[..|vars| - 1]);
    }
  }

  lemma {:induction false} ComponentsKeep(s: Selection, components: seq<Component>, environ: Environment)
    requires NoScoutOption(s.containerVars)
    ensures SameAt(ComponentEnviron(s, components, environ), environ, SCOUT_VAR)
  {
    if components != [] {
      var before := ComponentEnviron(s, components[..|components| - 1], environ);
      ComponentsKeep(s, components[..|components| - 1], environ);
      match components[|components| - 1]
      case Other(_) =>
      case ContainerRuntime(container) =>
        assert |SCOUT_VAR| == 19 && |PREFIX_VAR| == 22;
        OptionsKeep(if container.Depot? then before[PREFIX_VAR := s.pressureVessel.path] else before, s.containerVars);
    }
  }

  lemma LateSettingsKeep(s: Selection, environ: Environment, name: string)
    requires |name| == 19
    ensures SameAt(LateEnviron(s, environ), environ, name)
  {
  }

  /**
    The inner runtime is the one in the returned environment, exactly if the caller did not ask
    for a different one.
   */
  lemma InnerAgreesIff(s: Selection, os: Environment)
    requires NoScoutOption(s.containerVars)
    ensures InnerAgrees(s, ReturnedEnv(s, os)) <==>
            (HasInnerRuntime(s) && SCOUT_VAR in s.steamRuntimeEnv ==>
               s.steamRuntimeEnv[SCOUT_VAR] == s.oldRuntime.path)
  {
    var early := EarlyEnviron(s);
    var middle := ComponentEnviron(s, Components(s), early);
    ComponentsKeep(s, Components(s), early);
    assert |SCOUT_VAR| == 19;
    LateSettingsKeep(s, middle, SCOUT_VAR);
    if HasInnerRuntime(s) {
      assert SCOUT_VAR in early;
    }
  }
}
