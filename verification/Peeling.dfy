/**
  Taking a launch command apart: launch adverbs, container runtimes, a layered runtime and
  Proton are peeled off the front, and what is left is the app.
 */
module Peeling {
  import opened Wrappers
  import opened Splitting

  type Words = seq<string>

  predicate IsSeparator(word: string) {
    word == "--"
  }

  /** A container runtime, and how its entry points are recognized. */
  datatype RuntimeRule = RuntimeRule(name: string, isEntryPoint: string -> bool)

  /** How the first words of a command are recognized. Everything below holds for any rules. */
  datatype Rules = Rules(
    isAdverb: string -> bool,
    runtimes: seq<RuntimeRule>,
    isLayered: string -> bool,
    isProton: string -> bool,
    isVerb: string -> bool)

  /** `str.endswith` with several suffixes */
  predicate EndsWithAny(word: string, suffixes: seq<string>) {
    exists i :: 0 <= i < |suffixes| && HasSuffix(word, suffixes[i])
  }

  function EntryPoints(name: string): seq<string> {
    ["/SteamLinuxRuntime_" + name + "/run", "/SteamLinuxRuntime_" + name + "/run-in-" + name,
     "/SteamLinuxRuntime_" + name + "/_v2-entry-point"]
  }

  function ProgramRuntime(name: string): RuntimeRule {
    RuntimeRule(name, word => EndsWithAny(word, EntryPoints(name)))
  }

  function AdverbSuffixes(): seq<string> {
    ["ubuntu12_32/reaper", "ubuntu12_32/steam-launch-wrapper"]
  }

  function ProgramRules(): Rules {
    Rules(word => EndsWithAny(word, AdverbSuffixes()),
          [ProgramRuntime("scout"), ProgramRuntime("soldier"), ProgramRuntime("sniper"), ProgramRuntime("steamrt4"),
           ProgramRuntime("steamrt5")],
          word => HasSuffix(word, "/scout-on-soldier-entry-point-v2"),
          word => HasSuffix(word, "/proton"),
          word => word == "run" || word == "waitforexitandrun")
  }

  // ---------------------------------------------------------------------------
  // One prefix

  /** Whether there is a separator with something after it. */
  predicate CanPeel(command: Words) {
    |command| > 2 && exists k :: 0 <= k < |command| - 1 && IsSeparator(command[k])
  }

  datatype Cut = Cut(prefix: Words, rest: Words)

  /** The words up to and including the first separator, or all of them. */
  function PeelPrefix(command: Words): (cut: Cut)
    ensures |cut.prefix| + |cut.rest| == |command|
    ensures command != [] ==> |cut.prefix| > 0
  {
    if command == [] then Cut([], [])
    else if IsSeparator(command[0]) then Cut([command[0]], command[1..])
    else
      var later := PeelPrefix(command[1..]);
      Cut([command[0]] + later.prefix, later.rest)
  }

  lemma {:induction false} PrefixAndRest(command: Words)
    ensures PeelPrefix(command).prefix + PeelPrefix(command).rest == command
  {
    if command != [] && !IsSeparator(command[0]) {
      PrefixAndRest(command[1..]);
    }
  }

  lemma {:induction false} RestIsNotEmpty(command: Words)
    requires exists k :: 0 <= k < |command| - 1 && IsSeparator(command[k])
    ensures PeelPrefix(command).rest != []
  {
    if !IsSeparator(command[0]) {
      var k :| 0 <= k < |command| - 1 && IsSeparator(command[k]);
      assert IsSeparator(command[1..][k - 1]);
      RestIsNotEmpty(command[1..]);
    }
  }

  /** Cut behind the first separator, or at the end if there is none. */
  ghost predicate IsCut(command: Words, prefix: Words, rest: Words) {
    && prefix + rest == command
    && (forall k :: 0 <= k < |prefix| - 1 ==> prefix[k] != "--")
    && if "--" in command then prefix != [] && prefix[|prefix| - 1] == "--" else rest == []
  }

  lemma {:induction false} PrefixEndsAtSeparator(command: Words)
    ensures IsCut(command, PeelPrefix(command).prefix, PeelPrefix(command).rest)
  {
    PrefixAndRest(command);
    if command != [] && !IsSeparator(command[0]) {
      PrefixEndsAtSeparator(command[1..]);
      var later := PeelPrefix(command[1..]).prefix;
      assert command == [command[0]] + command[1..];
      assert forall k :: 0 < k < 1 + |later| ==> ([command[0]] + later)[k] == later[k - 1];
    }
  }

  method TakePrefix(command: Words) returns (prefix: Words, rest: Words)
    ensures Cut(prefix, rest) == PeelPrefix(command) && IsCut(command, prefix, rest)
  {
    prefix, rest := [], command;
    while |rest| > 0
      invariant PeelPrefix(command) == Cut(prefix + PeelPrefix(rest).prefix, PeelPrefix(rest).rest)
      decreases |rest|
    {
      var word := rest[0];
      assert prefix + ([word] + PeelPrefix(rest[1..]).prefix) == prefix + [word] + PeelPrefix(rest[1..]).prefix;
      prefix := prefix + [word];
      rest := rest[1..];
      if IsSeparator(word) {
        break;
      }
    }
    assert prefix + [] == prefix;
    assert Cut(prefix, rest) == PeelPrefix(command);
    PrefixEndsAtSeparator(command);
  }

  // ---------------------------------------------------------------------------
  // All prefixes

  function Adverbs(rules: Rules, command: Words): seq<Words>
    decreases |command|
  {
    if CanPeel(command) && rules.isAdverb(command[0]) then
      [PeelPrefix(command).prefix] + Adverbs(rules, PeelPrefix(command).rest)
    else []
  }

  function AfterAdverbs(rules: Rules, command: Words): Words
    decreases |command|
  {
    if CanPeel(command) && rules.isAdverb(command[0]) then AfterAdverbs(rules, PeelPrefix(command).rest) else command
  }

  datatype Runtime = Runtime(name: string, argv: Words)

  /** Each runtime's entry point is looked for once, in the order of the rules. */
  function Containers(rules: seq<RuntimeRule>, command: Words): seq<Runtime> {
    if rules == [] then []
    else if CanPeel(command) && rules[0].isEntryPoint(command[0]) then
      [Runtime(rules[0].name, PeelPrefix(command).prefix)] + Containers(rules[1..], PeelPrefix(command).rest)
    else Containers(rules[1..], command)
  }

  function AfterContainers(rules: seq<RuntimeRule>, command: Words): Words {
    if rules == [] then command
    else if CanPeel(command) && rules[0].isEntryPoint(command[0]) then
      AfterContainers(rules[1..], PeelPrefix(command).rest)
    else AfterContainers(rules[1..], command)
  }

  function PeelLayered(rules: Rules, command: Words): Cut {
    if CanPeel(command) && rules.isLayered(command[0]) then PeelPrefix(command) else Cut([], command)
  }

  function PeelProton(rules: Rules, command: Words): Cut {
    if |command| > 2 && rules.isProton(command[0]) && rules.isVerb(command[1]) then
      var n := if IsSeparator(command[2]) then 3 else 2;
      Cut(command[..n], command[n..])
    else Cut([], command)
  }

  function BeforeLayered(rules: Rules, command: Words): Words {
    AfterContainers(rules.runtimes, AfterAdverbs(rules, command))
  }

  function BeforeProton(rules: Rules, command: Words): Words {
    PeelLayered(rules, BeforeLayered(rules, command)).rest
  }

  /** Everything that is peeled; an empty list of words means there is no such component. */
  datatype Peeled = Peeled(adverbs: seq<Words>, containers: seq<Runtime>, layered: Words, proton: Words, app: Words)

  function Peel(rules: Rules, command: Words): Peeled {
    Peeled(Adverbs(rules, command), Containers(rules.runtimes, AfterAdverbs(rules, command)),
           PeelLayered(rules, BeforeLayered(rules, command)).prefix,
           PeelProton(rules, BeforeProton(rules, command)).prefix,
           PeelProton(rules, BeforeProton(rules, command)).rest)
  }

  // ---------------------------------------------------------------------------
  // The code

  datatype Compat = Auto | Target(name: string)

  const SCOUT := "scout"
  const WINDOWS := "windows"

  function LastName(runsOn: Compat, containers: seq<Runtime>): Compat {
    if containers == [] then runsOn else Target(containers[|containers| - 1].name)
  }

  /** What the app is taken to run on: the last component that was detected decides. */
  function RunsOn(compatibleWith: Compat, p: Peeled): Compat {
    if compatibleWith != Auto then compatibleWith
    else if p.proton != [] then Target(WINDOWS)
    else if p.layered != [] then Target(SCOUT)
    else if p.containers != [] then LastName(Auto, p.containers)
    else Target(SCOUT)
  }

  class Gui {
    var launchAdverbs: seq<Words>
    var defaultContainerRuntime: Option<Runtime>
    var defaultLayeredRuntime: Words
    var defaultProton: Words
    var runsOn: Compat
    var app: Words

    constructor ()
      ensures launchAdverbs == [] && defaultContainerRuntime == None && defaultLayeredRuntime == []
      ensures defaultProton == [] && app == []
    {
      launchAdverbs, defaultContainerRuntime, defaultLayeredRuntime, defaultProton, app := [], None, [], [], [];
      runsOn := Auto;
    }

    /** The command line after option parsing; of several container runtimes only the last is kept. */
    method ParseCommand(rules: Rules, command: Words, compatibleWith: Compat)
      requires command != []
      requires launchAdverbs == [] && defaultContainerRuntime == None
      requires defaultLayeredRuntime == [] && defaultProton == []
      modifies this
      ensures var p := Peel(rules, command);
              && launchAdverbs == p.adverbs
              && defaultContainerRuntime == LastOf(p.containers)
              && defaultLayeredRuntime == p.layered && defaultProton == p.proton && app == p.app
              && runsOn == RunsOn(compatibleWith, p)
              && (compatibleWith == Auto ==>
                    runsOn == if p.proton != [] then Target("windows")
                              else if p.layered != [] || p.containers == [] then Target("scout")
                              else Target(p.containers[|p.containers| - 1].name))
    {
      runsOn := compatibleWith;
      var rest := ParseAdverbs(rules, command);
      rest := ParseContainers(rules, rest, compatibleWith);
      rest := ParseLayered(rules, rest, compatibleWith);
      rest := ParseProton(rules, rest, compatibleWith);
      if runsOn == Auto {
        runsOn := Target(SCOUT);
      }
      app := rest;
    }

    method ParseLayered(rules: Rules, command: Words, compatibleWith: Compat) returns (rest: Words)
      requires defaultLayeredRuntime == []
      modifies this`defaultLayeredRuntime, this`runsOn
      ensures Cut(defaultLayeredRuntime, rest) == PeelLayered(rules, command)
      ensures runsOn == if compatibleWith == Auto && defaultLayeredRuntime != [] then Target(SCOUT) else old(runsOn)
    {
      rest := command;
      if CanPeel(rest) && rules.isLayered(rest[0]) {
        if compatibleWith == Auto {
          runsOn := Target(SCOUT);
        }
        defaultLayeredRuntime, rest := TakePrefix(rest);
      }
    }

    method ParseProton(rules: Rules, command: Words, compatibleWith: Compat) returns (rest: Words)
      requires defaultProton == []
      modifies this`defaultProton, this`runsOn
      ensures Cut(defaultProton, rest) == PeelProton(rules, command)
      ensures runsOn == if compatibleWith == Auto && defaultProton != [] then Target(WINDOWS) else old(runsOn)
    {
      rest := command;
      if |rest| > 2 && rules.isProton(rest[0]) && rules.isVerb(rest[1]) {
        if compatibleWith == Auto {
          runsOn := Target(WINDOWS);
        }
        var args := rest[..2];
        rest := rest[2..];
        if IsSeparator(rest[0]) {
          args := args + [rest[0]];
          rest := rest[1..];
          assert args == command[..3] && rest == command[3..];
        }
        defaultProton := args;
      }
    }

    method ParseAdverbs(rules: Rules, command: Words) returns (rest: Words)
      modifies this`launchAdverbs
      ensures launchAdverbs == old(launchAdverbs) + Adverbs(rules, command)
      ensures rest == AfterAdverbs(rules, command)
    {
      rest := command;
      while CanPeel(rest) && rules.isAdverb(rest[0])
        invariant launchAdverbs + Adverbs(rules, rest) == old(launchAdverbs) + Adverbs(rules, command)
        invariant AfterAdverbs(rules, rest) == AfterAdverbs(rules, command)
        decreases |rest|
      {
        ghost var later := Adverbs(rules, PeelPrefix(rest).rest);
        var adverb: Words;
        adverb, rest := TakePrefix(rest);
        assert launchAdverbs + ([adverb] + later) == launchAdverbs + [adverb] + later;
        launchAdverbs := launchAdverbs + [adverb];
      }
      assert launchAdverbs + [] == launchAdverbs;
    }

    method ParseContainers(rules: Rules, command: Words, compatibleWith: Compat) returns (rest: Words)
      requires defaultContainerRuntime == None
      modifies this`defaultContainerRuntime, this`runsOn
      ensures defaultContainerRuntime == LastOf(Containers(rules.runtimes, command))
      ensures runsOn == if compatibleWith == Auto then LastName(old(runsOn), Containers(rules.runtimes, command))
                        else old(runsOn)
      ensures rest == AfterContainers(rules.runtimes, command)
    {
      rest := command;
      ghost var found: seq<Runtime> := [];
      assert rules.runtimes[0..] == rules.runtimes;
      assert [] + Containers(rules.runtimes, command) == Containers(rules.runtimes, command);
      for i := 0 to |rules.runtimes|
        invariant Containers(rules.runtimes, command) == found + Containers(rules.runtimes[i..], rest)
        invariant AfterContainers(rules.runtimes, command) == AfterContainers(rules.runtimes[i..], rest)
        invariant defaultContainerRuntime == LastOf(found)
        invariant runsOn == if compatibleWith == Auto then LastName(old(runsOn), found) else old(runsOn)
      {
        var target := rules.runtimes[i];
        ghost var later := rules.runtimes[i + 1..];
        assert rules.runtimes[i..][1..] == later;
        if CanPeel(rest) && target.isEntryPoint(rest[0]) {
          if compatibleWith == Auto {
            runsOn := Target(target.name);
          }
          var args: Words;
          args, rest := TakePrefix(rest);
          defaultContainerRuntime := Some(Runtime(target.name, args));
          ghost var runtime := Runtime(target.name, args);
          assert found + ([runtime] + Containers(later, rest)) == found + [runtime] + Containers(later, rest);
          found := found + [runtime];
        }
      }
      assert rules.runtimes[|rules.runtimes|..] == [];
      assert found + [] == found;
    }
  }

  function LastOf(containers: seq<Runtime>): Option<Runtime> {
    if containers == [] then None else Some(containers[|containers| - 1])
  }

  // ---------------------------------------------------------------------------
  // Nothing is lost

  function Concat(parts: seq<Words>): Words {
    if parts == [] then [] else parts[0] + Concat(parts[1..])
  }

  function ConcatRuntimes(containers: seq<Runtime>): Words {
    if containers == [] then [] else containers[0].argv + ConcatRuntimes(containers[1..])
  }

  lemma {:induction false} AdverbsKeepWords(rules: Rules, command: Words)
    ensures Concat(Adverbs(rules, command)) + AfterAdverbs(rules, command) == command
    ensures command != [] ==> AfterAdverbs(rules, command) != []
    decreases |command|
  {
    if CanPeel(command) && rules.isAdverb(command[0]) {
      var cut := PeelPrefix(command);
      PrefixAndRest(command);
      RestIsNotEmpty(command);
      AdverbsKeepWords(rules, cut.rest);
      assert Adverbs(rules, command)[1..] == Adverbs(rules, cut.rest);
      Regroup(cut.prefix, Concat(Adverbs(rules, cut.rest)), AfterAdverbs(rules, cut.rest));
    } else {
      assert [] + command == command;
    }
  }

  lemma {:induction false} ContainersKeepWords(rules: seq<RuntimeRule>, command: Words)
    ensures ConcatRuntimes(Containers(rules, command)) + AfterContainers(rules, command) == command
    ensures command != [] ==> AfterContainers(rules, command) != []
  {
    if rules == [] {
      assert [] + command == command;
    } else if CanPeel(command) && rules[0].isEntryPoint(command[0]) {
      var cut := PeelPrefix(command);
      PrefixAndRest(command);
      RestIsNotEmpty(command);
      ContainersKeepWords(rules[1..], cut.rest);
      assert Containers(rules, command)[1..] == Containers(rules[1..], cut.rest);
      Regroup(cut.prefix, ConcatRuntimes(Containers(rules[1..], cut.rest)), AfterContainers(rules[1..], cut.rest));
    } else {
      ContainersKeepWords(rules[1..], command);
    }
  }

  lemma LayeredKeepsWords(rules: Rules, command: Words)
    ensures PeelLayered(rules, command).prefix + PeelLayered(rules, command).rest == command
    ensures command != [] ==> PeelLayered(rules, command).rest != []
  {
    if CanPeel(command) && rules.isLayered(command[0]) {
      PrefixAndRest(command);
      RestIsNotEmpty(command);
    }
  }

  lemma ProtonKeepsWords(rules: Rules, command: Words)
    ensures PeelProton(rules, command).prefix + PeelProton(rules, command).rest == command
  {
  }

  // ---------------------------------------------------------------------------
  // What is peeled, and that nothing more could be

  /** A component can be cut off the front: a separator has something behind it. */
  predicate IsPeelable(command: Words) {
    |command| > 2 && "--" in command[..|command| - 1]
  }

  lemma PeelableIff(command: Words)
    ensures CanPeel(command) <==> IsPeelable(command)
  {
    if CanPeel(command) {
      var k :| 0 <= k < |command| - 1 && IsSeparator(command[k]);
      assert command[..|command| - 1][k] == "--";
    }
    if IsPeelable(command) {
      var k :| 0 <= k < |command| - 1 && command[..|command| - 1][k] == "--";
      assert IsSeparator(command[k]);
    }
  }

  /** Each adverb starts with an adverb's word, ends at its separator and has something behind it. */
  ghost predicate AreAdverbs(rules: Rules, adverbs: seq<Words>, rest: Words)
    decreases adverbs
  {
    adverbs != [] ==>
      var behind := Concat(adverbs[1..]) + rest;
      && IsPeelable(adverbs[0] + behind) && IsCut(adverbs[0] + behind, adverbs[0], behind)
      && rules.isAdverb((adverbs[0] + behind)[0]) && AreAdverbs(rules, adverbs[1..], rest)
  }

  /** All adverbs at the start are peeled, until a word that is none or has no separator to go with it. */
  lemma {:induction false} AdverbsAreAll(rules: Rules, command: Words)
    ensures AreAdverbs(rules, Adverbs(rules, command), AfterAdverbs(rules, command))
    ensures var rest := AfterAdverbs(rules, command); !(IsPeelable(rest) && rules.isAdverb(rest[0]))
    decreases |command|
  {
    PeelableIff(command);
    if CanPeel(command) && rules.isAdverb(command[0]) {
      var cut := PeelPrefix(command);
      AdverbsAreAll(rules, cut.rest);
      AdverbsKeepWords(rules, cut.rest);
      PrefixEndsAtSeparator(command);
      assert Adverbs(rules, command)[1..] == Adverbs(rules, cut.rest);
    }
  }

  /** The first rule that recognizes the first word takes a container runtime off, and is not used again. */
  lemma {:induction false} FirstRuleTakes(rules: seq<RuntimeRule>, command: Words, i: nat)
    requires i < |rules| && IsPeelable(command) && rules[i].isEntryPoint(command[0])
    requires forall k :: 0 <= k < i ==> !rules[k].isEntryPoint(command[0])
    ensures var containers := Containers(rules, command);
            && containers != [] && containers[0].name == rules[i].name && |containers[0].argv| <= |command|
            && IsCut(command, containers[0].argv, command[|containers[0].argv|..])
            && containers[1..] == Containers(rules[i + 1..], command[|containers[0].argv|..])
            && AfterContainers(rules, command)
               == AfterContainers(rules[i + 1..], command[|containers[0].argv|..])
  {
    PeelableIff(command);
    PrefixEndsAtSeparator(command);
    if i == 0 {
      var cut := PeelPrefix(command);
      assert command[|cut.prefix|..] == cut.rest;
    } else {
      FirstRuleTakes(rules[1..], command, i - 1);
      assert rules[1..][i..] == rules[i + 1..];
    }
  }

  /** If no rule does, or nothing can be cut off, nothing is taken. */
  lemma {:induction false} NoRuleTakes(rules: seq<RuntimeRule>, command: Words)
    requires IsPeelable(command) ==> forall k :: 0 <= k < |rules| ==> !rules[k].isEntryPoint(command[0])
    ensures Containers(rules, command) == [] && AfterContainers(rules, command) == command
  {
    PeelableIff(command);
    if rules != [] {
      NoRuleTakes(rules[1..], command);
    }
  }

  /** A layered runtime is peeled exactly if it is recognized and can be cut off. */
  lemma LayeredIff(rules: Rules, command: Words)
    ensures var cut := PeelLayered(rules, command);
            if IsPeelable(command) && rules.isLayered(command[0]) then IsCut(command, cut.prefix, cut.rest)
            else cut.prefix == [] && cut.rest == command
  {
    PeelableIff(command);
    PrefixEndsAtSeparator(command);
  }

  /** Proton is peeled exactly if its verb and another word follow, and with it a separator in third place. */
  lemma ProtonIff(rules: Rules, command: Words)
    ensures var cut := PeelProton(rules, command);
            && cut.prefix + cut.rest == command
            && |cut.prefix| == (if |command| > 2 && rules.isProton(command[0]) && rules.isVerb(command[1]) then
                                  if command[2] == "--" then 3 else 2
                                else 0)
  {
  }

  /** Putting everything that was peeled one after the other gives the command back. */
  lemma PeelingKeepsWords(rules: Rules, command: Words)
    ensures var p := Peel(rules, command);
            Concat(p.adverbs) + (ConcatRuntimes(p.containers) + (p.layered + (p.proton + p.app))) == command
  {
    AdverbsKeepWords(rules, command);
    ContainersKeepWords(rules.runtimes, AfterAdverbs(rules, command));
    LayeredKeepsWords(rules, BeforeLayered(rules, command));
    ProtonKeepsWords(rules, BeforeProton(rules, command));
  }

  /** The words that the graphical interface still knows about. */
  function Kept(p: Peeled): Words {
    var container := LastOf(p.containers);
    Concat(p.adverbs) + ((if container.Some? then container.value.argv else []) + (p.layered + (p.proton + p.app)))
  }

  lemma {:induction false} ContainersAreNotEmpty(rules: seq<RuntimeRule>, command: Words)
    ensures forall i :: 0 <= i < |Containers(rules, command)| ==> |Containers(rules, command)[i].argv| > 0
  {
    if rules != [] {
      if CanPeel(command) && rules[0].isEntryPoint(command[0]) {
        ContainersAreNotEmpty(rules[1..], PeelPrefix(command).rest);
      } else {
        ContainersAreNotEmpty(rules[1..], command);
      }
    }
  }

  lemma {:induction false} LastIsShorter(containers: seq<Runtime>)
    requires containers != []
    requires forall i :: 0 <= i < |containers| ==> |containers[i].argv| > 0
    ensures |containers[|containers| - 1].argv| <= |ConcatRuntimes(containers)|
    ensures |containers| > 1 ==> |containers[|containers| - 1].argv| < |ConcatRuntimes(containers)|
    ensures |containers| == 1 ==> ConcatRuntimes(containers) == containers[0].argv
  {
    if |containers| == 1 {
      assert ConcatRuntimes(containers[1..]) == [];
    } else {
      LastIsShorter(containers[1..]);
    }
  }

  /** The kept words are the whole command exactly if at most one container runtime was peeled. */
  lemma KeptIsWhole(rules: Rules, command: Words)
    ensures Kept(Peel(rules, command)) == command <==> |Peel(rules, command).containers| <= 1
  {
    var p := Peel(rules, command);
    PeelingKeepsWords(rules, command);
    ContainersAreNotEmpty(rules.runtimes, AfterAdverbs(rules, command));
    if p.containers != [] {
      LastIsShorter(p.containers);
    }
  }

  /** The app is empty exactly if Proton and its verb are followed by a separator and nothing else. */
  lemma EmptyApp(rules: Rules, command: Words)
    requires command != []
    ensures Peel(rules, command).app == [] <==>
            var last := BeforeProton(rules, command);
            |last| == 3 && rules.isProton(last[0]) && rules.isVerb(last[1]) && IsSeparator(last[2])
  {
    AdverbsKeepWords(rules, command);
    ContainersKeepWords(rules.runtimes, AfterAdverbs(rules, command));
    LayeredKeepsWords(rules, BeforeLayered(rules, command));
  }

  lemma {:induction false} OneContainer(rules: seq<RuntimeRule>, command: Words, i: nat)
    requires i < |rules| && CanPeel(command) && rules[i].isEntryPoint(command[0])
    ensures |Containers(rules, command)| >= 1
  {
    if !rules[0].isEntryPoint(command[0]) {
      OneContainer(rules[1..], command, i - 1);
    }
  }

  /** A runtime's entry point followed by that of a later runtime: both are peeled. */
  lemma {:induction false} TwoContainers(rules: seq<RuntimeRule>, command: Words, i: nat, j: nat)
    requires i < j < |rules| && CanPeel(command) && CanPeel(PeelPrefix(command).rest)
    requires rules[i].isEntryPoint(command[0]) && rules[j].isEntryPoint(PeelPrefix(command).rest[0])
    ensures |Containers(rules, command)| >= 2
  {
    if rules[0].isEntryPoint(command[0]) {
      OneContainer(rules[1..], PeelPrefix(command).rest, j - 1);
    } else {
      TwoContainers(rules[1..], command, i - 1, j - 1);
    }
  }

  /** With the entry points of two runtimes in the program's order, only the second one is kept. */
  lemma TwoRuntimesLoseOne(rules: Rules, first: string, second: string, app: string, i: nat, j: nat)
    requires i < j < |rules.runtimes|
    requires rules.runtimes[i].isEntryPoint(first) && rules.runtimes[j].isEntryPoint(second)
    requires !rules.isAdverb(first) && !IsSeparator(first) && !IsSeparator(second)
    ensures |Peel(rules, [first, "--", second, "--", app]).containers| >= 2
    ensures Kept(Peel(rules, [first, "--", second, "--", app])) != [first, "--", second, "--", app]
  {
    var command, rest := [first, "--", second, "--", app], [second, "--", app];
    assert IsSeparator(command[1]) && IsSeparator(rest[1]);
    assert PeelPrefix(command).rest == rest by {
      assert command[1..][1..] == rest;
    }
    TwoContainers(rules.runtimes, command, i, j);
    KeptIsWhole(rules, command);
  }

  /** Proton, a verb and a separator: nothing is left to run. */
  lemma NothingLeftToRun(rules: Rules, proton: string, verb: string)
    requires rules.isProton(proton) && rules.isVerb(verb) && !IsSeparator(proton) && !IsSeparator(verb)
    ensures Peel(rules, [proton, verb, "--"]).app == []
  {
    var command := [proton, verb, "--"];
    assert !CanPeel(command);
    assert Adverbs(rules, command) == [] && AfterAdverbs(rules, command) == command;
    NoContainers(rules.runtimes, command);
  }

  lemma {:induction false} NoContainers(rules: seq<RuntimeRule>, command: Words)
    requires !CanPeel(command)
    ensures Containers(rules, command) == [] && AfterContainers(rules, command) == command
  {
    if rules != [] {
      NoContainers(rules[1..], command);
    }
  }

  // ---------------------------------------------------------------------------
  // The program's own rules

  lemma IsOwnSuffix(word: string)
    ensures HasSuffix(word, word)
  {
    assert word[0..] == word;
  }

  lemma EntryPointOf(name: string, word: string)
    requires word == "/SteamLinuxRuntime_" + name + "/run"
    ensures ProgramRuntime(name).isEntryPoint(word)
  {
    IsOwnSuffix(word);
    assert EntryPoints(name)[0] == word;
    assert HasSuffix(word, EntryPoints(name)[0]);
  }

  lemma LastOfSuffix(s: string, suffix: string)
    requires |suffix| > 0
    ensures HasSuffix(s, suffix) ==> s[|s| - 1] == suffix[|suffix| - 1]
  {
    if HasSuffix(s, suffix) {
      assert s[|s| - |suffix|..][|suffix| - 1] == s[|s| - 1];
    }
  }

  lemma AdverbsEndInR(i: nat)
    requires i < |AdverbSuffixes()|
    ensures |AdverbSuffixes()[i]| > 0 && AdverbSuffixes()[i][|AdverbSuffixes()[i]| - 1] == 'r'
  {
  }

  lemma NotAnAdverb(word: string)
    requires |word| > 0 && word[|word| - 1] == 'n'
    ensures !ProgramRules().isAdverb(word)
  {
    forall i | 0 <= i < |AdverbSuffixes()|
      ensures !HasSuffix(word, AdverbSuffixes()[i])
    {
      AdverbsEndInR(i);
      LastOfSuffix(word, AdverbSuffixes()[i]);
    }
  }

  lemma SoldierPath()
    ensures "/SteamLinuxRuntime_soldier/run" == "/SteamLinuxRuntime_" + "soldier" + "/run"
  {
  }

  lemma SniperPath()
    ensures "/SteamLinuxRuntime_sniper/run" == "/SteamLinuxRuntime_" + "sniper" + "/run"
  {
  }

  lemma ProgramRuntimes()
    ensures var runtimes := ProgramRules().runtimes;
            |runtimes| == 5 && runtimes[1] == ProgramRuntime("soldier") && runtimes[2] == ProgramRuntime("sniper")
  {
  }

  lemma LongIsNoSeparator(word: string)
    requires |word| > 2
    ensures !IsSeparator(word)
  {
  }

  lemma RuntimesLoseOne(soldier: string, sniper: string, app: string)
    requires soldier == "/SteamLinuxRuntime_" + "soldier" + "/run"
    requires sniper == "/SteamLinuxRuntime_" + "sniper" + "/run"
    ensures |Peel(ProgramRules(), [soldier, "--", sniper, "--", app]).containers| >= 2
    ensures Kept(Peel(ProgramRules(), [soldier, "--", sniper, "--", app])) != [soldier, "--", sniper, "--", app]
  {
    ProgramRuntimes();
    EntryPointOf("soldier", soldier);
    EntryPointOf("sniper", sniper);
    NotAnAdverb(soldier);
    LongIsNoSeparator(soldier);
    LongIsNoSeparator(sniper);
    TwoRuntimesLoseOne(ProgramRules(), soldier, sniper, app, 1, 2);
  }

  /** The words by which the program recognizes components. */
  lemma ProgramRulesByName(word: string)
    ensures var rules := ProgramRules();
            && (rules.isAdverb(word) <==>
                  HasSuffix(word, "ubuntu12_32/reaper") || HasSuffix(word, "ubuntu12_32/steam-launch-wrapper"))
            && (rules.isLayered(word) <==> HasSuffix(word, "/scout-on-soldier-entry-point-v2"))
            && (rules.isProton(word) <==> HasSuffix(word, "/proton"))
            && (rules.isVerb(word) <==> word == "run" || word == "waitforexitandrun")
  {
    if HasSuffix(word, AdverbSuffixes()[0]) || HasSuffix(word, AdverbSuffixes()[1]) {
      assert EndsWithAny(word, AdverbSuffixes());
    }
  }

  /** The runtimes that the program looks for, in order, and the words by which it recognizes them. */
  lemma ProgramRuntimesByName(i: nat, word: string)
    requires i < 5
    ensures var rules, names := ProgramRules(), ["scout", "soldier", "sniper", "steamrt4", "steamrt5"];
            && |rules.runtimes| == 5 && rules.runtimes[i].name == names[i]
            && (rules.runtimes[i].isEntryPoint(word) <==>
                  || HasSuffix(word, "/SteamLinuxRuntime_" + names[i] + "/run")
                  || HasSuffix(word, "/SteamLinuxRuntime_" + names[i] + "/run-in-" + names[i])
                  || HasSuffix(word, "/SteamLinuxRuntime_" + names[i] + "/_v2-entry-point"))
  {
    var name := ProgramRules().runtimes[i].name;
    assert ProgramRules().runtimes[i] == ProgramRuntime(name);
    assert |EntryPoints(name)| == 3;
    if HasSuffix(word, EntryPoints(name)[0]) || HasSuffix(word, EntryPoints(name)[1])
       || HasSuffix(word, EntryPoints(name)[2]) {
      assert EndsWithAny(word, EntryPoints(name));
    }
  }

  /** A command with the entry points of two of the program's runtimes, of which it keeps one. */
  lemma SoldierIsLost()
    ensures var command := ["/SteamLinuxRuntime_soldier/run", "--", "/SteamLinuxRuntime_sniper/run", "--", "game"];
            |Peel(ProgramRules(), command).containers| >= 2 && Kept(Peel(ProgramRules(), command)) != command
  {
    SoldierPath();
    SniperPath();
    RuntimesLoseOne("/SteamLinuxRuntime_soldier/run", "/SteamLinuxRuntime_sniper/run", "game");
  }

  /** A command that the program leaves without an app. */
  lemma ProtonRunsNothing()
    ensures Peel(ProgramRules(), ["/proton", "run", "--"]).app == []
  {
    IsOwnSuffix("/proton");
    NothingLeftToRun(ProgramRules(), "/proton", "run");
  }
}
