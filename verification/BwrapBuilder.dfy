/**
  The builder for bwrap(1) command lines: an argument list, the file descriptors that the
  command needs, and an environment block.
 */
module BwrapBuilder {
  import opened Wrappers
  import opened Decimal
  import opened Environ

  // ---------------------------------------------------------------------------
  // Arguments bundled into a file

  const NUL := '\0'

  /** Arguments as NUL-terminated strings, one after the other. */
  function Serialized(args: seq<string>): string {
    if args == [] then "" else Serialized(args[..|args| - 1]) + args[|args| - 1] + [NUL]
  }

  predicate IsCString(s: string) {
    NUL !in s
  }

  /** The NUL-terminated strings in `data`; an unterminated rest is ignored. */
  function SplitAtNuls(data: string): seq<string> {
    SplitFrom(data, "")
  }

  function SplitFrom(data: string, partial: string): seq<string> {
    if data == "" then []
    else if data[0] == NUL then [partial] + SplitFrom(data[1..], "")
    else SplitFrom(data[1..], partial + [data[0]])
  }

  lemma {:induction false} SplitOneString(s: string, rest: string, partial: string)
    requires IsCString(s)
    ensures SplitFrom(s + [NUL] + rest, partial) == [partial + s] + SplitFrom(rest, "")
  {
    var data := s + [NUL] + rest;
    if s == "" {
      assert data[1..] == rest;
      assert partial + s == partial;
    } else {
      assert s[0] in s;
      SplitOneString(s[1..], rest, partial + [s[0]]);
      assert data[1..] == s[1..] + [NUL] + rest;
      assert partial + [s[0]] + s[1..] == partial + s;
    }
  }

  lemma {:induction false} SerializedCons(args: seq<string>)
    requires args != []
    ensures Serialized(args) == args[0] + [NUL] + Serialized(args[1..])
  {
    if |args| == 1 {
      assert args[..0] == [] && args[1..] == [];
    } else {
      var before, last := args[..|args| - 1], args[|args| - 1];
      SerializedCons(before);
      assert args[1..][..|args| - 2] == before[1..];
      Regroup(args[0] + [NUL], Serialized(before[1..]), last);
      Regroup(args[0] + [NUL], Serialized(before[1..]) + last, [NUL]);
    }
  }

  /** Splitting the bundled data gives back the arguments. */
  lemma {:induction false} SplitSerialized(args: seq<string>)
    requires forall i :: 0 <= i < |args| ==> IsCString(args[i])
    ensures SplitAtNuls(Serialized(args)) == args
  {
    if args != [] {
      SerializedCons(args);
      SplitOneString(args[0], Serialized(args[1..]), "");
      SplitSerialized(args[1..]);
      assert "" + args[0] == args[0];
      assert [args[0]] + args[1..] == args;
    }
  }

  /** What replaces the bundled arguments. */
  function Placeholder(oneArg: bool, fd: nat): seq<string> {
    if oneArg then ["--args=" + Dec(fd)] else ["--args", Dec(fd)]
  }

  /** The descriptor in the placeholder at `at`, and how many arguments the placeholder takes. */
  function PlaceholderFd(argv: seq<string>, at: nat): Option<(nat, nat)> {
    if at < |argv| && argv[at] == "--args" then
      if at + 1 < |argv| && Parse(argv[at + 1]).Some? then Some((Parse(argv[at + 1]).value, 2)) else None
    else if at < |argv| && 7 <= |argv[at]| && argv[at][..7] == "--args=" && Parse(argv[at][7..]).Some? then
      Some((Parse(argv[at][7..]).value, 1))
    else None
  }

  /** Put the arguments in the file that the placeholder at `at` refers to back in its place. */
  function Expand(argv: seq<string>, at: nat, files: map<nat, string>): Option<seq<string>> {
    match PlaceholderFd(argv, at)
    case None => None
    case Some((fd, length)) =>
      if at + length <= |argv| && fd in files then
        Some(argv[..at] + SplitAtNuls(files[fd]) + argv[at + length..])
      else None
  }

  /** Bundling followed by expansion is the identity on command lines. */
  lemma ExpandUndoesBundle(argv: seq<string>, start: nat, end: nat, oneArg: bool, fd: nat, files: map<nat, string>)
    requires start <= end <= |argv|
    requires forall i :: start <= i < end ==> IsCString(argv[i])
    requires fd in files && files[fd] == Serialized(argv[start..end])
    ensures Expand(argv[..start] + Placeholder(oneArg, fd) + argv[end..], start, files) == Some(argv)
  {
    var placeholder := Placeholder(oneArg, fd);
    var bundled := argv[..start] + placeholder + argv[end..];
    ParseDec(fd);
    SplitSerialized(argv[start..end]);
    assert bundled[start] == placeholder[0];
    assert bundled[..start] == argv[..start];
    if oneArg {
      var arg := "--args=" + Dec(fd);
      assert arg[..7] == "--args=" && arg[7..] == Dec(fd);
      assert |arg| > 7;
      assert bundled[start + 1..] == argv[end..];
    } else {
      assert bundled[start + 1] == placeholder[1];
      assert bundled[start + 2..] == argv[end..];
    }
    assert argv[..start] + argv[start..end] + argv[end..] == argv;
  }

  // ---------------------------------------------------------------------------
  // The environment as `--setenv` options

  function SetenvArgs(env: Env): seq<string> {
    if env == [] then []
    else
      var last := env[|env| - 1];
      SetenvArgs(env[..|env| - 1]) + if HasName(last) then ["--setenv", Name(last), Value(last)] else []
  }

  /**
    What bwrap's `--setenv` options do to an environment; `None` if there is anything else, or
    if bwrap dies because setenv(3) fails.
   */
  function RunSetenv(args: seq<string>, env: map<string, string>): Option<map<string, string>> {
    if args == [] then Some(env)
    else if 3 <= |args| && args[0] == "--setenv" && CanSetenv(args[1]) then
      RunSetenv(args[3..], env[args[1] := args[2]])
    else None
  }

  /** The map of an environment block if the last entry for a name wins. */
  function LastMap(env: Env): map<string, string> {
    if env == [] then map[]
    else
      var last := env[|env| - 1];
      var before := LastMap(env[..|env| - 1]);
      if HasName(last) then before[Name(last) := Value(last)] else before
  }

  ghost predicate NamesNotEmpty(env: Env) {
    forall i :: 0 <= i < |env| && HasName(env[i]) ==> Name(env[i]) != ""
  }

  lemma RunOneSetenv(name: string, value: string, more: seq<string>, start: map<string, string>)
    ensures RunSetenv(["--setenv", name, value] + more, start)
            == if CanSetenv(name) then RunSetenv(more, start[name := value]) else None
  {
    var args := ["--setenv", name, value] + more;
    assert args[3..] == more && args[0] == "--setenv";
  }

  lemma {:induction false} RunSetenvOfBlock(env: Env, more: seq<string>, start: map<string, string>)
    ensures RunSetenv(SetenvArgs(env) + more, start)
            == if NamesNotEmpty(env) then RunSetenv(more, start + LastMap(env)) else None
  {
    if env == [] {
      assert SetenvArgs(env) + more == more;
      assert start + map[] == start;
    } else {
      var n := |env| - 1;
      var before, last := env[..n], env[n];
      assert NamesNotEmpty(env) <==> NamesNotEmpty(before) && (HasName(last) ==> Name(last) != "") by {
        assert forall i :: 0 <= i < n ==> env[i] == before[i];
      }
      if HasName(last) {
        var args := ["--setenv", Name(last), Value(last)];
        RunSetenvOfBlock(before, args + more, start);
        RunOneSetenv(Name(last), Value(last), more, start + LastMap(before));
        Regroup(SetenvArgs(before), args, more);
        UpdateUnion(start, LastMap(before), Name(last), Value(last));
      } else {
        RunSetenvOfBlock(before, more, start);
        assert SetenvArgs(before) + [] == SetenvArgs(before);
      }
    }
  }

  /**
    Running the options on an empty environment gives the map in which the last entry wins,
    exactly if no name is empty; otherwise bwrap dies.
   */
  lemma SetenvArgsMeanLastMap(env: Env)
    ensures RunSetenv(SetenvArgs(env), map[]) == if NamesNotEmpty(env) then Some(LastMap(env)) else None
  {
    RunSetenvOfBlock(env, [], map[]);
    assert SetenvArgs(env) + [] == SetenvArgs(env);
    assert map[] + LastMap(env) == LastMap(env);
  }

  lemma LastMapNext(env: Env, i: nat)
    requires i < |env|
    ensures LastMap(env[..i + 1])
            == if HasName(env[i]) then LastMap(env[..i])[Name(env[i]) := Value(env[i])] else LastMap(env[..i])
  {
    assert env[..i + 1][..i] == env[..i];
  }

  ghost predicate UniqueNames(env: Env) {
    forall i, j :: 0 <= i < j < |env| && HasName(env[i]) && HasName(env[j]) ==> Name(env[i]) != Name(env[j])
  }

  ghost predicate IsFirst(env: Env, i: int) {
    && 0 <= i < |env| && HasName(env[i])
    && forall k :: 0 <= k < i && HasName(env[k]) ==> Name(env[k]) != Name(env[i])
  }

  ghost predicate IsLast(env: Env, i: int) {
    && 0 <= i < |env| && HasName(env[i])
    && forall k :: i < k < |env| && HasName(env[k]) ==> Name(env[k]) != Name(env[i])
  }

  /** If a name is repeated, its first and its last entry have the same value. */
  ghost predicate FirstAndLastAgree(env: Env) {
    forall i, j :: IsFirst(env, i) && IsLast(env, j) && Name(env[i]) == Name(env[j]) ==> Value(env[i]) == Value(env[j])
  }

  lemma {:induction false} ToMapIsFirst(env: Env, i: int)
    requires IsFirst(env, i)
    ensures Name(env[i]) in ToMap(env) && ToMap(env)[Name(env[i])] == Value(env[i])
  {
    if i > 0 {
      assert forall k :: 0 <= k < |env| - 1 ==> env[1..][k] == env[k + 1];
      assert IsFirst(env[1..], i - 1);
      ToMapIsFirst(env[1..], i - 1);
    }
  }

  lemma {:induction false} LastMapIsLast(env: Env, i: int)
    requires IsLast(env, i)
    ensures Name(env[i]) in LastMap(env) && LastMap(env)[Name(env[i])] == Value(env[i])
  {
    if i < |env| - 1 {
      var before := env[..|env| - 1];
      assert IsLast(before, i);
      LastMapIsLast(before, i);
    }
  }

  lemma {:induction false} ToMapHasFirst(env: Env, name: string) returns (i: int)
    requires name in ToMap(env)
    ensures IsFirst(env, i) && Name(env[i]) == name
  {
    if HasName(env[0]) && Name(env[0]) == name {
      i := 0;
    } else {
      var j := ToMapHasFirst(env[1..], name);
      i := j + 1;
      assert forall k :: 1 <= k < |env| ==> env[k] == env[1..][k - 1];
    }
  }

  lemma {:induction false} LastMapHasLast(env: Env, name: string) returns (i: int)
    requires name in LastMap(env)
    ensures IsLast(env, i) && Name(env[i]) == name
  {
    var n := |env| - 1;
    if HasName(env[n]) && Name(env[n]) == name {
      i := n;
    } else {
      i := LastMapHasLast(env[..n], name);
      assert forall k :: 0 <= k < n ==> env[k] == env[..n][k];
    }
  }

  lemma {:induction false} FirstExists(env: Env, j: int) returns (i: int)
    requires 0 <= j < |env| && HasName(env[j])
    ensures IsFirst(env, i) && i <= j && Name(env[i]) == Name(env[j])
    decreases j
  {
    if IsFirst(env, j) {
      i := j;
    } else {
      var k :| 0 <= k < j && HasName(env[k]) && Name(env[k]) == Name(env[j]);
      i := FirstExists(env, k);
    }
  }

  lemma {:induction false} LastExists(env: Env, j: int) returns (i: int)
    requires 0 <= j < |env| && HasName(env[j])
    ensures IsLast(env, i) && j <= i && Name(env[i]) == Name(env[j])
    decreases |env| - j
  {
    if IsLast(env, j) {
      i := j;
    } else {
      var k :| j < k < |env| && HasName(env[k]) && Name(env[k]) == Name(env[j]);
      i := LastExists(env, k);
    }
  }

  /** The first and the last entries give the same map, exactly if their values agree. */
  lemma MapsAgree(env: Env)
    ensures LastMap(env) == ToMap(env) <==> FirstAndLastAgree(env)
  {
    if LastMap(env) == ToMap(env) {
      forall i, j | IsFirst(env, i) && IsLast(env, j) && Name(env[i]) == Name(env[j])
        ensures Value(env[i]) == Value(env[j])
      {
        ToMapIsFirst(env, i);
        LastMapIsLast(env, j);
      }
    }
    if FirstAndLastAgree(env) {
      forall name | name in ToMap(env)
        ensures name in LastMap(env) && LastMap(env)[name] == ToMap(env)[name]
      {
        var i := ToMapHasFirst(env, name);
        var j := LastExists(env, i);
        ToMapIsFirst(env, i);
        LastMapIsLast(env, j);
      }
      forall name | name in LastMap(env)
        ensures name in ToMap(env)
      {
        var j := LastMapHasLast(env, name);
        var i := FirstExists(env, j);
        ToMapIsFirst(env, i);
      }
      assert LastMap(env) == ToMap(env);
    }
  }

  /**
    Converting the environment block to `--setenv` options keeps its meaning, exactly if no
    name is empty and no repeated name has different first and last values.
   */
  lemma SetenvKeepsMeaning(env: Env)
    ensures RunSetenv(SetenvArgs(env), map[]) == Some(ToMap(env)) <==> NamesNotEmpty(env) && FirstAndLastAgree(env)
  {
    SetenvArgsMeanLastMap(env);
    MapsAgree(env);
  }

  /** For unique names, only an empty one can make a difference. */
  lemma UniqueNamesAgree(env: Env)
    requires UniqueNames(env)
    ensures LastMap(env) == ToMap(env)
    ensures RunSetenv(SetenvArgs(env), map[]) == Some(ToMap(env)) <==> NamesNotEmpty(env)
  {
    forall i, j | IsFirst(env, i) && IsLast(env, j) && Name(env[i]) == Name(env[j])
      ensures i == j
    {
    }
    MapsAgree(env);
    SetenvKeepsMeaning(env);
  }

  /** An empty name, which the block can hold but bwrap refuses. */
  lemma EmptyNameIsRefused()
    ensures UniqueNames(["=x"]) && ToMap(["=x"]) == map["" := "x"]
    ensures RunSetenv(SetenvArgs(["=x"]), map[]) == None
  {
    var env := ["=x"];
    NameOfEntry("", "x");
    assert env[0] == Entry("", "x") && env[1..] == [];
    SetenvArgsMeanLastMap(env);
  }

  /** A repeated name for which conversion changes the value. */
  lemma RepeatedNameChangesValue()
    ensures ToMap(["A=1", "A=2"]) == map["A" := "1"]
    ensures RunSetenv(SetenvArgs(["A=1", "A=2"]), map[]) == Some(map["A" := "2"])
  {
    var env := ["A=1", "A=2"];
    NameOfEntry("A", "1");
    NameOfEntry("A", "2");
    assert env[0] == Entry("A", "1") && env[1] == Entry("A", "2");
    assert env[1..] == [env[1]] && env[..1] == [env[0]];
    assert [env[0]][..0] == [] && LastMap([env[0]]) == map["A" := "1"];
    assert LastMap(env) == LastMap(env[..1])["A" := "2"] == map["A" := "2"];
    SetenvArgsMeanLastMap(env);
  }

  // ---------------------------------------------------------------------------
  // Setting variables in the map that an environment block stands for

  lemma SetIsMapUpdate(env: Env, name: string, value: string)
    requires ValidName(name)
    ensures ToMap(Set(env, name, value, true)) == ToMap(env)[name := value]
  {
    var after := ToMap(Set(env, name, value, true));
    ToMapNamesValid(env);
    ToMapNamesValid(Set(env, name, value, true));
    forall other | ValidName(other)
      ensures other in after <==> other in ToMap(env) || other == name
      ensures other in after ==> after[other] == if other == name then value else ToMap(env)[other]
    {
      GetAfterSet(env, name, value, true, other);
      ToMapIsGet(env, other);
      ToMapIsGet(Set(env, name, value, true), other);
    }
  }

  lemma SetKeepsUnique(env: Env, name: string, value: string)
    requires ValidName(name) && UniqueNames(env)
    ensures UniqueNames(Set(env, name, value, true))
  {
    NameOfEntry(name, value);
    forall k | 0 <= k < |env|
      ensures IsFor(env[k], name) <==> HasName(env[k]) && Name(env[k]) == name
    {
      NameIsUnique(env[k], name);
    }
  }

  // ---------------------------------------------------------------------------
  // The builder

  class FlatpakBwrap {
    var argv: seq<string>
    var fds: seq<int>
    var envp: Env
    var runtimeDirMembers: seq<string>

    constructor (env: Env)
      ensures argv == [] && fds == [] && envp == env && runtimeDirMembers == []
    {
      argv, fds, envp, runtimeDirMembers := [], [], env, [];
    }

    method AddArgs(args: seq<string>)
      modifies this`argv
      ensures argv == old(argv) + args
    {
      for i := 0 to |args|
        invariant argv == old(argv) + args[..i]
      {
        argv := argv + [args[i]];
      }
      assert args[..|args|] == args;
    }

    method AddFd(fd: int)
      modifies this`fds
      ensures fds == old(fds) + [fd]
    {
      fds := fds + [fd];
    }

    method SetEnv(name: string, value: string)
      requires ValidName(name)
      modifies this`envp
      ensures envp == Set(old(envp), name, value, true)
      ensures ToMap(envp) == ToMap(old(envp))[name := value]
      ensures UniqueNames(old(envp)) ==> UniqueNames(envp)
    {
      SetIsMapUpdate(envp, name, value);
      if UniqueNames(envp) {
        SetKeepsUnique(envp, name, value);
      }
      envp := Set(envp, name, value, true);
    }

    method StealFds() returns (stolen: seq<int>)
      modifies this`fds
      ensures stolen == old(fds) && fds == []
    {
      stolen := fds;
      fds := [];
    }

    /** The data descriptor becomes the builder's, and the argument names it. */
    method AddArgsDataFd(op: string, fd: nat, path: Option<string>)
      modifies this`argv, this`fds
      ensures fds == old(fds) + [fd]
      ensures argv == old(argv) + [op, Dec(fd)] + if path.Some? then [path.value] else []
      ensures Parse(argv[|old(argv)| + 1]) == Some(fd)
    {
      ParseDec(fd);
      AddFd(fd);
      AddArgs([op, Dec(fd)] + if path.Some? then [path.value] else []);
      assert argv[|old(argv)| + 1] == Dec(fd);
    }

    /** All of `other`'s descriptors move over in order; its variables override ours. */
    method AppendBwrap(other: FlatpakBwrap)
      requires other != this
      modifies this, other`fds
      ensures fds == old(fds) + old(other.fds) && other.fds == []
      ensures argv == old(argv) + other.argv
      ensures ToMap(envp) == ToMap(old(envp)) + LastMap(other.envp)
      ensures UniqueNames(other.envp) ==> ToMap(envp) == ToMap(old(envp)) + ToMap(other.envp)
      ensures UniqueNames(old(envp)) ==> UniqueNames(envp)
      ensures runtimeDirMembers == old(runtimeDirMembers) + other.runtimeDirMembers
    {
      var stolen := other.StealFds();
      AddFds(stolen);
      AddArgs(other.argv);
      SetEnvs(other.envp);
      if UniqueNames(other.envp) {
        UniqueNamesAgree(other.envp);
      }
      runtimeDirMembers := runtimeDirMembers + other.runtimeDirMembers;
    }

    method AddFds(more: seq<int>)
      modifies this`fds
      ensures fds == old(fds) + more
    {
      for i := 0 to |more|
        invariant fds == old(fds) + more[..i]
      {
        AddFd(more[i]);
      }
      assert more[..|more|] == more;
    }

    /** Set every variable that has an entry in `more`, in order. */
    method SetEnvs(more: Env)
      modifies this`envp
      ensures ToMap(envp) == ToMap(old(envp)) + LastMap(more)
      ensures UniqueNames(old(envp)) ==> UniqueNames(envp)
    {
      for i := 0 to |more|
        invariant ToMap(envp) == ToMap(old(envp)) + LastMap(more[..i])
        invariant UniqueNames(old(envp)) ==> UniqueNames(envp)
      {
        LastMapNext(more, i);
        if HasName(more[i]) {
          UpdateUnion(ToMap(old(envp)), LastMap(more[..i]), Name(more[i]), Value(more[i]));
          SetEnv(Name(more[i]), Value(more[i]));
        }
      }
      assert more[..|more|] == more;
    }

    /** Each variable becomes a `--setenv` option, and the environment block becomes empty. */
    method EnvpToArgs()
      modifies this
      ensures argv == old(argv) + SetenvArgs(old(envp)) && envp == []
      ensures fds == old(fds) && runtimeDirMembers == old(runtimeDirMembers)
    {
      for i := 0 to |envp|
        invariant envp == old(envp) && fds == old(fds) && runtimeDirMembers == old(runtimeDirMembers)
        invariant argv == old(argv) + SetenvArgs(envp[..i])
      {
        var entry := envp[i];
        assert envp[..i + 1][..i] == envp[..i];
        if HasName(entry) {
          argv := argv + ["--setenv"];
          argv := argv + [Name(entry)];
          argv := argv + [Value(entry)];
          assert argv == old(argv) + (SetenvArgs(envp[..i]) + ["--setenv", Name(entry), Value(entry)]);
        }
      }
      assert envp[..|envp|] == envp;
      envp := [];
    }

    /**
      Replace the arguments from `start` to `end` (-1 for all the rest) by a reference to a file
      that contains them. `file` is the descriptor of a new file, if one could be created.
     */
    method BundleArgs(start: nat, end: int, oneArg: bool, file: Option<nat>) returns (ok: bool, data: array<char>)
      requires start <= (if end == -1 then |argv| else end) <= |argv|
      requires forall i :: 0 <= i < |argv| ==> IsCString(argv[i])
      modifies this`argv, this`fds
      ensures fresh(data) && ok == file.Some?
      ensures data[..] == Serialized(old(argv)[start..if end == -1 then |old(argv)| else end])
      ensures !ok ==> argv == old(argv) && fds == old(fds)
      ensures ok ==> fds == old(fds) + [file.value]
      ensures ok ==> argv == old(argv)[..start] + Placeholder(oneArg, file.value)
                             + old(argv)[if end == -1 then |old(argv)| else end..]
      ensures ok ==> forall files: map<nat, string> :: file.value in files && files[file.value] == data[..] ==>
                Expand(argv, start, files) == Some(old(argv))
    {
      var last := if end == -1 then |argv| else end;
      data := CopyArgs(argv[start..last]);
      if file.None? {
        return false, data;
      }
      ok := true;
      forall files: map<nat, string> | file.value in files && files[file.value] == data[..]
        ensures Expand(argv[..start] + Placeholder(oneArg, file.value) + argv[last..], start, files) == Some(argv)
      {
        ExpandUndoesBundle(argv, start, last, oneArg, file.value, files);
      }
      fds := fds + [file.value];
      argv := argv[..start] + argv[last..];
      if oneArg {
        argv := argv[..start] + ["--args=" + Dec(file.value)] + argv[start..];
      } else {
        argv := argv[..start] + ["--args"] + argv[start..];
        argv := argv[..start + 1] + [Dec(file.value)] + argv[start + 1..];
      }
      assert argv == old(argv)[..start] + Placeholder(oneArg, file.value) + old(argv)[last..];
    }
  }

  /** `g_stpcpy`: copy a string and its terminator, and return where the terminator is. */
  method Stpcpy(data: array<char>, at: nat, s: string) returns (terminator: nat)
    requires at + |s| < data.Length
    modifies data
    ensures terminator == at + |s|
    ensures data[..at] == old(data[..at])
    ensures data[at..at + |s| + 1] == s + [NUL]
  {
    for i := 0 to |s|
      invariant data[..at] == old(data[..at])
      invariant data[at..at + i] == s[..i]
    {
      data[at + i] := s[i];
    }
    terminator := at + |s|;
    data[terminator] := NUL;
  }

  lemma {:induction false} SerializedLength(args: seq<string>, i: nat)
    requires i < |args|
    ensures |Serialized(args[..i])| + |args[i]| + 1 <= |Serialized(args)|
  {
    if i < |args| - 1 {
      SerializedLength(args[..|args| - 1], i);
      assert args[..|args| - 1][..i] == args[..i];
    }
  }

  /** The two loops of bundling: measure the arguments, then fill a buffer of that size. */
  method CopyArgs(args: seq<string>) returns (data: array<char>)
    ensures fresh(data) && data[..] == Serialized(args)
  {
    var dataLen := 0;
    for i := 0 to |args|
      invariant dataLen == |Serialized(args[..i])|
    {
      assert args[..i + 1][..i] == args[..i];
      dataLen := dataLen + |args[i]| + 1;
    }
    assert args[..|args|] == args;
    data := new char[dataLen](_ => NUL);
    var at := 0;
    for i := 0 to |args|
      invariant at == |Serialized(args[..i])| <= data.Length
      invariant data[..at] == Serialized(args[..i])
    {
      assert args[..i + 1][..i] == args[..i];
      SerializedLength(args, i);
      ghost var before := data[..at];
      var terminator := Stpcpy(data, at, args[i]);
      assert data[..terminator + 1] == before + data[at..terminator + 1];
      at := terminator + 1;
    }
    assert data[..at] == data[..];
  }

  /** `pv_bwrap_copy`; the original must not own descriptors, or appending would steal them. */
  method Copy(bwrap: FlatpakBwrap) returns (copy: FlatpakBwrap)
    requires bwrap.fds == []
    modifies bwrap`fds
    ensures fresh(copy) && bwrap.fds == [] && copy.fds == []
    ensures copy.argv == bwrap.argv && copy.runtimeDirMembers == bwrap.runtimeDirMembers
    ensures UniqueNames(copy.envp)
    ensures ToMap(copy.envp) == LastMap(bwrap.envp)
    ensures UniqueNames(bwrap.envp) ==> ToMap(copy.envp) == ToMap(bwrap.envp)
  {
    copy := new FlatpakBwrap([]);
    copy.AppendBwrap(bwrap);
    assert map[] + LastMap(bwrap.envp) == LastMap(bwrap.envp);
  }
}
