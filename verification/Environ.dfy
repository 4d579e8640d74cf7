/**
  Environment blocks: lists of `NAME=VALUE` strings, edited by GLib's `g_environ_*`
  functions. `ToMap` gives the finite map that such a list stands for.
 */
module Environ {
  import opened Wrappers

  type Env = seq<string>

  /** A variable name that can be looked up unambiguously. */
  predicate ValidName(name: string) {
    '=' !in name
  }

  /** A name that setenv(3) and unsetenv(3) accept. */
  predicate CanSetenv(name: string) {
    name != "" && ValidName(name)
  }

  predicate IsFor(entry: string, name: string) {
    |name| < |entry| && entry[..|name|] == name && entry[|name|] == '='
  }

  function Entry(name: string, value: string): string {
    name + "=" + value
  }

  // ---------------------------------------------------------------------------
  // Names and values of entries

  /** The position of the first `=`, or the length. */
  function NameLength(entry: string): (n: nat)
    ensures n <= |entry|
    ensures n < |entry| ==> entry[n] == '='
    ensures '=' !in entry[..n]
  {
    if entry == "" || entry[0] == '=' then 0
    else
      var n := NameLength(entry[1..]);
      assert entry[..1 + n] == [entry[0]] + entry[1..][..n];
      1 + n
  }

  predicate HasName(entry: string) {
    NameLength(entry) < |entry|
  }

  function Name(entry: string): string {
    entry[..NameLength(entry)]
  }

  function Value(entry: string): string
    requires HasName(entry)
  {
    entry[NameLength(entry) + 1..]
  }

  lemma NameIsUnique(entry: string, name: string)
    requires ValidName(name)
    ensures IsFor(entry, name) <==> HasName(entry) && Name(entry) == name
  {
    assert forall k :: 0 <= k < |name| ==> name[k] != '=';
    var before := entry[..NameLength(entry)];
    assert forall k :: 0 <= k < |before| ==> before[k] != '=' && before[k] == entry[k];
    if IsFor(entry, name) {
      assert forall k :: 0 <= k < |name| ==> entry[k] == entry[..|name|][k];
    }
  }

  lemma NameOfEntry(name: string, value: string)
    requires ValidName(name)
    ensures HasName(Entry(name, value)) && Name(Entry(name, value)) == name
    ensures Value(Entry(name, value)) == value
  {
    var e := Entry(name, value);
    assert e[..|name|] == name && e[|name|] == '=';
    NameIsUnique(e, name);
  }

  /** The index of the first entry for `name`, or the length if there is none. */
  function Find(env: Env, name: string): (i: nat)
    ensures i <= |env|
    ensures i < |env| ==> IsFor(env[i], name)
    ensures forall k :: 0 <= k < i ==> !IsFor(env[k], name)
  {
    if env == [] then 0
    else if IsFor(env[0], name) then 0
    else 1 + Find(env[1..], name)
  }

  /** `g_environ_getenv` */
  function Get(env: Env, name: string): Option<string> {
    var i := Find(env, name);
    if i < |env| then Some(env[i][|name| + 1..]) else None
  }

  /** `g_environ_setenv` */
  function Set(env: Env, name: string, value: string, overwrite: bool): Env {
    var i := Find(env, name);
    if i < |env| then
      if overwrite then env[i := Entry(name, value)] else env
    else env + [Entry(name, value)]
  }

  /** `g_environ_unsetenv`: removes every entry for `name`. */
  function Unset(env: Env, name: string): Env {
    if env == [] then []
    else if IsFor(env[0], name) then Unset(env[1..], name)
    else [env[0]] + Unset(env[1..], name)
  }

  lemma FindIsFirst(env: Env, name: string, i: nat)
    requires i < |env| && IsFor(env[i], name)
    requires forall k :: 0 <= k < i ==> !IsFor(env[k], name)
    ensures Find(env, name) == i
  {
  }

  lemma EntryIsFor(name: string, value: string, other: string)
    requires ValidName(name) && ValidName(other)
    ensures IsFor(Entry(name, value), other) <==> name == other
    ensures Entry(name, value)[|name| + 1..] == value
  {
    NameOfEntry(name, value);
    NameIsUnique(Entry(name, value), other);
  }

  /** Setting a variable changes that variable and no other. */
  lemma GetAfterSet(env: Env, name: string, value: string, overwrite: bool, other: string)
    requires ValidName(name) && ValidName(other)
    ensures Get(Set(env, name, value, overwrite), other)
            == if name != other then Get(env, other)
               else if !overwrite && Get(env, name).Some? then Get(env, name)
               else Some(value)
  {
    var i := Find(env, name);
    var after := Set(env, name, value, overwrite);
    EntryIsFor(name, value, other);
    if i < |env| && !overwrite {
    } else if name == other {
      FindIsFirst(after, name, i);
    } else {
      var j := Find(env, other);
      if j < |env| {
        assert i < |env| ==> i != j by {
          if i == j < |env| {
            SameEntrySameName(env[i], name, other);
          }
        }
        FindIsFirst(after, other, j);
      } else {
        assert forall k :: 0 <= k < |after| ==> !IsFor(after[k], other) by {
          forall k | 0 <= k < |after| ensures !IsFor(after[k], other) {
            assert k < |env| && k != i ==> after[k] == env[k];
          }
        }
        assert Find(after, other) == |after|;
      }
    }
  }

  lemma SameEntrySameName(entry: string, a: string, b: string)
    requires ValidName(a) && ValidName(b) && IsFor(entry, a) && IsFor(entry, b)
    ensures a == b
  {
    NameIsUnique(entry, a);
    NameIsUnique(entry, b);
  }

  /** Unsetting a variable removes that variable and no other. */
  lemma {:induction false} GetAfterUnset(env: Env, name: string, other: string)
    requires ValidName(name) && ValidName(other)
    ensures Get(Unset(env, name), other) == if name == other then None else Get(env, other)
  {
    if env != [] {
      GetAfterUnset(env[1..], name, other);
      GetCons(env[0], env[1..], other);
      assert [env[0]] + env[1..] == env;
      if IsFor(env[0], name) {
        if name != other && IsFor(env[0], other) {
          SameEntrySameName(env[0], name, other);
        }
      } else {
        GetCons(env[0], Unset(env[1..], name), other);
      }
    }
  }

  lemma GetCons(entry: string, rest: Env, name: string)
    ensures Get([entry] + rest, name)
            == if IsFor(entry, name) then Some(entry[|name| + 1..]) else Get(rest, name)
  {
    var all := [entry] + rest;
    assert all[1..] == rest;
    if !IsFor(entry, name) {
      assert Find(all, name) == 1 + Find(rest, name);
    }
  }

  // ---------------------------------------------------------------------------
  // The map that an environment block stands for

  /** The first entry for a name wins, as in `getenv`. */
  function ToMap(env: Env): map<string, string> {
    if env == [] then map[]
    else if HasName(env[0]) then ToMap(env[1..])[Name(env[0]) := Value(env[0])]
    else ToMap(env[1..])
  }

  lemma {:induction false} ToMapIsGet(env: Env, name: string)
    requires ValidName(name)
    ensures Get(env, name) == if name in ToMap(env) then Some(ToMap(env)[name]) else None
  {
    if env != [] {
      ToMapIsGet(env[1..], name);
      NameIsUnique(env[0], name);
      GetCons(env[0], env[1..], name);
      assert [env[0]] + env[1..] == env;
    }
  }

  lemma {:induction false} ToMapNamesValid(env: Env)
    ensures forall name :: name in ToMap(env) ==> ValidName(name)
  {
    if env != [] {
      ToMapNamesValid(env[1..]);
    }
  }
}
