/** What the compressed preload lists and the table of links mean for each architecture. */
module PreloadGuarantees {
  import opened Wrappers
  import opened Splitting
  import opened Paths
  import opened Environ
  import opened PerArchDirs
  import opened Preload

  // ---------------------------------------------------------------------------
  // The table of links

  /** No module was given under a name that the program itself would make up. */
  ghost predicate NoTokenNames(layout: Layout, modules: seq<PreloadModule>) {
    forall i :: 0 <= i < |modules| ==> !IsToken(layout, modules[i].name)
  }

  /** The first module, for whichever variable, that asks for a place in the table. */
  function FirstGiven(layout: Layout, modules: seq<PreloadModule>, key: (nat, string)): Option<string> {
    if modules == [] then None
    else if Slot(layout, modules[0]) == Some(key) then Some(modules[0].name)
    else FirstGiven(layout, modules[1..], key)
  }

  /** The table is write-once: a place holds what it held before, or the first module given for it. */
  lemma {:induction false} LinkTable(layout: Layout, links: Links, modules: seq<PreloadModule>, key: (nat, string))
    ensures var after := LinkAll(layout, links, modules);
            var first := FirstGiven(layout, modules, key);
            && (key in after <==> key in links || (!layout.blocked(key.0, key.1) && first.Some?))
            && (key in after ==> after[key] == if key in links then links[key] else first.value)
    decreases modules
  {
    if modules != [] {
      LinkTable(layout, LinkOne(layout, links, modules[0]), modules[1..], key);
    }
  }

  lemma LinksExtend(layout: Layout, links: Links, modules: seq<PreloadModule>)
    ensures Extends(links, LinkAll(layout, links, modules))
    ensures ValidLinks(layout, links) ==> ValidLinks(layout, LinkAll(layout, links, modules))
  {
    forall key | key in links || key in LinkAll(layout, links, modules)
      ensures key in links ==>
                key in LinkAll(layout, links, modules) && LinkAll(layout, links, modules)[key] == links[key]
      ensures key in links || !layout.blocked(key.0, key.1)
    {
      LinkTable(layout, links, modules, key);
    }
  }

  /** Whether a module has its link is settled as soon as it has been handled. */
  lemma LinkedForGood(layout: Layout, links: Links, m: PreloadModule, later: seq<PreloadModule>)
    ensures var after := LinkOne(layout, links, m);
            IsLinked(layout, LinkAll(layout, after, later), m) <==> IsLinked(layout, after, m)
  {
    if Slot(layout, m).Some? {
      LinkTable(layout, LinkOne(layout, links, m), later, Slot(layout, m).value);
    }
  }

  // ---------------------------------------------------------------------------
  // The lists

  /** How a module appears in its list. */
  function EntryFor(layout: Layout, links: Links, m: PreloadModule): string {
    if IsLinked(layout, links, m) then Token(layout, Base(m.name)) else m.name
  }

  predicate Contributes(layout: Layout, links: Links, v: Variable, m: PreloadModule, entry: string) {
    m.variable == v && m.name != "" && EntryFor(layout, links, m) == entry
  }

  /** The list that is made module by module is what the finished table would give. */
  lemma {:induction false} ListContents(layout: Layout, links: Links, path: seq<string>, v: Variable,
                                        modules: seq<PreloadModule>, entry: string)
    ensures entry in ListAll(layout, links, path, v, modules) <==>
            entry in path
            || exists i :: 0 <= i < |modules|
                           && Contributes(layout, LinkAll(layout, links, modules), v, modules[i], entry)
    decreases modules
  {
    if modules != [] {
      var m := modules[0];
      var after := LinkOne(layout, links, m);
      var next := if m.variable == v then ListOne(layout, after, path, m) else path;
      var final := LinkAll(layout, links, modules);
      LinkedForGood(layout, links, m, modules[1..]);
      ListContents(layout, after, next, v, modules[1..], entry);
      assert entry in next <==> entry in path || Contributes(layout, final, v, m, entry);
      if exists i :: 0 <= i < |modules| && Contributes(layout, final, v, modules[i], entry) {
        var i :| 0 <= i < |modules| && Contributes(layout, final, v, modules[i], entry);
        assert i > 0 ==> Contributes(layout, final, v, modules[1..][i - 1], entry);
      }
      if exists i :: 0 <= i < |modules[1..]| && Contributes(layout, final, v, modules[1..][i], entry) {
        var i :| 0 <= i < |modules[1..]| && Contributes(layout, final, v, modules[1..][i], entry);
        assert Contributes(layout, final, v, modules[i + 1], entry);
      }
    }
  }

  lemma EntryResolves(layout: Layout, links: Links, m: PreloadModule, abi: nat)
    requires ValidLayout(layout) && ValidLinks(layout, links)
    requires m.name != "" && !IsToken(layout, m.name)
    requires EffectiveAbi(layout, m).None? || EffectiveAbi(layout, m) == Some(abi)
    ensures Resolve(layout, links, abi, EntryFor(layout, links, m)) == Some(m.name)
  {
    if IsLinked(layout, links, m) {
      BaseOfToken(layout, Base(m.name));
    }
  }

  /**
    Completeness: on every architecture, each module that was given for it or for all
    architectures is reached through some entry of its variable's list.
   */
  lemma EveryModuleIsReachable(layout: Layout, links: Links, modules: seq<PreloadModule>, i: nat, abi: nat)
    returns (entry: string)
    requires ValidLayout(layout) && ValidLinks(layout, links)
    requires i < |modules| && modules[i].name != "" && !IsToken(layout, modules[i].name)
    requires EffectiveAbi(layout, modules[i]).None? || EffectiveAbi(layout, modules[i]) == Some(abi)
    ensures entry in ListAll(layout, links, [], modules[i].variable, modules)
    ensures Resolve(layout, LinkAll(layout, links, modules), abi, entry) == Some(modules[i].name)
  {
    var final := LinkAll(layout, links, modules);
    entry := EntryFor(layout, final, modules[i]);
    ListContents(layout, links, [], modules[i].variable, modules, entry);
    assert Contributes(layout, final, modules[i].variable, modules[i], entry);
    LinksExtend(layout, links, modules);
    EntryResolves(layout, final, modules[i], abi);
  }

  /** A module of that name was given for the variable, and has the place in the table. */
  ghost predicate IsGiven(layout: Layout, modules: seq<PreloadModule>, v: Variable, key: (nat, string), name: string) {
    exists i :: 0 <= i < |modules| && Claims(layout, modules[i], v, key, name)
  }

  predicate Claims(layout: Layout, m: PreloadModule, v: Variable, key: (nat, string), name: string) {
    m.variable == v && Slot(layout, m) == Some(key) && m.name == name
  }

  lemma {:induction false} FirstGivenIsGiven(layout: Layout, modules: seq<PreloadModule>, key: (nat, string))
    returns (v: Variable)
    requires FirstGiven(layout, modules, key).Some?
    ensures IsGiven(layout, modules, v, key, FirstGiven(layout, modules, key).value)
  {
    if Slot(layout, modules[0]) == Some(key) {
      v := modules[0].variable;
      assert Claims(layout, modules[0], v, key, modules[0].name);
    } else {
      v := FirstGivenIsGiven(layout, modules[1..], key);
      var name := FirstGiven(layout, modules, key).value;
      var i :| 0 <= i < |modules[1..]| && Claims(layout, modules[1..][i], v, key, name);
      assert Claims(layout, modules[i + 1], v, key, name);
    }
  }

  /**
    Soundness: an entry that is not a token path was given as it is; a token path resolves on
    an architecture to the link that was there before, or else to the first module given for
    that architecture under that file name, or dangles if there is none.
   */
  lemma NothingElseIsReachable(layout: Layout, links: Links, modules: seq<PreloadModule>, v: Variable, entry: string,
                               abi: nat)
    requires ValidLayout(layout) && ValidLinks(layout, links) && NoTokenNames(layout, modules)
    requires entry in ListAll(layout, links, [], v, modules)
    ensures var key := (abi, Base(entry));
            Resolve(layout, LinkAll(layout, links, modules), abi, entry)
            == if !IsToken(layout, entry) then Some(entry)
               else if key in links then Some(links[key])
               else if layout.blocked(abi, Base(entry)) then None
               else FirstGiven(layout, modules, key)
    ensures !IsToken(layout, entry) ==>
              exists i :: 0 <= i < |modules| && modules[i].variable == v && modules[i].name == entry
  {
    var final := LinkAll(layout, links, modules);
    LinkTable(layout, links, modules, (abi, Base(entry)));
    ListContents(layout, links, [], v, modules, entry);
    var i :| 0 <= i < |modules| && Contributes(layout, final, v, modules[i], entry);
    LinksExtend(layout, links, modules);
    if IsLinked(layout, final, modules[i]) {
      BaseOfToken(layout, Base(modules[i].name));
    }
  }

  /** What a token path leads to on an architecture, from the modules and earlier links alone. */
  function Owner(layout: Layout, links: Links, modules: seq<PreloadModule>, key: (nat, string)): Option<string> {
    if key in links then Some(links[key])
    else if layout.blocked(key.0, key.1) then None
    else FirstGiven(layout, modules, key)
  }

  /**
    A token path in a variable's list leads on an architecture to nothing but modules given for
    that variable and architecture, exactly if the place was free and the first module given for
    it, for either variable, is one of them, or if an earlier link there leads to one of them.
   */
  lemma TokenStaysInVariable(layout: Layout, links: Links, modules: seq<PreloadModule>, v: Variable, entry: string,
                             abi: nat)
    requires ValidLayout(layout) && ValidLinks(layout, links) && NoTokenNames(layout, modules)
    requires entry in ListAll(layout, links, [], v, modules) && IsToken(layout, entry)
    ensures var key := (abi, Base(entry));
            var found := Resolve(layout, LinkAll(layout, links, modules), abi, entry);
            var first := FirstGiven(layout, modules, key);
            (found.Some? ==> IsGiven(layout, modules, v, key, found.value)) <==>
            if key in links then IsGiven(layout, modules, v, key, links[key])
            else layout.blocked(abi, Base(entry)) || (first.Some? ==> IsGiven(layout, modules, v, key, first.value))
  {
    NothingElseIsReachable(layout, links, modules, v, entry, abi);
  }

  /** No token path in the list leads anywhere but to modules given for the variable. */
  ghost predicate ListStays(layout: Layout, links: Links, modules: seq<PreloadModule>, v: Variable) {
    forall entry, abi: nat :: entry in ListAll(layout, links, [], v, modules) && IsToken(layout, entry) ==>
      Stays(layout, modules, v, (abi, Base(entry)), Resolve(layout, LinkAll(layout, links, modules), abi, entry))
  }

  ghost predicate Stays(layout: Layout, modules: seq<PreloadModule>, v: Variable, key: (nat, string),
                        found: Option<string>) {
    found.Some? ==> IsGiven(layout, modules, v, key, found.value)
  }

  /** A module of the variable gets a token path, because it owns its place. */
  predicate Shares(layout: Layout, links: Links, modules: seq<PreloadModule>, v: Variable, i: int) {
    && 0 <= i < |modules| && modules[i].variable == v && Slot(layout, modules[i]).Some?
    && Owner(layout, links, modules, Slot(layout, modules[i]).value) == Some(modules[i].name)
  }

  /** On every architecture, whatever owns a shared file name was given for the variable. */
  ghost predicate OwnersWereGiven(layout: Layout, links: Links, modules: seq<PreloadModule>, v: Variable) {
    forall i, abi: nat :: Shares(layout, links, modules, v, i) ==>
      Stays(layout, modules, v, (abi, Base(modules[i].name)),
            Owner(layout, links, modules, (abi, Base(modules[i].name))))
  }

  lemma OwnerIsLinked(layout: Layout, links: Links, modules: seq<PreloadModule>, m: PreloadModule)
    requires ValidLinks(layout, links) && Slot(layout, m).Some?
    ensures IsLinked(layout, LinkAll(layout, links, modules), m) <==>
            Owner(layout, links, modules, Slot(layout, m).value) == Some(m.name)
  {
    LinkTable(layout, links, modules, Slot(layout, m).value);
  }

  /**
    A whole list stays within its variable, exactly if on every architecture the owner of each
    file name that some module shares with the others, through a token path, was given for it.
   */
  lemma ListStaysInVariable(layout: Layout, links: Links, modules: seq<PreloadModule>, v: Variable)
    requires ValidLayout(layout) && ValidLinks(layout, links) && NoTokenNames(layout, modules)
    ensures ListStays(layout, links, modules, v) <==> OwnersWereGiven(layout, links, modules, v)
  {
    var final := LinkAll(layout, links, modules);
    LinksExtend(layout, links, modules);
    if ListStays(layout, links, modules, v) {
      forall i, abi: nat | Shares(layout, links, modules, v, i)
        ensures Stays(layout, modules, v, (abi, Base(modules[i].name)),
                      Owner(layout, links, modules, (abi, Base(modules[i].name))))
      {
        var entry := SharedEntry(layout, links, modules, v, i);
        NothingElseIsReachable(layout, links, modules, v, entry, abi);
        assert Stays(layout, modules, v, (abi, Base(entry)), Resolve(layout, final, abi, entry));
      }
    }
    if OwnersWereGiven(layout, links, modules, v) {
      forall entry, abi: nat | entry in ListAll(layout, links, [], v, modules) && IsToken(layout, entry)
        ensures Stays(layout, modules, v, (abi, Base(entry)), Resolve(layout, final, abi, entry))
      {
        var i := TokenIsShared(layout, links, modules, v, entry);
        NothingElseIsReachable(layout, links, modules, v, entry, abi);
        assert Shares(layout, links, modules, v, i);
        assert Stays(layout, modules, v, (abi, Base(entry)), Owner(layout, links, modules, (abi, Base(entry))));
      }
    }
  }

  lemma SharedEntry(layout: Layout, links: Links, modules: seq<PreloadModule>, v: Variable, i: int)
    returns (entry: string)
    requires ValidLayout(layout) && ValidLinks(layout, links) && Shares(layout, links, modules, v, i)
    ensures entry in ListAll(layout, links, [], v, modules)
    ensures IsToken(layout, entry) && Base(entry) == Base(modules[i].name)
  {
    var final := LinkAll(layout, links, modules);
    LinksExtend(layout, links, modules);
    OwnerIsLinked(layout, links, modules, modules[i]);
    entry := Token(layout, Base(modules[i].name));
    BaseOfToken(layout, Base(modules[i].name));
    ListContents(layout, links, [], v, modules, entry);
    assert Contributes(layout, final, v, modules[i], entry);
  }

  lemma TokenIsShared(layout: Layout, links: Links, modules: seq<PreloadModule>, v: Variable, entry: string)
    returns (i: int)
    requires ValidLayout(layout) && ValidLinks(layout, links) && NoTokenNames(layout, modules)
    requires entry in ListAll(layout, links, [], v, modules) && IsToken(layout, entry)
    ensures Shares(layout, links, modules, v, i) && Base(entry) == Base(modules[i].name)
  {
    var final := LinkAll(layout, links, modules);
    LinksExtend(layout, links, modules);
    ListContents(layout, links, [], v, modules, entry);
    i :| 0 <= i < |modules| && Contributes(layout, final, v, modules[i], entry);
    OwnerIsLinked(layout, links, modules, modules[i]);
    BaseOfToken(layout, Base(modules[i].name));
  }

  /**
    In particular if nothing was linked under that file name on the architecture before, and it
    is not used there for the other variable.
   */
  lemma UnsharedNamesStay(layout: Layout, links: Links, modules: seq<PreloadModule>, v: Variable, entry: string,
                          abi: nat)
    requires ValidLayout(layout) && ValidLinks(layout, links) && NoTokenNames(layout, modules)
    requires entry in ListAll(layout, links, [], v, modules) && IsToken(layout, entry)
    requires (abi, Base(entry)) !in links
    requires forall i :: 0 <= i < |modules| && Slot(layout, modules[i]) == Some((abi, Base(entry))) ==>
               modules[i].variable == v
    ensures var found := Resolve(layout, LinkAll(layout, links, modules), abi, entry);
            found.Some? ==> IsGiven(layout, modules, v, (abi, Base(entry)), found.value)
  {
    var key := (abi, Base(entry));
    NothingElseIsReachable(layout, links, modules, v, entry, abi);
    if FirstGiven(layout, modules, key).Some? {
      var w := FirstGivenIsGiven(layout, modules, key);
      var i :| 0 <= i < |modules| && Claims(layout, modules[i], w, key, FirstGiven(layout, modules, key).value);
      assert w == v;
    }
  }

  /**
    A shared file name mixes the variables up: a module given only as an audit module for one
    architecture is preloaded there, because the same name was given for preloading elsewhere.
   */
  lemma SharedNameLeaks(layout: Layout, audit: PreloadModule, preload: PreloadModule, abi: nat, other: nat,
                        base: string)
    requires ValidLayout(layout) && abi != other && !layout.blocked(abi, base) && !layout.blocked(other, base)
    requires audit.variable == LdAudit && Slot(layout, audit) == Some((abi, base))
    requires preload.variable == LdPreload && Slot(layout, preload) == Some((other, base))
    ensures var modules := [audit, preload];
            && Token(layout, base) in ListAll(layout, map[], [], LdPreload, modules)
            && Resolve(layout, LinkAll(layout, map[], modules), abi, Token(layout, base)) == Some(audit.name)
            && !IsGiven(layout, modules, LdPreload, (abi, base), audit.name)
  {
    var modules := [audit, preload];
    var final := LinkAll(layout, map[], modules);
    assert modules[1..] == [preload];
    BaseOfToken(layout, base);
    LinkTable(layout, map[], modules, (abi, base));
    LinkTable(layout, map[], modules, (other, base));
    ListContents(layout, map[], [], LdPreload, modules, Token(layout, base));
    assert Contributes(layout, final, LdPreload, modules[1], Token(layout, base));
  }

  /**
    So does a link that was there before, such as SDL's: it is preloaded on its architecture,
    because a module of the same name was given for preloading on another one.
   */
  lemma EarlierLinkLeaks(layout: Layout, links: Links, preload: PreloadModule, abi: nat, other: nat, base: string)
    requires ValidLayout(layout) && ValidLinks(layout, links) && abi != other
    requires (abi, base) in links && CanLink(layout, links, (other, base))
    requires preload.variable == LdPreload && Slot(layout, preload) == Some((other, base))
    ensures && Token(layout, base) in ListAll(layout, links, [], LdPreload, [preload])
            && Resolve(layout, LinkAll(layout, links, [preload]), abi, Token(layout, base)) == Some(links[(abi, base)])
            && !IsGiven(layout, [preload], LdPreload, (abi, base), links[(abi, base)])
  {
    var modules := [preload];
    var final := LinkAll(layout, links, modules);
    BaseOfToken(layout, base);
    LinkTable(layout, links, modules, (abi, base));
    LinkTable(layout, links, modules, (other, base));
    ListContents(layout, links, [], LdPreload, modules, Token(layout, base));
    assert Contributes(layout, final, LdPreload, modules[0], Token(layout, base));
  }

  lemma BaseOfExample(dir: string)
    ensures Base(dir + "/" + "x") == "x"
  {
    BaseOfJoin(dir, "x");
  }

  /** With the program's own layout, `/a/x` is preloaded though it was only given as an audit module. */
  lemma SharedNameExample(tokenDir: string)
    ensures var layout := X86Layout(tokenDir, (abi, base) => base == "");
            var modules := [PreloadModule("/a/x", LdAudit, Some(0)), PreloadModule("/b/x", LdPreload, Some(1))];
            && Token(layout, "x") in ListAll(layout, map[], [], LdPreload, modules)
            && Resolve(layout, LinkAll(layout, map[], modules), 0, Token(layout, "x")) == Some("/a/x")
            && !IsGiven(layout, modules, LdPreload, (0, "x"), "/a/x")
  {
    var layout := X86Layout(tokenDir, (abi, base) => base == "");
    assert "/a" + "/" + "x" == "/a/x" && "/b" + "/" + "x" == "/b/x";
    BaseOfExample("/a");
    BaseOfExample("/b");
    SharedNameLeaks(layout, PreloadModule("/a/x", LdAudit, Some(0)), PreloadModule("/b/x", LdPreload, Some(1)), 0, 1,
                    "x");
  }

  /** `/e/x`, linked earlier for one architecture, is preloaded there because of `/b/x` on the other. */
  lemma EarlierLinkExample(tokenDir: string)
    ensures var layout := X86Layout(tokenDir, (abi, base) => base == "");
            var links: Links := map[(0, "x") := "/e/x"];
            var modules := [PreloadModule("/b/x", LdPreload, Some(1))];
            && Token(layout, "x") in ListAll(layout, links, [], LdPreload, modules)
            && Resolve(layout, LinkAll(layout, links, modules), 0, Token(layout, "x")) == Some("/e/x")
            && !IsGiven(layout, modules, LdPreload, (0, "x"), "/e/x")
  {
    var layout := X86Layout(tokenDir, (abi, base) => base == "");
    var links: Links := map[(0, "x") := "/e/x"];
    assert "/b" + "/" + "x" == "/b/x";
    BaseOfExample("/b");
    EarlierLinkLeaks(layout, links, PreloadModule("/b/x", LdPreload, Some(1)), 0, 1, "x");
  }

  /** Token paths appear at most once in a list. */
  ghost predicate TokensOnce(layout: Layout, path: seq<string>) {
    forall i, j :: 0 <= i < j < |path| && IsToken(layout, path[i]) ==> path[i] != path[j]
  }

  lemma {:induction false} TokensAppearOnce(layout: Layout, links: Links, path: seq<string>, v: Variable,
                                            modules: seq<PreloadModule>)
    requires NoTokenNames(layout, modules) && TokensOnce(layout, path)
    ensures TokensOnce(layout, ListAll(layout, links, path, v, modules))
    decreases modules
  {
    if modules != [] {
      var m := modules[0];
      var after := LinkOne(layout, links, m);
      var next := if m.variable == v then ListOne(layout, after, path, m) else path;
      assert TokensOnce(layout, next);
      TokensAppearOnce(layout, after, next, v, modules[1..]);
    }
  }

  // ---------------------------------------------------------------------------
  // The variables

  function AllItems(path: seq<string>, seps: set<char>): seq<string> {
    if path == [] then [] else AllItems(path[..|path| - 1], seps) + Items(path[|path| - 1], seps)
  }

  lemma {:induction false} JoinedItems(path: seq<string>, seps: set<char>)
    requires ':' in seps
    ensures Items(Joined(path), seps) == AllItems(path, seps)
  {
    if path != [] {
      var before, last := path[..|path| - 1], path[|path| - 1];
      JoinedItems(before, seps);
      ItemsOfJoin(Joined(before), ':', last, seps);
      assert [] + Items(last, seps) == Items(last, seps);
      assert AllItems(before, seps) + [] == AllItems(before, seps);
    }
  }

  lemma {:induction false} AllItemsOfItems(path: seq<string>, seps: set<char>)
    requires forall i :: 0 <= i < |path| ==> IsItem(path[i], seps)
    ensures AllItems(path, seps) == path
  {
    if path != [] {
      AllItemsOfItems(path[..|path| - 1], seps);
      ItemsOfItem(path[|path| - 1], seps);
      assert path == path[..|path| - 1] + [path[|path| - 1]];
    }
  }

  /** Splitting the joined list gives the list back, exactly if its entries contain no separators. */
  lemma ItemsOfJoined(path: seq<string>, seps: set<char>)
    requires ':' in seps
    ensures Items(Joined(path), seps) == path <==> forall i :: 0 <= i < |path| ==> IsItem(path[i], seps)
  {
    JoinedItems(path, seps);
    ItemsAreItems(Joined(path), seps);
    if forall i :: 0 <= i < |path| ==> IsItem(path[i], seps) {
      AllItemsOfItems(path, seps);
    }
  }

  /** An entry without separators is found, whatever the other entries are. */
  lemma {:induction false} EntryIsFound(path: seq<string>, seps: set<char>, k: nat)
    requires ':' in seps && k < |path| && IsItem(path[k], seps)
    ensures path[k] in AllItems(path, seps)
  {
    if k == |path| - 1 {
      ItemsOfItem(path[k], seps);
      assert AllItems(path, seps)[|AllItems(path[..k], seps)|] == path[k];
    } else {
      EntryIsFound(path[..|path| - 1], seps, k);
    }
  }

  predicate Without(s: string, seps: set<char>) {
    forall k :: 0 <= k < |s| ==> s[k] !in seps
  }

  /**
    Whether the dynamic linker can read a module's entry: for a module with a link, only the
    token directory and the file name matter, and for another one its whole name.
   */
  predicate EntryFits(layout: Layout, links: Links, modules: seq<PreloadModule>, m: PreloadModule) {
    if Slot(layout, m).Some? && Owner(layout, links, modules, Slot(layout, m).value) == Some(m.name) then
      Without(layout.tokenDir, Separators(m.variable)) && Without(Base(m.name), Separators(m.variable))
    else Without(m.name, Separators(m.variable))
  }

  ghost predicate VariableFits(layout: Layout, links: Links, modules: seq<PreloadModule>, v: Variable) {
    forall i :: 0 <= i < |modules| && modules[i].variable == v && modules[i].name != "" ==>
      EntryFits(layout, links, modules, modules[i])
  }

  lemma {:induction false} TrimWithout(path: string, seps: set<char>)
    requires '/' !in seps
    ensures Without(TrimRight(path), seps) <==> Without(path, seps)
  {
    if path != "" && path[|path| - 1] == '/' {
      var before := path[..|path| - 1];
      TrimWithout(before, seps);
      assert Without(path, seps) <==> Without(before, seps) by {
        assert forall k :: 0 <= k < |before| ==> path[k] == before[k];
      }
    }
  }

  lemma WithoutJoin(dir: string, base: string, seps: set<char>)
    requires '/' !in seps
    ensures Without(dir + "/" + base, seps) <==> Without(dir, seps) && Without(base, seps)
  {
    var path := dir + "/" + base;
    assert forall k :: 0 <= k < |dir| ==> path[k] == dir[k];
    assert forall k :: 0 <= k < |base| ==> base[k] == path[|dir| + 1 + k];
  }

  lemma TokenIsItem(layout: Layout, base: string, seps: set<char>)
    requires '/' !in seps && base != "" && forall k :: 0 <= k < |base| ==> base[k] != '/'
    ensures IsItem(Token(layout, base), seps) <==> Without(layout.tokenDir, seps) && Without(base, seps)
  {
    assert TrimLeft(base) == base;
    if layout.tokenDir != "" {
      TrimWithout(layout.tokenDir, seps);
      WithoutJoin(TrimRight(layout.tokenDir), base, seps);
    }
  }

  lemma EntryFitsIff(layout: Layout, links: Links, modules: seq<PreloadModule>, m: PreloadModule)
    requires ValidLayout(layout) && ValidLinks(layout, links) && m.name != ""
    ensures EntryFor(layout, LinkAll(layout, links, modules), m) != ""
    ensures IsItem(EntryFor(layout, LinkAll(layout, links, modules), m), Separators(m.variable))
            <==> EntryFits(layout, links, modules, m)
  {
    LinksExtend(layout, links, modules);
    if Slot(layout, m).Some? {
      OwnerIsLinked(layout, links, modules, m);
      if IsLinked(layout, LinkAll(layout, links, modules), m) {
        TokenIsItem(layout, Base(m.name), Separators(m.variable));
        BaseOfToken(layout, Base(m.name));
      }
    }
  }

  lemma ListFits(layout: Layout, links: Links, modules: seq<PreloadModule>, v: Variable)
    requires ValidLayout(layout) && ValidLinks(layout, links)
    ensures var list := ListAll(layout, links, [], v, modules);
            && (forall k :: 0 <= k < |list| ==> list[k] != "")
            && ((forall k :: 0 <= k < |list| ==> IsItem(list[k], Separators(v)))
                <==> VariableFits(layout, links, modules, v))
  {
    var list := ListAll(layout, links, [], v, modules);
    var final := LinkAll(layout, links, modules);
    forall k | 0 <= k < |list|
      ensures list[k] != "" && (VariableFits(layout, links, modules, v) ==> IsItem(list[k], Separators(v)))
    {
      ListContents(layout, links, [], v, modules, list[k]);
      var i :| 0 <= i < |modules| && Contributes(layout, final, v, modules[i], list[k]);
      EntryFitsIff(layout, links, modules, modules[i]);
    }
    if forall k :: 0 <= k < |list| ==> IsItem(list[k], Separators(v)) {
      forall i | 0 <= i < |modules| && modules[i].variable == v && modules[i].name != ""
        ensures EntryFits(layout, links, modules, modules[i])
      {
        var entry := EntryFor(layout, final, modules[i]);
        ListContents(layout, links, [], v, modules, entry);
        assert Contributes(layout, final, v, modules[i], entry);
        EntryFitsIff(layout, links, modules, modules[i]);
      }
    }
  }

  lemma {:induction false} JoinedIsEmpty(path: seq<string>)
    requires forall k :: 0 <= k < |path| ==> path[k] != ""
    ensures Joined(path) == "" <==> path == []
  {
    if path != [] {
      JoinedIsEmpty(path[..|path| - 1]);
    }
  }

  lemma NamesOfVariables()
    ensures VariableName(LdAudit) == "LD_AUDIT" && VariableName(LdPreload) == "LD_PRELOAD"
    ensures Separators(LdAudit) == {':'} && Separators(LdPreload) == {':', ' '}
  {
  }

  /**
    A variable is left alone if its list is empty, and otherwise holds the list joined together.
    What the dynamic linker reads from it is the list, exactly if each module's entry fits.
   */
  lemma VariableHoldsList(layout: Layout, links: Links, modules: seq<PreloadModule>, v: Variable, env: Env)
    requires ValidLayout(layout) && ValidLinks(layout, links)
    ensures var list := ListAll(layout, links, [], v, modules);
            var name := if v == LdAudit then "LD_AUDIT" else "LD_PRELOAD";
            var seps := if v == LdAudit then {':'} else {':', ' '};
            var value := Get(EnvAfter(layout, links, modules, env), name);
            if list == [] then value == Get(env, name)
            else
              && value == Some(Joined(list))
              && (Items(value.value, seps) == list <==> VariableFits(layout, links, modules, v))
  {
    NamesOfVariables();
    var list := ListAll(layout, links, [], v, modules);
    ListFits(layout, links, modules, v);
    JoinedIsEmpty(list);
    ItemsOfJoined(list, Separators(v));
    GetAfterBoth(env, Joined(ListAll(layout, links, [], LdAudit, modules)),
                 Joined(ListAll(layout, links, [], LdPreload, modules)), v);
  }

  lemma GetAfterBoth(env: Env, audit: string, preload: string, v: Variable)
    ensures var value := if v == LdAudit then audit else preload;
            Get(SetUnlessEmpty(SetUnlessEmpty(env, LdAudit, audit), LdPreload, preload), VariableName(v))
            == if value == "" then Get(env, VariableName(v)) else Some(value)
  {
    VariableNameIsValid(LdAudit);
    VariableNameIsValid(LdPreload);
    var first := SetUnlessEmpty(env, LdAudit, audit);
    GetAfterSet(env, VariableName(LdAudit), audit, true, VariableName(v));
    GetAfterSet(first, VariableName(LdPreload), preload, true, VariableName(v));
    assert |VariableName(LdAudit)| != |VariableName(LdPreload)|;
  }

  /**
    End to end: from the finished environment and links, the dynamic linker of an architecture
    loads every module that was given for it or for all architectures and whose own entry fits,
    whatever the other entries are.
   */
  lemma PreloadReachesEveryAbi(layout: Layout, links: Links, modules: seq<PreloadModule>, env: Env, i: nat, abi: nat)
    requires ValidLayout(layout) && ValidLinks(layout, links)
    requires i < |modules| && modules[i].name != "" && !IsToken(layout, modules[i].name)
    requires EntryFits(layout, links, modules, modules[i])
    requires EffectiveAbi(layout, modules[i]).None? || EffectiveAbi(layout, modules[i]) == Some(abi)
    ensures var isAudit := modules[i].variable == LdAudit;
            var value := Get(EnvAfter(layout, links, modules, env), if isAudit then "LD_AUDIT" else "LD_PRELOAD");
            value.Some?
            && exists entry :: entry in Items(value.value, if isAudit then {':'} else {':', ' '})
                 && Resolve(layout, LinkAll(layout, links, modules), abi, entry) == Some(modules[i].name)
  {
    var m := modules[i];
    NamesOfVariables();
    var list := ListAll(layout, links, [], m.variable, modules);
    var final := LinkAll(layout, links, modules);
    var entry := EntryFor(layout, final, m);
    ListContents(layout, links, [], m.variable, modules, entry);
    assert Contributes(layout, final, m.variable, m, entry);
    EntryFitsIff(layout, links, modules, m);
    LinksExtend(layout, links, modules);
    EntryResolves(layout, final, m, abi);
    VariableHoldsList(layout, links, modules, m.variable, env);
    var k :| 0 <= k < |list| && list[k] == entry;
    EntryIsFound(list, Separators(m.variable), k);
    JoinedItems(list, Separators(m.variable));
  }

  /** A module for all architectures is listed as it is. */
  lemma OneUnlinkedModule(layout: Layout, m: PreloadModule)
    requires m.name != "" && EffectiveAbi(layout, m).None?
    ensures ListAll(layout, map[], [], m.variable, [m]) == [m.name]
    ensures LinkAll(layout, map[], [m]) == map[]
  {
    assert [m][1..] == [];
    assert [] + [m.name] == [m.name];
  }

  /**
    A module for all architectures whose name contains a separator: the dynamic linker reads
    other names instead, and loads the module on no architecture.
   */
  lemma SpacedModuleIsLost(layout: Layout, m: PreloadModule, env: Env, abi: nat)
    requires ValidLayout(layout) && m.name != "" && EffectiveAbi(layout, m).None?
    requires !Without(m.name, Separators(m.variable))
    ensures Get(EnvAfter(layout, map[], [m], env), VariableName(m.variable)) == Some(m.name)
    ensures forall entry :: entry in Items(m.name, Separators(m.variable)) ==>
              Resolve(layout, LinkAll(layout, map[], [m]), abi, entry) != Some(m.name)
  {
    OneUnlinkedModule(layout, m);
    NamesOfVariables();
    VariableHoldsList(layout, map[], [m], m.variable, env);
    assert [m.name][..0] == [];
    ItemsAreItems(m.name, Separators(m.variable));
  }

  lemma ItemsOfSpaced(seps: set<char>)
    requires ' ' in seps && '/' !in seps && 'a' !in seps && 'b' !in seps && 'x' !in seps
    ensures Items("/a b/x", seps) == ["/a", "b/x"] && !Without("/a b/x", seps)
  {
    ItemsOfItem("/a", seps);
    ItemsOfItem("b/x", seps);
    ItemsOfJoin("/a", ' ', "b/x", seps);
    assert "/a" + [' '] + "b/x" == "/a b/x";
    assert "/a b/x"[2] == ' ';
  }

  lemma SpacedIsForAll(tokenDir: string)
    ensures var layout := X86Layout(tokenDir, (abi, base) => base == "");
            ValidLayout(layout) && EffectiveAbi(layout, PreloadModule("/a b/x", LdPreload, None)) == None
  {
    var layout := X86Layout(tokenDir, (abi, base) => base == "");
    assert "/a b" + "/" + "x" == "/a b/x";
    BaseOfExample("/a b");
    assert |layout.overlayName| != |"x"|;
  }

  /** With the program's own layout, `/a b/x` for all architectures is read as two other names. */
  lemma SpacedModuleExample(tokenDir: string, env: Env, abi: nat)
    ensures var layout := X86Layout(tokenDir, (abi, base) => base == "");
            var modules := [PreloadModule("/a b/x", LdPreload, None)];
            && Get(EnvAfter(layout, map[], modules, env), "LD_PRELOAD") == Some("/a b/x")
            && Items("/a b/x", {':', ' '}) == ["/a", "b/x"]
            && forall entry :: entry in Items("/a b/x", {':', ' '}) ==>
                 Resolve(layout, LinkAll(layout, map[], modules), abi, entry) != Some("/a b/x")
  {
    var layout := X86Layout(tokenDir, (abi, base) => base == "");
    SpacedIsForAll(tokenDir);
    NamesOfVariables();
    ItemsOfSpaced(Separators(LdPreload));
    SpacedModuleIsLost(layout, PreloadModule("/a b/x", LdPreload, None), env, abi);
  }
}
