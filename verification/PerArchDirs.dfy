/**
  Temporary library directories, one for each architecture, and the one path with a dynamic
  string token that the dynamic linker expands to the directory of the current architecture.
 */
module PerArchDirs {
  import opened Wrappers
  import opened Paths

  /** The links in the directories: architecture and file name to target. */
  type Links = map<(nat, string), string>

  /**
    What stays fixed: the path with the token, the architectures, the directory and name of
    Steam's overlay library for each, and the places where no link can be made.
   */
  datatype Layout = Layout(
    tokenDir: string,
    tuples: seq<string>,
    overlayDirs: seq<string>,
    overlayName: string,
    blocked: (nat, string) -> bool)

  function X86Tuples(): seq<string> {
    ["x86_64-linux-gnu", "i386-linux-gnu"]
  }

  function X86Layout(tokenDir: string, blocked: (nat, string) -> bool): Layout {
    Layout(tokenDir, X86Tuples(), ["ubuntu12_64", "ubuntu12_32"],
           "gameoverlayrenderer.so", blocked)
  }

  /** `glnx_basename` */
  function Base(path: string): (base: string)
    ensures forall k :: 0 <= k < |base| ==> base[k] != '/'
  {
    if path == "" || path[|path| - 1] == '/' then ""
    else Base(path[..|path| - 1]) + [path[|path| - 1]]
  }

  lemma {:induction false} BaseOfJoin(dir: string, base: string)
    requires forall k :: 0 <= k < |base| ==> base[k] != '/'
    ensures Base(dir + "/" + base) == base
  {
    var path := dir + "/" + base;
    if base != "" {
      BaseOfJoin(dir, base[..|base| - 1]);
      assert path[..|path| - 1] == dir + "/" + base[..|base| - 1];
    }
  }

  lemma {:induction false} BaseOfName(base: string)
    requires forall k :: 0 <= k < |base| ==> base[k] != '/'
    ensures Base(base) == base
  {
    if base != "" {
      BaseOfName(base[..|base| - 1]);
    }
  }

  /** The path through which the library called `base` is loaded on any architecture. */
  function Token(layout: Layout, base: string): string {
    BuildFilename(layout.tokenDir, base)
  }

  predicate IsToken(layout: Layout, entry: string) {
    Base(entry) != "" && entry == Token(layout, Base(entry))
  }

  lemma BaseOfToken(layout: Layout, base: string)
    requires base != "" && forall k :: 0 <= k < |base| ==> base[k] != '/'
    ensures Base(Token(layout, base)) == base && IsToken(layout, Token(layout, base))
  {
    BaseOfName(base);
    BaseOfJoin(TrimRight(layout.tokenDir), base);
  }

  /** What the dynamic linker of an architecture loads for an entry; `None` if it dangles. */
  function Resolve(layout: Layout, links: Links, abi: nat, entry: string): Option<string> {
    if !IsToken(layout, entry) then Some(entry)
    else if (abi, Base(entry)) in links then Some(links[(abi, Base(entry))])
    else None
  }

  /** The directories themselves are in the way of a link without a name. */
  ghost predicate ValidLayout(layout: Layout) {
    forall abi: nat :: layout.blocked(abi, "")
  }

  ghost predicate ValidLinks(layout: Layout, links: Links) {
    forall key :: key in links ==> !layout.blocked(key.0, key.1)
  }

  /** Links are only ever added. */
  predicate Extends(links: Links, more: Links) {
    forall key :: key in links ==> key in more && more[key] == links[key]
  }

  predicate CanLink(layout: Layout, links: Links, key: (nat, string)) {
    key !in links && !layout.blocked(key.0, key.1)
  }

  class LinkDirs {
    const layout: Layout
    var links: Links

    constructor (layout: Layout)
      ensures this.layout == layout && links == map[]
    {
      this.layout := layout;
      links := map[];
    }

    /** symlink(2), which fails if there is anything there already. */
    method Symlink(target: string, abi: nat, base: string) returns (ok: bool)
      modifies this`links
      ensures ok == CanLink(layout, old(links), (abi, base))
      ensures links == if ok then old(links)[(abi, base) := target] else old(links)
    {
      ok := (abi, base) !in links && !layout.blocked(abi, base);
      if ok {
        links := links[(abi, base) := target];
      }
    }
  }
}
