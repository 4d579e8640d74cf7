/**
  Adjusting exported files and directories for a container or an interpreter: a pass over a
  flat argument list of mount operations, which appends an adjusted list to another builder.
 */
module BwrapRewrite {
  import opened Wrappers
  import opened Splitting
  import opened Paths
  import opened BwrapBuilder

  // ---------------------------------------------------------------------------
  // Operations

  datatype Kind =
    | DataMount   // two operands; the second is where a file is mounted
    | NewFile     // two operands; the second is where a file is created
    | OtherTriple // two operands, neither of the above
    | FreshMount  // one operand, where a new file system is mounted
    | Tmpfs       // likewise, for temporary file systems
    | NewDir      // one operand, where a directory is created
    | OtherPair   // one operand, none of the above
    | Bind        // source and destination
    | Perms       // permissions for the next operation
    | Unknown

  /** The number of arguments that an operation takes up, including its name. */
  function Width(kind: Kind): nat {
    match kind
    case DataMount => 3
    case NewFile => 3
    case OtherTriple => 3
    case Bind => 3
    case Unknown => 1
    case _ => 2
  }

  /** The table of options that the program knows. */
  function KindOf(opt: string): Kind {
    if opt == "--bind-data" || opt == "--ro-bind-data" then DataMount
    else if opt == "--file" then NewFile
    else if opt == "--chmod" || opt == "--symlink" then OtherTriple
    else if opt == "--dev" || opt == "--mqueue" || opt == "--proc" then FreshMount
    else if opt == "--tmpfs" then Tmpfs
    else if opt == "--dir" then NewDir
    else if opt == "--remount-ro" then OtherPair
    else if opt == "--bind" || opt == "--bind-try" || opt == "--dev-bind" || opt == "--dev-bind-try"
            || opt == "--ro-bind" || opt == "--ro-bind-try" then Bind
    else if opt == "--perms" then Perms
    else Unknown
  }

  /** Exactly these options are known: with two operands, with one, and those that bind. */
  lemma KnownOptions(opt: string)
    ensures KindOf(opt) == Bind <==>
            opt in ["--bind", "--bind-try", "--dev-bind", "--dev-bind-try", "--ro-bind", "--ro-bind-try"]
    ensures Width(KindOf(opt)) == 3 && KindOf(opt) != Bind <==>
            opt in ["--bind-data", "--chmod", "--ro-bind-data", "--file", "--symlink"]
    ensures Width(KindOf(opt)) == 2 <==>
            opt in ["--dev", "--dir", "--mqueue", "--proc", "--remount-ro", "--tmpfs", "--perms"]
    ensures KindOf(opt) == Unknown <==> Width(KindOf(opt)) == 1
    ensures (KindOf(opt) == Tmpfs <==> opt == "--tmpfs") && (KindOf(opt) == Perms <==> opt == "--perms")
  {
  }

  /** `pv_runtime_path_belongs_in_interpreter_root` */
  predicate Belongs(path: string) {
    HasPathPrefix(path, "etc") || HasPathPrefix(path, "overrides") || HasPathPrefix(path, "usr")
    || HasPathPrefix(path, "var")
  }

  /** Sources and mount points that the Snap workarounds filter out. */
  predicate IsBrokenBind(source: string) {
    source == "/var/lib/snapd/desktop"
  }

  predicate IsBrokenTmpfs(target: string) {
    "/snap/steam" <= target
  }

  /** Where an interpreter root appears in the container. */
  const INTERPRETER_ROOT := "/run/pressure-vessel/interpreter-root"

  /**
    What the rewriter depends on: its tables of options, of paths that belong in an
    interpreter root and of broken mounts, where an interpreter root appears, its path if there
    is one, whether a path exists in it or in the real root, the home directory and how paths
    below it are seen from the host, and the workarounds that are in force. Everything below
    holds for any such tables.
   */
  datatype Context = Context(
    kindOf: string -> Kind,
    belongs: string -> bool,
    brokenBind: string -> bool,
    brokenTmpfs: string -> bool,
    mountPoint: string,
    interpreterRoot: Option<string>,
    inInterpreterRoot: string -> bool,
    inRealRoot: string -> bool,
    home: string,
    toHost: string -> string,
    snap369: bool,
    snap370: bool,
    noPerms: bool)

  /** The context with the tables of the program. */
  function ProgramContext(interpreterRoot: Option<string>, inInterpreterRoot: string -> bool,
                          inRealRoot: string -> bool, home: string, toHost: string -> string,
                          snap369: bool, snap370: bool, noPerms: bool): Context
  {
    Context(s => KindOf(s), s => Belongs(s), s => IsBrokenBind(s), s => IsBrokenTmpfs(s), INTERPRETER_ROOT,
            interpreterRoot, inInterpreterRoot, inRealRoot, home, toHost, snap369, snap370, noPerms)
  }

  /** A second operand is "" for operations with only one. */
  datatype Op = Op(opt: string, a: string, b: string)

  predicate WellFormed(c: Context, op: Op) {
    c.kindOf(op.opt) != Unknown && (Width(c.kindOf(op.opt)) == 2 ==> op.b == "")
  }

  ghost predicate AllWellFormed(c: Context, ops: seq<Op>) {
    forall i :: 0 <= i < |ops| ==> WellFormed(c, ops[i])
  }

  function Words(c: Context, op: Op): seq<string> {
    if Width(c.kindOf(op.opt)) == 3 then [op.opt, op.a, op.b] else [op.opt, op.a]
  }

  function Flatten(c: Context, ops: seq<Op>): seq<string> {
    if ops == [] then [] else Words(c, ops[0]) + Flatten(c, ops[1..])
  }

  /** Whether the next argument starts a complete operation. */
  predicate StartsOp(c: Context, argv: seq<string>) {
    argv != [] && c.kindOf(argv[0]) != Unknown && Width(c.kindOf(argv[0])) <= |argv|
  }

  function FirstOp(c: Context, argv: seq<string>): Op
    requires StartsOp(c, argv)
  {
    Op(argv[0], argv[1], if Width(c.kindOf(argv[0])) == 3 then argv[2] else "")
  }

  /** The operations at the start of `argv`, and what is left when none can be read any more. */
  function Parse(c: Context, argv: seq<string>): (seq<Op>, seq<string>)
    decreases |argv|
  {
    if StartsOp(c, argv) then
      var (ops, rest) := Parse(c, argv[Width(c.kindOf(argv[0]))..]);
      ([FirstOp(c, argv)] + ops, rest)
    else ([], argv)
  }

  lemma {:induction false} FlattenAppend(c: Context, ops: seq<Op>, more: seq<Op>)
    ensures Flatten(c, ops + more) == Flatten(c, ops) + Flatten(c, more)
  {
    if ops == [] {
      assert ops + more == more;
    } else {
      FlattenAppend(c, ops[1..], more);
      assert (ops + more)[1..] == ops[1..] + more;
      Regroup(Words(c, ops[0]), Flatten(c, ops[1..]), Flatten(c, more));
    }
  }

  lemma FlattenCons(c: Context, op: Op, ops: seq<Op>)
    ensures Flatten(c, [op] + ops) == Words(c, op) + Flatten(c, ops)
  {
    assert ([op] + ops)[1..] == ops;
  }

  lemma FlattenOne(c: Context, op: Op)
    ensures Flatten(c, [op]) == Words(c, op)
  {
    assert [op][1..] == [];
  }

  lemma ParseWords(c: Context, op: Op, tail: seq<string>)
    requires WellFormed(c, op)
    ensures Parse(c, Words(c, op) + tail) == ([op] + Parse(c, tail).0, Parse(c, tail).1)
  {
    var argv := Words(c, op) + tail;
    assert argv[|Words(c, op)|..] == tail;
    assert StartsOp(c, argv) && FirstOp(c, argv) == op;
  }

  /** Parsing a flattened list of operations gives back the list, up to what follows it. */
  lemma {:induction false} ParseFlatten(c: Context, ops: seq<Op>, rest: seq<string>)
    requires AllWellFormed(c, ops)
    ensures Parse(c, Flatten(c, ops) + rest) == (ops + Parse(c, rest).0, Parse(c, rest).1)
  {
    if ops == [] {
      assert Flatten(c, ops) + rest == rest;
      assert ops + Parse(c, rest).0 == Parse(c, rest).0;
    } else {
      var tail := Flatten(c, ops[1..]) + rest;
      assert WellFormed(c, ops[0]);
      assert Flatten(c, ops) + rest == Words(c, ops[0]) + tail by {
        Regroup(Words(c, ops[0]), Flatten(c, ops[1..]), rest);
      }
      ParseWords(c, ops[0], tail);
      ParseFlatten(c, ops[1..], rest);
      HeadAndTail(ops, Parse(c, rest).0);
    }
  }

  lemma HeadAndTail(ops: seq<Op>, more: seq<Op>)
    requires ops != []
    ensures [ops[0]] + (ops[1..] + more) == ops + more
  {
  }

  lemma WordsOfFirst(c: Context, argv: seq<string>)
    requires StartsOp(c, argv)
    ensures |Words(c, FirstOp(c, argv))| == Width(c.kindOf(argv[0]))
    ensures Words(c, FirstOp(c, argv)) + argv[Width(c.kindOf(argv[0]))..] == argv
    ensures WellFormed(c, FirstOp(c, argv))
  {
  }

  lemma {:induction false} FlattenParse(c: Context, argv: seq<string>)
    ensures AllWellFormed(c, Parse(c, argv).0)
    ensures Flatten(c, Parse(c, argv).0) + Parse(c, argv).1 == argv
    ensures !StartsOp(c, Parse(c, argv).1)
    decreases |argv|
  {
    if StartsOp(c, argv) {
      var op := FirstOp(c, argv);
      var tail := argv[Width(c.kindOf(argv[0]))..];
      FlattenParse(c, tail);
      WordsOfFirst(c, argv);
      FlattenCons(c, op, Parse(c, tail).0);
      Regroup(Words(c, op), Flatten(c, Parse(c, tail).0), Parse(c, tail).1);
    } else {
      assert Flatten(c, []) + argv == argv;
    }
  }

  // ---------------------------------------------------------------------------
  // Rewriting one operation

  function AdjustedSource(c: Context, src: string): string {
    if HasPathPrefix(src, c.home) then c.toHost(src) else src
  }

  predicate InInterpreter(c: Context, src: string) {
    c.interpreterRoot.Some? && c.inInterpreterRoot(src)
  }

  predicate IsFiltered(c: Context, op: Op) {
    match c.kindOf(op.opt)
    case Bind => c.snap369 && c.brokenBind(op.a)
    case Tmpfs => c.snap370 && c.brokenTmpfs(op.a)
    case Perms => c.noPerms
    case _ => false
  }

  /** The operation's image in the interpreter root, or in place of the real one. */
  function InterpreterImage(c: Context, op: Op): seq<Op> {
    if InInterpreter(c, op.a) then
      [Op(op.opt, BuildFilename(c.interpreterRoot.value, op.a),
          if c.belongs(op.b) then BuildFilename(c.mountPoint, op.b) else op.b)]
    else []
  }

  function RealImage(c: Context, op: Op): seq<Op> {
    if (c.interpreterRoot.None? || c.inRealRoot(op.a)) && !(InInterpreter(c, op.a) && !c.belongs(op.b)) then
      [Op(op.opt, AdjustedSource(c, op.a), op.b)]
    else []
  }

  function Rewrite(c: Context, op: Op): seq<Op> {
    if IsFiltered(c, op) then []
    else if c.kindOf(op.opt) == Bind then InterpreterImage(c, op) + RealImage(c, op)
    else [op]
  }

  function RewriteAll(c: Context, ops: seq<Op>): seq<Op> {
    if ops == [] then [] else Rewrite(c, ops[0]) + RewriteAll(c, ops[1..])
  }

  lemma {:induction false} RewriteKeepsWellFormed(c: Context, ops: seq<Op>)
    requires AllWellFormed(c, ops)
    ensures AllWellFormed(c, RewriteAll(c, ops))
  {
    if ops != [] {
      assert WellFormed(c, ops[0]);
      RewriteKeepsWellFormed(c, ops[1..]);
    }
  }

  /**
    The rewriter is a homomorphism: what it appends for a complete list of operations parses
    as the images of the operations, one after the other.
   */
  lemma RewriteIsHomomorphism(c: Context, argv: seq<string>)
    requires Parse(c, argv).1 == []
    ensures Parse(c, Flatten(c, RewriteAll(c, Parse(c, argv).0))) == (RewriteAll(c, Parse(c, argv).0), [])
  {
    var ops := Parse(c, argv).0;
    FlattenParse(c, argv);
    RewriteKeepsWellFormed(c, ops);
    var images := RewriteAll(c, ops);
    ParseFlatten(c, images, []);
    assert Flatten(c, images) + [] == Flatten(c, images);
    assert images + [] == images;
  }

  /** Without an interpreter root and workarounds, only the sources of binds below the home directory change. */
  lemma {:induction false} RewriteIsIdentity(c: Context, ops: seq<Op>)
    requires c.interpreterRoot.None? && !c.snap369 && !c.snap370 && !c.noPerms
    ensures |RewriteAll(c, ops)| == |ops|
    ensures forall i :: 0 <= i < |ops| ==>
              RewriteAll(c, ops)[i] ==
              if c.kindOf(ops[i].opt) == Bind && HasPathPrefix(ops[i].a, c.home) then
                ops[i].(a := c.toHost(ops[i].a))
              else ops[i]
  {
    if ops != [] {
      RewriteIsIdentity(c, ops[1..]);
    }
  }

  /** What the workarounds take out. */
  predicate WorkedAround(c: Context, op: Op) {
    || (c.kindOf(op.opt) == Bind && c.snap369 && c.brokenBind(op.a))
    || (c.kindOf(op.opt) == Tmpfs && c.snap370 && c.brokenTmpfs(op.a))
    || (c.kindOf(op.opt) == Perms && c.noPerms)
  }

  /** A bind is dropped only by the workaround, or because its source is in neither root. */
  lemma BindIsDroppedIff(c: Context, op: Op)
    requires c.kindOf(op.opt) == Bind
    ensures Rewrite(c, op) == [] <==>
            || (c.snap369 && c.brokenBind(op.a))
            || (c.interpreterRoot.Some? && !c.inInterpreterRoot(op.a) && !c.inRealRoot(op.a))
  {
  }

  /** Any other operation is dropped only by a workaround, and kept as it is otherwise. */
  lemma OtherIsDroppedIff(c: Context, op: Op)
    requires c.kindOf(op.opt) != Bind
    ensures Rewrite(c, op) == if (c.kindOf(op.opt) == Tmpfs && c.snap370 && c.brokenTmpfs(op.a))
                                 || (c.kindOf(op.opt) == Perms && c.noPerms) then []
                              else [op]
  {
  }

  /** With the program's tables, the workaround drops binds of one directory and no others. */
  lemma ProgramDropsIff(interpreterRoot: Option<string>, inInterpreterRoot: string -> bool,
                        inRealRoot: string -> bool, home: string, toHost: string -> string,
                        snap369: bool, snap370: bool, noPerms: bool, op: Op)
    requires KindOf(op.opt) == Bind
    ensures var c := ProgramContext(interpreterRoot, inInterpreterRoot, inRealRoot, home, toHost,
                                    snap369, snap370, noPerms);
            Rewrite(c, op) == [] <==>
            || (snap369 && op.a == "/var/lib/snapd/desktop")
            || (interpreterRoot.Some? && !inInterpreterRoot(op.a) && !inRealRoot(op.a))
  {
    BindIsDroppedIff(ProgramContext(interpreterRoot, inInterpreterRoot, inRealRoot, home, toHost,
                                    snap369, snap370, noPerms), op);
  }

  /** So any other one is kept with the workaround, such as the one for fonts. */
  lemma FontsAreKept(inRealRoot: string -> bool, home: string, toHost: string -> string)
    ensures var c := ProgramContext(None, _ => false, inRealRoot, home, toHost, true, true, true);
            |Rewrite(c, Op("--ro-bind", "/usr/share/fonts", "/run/host/fonts"))| == 1
  {
    var c := ProgramContext(None, _ => false, inRealRoot, home, toHost, true, true, true);
    assert |"/usr/share/fonts"| != |"/var/lib/snapd/desktop"|;
    BindIsDroppedIff(c, Op("--ro-bind", "/usr/share/fonts", "/run/host/fonts"));
  }

  lemma PrefixIsFirstElement(path: string, name: string)
    requires IsItem(name, {'/'})
    ensures HasPathPrefix(path, name) <==> StartsWith(path, name)
  {
    ItemsOfItem(name, {'/'});
  }

  lemma RootNamesAreItems()
    ensures IsItem("etc", {'/'}) && IsItem("overrides", {'/'}) && IsItem("usr", {'/'}) && IsItem("var", {'/'})
  {
  }

  predicate StartsWith(path: string, name: string) {
    Elements(path) != [] && Elements(path)[0] == name
  }

  /** What belongs in an interpreter root is decided by the first element of a path. */
  lemma BelongsByFirstElement(path: string)
    ensures Belongs(path) <==>
            StartsWith(path, "etc") || StartsWith(path, "overrides") || StartsWith(path, "usr")
            || StartsWith(path, "var")
  {
    RootNamesAreItems();
    PrefixIsFirstElement(path, "etc");
    PrefixIsFirstElement(path, "overrides");
    PrefixIsFirstElement(path, "usr");
    PrefixIsFirstElement(path, "var");
  }

  /** The operations other than binds, with or without those that the workarounds take out. */
  function Others(c: Context, ops: seq<Op>, all: bool): seq<Op> {
    if ops == [] then []
    else if c.kindOf(ops[0].opt) != Bind && (all || !WorkedAround(c, ops[0])) then [ops[0]] + Others(c, ops[1..], all)
    else Others(c, ops[1..], all)
  }

  lemma {:induction false} OthersAppend(c: Context, ops: seq<Op>, more: seq<Op>, all: bool)
    ensures Others(c, ops + more, all) == Others(c, ops, all) + Others(c, more, all)
  {
    if ops == [] {
      assert ops + more == more;
    } else {
      OthersAppend(c, ops[1..], more, all);
      assert (ops + more)[1..] == ops[1..] + more;
      Regroup([ops[0]], Others(c, ops[1..], all), Others(c, more, all));
    }
  }

  /** Binds turn into binds only. */
  lemma {:induction false} OthersOfBinds(c: Context, ops: seq<Op>)
    requires forall i :: 0 <= i < |ops| ==> c.kindOf(ops[i].opt) == Bind
    ensures Others(c, ops, true) == []
  {
    if ops != [] {
      OthersOfBinds(c, ops[1..]);
    }
  }

  lemma OthersOfRewrite(c: Context, op: Op)
    ensures Others(c, Rewrite(c, op), true) == Others(c, [op], false)
  {
    assert [op][1..] == [];
    if c.kindOf(op.opt) == Bind {
      OthersOfBinds(c, Rewrite(c, op));
    }
  }

  /** Every other operation is kept unchanged and in order, except where a workaround takes it out. */
  lemma {:induction false} OthersAreKept(c: Context, ops: seq<Op>)
    ensures Others(c, RewriteAll(c, ops), true) == Others(c, ops, false)
  {
    if ops != [] {
      OthersAreKept(c, ops[1..]);
      OthersAppend(c, Rewrite(c, ops[0]), RewriteAll(c, ops[1..]), true);
      OthersOfRewrite(c, ops[0]);
      OthersAppend(c, [ops[0]], ops[1..], false);
      assert [ops[0]] + ops[1..] == ops;
    }
  }

  // ---------------------------------------------------------------------------
  // The rewriter

  /** Whether the arguments end in the middle of an operation, which the program asserts not. */
  predicate IsTruncated(c: Context, argv: seq<string>) {
    var rest := Parse(c, argv).1;
    rest != [] && c.kindOf(rest[0]) != Unknown
  }

  /** The adjusted arguments, read and written one operation at a time. */
  function Adjusted(c: Context, argv: seq<string>): seq<string>
    decreases |argv|
  {
    if StartsOp(c, argv) then
      Flatten(c, Rewrite(c, FirstOp(c, argv))) + Adjusted(c, argv[Width(c.kindOf(argv[0]))..])
    else []
  }

  lemma RewriteAllCons(c: Context, op: Op, ops: seq<Op>)
    ensures RewriteAll(c, [op] + ops) == Rewrite(c, op) + RewriteAll(c, ops)
  {
    assert ([op] + ops)[1..] == ops;
  }

  /** Working one operation at a time amounts to rewriting the list of all operations. */
  lemma {:induction false} AdjustedIsRewriteAll(c: Context, argv: seq<string>)
    ensures Adjusted(c, argv) == Flatten(c, RewriteAll(c, Parse(c, argv).0))
    decreases |argv|
  {
    if StartsOp(c, argv) {
      var op := FirstOp(c, argv);
      var tail := argv[Width(c.kindOf(argv[0]))..];
      AdjustedIsRewriteAll(c, tail);
      RewriteAllCons(c, op, Parse(c, tail).0);
      FlattenAppend(c, Rewrite(c, op), RewriteAll(c, Parse(c, tail).0));
    }
  }

  /** What the rest of the arguments says about all of them. */
  lemma ReadNext(c: Context, argv: seq<string>, i: nat)
    requires i < |argv| && StartsOp(c, argv[i..])
    ensures var next := i + Width(c.kindOf(argv[i]));
            && next <= |argv|
            && Adjusted(c, argv[i..]) == Flatten(c, Rewrite(c, FirstOp(c, argv[i..]))) + Adjusted(c, argv[next..])
            && Parse(c, argv[i..]).1 == Parse(c, argv[next..]).1
  {
    var next := i + Width(c.kindOf(argv[i]));
    assert argv[i..][Width(c.kindOf(argv[i]))..] == argv[next..];
  }

  /** Nothing is read beyond an unknown option, or at the end. */
  lemma ReadNothing(c: Context, argv: seq<string>, i: nat)
    requires i <= |argv| && !StartsOp(c, argv[i..])
    ensures Adjusted(c, argv[i..]) == [] && Parse(c, argv[i..]) == ([], argv[i..])
  {
  }

  method AppendAdjustedExports(to: FlatpakBwrap, from: FlatpakBwrap, c: Context, realRootOk: bool)
    returns (ok: bool)
    requires to != from
    requires !IsTruncated(c, from.argv)
    modifies to`argv, to`fds, from`fds
    ensures to.fds == old(to.fds) + old(from.fds) && from.fds == []
    ensures var usable := c.interpreterRoot.None? || realRootOk;
            && (ok <==> usable && Parse(c, from.argv).1 == [])
            && to.argv == old(to.argv) + if usable then Flatten(c, RewriteAll(c, Parse(c, from.argv).0)) else []
  {
    var stolen := from.StealFds();
    to.AddFds(stolen);
    if c.interpreterRoot.Some? && !realRootOk {
      return false;
    }
    ok := AppendAdjustedOps(to, c, from.argv);
    AdjustedIsRewriteAll(c, from.argv);
  }

  /** The loop over the arguments, which gives up at the first unknown option. */
  method AppendAdjustedOps(to: FlatpakBwrap, c: Context, argv: seq<string>) returns (ok: bool)
    requires !IsTruncated(c, argv)
    modifies to`argv
    ensures ok <==> Parse(c, argv).1 == []
    ensures to.argv == old(to.argv) + Adjusted(c, argv)
  {
    var i := 0;
    assert argv[0..] == argv;
    while i < |argv|
      invariant 0 <= i <= |argv|
      invariant Parse(c, argv[i..]).1 == Parse(c, argv).1
      invariant to.argv + Adjusted(c, argv[i..]) == old(to.argv) + Adjusted(c, argv)
      decreases |argv| - i
    {
      if c.kindOf(argv[i]) == Unknown {
        ReadNothing(c, argv, i);
        assert to.argv + [] == to.argv;
        return false;
      }
      NotTruncated(c, argv, i);
      ReadNext(c, argv, i);
      ghost var written := to.argv;
      ghost var output := Flatten(c, Rewrite(c, FirstOp(c, argv[i..])));
      i := AppendAdjustedOp(to, c, argv, i);
      Regroup(written, output, Adjusted(c, argv[i..]));
    }
    ReadNothing(c, argv, i);
    assert to.argv + [] == to.argv;
    ok := true;
  }

  lemma NotTruncated(c: Context, argv: seq<string>, i: nat)
    requires !IsTruncated(c, argv) && i < |argv| && Parse(c, argv[i..]).1 == Parse(c, argv).1
    requires c.kindOf(argv[i]) != Unknown
    ensures StartsOp(c, argv[i..])
  {
    if !StartsOp(c, argv[i..]) {
      ReadNothing(c, argv, i);
    }
  }

  /** One turn of the loop: handle the operation at `i`, and move on to the next. */
  method AppendAdjustedOp(to: FlatpakBwrap, c: Context, argv: seq<string>, i: nat) returns (next: nat)
    requires i < |argv| && StartsOp(c, argv[i..])
    modifies to`argv
    ensures next == i + Width(c.kindOf(argv[i])) <= |argv|
    ensures to.argv == old(to.argv) + Flatten(c, Rewrite(c, FirstOp(c, argv[i..])))
  {
    var opt := argv[i];
    var kind := c.kindOf(opt);
    FlattenOne(c, FirstOp(c, argv[i..]));
    next := i + Width(kind);
    if kind == Bind {
      AppendAdjustedBind(to, c, opt, argv[i + 1], argv[i + 2]);
    } else if kind == DataMount || kind == NewFile || kind == OtherTriple {
      to.AddArgs([opt, argv[i + 1], argv[i + 2]]);
    } else if kind == Tmpfs && c.snap370 && c.brokenTmpfs(argv[i + 1]) {
      return;
    } else if kind == Perms && c.noPerms {
      return;
    } else {
      to.AddArgs([opt, argv[i + 1]]);
    }
  }

  /** The branch for bind-like operations. */
  method AppendAdjustedBind(to: FlatpakBwrap, c: Context, opt: string, src: string, dest: string)
    requires c.kindOf(opt) == Bind
    modifies to`argv
    ensures to.argv == old(to.argv) + Flatten(c, Rewrite(c, Op(opt, src, dest)))
  {
    ghost var op := Op(opt, src, dest);
    if c.snap369 && c.brokenBind(src) {
      return;
    }
    var skipRealRoot := false;
    FlattenAppend(c, InterpreterImage(c, op), RealImage(c, op));
    if c.interpreterRoot.Some? && c.inInterpreterRoot(src) {
      var interSrc := BuildFilename(c.interpreterRoot.value, src);
      var interDest;
      if c.belongs(dest) {
        interDest := BuildFilename(c.mountPoint, dest);
      } else {
        interDest := dest;
        skipRealRoot := true;
      }
      to.AddArgs([opt, interSrc, interDest]);
      FlattenOne(c, Op(opt, interSrc, interDest));
    }
    if (c.interpreterRoot.None? || c.inRealRoot(src)) && !skipRealRoot {
      var adjusted := if HasPathPrefix(src, c.home) then c.toHost(src) else src;
      to.AddArgs([opt, adjusted, dest]);
      FlattenOne(c, Op(opt, adjusted, dest));
    }
  }

  // ---------------------------------------------------------------------------
  // The mount view

  /** Where an operation mounts something, if it does. */
  function Target(c: Context, op: Op): Option<string> {
    match c.kindOf(op.opt)
    case Bind => Some(op.b)
    case DataMount => Some(op.b)
    case FreshMount => Some(op.a)
    case Tmpfs => Some(op.a)
    case _ => None
  }

  predicate Covers(c: Context, op: Op, path: string) {
    Target(c, op).Some? && HasPathPrefix(path, Target(c, op).value)
  }

  /** The operation that decides what is visible at `path`: the last mount that covers it. */
  function View(c: Context, ops: seq<Op>, path: string): Option<Op> {
    if ops == [] then None
    else
      var later := View(c, ops[1..], path);
      if later.None? && Covers(c, ops[0], path) then Some(ops[0]) else later
  }

  /** The image of an operation at its own destination, if it has one there. */
  function OwnImage(c: Context, op: Op): Option<Op> {
    if WorkedAround(c, op) then None
    else if c.kindOf(op.opt) != Bind then Some(op)
    else if c.interpreterRoot.Some? && c.inInterpreterRoot(op.a) && !c.belongs(op.b) then
      Some(Op(op.opt, BuildFilename(c.interpreterRoot.value, op.a), op.b))
    else if c.interpreterRoot.None? || c.inRealRoot(op.a) then
      Some(Op(op.opt, if HasPathPrefix(op.a, c.home) then c.toHost(op.a) else op.a, op.b))
    else None
  }

  function WithOwnImage(c: Context, ops: seq<Op>): seq<Op> {
    if ops == [] then []
    else
      var later := WithOwnImage(c, ops[1..]);
      if OwnImage(c, ops[0]).Some? then [ops[0]] + later else later
  }

  lemma {:induction false} ViewAppend(c: Context, ops: seq<Op>, more: seq<Op>, path: string)
    ensures View(c, ops + more, path) == if View(c, more, path).Some? then View(c, more, path) else View(c, ops, path)
  {
    if ops == [] {
      assert ops + more == more;
    } else {
      assert (ops + more)[1..] == ops[1..] + more;
      ViewAppend(c, ops[1..], more, path);
    }
  }

  lemma ViewOne(c: Context, op: Op, path: string)
    ensures View(c, [op], path) == if Covers(c, op, path) then Some(op) else None
  {
    assert [op][1..] == [];
  }

  lemma UnderInterpreterRoot(c: Context, path: string, dest: string)
    requires HasPathPrefix(path, BuildFilename(c.mountPoint, dest))
    ensures HasPathPrefix(path, c.mountPoint)
  {
    ElementsOfBuildFilename(c.mountPoint, dest);
  }

  /** Outside the interpreter root, an operation is seen through its own image or not at all. */
  lemma ViewOfRewrite(c: Context, op: Op, path: string)
    requires !HasPathPrefix(path, c.mountPoint)
    ensures View(c, Rewrite(c, op), path)
            == if OwnImage(c, op).Some? && Covers(c, op, path) then OwnImage(c, op) else None
  {
    if !IsFiltered(c, op) {
      if c.kindOf(op.opt) == Bind {
        ViewAppend(c, InterpreterImage(c, op), RealImage(c, op), path);
        if InInterpreter(c, op.a) {
          ViewOne(c, InterpreterImage(c, op)[0], path);
          if c.belongs(op.b) && Covers(c, InterpreterImage(c, op)[0], path) {
            UnderInterpreterRoot(c, path, op.b);
          }
        }
        if RealImage(c, op) != [] {
          ViewOne(c, RealImage(c, op)[0], path);
        }
      } else {
        ViewOne(c, op, path);
      }
    }
  }

  /**
    Rewriting preserves the mount view: outside the interpreter root, what decides a path is
    the image of what decided it among the operations that have an image at their own place.
   */
  lemma {:induction false} MountViewPreserved(c: Context, ops: seq<Op>, path: string)
    requires !HasPathPrefix(path, c.mountPoint)
    ensures View(c, RewriteAll(c, ops), path)
            == match View(c, WithOwnImage(c, ops), path)
               case None => None
               case Some(op) => OwnImage(c, op)
    ensures forall op :: View(c, WithOwnImage(c, ops), path) == Some(op) ==> OwnImage(c, op).Some?
  {
    if ops != [] {
      MountViewPreserved(c, ops[1..], path);
      ViewAppend(c, Rewrite(c, ops[0]), RewriteAll(c, ops[1..]), path);
      ViewOfRewrite(c, ops[0], path);
      ViewAppend(c, [ops[0]], WithOwnImage(c, ops[1..]), path);
      ViewOne(c, ops[0], path);
    }
  }

  /** The image of an operation below the interpreter root, if it has one there. */
  function InnerImage(c: Context, op: Op): Option<Op> {
    if !WorkedAround(c, op) && c.kindOf(op.opt) == Bind && c.interpreterRoot.Some? && c.inInterpreterRoot(op.a)
       && c.belongs(op.b) then
      Some(Op(op.opt, BuildFilename(c.interpreterRoot.value, op.a), BuildFilename(c.mountPoint, op.b)))
    else None
  }

  function WithInnerImage(c: Context, ops: seq<Op>): seq<Op> {
    if ops == [] then []
    else
      var later := WithInnerImage(c, ops[1..]);
      if InnerImage(c, ops[0]).Some? then [ops[0]] + later else later
  }

  /** No operation mounts anything at, below or above the interpreter root. */
  ghost predicate AvoidsInterpreterRoot(c: Context, ops: seq<Op>) {
    forall i :: 0 <= i < |ops| && Target(c, ops[i]).Some? ==> Avoids(c, Target(c, ops[i]).value)
  }

  predicate Avoids(c: Context, target: string) {
    !HasPathPrefix(target, c.mountPoint) && !HasPathPrefix(c.mountPoint, target)
  }

  /** A prefix of `root + path` is a prefix of `root`, or the other way round. */
  lemma PrefixesCompare(prefix: seq<string>, root: seq<string>, path: seq<string>)
    requires prefix <= root + path
    ensures prefix <= root || root <= prefix
  {
    var whole := root + path;
    assert prefix == whole[..|prefix|];
    assert |prefix| <= |root| ==> whole[..|prefix|] == root[..|prefix|];
    assert |root| <= |prefix| ==> whole[..|prefix|][..|root|] == root;
  }

  lemma PrefixesCancel(root: seq<string>, prefix: seq<string>, path: seq<string>)
    ensures root + prefix <= root + path <==> prefix <= path
  {
    var whole := root + path;
    assert whole[|root|..] == path;
    if root + prefix <= whole {
      assert prefix == (root + prefix)[|root|..] == whole[|root|..|root| + |prefix|] == path[..|prefix|];
    }
    if prefix <= path {
      assert whole[..|root| + |prefix|] == root + path[..|prefix|];
    }
  }

  lemma AvoidingDoesNotCover(c: Context, target: string, path: string)
    requires Avoids(c, target)
    ensures !HasPathPrefix(BuildFilename(c.mountPoint, path), target)
  {
    ElementsOfBuildFilename(c.mountPoint, path);
    if Elements(target) <= Elements(c.mountPoint) + Elements(path) {
      PrefixesCompare(Elements(target), Elements(c.mountPoint), Elements(path));
    }
  }

  lemma InnerCovers(c: Context, dest: string, path: string)
    ensures HasPathPrefix(BuildFilename(c.mountPoint, path), BuildFilename(c.mountPoint, dest))
            <==> HasPathPrefix(path, dest)
  {
    ElementsOfBuildFilename(c.mountPoint, path);
    ElementsOfBuildFilename(c.mountPoint, dest);
    PrefixesCancel(Elements(c.mountPoint), Elements(dest), Elements(path));
  }

  lemma InnerViewOfRewrite(c: Context, op: Op, path: string)
    requires Target(c, op).Some? ==> Avoids(c, Target(c, op).value)
    ensures View(c, Rewrite(c, op), BuildFilename(c.mountPoint, path))
            == if InnerImage(c, op).Some? && Covers(c, op, path) then InnerImage(c, op) else None
  {
    var inner := BuildFilename(c.mountPoint, path);
    if !IsFiltered(c, op) {
      if Target(c, op).Some? {
        AvoidingDoesNotCover(c, Target(c, op).value, path);
      }
      if c.kindOf(op.opt) == Bind {
        ViewAppend(c, InterpreterImage(c, op), RealImage(c, op), inner);
        InnerCovers(c, op.b, path);
        if InInterpreter(c, op.a) {
          ViewOne(c, InterpreterImage(c, op)[0], inner);
        }
        if RealImage(c, op) != [] {
          ViewOne(c, RealImage(c, op)[0], inner);
        }
      } else {
        ViewOne(c, op, inner);
      }
    }
  }

  /**
    Below the interpreter root, a path shows what the corresponding real path would show if
    only the operations that exist in the interpreter and belong in its root were applied.
   */
  lemma {:induction false} InterpreterViewPreserved(c: Context, ops: seq<Op>, path: string)
    requires AvoidsInterpreterRoot(c, ops)
    ensures View(c, RewriteAll(c, ops), BuildFilename(c.mountPoint, path))
            == match View(c, WithInnerImage(c, ops), path)
               case None => None
               case Some(op) => InnerImage(c, op)
    ensures forall op :: View(c, WithInnerImage(c, ops), path) == Some(op) ==> InnerImage(c, op).Some?
  {
    if ops != [] {
      InterpreterViewPreserved(c, ops[1..], path);
      ViewAppend(c, Rewrite(c, ops[0]), RewriteAll(c, ops[1..]), BuildFilename(c.mountPoint, path));
      InnerViewOfRewrite(c, ops[0], path);
      ViewAppend(c, [ops[0]], WithInnerImage(c, ops[1..]), path);
      ViewOne(c, ops[0], path);
    }
  }

  /** No operation has two images at one destination. */
  lemma ImagesAreApart(c: Context, op: Op, i: nat, j: nat)
    requires Elements(c.mountPoint) != []
    requires i < j < |Rewrite(c, op)|
    ensures i == 0 && j == 1
    ensures Target(c, Rewrite(c, op)[0]).Some? && Target(c, Rewrite(c, op)[1]).Some?
    ensures Elements(Target(c, Rewrite(c, op)[0]).value) != Elements(Target(c, Rewrite(c, op)[1]).value)
  {
    ElementsOfBuildFilename(c.mountPoint, op.b);
    assert Rewrite(c, op) == InterpreterImage(c, op) + RealImage(c, op);
    assert |InterpreterImage(c, op)| <= 1 && |RealImage(c, op)| <= 1;
    LongerIsDifferent(Elements(c.mountPoint), Elements(op.b));
  }

  lemma LongerIsDifferent(prefix: seq<string>, s: seq<string>)
    requires prefix != []
    ensures prefix + s != s
  {
    assert |prefix + s| > |s|;
  }

  /** So it is with the program's tables and its own interpreter root. */
  lemma ProgramImagesAreApart(interpreterRoot: Option<string>, inInterpreterRoot: string -> bool,
                              inRealRoot: string -> bool, home: string, toHost: string -> string,
                              snap369: bool, snap370: bool, noPerms: bool, op: Op)
    ensures var c := ProgramContext(interpreterRoot, inInterpreterRoot, inRealRoot, home, toHost,
                                    snap369, snap370, noPerms);
            var images := Rewrite(c, op);
            |images| < 2
            || (&& |images| == 2 && Target(c, images[0]).Some? && Target(c, images[1]).Some?
                && Elements(Target(c, images[0]).value) != Elements(Target(c, images[1]).value))
  {
    var c := ProgramContext(interpreterRoot, inInterpreterRoot, inRealRoot, home, toHost, snap369, snap370, noPerms);
    InterpreterRootIsNotEmpty();
    if 2 <= |Rewrite(c, op)| {
      ImagesAreApart(c, op, 0, |Rewrite(c, op)| - 1);
    }
  }

  /** The program's own interpreter root is a path with at least one element. */
  lemma InterpreterRootIsNotEmpty()
    ensures Elements(INTERPRETER_ROOT) != []
  {
    var tail := INTERPRETER_ROOT[1..];
    assert tail[0] == 'r';
    assert Elements(tail) != [];
  }
}
