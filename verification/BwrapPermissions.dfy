/**
  The permissions that `--perms` gives to the operation after it, and what becomes of them when
  operations are filtered out in between.
 */
module BwrapPermissions {
  import opened Wrappers
  import opened BwrapRewrite

  // ---------------------------------------------------------------------------
  // How bwrap reads permissions

  /** The operations that create something; bwrap dies if `--perms` is followed by another. */
  predicate TakesPermissions(kind: Kind) {
    kind == DataMount || kind == NewFile || kind == NewDir || kind == Tmpfs
  }

  /** An operation with the permissions that were given for it, if any. */
  datatype Granted = Granted(op: Op, perms: Option<string>)

  /** All operations with their permissions, and permissions that nothing has taken yet. */
  datatype Attached = Attached(granted: seq<Granted>, pending: Option<string>)

  function Prepend(granted: seq<Granted>, later: Option<Attached>): Option<Attached> {
    if later.None? then None else Some(Attached(granted + later.value.granted, later.value.pending))
  }

  /** What bwrap makes of a list of operations; `None` if it dies. */
  function Attach(c: Context, ops: seq<Op>, pending: Option<string>): Option<Attached> {
    if ops == [] then Some(Attached([], pending))
    else
      var op := ops[0];
      if c.kindOf(op.opt) == Perms then if pending.Some? then None else Attach(c, ops[1..], Some(op.a))
      else if pending.Some? && !TakesPermissions(c.kindOf(op.opt)) then None
      else Prepend([Granted(op, pending)], Attach(c, ops[1..], None))
  }

  // ---------------------------------------------------------------------------
  // What the rewriter should make of it

  /** An old bwrap does without permissions. */
  function Kept(c: Context, perms: Option<string>): Option<string> {
    if c.noPerms then None else perms
  }

  function GrantAll(ops: seq<Op>, perms: Option<string>): seq<Granted> {
    if ops == [] then [] else [Granted(ops[0], perms)] + GrantAll(ops[1..], perms)
  }

  /** Every image has the permissions of the operation that it is an image of. */
  function KeepAll(c: Context, granted: seq<Granted>): seq<Granted> {
    if granted == [] then []
    else GrantAll(Rewrite(c, granted[0].op), Kept(c, granted[0].perms)) + KeepAll(c, granted[1..])
  }

  function Expected(c: Context, attached: Option<Attached>): Option<Attached> {
    if attached.None? then None
    else Some(Attached(KeepAll(c, attached.value.granted), Kept(c, attached.value.pending)))
  }

  /** A `--perms` is kept, but the operation directly after it is filtered out. */
  predicate LosesItsOperation(c: Context, ops: seq<Op>, i: int) {
    0 <= i < |ops| - 1 && c.kindOf(ops[i].opt) == Perms && !c.noPerms && WorkedAround(c, ops[i + 1])
  }

  // ---------------------------------------------------------------------------
  // Proof

  function After(c: Context, op: Op): Option<string> {
    if c.kindOf(op.opt) == Perms then Some(op.a) else None
  }

  predicate Loses(c: Context, ops: seq<Op>, pending: Option<string>) {
    ops != []
    && ((pending.Some? && !c.noPerms && WorkedAround(c, ops[0])) || Loses(c, ops[1..], After(c, ops[0])))
  }

  lemma {:induction false} LosesSomewhere(c: Context, ops: seq<Op>, pending: Option<string>)
    ensures Loses(c, ops, pending) <==>
            || (pending.Some? && !c.noPerms && ops != [] && WorkedAround(c, ops[0]))
            || exists i :: LosesItsOperation(c, ops, i)
  {
    if ops != [] {
      var rest := ops[1..];
      LosesSomewhere(c, rest, After(c, ops[0]));
      assert forall i :: 0 <= i < |rest| ==> rest[i] == ops[i + 1];
      if exists i :: LosesItsOperation(c, ops, i) {
        var i :| LosesItsOperation(c, ops, i);
        assert i > 0 ==> LosesItsOperation(c, rest, i - 1);
      }
      if exists i :: LosesItsOperation(c, rest, i) {
        var i :| LosesItsOperation(c, rest, i);
        assert LosesItsOperation(c, ops, i + 1);
      }
      if c.kindOf(ops[0].opt) == Perms && !c.noPerms && rest != [] && WorkedAround(c, rest[0]) {
        assert LosesItsOperation(c, ops, 0);
      }
    }
  }

  lemma AttachCons(c: Context, op: Op, rest: seq<Op>, pending: Option<string>)
    ensures Attach(c, [op] + rest, pending)
            == if c.kindOf(op.opt) == Perms then if pending.Some? then None else Attach(c, rest, Some(op.a))
               else if pending.Some? && !TakesPermissions(c.kindOf(op.opt)) then None
               else Prepend([Granted(op, pending)], Attach(c, rest, None))
  {
    assert ([op] + rest)[1..] == rest;
  }

  lemma PrependTwice(a: seq<Granted>, b: seq<Granted>, later: Option<Attached>)
    ensures Prepend(a, Prepend(b, later)) == Prepend(a + b, later)
  {
    if later.Some? {
      Regroup(a, b, later.value.granted);
    }
  }

  lemma PrependIsInjective(granted: seq<Granted>, a: Option<Attached>, b: Option<Attached>)
    ensures Prepend(granted, a) == Prepend(granted, b) <==> a == b
  {
    if a.Some? && b.Some? && granted + a.value.granted == granted + b.value.granted {
      assert a.value.granted == (granted + a.value.granted)[|granted|..];
      assert b.value.granted == (granted + b.value.granted)[|granted|..];
    }
  }

  lemma {:induction false} AttachBinds(c: Context, images: seq<Op>, rest: seq<Op>)
    requires forall i :: 0 <= i < |images| ==> c.kindOf(images[i].opt) == Bind
    ensures Attach(c, images + rest, None) == Prepend(GrantAll(images, None), Attach(c, rest, None))
  {
    if images == [] {
      assert images + rest == rest;
      PrependNothing(Attach(c, rest, None));
    } else {
      AttachBinds(c, images[1..], rest);
      AttachCons(c, images[0], images[1..] + rest, None);
      assert images + rest == [images[0]] + (images[1..] + rest);
      PrependTwice([Granted(images[0], None)], GrantAll(images[1..], None), Attach(c, rest, None));
    }
  }

  lemma PrependNothing(later: Option<Attached>)
    ensures Prepend([], later) == later
  {
    if later.Some? {
      assert [] + later.value.granted == later.value.granted;
    }
  }

  lemma GrantOne(op: Op, perms: Option<string>)
    ensures GrantAll([op], perms) == [Granted(op, perms)]
  {
    assert [op][1..] == [];
  }

  /** An operation that is not filtered gives its permissions to its images. */
  lemma AttachImages(c: Context, op: Op, rest: seq<Op>, perms: Option<string>)
    requires c.kindOf(op.opt) != Perms && !WorkedAround(c, op)
    requires perms.Some? ==> TakesPermissions(c.kindOf(op.opt))
    ensures Attach(c, Rewrite(c, op) + rest, perms)
            == Prepend(GrantAll(Rewrite(c, op), perms), Attach(c, rest, None))
  {
    if c.kindOf(op.opt) == Bind {
      AttachBinds(c, Rewrite(c, op), rest);
    } else {
      AttachCons(c, op, rest, perms);
      GrantOne(op, perms);
    }
  }

  lemma ExpectedCons(c: Context, op: Op, perms: Option<string>, later: Option<Attached>)
    ensures Expected(c, Prepend([Granted(op, perms)], later))
            == Prepend(GrantAll(Rewrite(c, op), Kept(c, perms)), Expected(c, later))
  {
    if later.Some? {
      assert ([Granted(op, perms)] + later.value.granted)[1..] == later.value.granted;
    }
  }

  /** Permissions that lost their operation go to another one, or make bwrap die, or stay pending. */
  lemma {:induction false} PendingSticks(c: Context, ops: seq<Op>, perms: string)
    requires Attach(c, ops, None).Some? && !c.noPerms
    ensures Attach(c, RewriteAll(c, ops), Some(perms)) != Expected(c, Attach(c, ops, None))
  {
    if ops != [] {
      var op, rest := ops[0], ops[1..];
      if c.kindOf(op.opt) == Perms {
        AttachCons(c, op, RewriteAll(c, rest), Some(perms));
      } else {
        ExpectedCons(c, op, None, Attach(c, rest, None));
        if Rewrite(c, op) == [] {
          PendingSticks(c, rest, perms);
          assert [] + RewriteAll(c, rest) == RewriteAll(c, rest);
          PrependNothing(Expected(c, Attach(c, rest, None)));
        } else {
          FirstImageDiffers(c, op, RewriteAll(c, rest), perms, Expected(c, Attach(c, rest, None)));
        }
      }
    }
  }

  lemma FirstImageDiffers(c: Context, op: Op, rest: seq<Op>, perms: string, later: Option<Attached>)
    requires c.kindOf(op.opt) != Perms && Rewrite(c, op) != [] && later.Some?
    ensures Attach(c, Rewrite(c, op) + rest, Some(perms)) != Prepend(GrantAll(Rewrite(c, op), None), later)
  {
    var images := Rewrite(c, op);
    AttachCons(c, images[0], images[1..] + rest, Some(perms));
    assert images + rest == [images[0]] + (images[1..] + rest);
    assert Prepend(GrantAll(images, None), later).value.granted[0] == Granted(images[0], None);
    var others := Attach(c, images[1..] + rest, None);
    if others.Some? {
      assert Prepend([Granted(images[0], Some(perms))], others).value.granted[0].perms == Some(perms);
    }
  }

  lemma {:induction false} KeepsFrom(c: Context, ops: seq<Op>, pending: Option<string>)
    requires Attach(c, ops, pending).Some?
    ensures Attach(c, RewriteAll(c, ops), Kept(c, pending)) == Expected(c, Attach(c, ops, pending))
            <==> !Loses(c, ops, pending)
  {
    if ops != [] {
      var op, rest := ops[0], ops[1..];
      KeepsFrom(c, rest, After(c, op));
      if c.kindOf(op.opt) == Perms {
        if c.noPerms {
          assert [] + RewriteAll(c, rest) == RewriteAll(c, rest);
        } else {
          AttachCons(c, op, RewriteAll(c, rest), None);
        }
      } else {
        ExpectedCons(c, op, pending, Attach(c, rest, None));
        if WorkedAround(c, op) {
          assert [] + RewriteAll(c, rest) == RewriteAll(c, rest);
          PrependNothing(Expected(c, Attach(c, rest, None)));
          if Kept(c, pending).Some? {
            PendingSticks(c, rest, pending.value);
          }
        } else {
          AttachImages(c, op, RewriteAll(c, rest), Kept(c, pending));
          PrependIsInjective(GrantAll(Rewrite(c, op), Kept(c, pending)), Attach(c, RewriteAll(c, rest), None),
                             Expected(c, Attach(c, rest, None)));
        }
      }
    }
  }

  /**
    For every list that bwrap accepts: each image has the permissions of its operation, and
    none are left over that were not left over before, exactly if no `--perms` that is kept
    stands directly before an operation that is filtered out.
   */
  lemma PermissionsAreKept(c: Context, ops: seq<Op>)
    requires Attach(c, ops, None).Some?
    ensures Attach(c, RewriteAll(c, ops), None) == Expected(c, Attach(c, ops, None))
            <==> forall i :: !LosesItsOperation(c, ops, i)
  {
    KeepsFrom(c, ops, None);
    LosesSomewhere(c, ops, None);
  }

  // ---------------------------------------------------------------------------
  // Inputs for which permissions end up elsewhere

  lemma KindsOfOptions()
    ensures KindOf("--perms") == Perms && KindOf("--tmpfs") == Tmpfs && KindOf("--dir") == NewDir
    ensures KindOf("--proc") == FreshMount && IsBrokenTmpfs("/snap/steam")
  {
  }

  /** Permissions for a temporary file system, then another operation. */
  function ExampleOps(opt: string): seq<Op> {
    [Op("--perms", "0700", ""), Op("--tmpfs", "/snap/steam", ""), Op(opt, "/d", "")]
  }

  lemma AttachLast(c: Context, op: Op, perms: Option<string>)
    requires c.kindOf(op.opt) != Perms
    ensures Attach(c, [op], perms)
            == if perms.Some? && !TakesPermissions(c.kindOf(op.opt)) then None
               else Some(Attached([Granted(op, perms)], None))
  {
    AttachCons(c, op, [], perms);
    assert [op] + [] == [op];
    assert [Granted(op, perms)] + [] == [Granted(op, perms)];
  }

  predicate ExampleContext(c: Context, opt: string) {
    && c.kindOf("--perms") == Perms && c.kindOf("--tmpfs") == Tmpfs
    && (c.kindOf(opt) == NewDir || c.kindOf(opt) == FreshMount)
    && c.snap370 && c.brokenTmpfs("/snap/steam") && !c.noPerms
  }

  lemma RewriteExample(c: Context, opt: string)
    requires ExampleContext(c, opt)
    ensures RewriteAll(c, ExampleOps(opt)) == [ExampleOps(opt)[0]] + [ExampleOps(opt)[2]]
  {
    var ops := ExampleOps(opt);
    assert ops[1..][1..] == [ops[2]] && ops[1..][0] == ops[1];
    assert [ops[2]][1..] == [];
    assert RewriteAll(c, [ops[2]]) == [ops[2]];
    assert RewriteAll(c, ops[1..]) == [ops[2]];
  }

  lemma AttachExample(c: Context, opt: string)
    requires ExampleContext(c, opt)
    ensures Attach(c, ExampleOps(opt), None)
            == Some(Attached([Granted(ExampleOps(opt)[1], Some("0700")), Granted(Op(opt, "/d", ""), None)], None))
  {
    var ops := ExampleOps(opt);
    AttachCons(c, ops[0], ops[1..], None);
    assert ops == [ops[0]] + ops[1..];
    AttachCons(c, ops[1], [ops[2]], Some("0700"));
    assert ops[1..] == [ops[1]] + [ops[2]];
    AttachLast(c, ops[2], None);
    var first := Granted(ops[1], Some("0700"));
    assert [first] + [Granted(ops[2], None)] == [first, Granted(ops[2], None)];
  }

  lemma AttachRewritten(c: Context, opt: string)
    requires ExampleContext(c, opt)
    ensures Attach(c, RewriteAll(c, ExampleOps(opt)), None)
            == if c.kindOf(opt) == NewDir then Some(Attached([Granted(Op(opt, "/d", ""), Some("0700"))], None))
               else None
  {
    var ops := ExampleOps(opt);
    RewriteExample(c, opt);
    AttachCons(c, ops[0], [ops[2]], None);
    AttachLast(c, ops[2], Some("0700"));
  }

  /**
    With the program's tables and the workaround for the Snap package: a directory gets the
    permissions meant for the temporary file system, and with a new /proc instead bwrap dies.
   */
  lemma PermissionsGoElsewhere(inRealRoot: string -> bool, home: string, toHost: string -> string)
    ensures var c := ProgramContext(None, _ => false, inRealRoot, home, toHost, false, true, false);
            && Attach(c, ExampleOps("--dir"), None)
               == Some(Attached([Granted(Op("--tmpfs", "/snap/steam", ""), Some("0700")),
                                 Granted(Op("--dir", "/d", ""), None)], None))
            && Attach(c, RewriteAll(c, ExampleOps("--dir")), None)
               == Some(Attached([Granted(Op("--dir", "/d", ""), Some("0700"))], None))
            && Attach(c, ExampleOps("--proc"), None).Some?
            && Attach(c, RewriteAll(c, ExampleOps("--proc")), None) == None
  {
    var c := ProgramContext(None, _ => false, inRealRoot, home, toHost, false, true, false);
    KindsOfOptions();
    AttachExample(c, "--dir");
    AttachExample(c, "--proc");
    AttachRewritten(c, "--dir");
    AttachRewritten(c, "--proc");
  }
}
