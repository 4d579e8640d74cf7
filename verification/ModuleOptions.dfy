/** The `--ld-preload` and `--ld-audit` options: printing a module and reading it back. */
module ModuleOptions {
  import opened Wrappers
  import opened Splitting
  import opened PerArchDirs
  import opened Preload

  function OptionName(v: Variable): string {
    match v
    case LdAudit => "--ld-audit"
    case LdPreload => "--ld-preload"
  }

  const ABI_PREFIX := "abi="

  lemma OptionNames()
    ensures OptionName(LdAudit) == "--ld-audit" && OptionName(LdPreload) == "--ld-preload"
    ensures ":" + ABI_PREFIX == ":abi="
  {
  }

  predicate HasPrefix(s: string, prefix: string) {
    prefix <= s
  }

  /** The architectures' names can be told apart, and do not contain the separator. */
  ghost predicate ValidTuples(tuples: seq<string>) {
    && (forall i, j :: 0 <= i < j < |tuples| ==> tuples[i] != tuples[j])
    && (forall i :: 0 <= i < |tuples| ==> ':' !in tuples[i])
  }

  ghost predicate ValidModule(tuples: seq<string>, m: PreloadModule) {
    m.abi.Some? ==> m.abi.value < |tuples|
  }

  /** What follows the `=` of the option. */
  function PrintValue(tuples: seq<string>, m: PreloadModule): string
    requires ValidModule(tuples, m)
  {
    m.name + if m.abi.None? then "" else ":" + ABI_PREFIX + tuples[m.abi.value]
  }

  /** `pv_adverb_preload_module_to_adverb_cli` */
  method Print(tuples: seq<string>, m: PreloadModule) returns (option: string)
    requires ValidModule(tuples, m)
    ensures option == OptionName(m.variable) + "=" + PrintValue(tuples, m)
    ensures option == (if m.variable == LdAudit then "--ld-audit" else "--ld-preload") + "="
                      + (m.name + if m.abi.None? then "" else ":abi=" + tuples[m.abi.value])
  {
    OptionNames();
    option := OptionName(m.variable);
    option := option + "=";
    option := option + m.name;
    if m.abi.Some? {
      option := option + ":" + ABI_PREFIX;
      option := option + tuples[m.abi.value];
      assert option == OptionName(m.variable) + "=" + (m.name + (":" + ABI_PREFIX + tuples[m.abi.value]));
    } else {
      assert m.name + "" == m.name;
    }
  }

  function FindTuple(tuples: seq<string>, name: string): (abi: Option<nat>)
    ensures abi.Some? ==> abi.value < |tuples| && tuples[abi.value] == name
                          && forall k :: 0 <= k < abi.value ==> tuples[k] != name
    ensures abi.None? ==> name !in tuples
  {
    FindTupleFrom(tuples, name, 0)
  }

  function FindTupleFrom(tuples: seq<string>, name: string, from: nat): (abi: Option<nat>)
    requires from <= |tuples|
    ensures abi.Some? ==> from <= abi.value < |tuples| && tuples[abi.value] == name
                          && forall k :: from <= k < abi.value ==> tuples[k] != name
    ensures abi.None? ==> name !in tuples[from..]
    decreases |tuples| - from
  {
    if from == |tuples| then None
    else if tuples[from] == name then Some(from)
    else
      assert tuples[from..] == [tuples[from]] + tuples[from + 1..];
      FindTupleFrom(tuples, name, from + 1)
  }

  /**
    Read the parameters from `i` on, with the architecture found so far; the outer `None` is
    failure. An unknown architecture is an error only if none has been found before.
   */
  function ParseParts(tuples: seq<string>, parts: seq<string>, i: nat, abi: Option<nat>): Option<Option<nat>>
    decreases |parts| - i
  {
    if |parts| <= i then Some(abi)
    else if !HasPrefix(parts[i], ABI_PREFIX) then None
    else
      var found := FindTuple(tuples, parts[i][|ABI_PREFIX|..]);
      var next := if found.Some? then found else abi;
      if next.None? then None else ParseParts(tuples, parts, i + 1, next)
  }

  function Parse(tuples: seq<string>, which: Variable, value: string): Option<PreloadModule> {
    var parts := Split(value, ':');
    match ParseParts(tuples, parts, 1, None)
    case None => None
    case Some(abi) => Some(PreloadModule(parts[0], which, abi))
  }

  /** `pv_adverb_preload_module_parse_adverb_cli` */
  method ParseAdverbCli(tuples: seq<string>, which: Variable, value: string) returns (self: Option<PreloadModule>)
    ensures self == Parse(tuples, which, value)
  {
    var parts := Split(value, ':');
    var abiIndex: Option<nat> := None;
    for i := 1 to |parts|
      invariant ParseParts(tuples, parts, 1, None) == ParseParts(tuples, parts, i, abiIndex)
    {
      if HasPrefix(parts[i], ABI_PREFIX) {
        var architecture := parts[i][|ABI_PREFIX|..];
        var abi := 0;
        while abi < |tuples| && tuples[abi] != architecture
          invariant abi <= |tuples|
          invariant architecture !in tuples[..abi]
        {
          abi := abi + 1;
        }
        if abi < |tuples| {
          abiIndex := Some(abi);
        }
        if abiIndex.None? {
          return None;
        }
      } else {
        return None;
      }
    }
    self := Some(PreloadModule(parts[0], which, abiIndex));
  }

  // ---------------------------------------------------------------------------
  // Round trips

  /** The part that names an architecture is read as that architecture. */
  lemma AbiPart(tuples: seq<string>, abi: nat)
    requires ValidTuples(tuples) && abi < |tuples|
    ensures HasPrefix(ABI_PREFIX + tuples[abi], ABI_PREFIX)
    ensures FindTuple(tuples, (ABI_PREFIX + tuples[abi])[|ABI_PREFIX|..]) == Some(abi)
    ensures ':' !in ABI_PREFIX + tuples[abi]
  {
    assert (ABI_PREFIX + tuples[abi])[|ABI_PREFIX|..] == tuples[abi];
  }

  lemma SplitTwo(first: string, second: string)
    requires ':' !in first && ':' !in second
    ensures Split(first + [':'] + second, ':') == [first, second]
  {
    SplitItem(second, ':');
    SplitFirst(first, ':', second);
  }

  lemma PartsOfPrinted(tuples: seq<string>, m: PreloadModule)
    requires ValidTuples(tuples) && ValidModule(tuples, m) && ':' !in m.name
    ensures Split(PrintValue(tuples, m), ':')
            == if m.abi.None? then [m.name] else [m.name, ABI_PREFIX + tuples[m.abi.value]]
  {
    if m.abi.None? {
      assert PrintValue(tuples, m) == m.name;
      SplitItem(m.name, ':');
    } else {
      var part := ABI_PREFIX + tuples[m.abi.value];
      AbiPart(tuples, m.abi.value);
      SplitTwo(m.name, part);
      assert PrintValue(tuples, m) == m.name + [':'] + part;
    }
  }

  /** Reading back a printed module gives the module, exactly if its name has no colon. */
  lemma ParsePrinted(tuples: seq<string>, m: PreloadModule)
    requires ValidTuples(tuples) && ValidModule(tuples, m)
    ensures Parse(tuples, m.variable, PrintValue(tuples, m)) == Some(m) <==> ':' !in m.name
  {
    var parts := Split(PrintValue(tuples, m), ':');
    if ':' !in m.name {
      PartsOfPrinted(tuples, m);
      if m.abi.Some? {
        AbiPart(tuples, m.abi.value);
        assert ParseParts(tuples, parts, 2, m.abi) == Some(m.abi);
      }
    } else {
      PartsHaveNoSeparator(PrintValue(tuples, m), ':');
      assert ':' !in parts[0];
    }
  }

  lemma {:induction false} ParsePartsInRange(tuples: seq<string>, parts: seq<string>, i: nat, abi: Option<nat>)
    requires abi.Some? ==> abi.value < |tuples|
    ensures var r := ParseParts(tuples, parts, i, abi);
            r.Some? && r.value.Some? ==> r.value.value < |tuples|
    decreases |parts| - i
  {
    if i < |parts| && HasPrefix(parts[i], ABI_PREFIX) {
      var found := FindTuple(tuples, parts[i][|ABI_PREFIX|..]);
      ParsePartsInRange(tuples, parts, i + 1, if found.Some? then found else abi);
    }
  }

  /** For every value that is accepted, printing the module and reading it back changes nothing. */
  lemma ParsePrintParse(tuples: seq<string>, which: Variable, value: string)
    requires ValidTuples(tuples) && Parse(tuples, which, value).Some?
    ensures ValidModule(tuples, Parse(tuples, which, value).value)
    ensures Parse(tuples, which, PrintValue(tuples, Parse(tuples, which, value).value)) == Parse(tuples, which, value)
  {
    var parts := Split(value, ':');
    var m := Parse(tuples, which, value).value;
    ParsePartsInRange(tuples, parts, 1, None);
    PartsHaveNoSeparator(value, ':');
    ParsePrinted(tuples, m);
  }

  // ---------------------------------------------------------------------------
  // What is accepted

  /** An unknown architecture that is not the first is accepted, and changes nothing. */
  lemma {:induction false} PartsAccepted(tuples: seq<string>, parts: seq<string>, i: nat, abi: Option<nat>)
    ensures ParseParts(tuples, parts, i, abi).Some? <==>
            && (forall k :: i <= k < |parts| ==> HasPrefix(parts[k], ABI_PREFIX))
            && (abi.None? && i < |parts| ==> FindTuple(tuples, parts[i][|ABI_PREFIX|..]).Some?)
    decreases |parts| - i
  {
    if i < |parts| && HasPrefix(parts[i], ABI_PREFIX) {
      var found := FindTuple(tuples, parts[i][|ABI_PREFIX|..]);
      PartsAccepted(tuples, parts, i + 1, if found.Some? then found else abi);
    }
  }

  /**
    A value is accepted exactly if every parameter is an architecture and the first one, if
    there is any, is known; later ones need not be.
   */
  lemma AcceptedValues(tuples: seq<string>, which: Variable, value: string)
    ensures var parts := Split(value, ':');
            Parse(tuples, which, value).Some? <==>
            && (forall k :: 1 <= k < |parts| ==> HasPrefix(parts[k], ABI_PREFIX))
            && (1 < |parts| ==> parts[1][|ABI_PREFIX|..] in tuples)
  {
    PartsAccepted(tuples, Split(value, ':'), 1, None);
  }

  function AbiName(part: string): string {
    if |part| < 4 then "" else part[4..]
  }

  /** The last part from `i` on that names a known architecture. */
  predicate IsLastKnown(tuples: seq<string>, parts: seq<string>, i: nat, j: int) {
    && i <= j < |parts| && AbiName(parts[j]) in tuples
    && forall k :: j < k < |parts| ==> AbiName(parts[k]) !in tuples
  }

  lemma {:induction false} LastKnownPart(tuples: seq<string>, parts: seq<string>, i: nat, abi: Option<nat>)
    requires ParseParts(tuples, parts, i, abi).Some?
    ensures var found := ParseParts(tuples, parts, i, abi).value;
            && (forall j :: IsLastKnown(tuples, parts, i, j) ==>
                  found.Some? && found.value < |tuples| && tuples[found.value] == AbiName(parts[j]))
            && ((forall k :: i <= k < |parts| ==> AbiName(parts[k]) !in tuples) ==> found == abi)
    decreases |parts| - i
  {
    if i < |parts| {
      var found := FindTuple(tuples, parts[i][|ABI_PREFIX|..]);
      LastKnownPart(tuples, parts, i + 1, if found.Some? then found else abi);
    }
  }

  /**
    An accepted value has the name before the first colon, and is for the last known architecture
    that it mentions, or for all of them if it mentions none.
   */
  lemma AcceptedMeaning(tuples: seq<string>, which: Variable, value: string)
    requires Parse(tuples, which, value).Some?
    ensures var m, parts := Parse(tuples, which, value).value, Split(value, ':');
            && m.name == parts[0] && m.variable == which && (m.abi.None? <==> |parts| == 1)
            && forall j :: IsLastKnown(tuples, parts, 1, j) ==>
                 m.abi.Some? && m.abi.value < |tuples| && tuples[m.abi.value] == AbiName(parts[j])
  {
    var parts := Split(value, ':');
    LastKnownPart(tuples, parts, 1, None);
    PartsAccepted(tuples, parts, 1, None);
    SomeAbiStays(tuples, parts, 1, None);
  }

  lemma {:induction false} SomeAbiStays(tuples: seq<string>, parts: seq<string>, i: nat, abi: Option<nat>)
    requires ParseParts(tuples, parts, i, abi).Some?
    ensures ParseParts(tuples, parts, i, abi).value.None? <==> |parts| <= i && abi.None?
    decreases |parts| - i
  {
    if i < |parts| {
      var found := FindTuple(tuples, parts[i][|ABI_PREFIX|..]);
      SomeAbiStays(tuples, parts, i + 1, if found.Some? then found else abi);
    }
  }

  /** A known architecture and then an unknown one: the value is accepted, and means the first. */
  lemma UnknownAfterKnown(tuples: seq<string>, which: Variable, name: string, abi: nat, unknown: string)
    requires ValidTuples(tuples) && abi < |tuples|
    requires ':' !in name && ':' !in unknown && unknown !in tuples
    ensures Parse(tuples, which, name + ":" + ((ABI_PREFIX + tuples[abi]) + ":" + (ABI_PREFIX + unknown)))
            == Some(PreloadModule(name, which, Some(abi)))
  {
    var known, other := ABI_PREFIX + tuples[abi], ABI_PREFIX + unknown;
    AbiPart(tuples, abi);
    assert ':' !in other && other[|ABI_PREFIX|..] == unknown && HasPrefix(other, ABI_PREFIX);
    SplitTwo(known, other);
    SplitFirst(name, ':', known + ":" + other);
    var parts := [name, known, other];
    assert Split(name + ":" + (known + ":" + other), ':') == parts;
    assert ParseParts(tuples, parts, 3, Some(abi)) == Some(Some(abi));
    assert ParseParts(tuples, parts, 2, Some(abi)) == Some(Some(abi));
  }

  lemma X86TuplesAreValid()
    ensures ValidTuples(X86Tuples()) && "arm" !in X86Tuples()
  {
    assert |"x86_64-linux-gnu"| == 16 && |"i386-linux-gnu"| == 14 && |"arm"| == 3;
  }

  lemma UnknownValue()
    ensures "x" + ":" + ((ABI_PREFIX + "i386-linux-gnu") + ":" + (ABI_PREFIX + "arm"))
            == "x:abi=i386-linux-gnu:abi=arm"
  {
    assert ABI_PREFIX + "arm" == "abi=arm";
    assert ABI_PREFIX + "i386-linux-gnu" == "abi=i386-linux-gnu";
    assert "abi=i386-linux-gnu" + ":" + "abi=arm" == "abi=i386-linux-gnu:abi=arm";
  }

  /** On x86, `x:abi=i386-linux-gnu:abi=arm` is accepted. */
  lemma UnknownAccepted()
    ensures Parse(X86Tuples(), LdPreload, "x:abi=i386-linux-gnu:abi=arm")
            == Some(PreloadModule("x", LdPreload, Some(1)))
  {
    X86TuplesAreValid();
    UnknownAfterKnown(X86Tuples(), LdPreload, "x", 1, "arm");
    UnknownValue();
  }
}
