/** Whether a compatibility tool's command is to be run through the launcher service. */
module LauncherInterface {
  import opened Wrappers
  import opened Splitting

  predicate IsAt(haystack: string, needle: string, i: nat) {
    i + |needle| <= |haystack| && haystack[i..i + |needle|] == needle
  }

  /** `strstr` not returning NULL */
  predicate Contains(haystack: string, needle: string) {
    exists i: nat :: i <= |haystack| && IsAt(haystack, needle, i)
  }

  /** The request comes from an environment variable, which may be unset. */
  predicate WantLauncherService(toolNames: string, requested: Option<string>) {
    requested.Some? && ':' !in requested.value
    && Contains(":" + toolNames + ":", ":" + requested.value + ":")
  }

  lemma RequestIsPart(toolNames: string, request: string, i: nat) returns (j: nat)
    requires ':' !in request && IsAt(":" + toolNames + ":", ":" + request + ":", i)
    ensures j < |Split(toolNames, ':')| && Split(toolNames, ':')[j] == request
  {
    var haystack, needle := ":" + toolNames + ":", ":" + request + ":";
    var before, after := haystack[..i], haystack[i + |needle|..];
    assert haystack == before + needle + after;
    assert haystack == before + ":" + (request + ":" + after);
    SplitJoin(before, ':', request + ":" + after);
    SplitFirst(request, ':', after);
    PartsBetweenColons(toolNames);
    j := |Split(before, ':')| - 1;
    assert Split(haystack, ':')[j + 1] == request;
  }

  lemma PartsBetweenColons(toolNames: string)
    ensures Split(":" + toolNames + ":", ':') == [""] + Split(toolNames, ':') + [""]
  {
    SplitFirst("", ':', toolNames + ":");
    SplitJoin(toolNames, ':', "");
    assert ":" + toolNames + ":" == "" + ":" + (toolNames + ":");
    assert toolNames + ":" == toolNames + ":" + "";
  }

  /** Each part is found between two colons, the first one at the start. */
  lemma {:induction false} PartIsFound(toolNames: string, j: nat) returns (before: string, after: string)
    requires j < |Split(toolNames, ':')|
    ensures ":" + toolNames + ":" == before + (":" + Split(toolNames, ':')[j] + ":") + after
    ensures before == "" <==> j == 0
  {
    if toolNames == "" {
      before, after := "", "";
      assert Split(toolNames, ':')[j] == "";
    } else if toolNames[0] == ':' {
      var rest := toolNames[1..];
      assert ":" + toolNames + ":" == ":" + (":" + rest + ":");
      if j == 0 {
        before, after := "", rest + ":";
        assert Split(toolNames, ':')[j] == "";
      } else {
        var a, b := PartIsFound(rest, j - 1);
        before, after := ":" + a, b;
        assert Split(toolNames, ':')[j] == Split(rest, ':')[j - 1];
      }
    } else {
      var a, b := PartIsFound(toolNames[1..], j);
      var part := Split(toolNames[1..], ':')[j];
      before, after := if j == 0 then "" else ":" + [toolNames[0]] + a[1..], b;
      InsertAfterColon(toolNames[0], toolNames[1..], a, part, b);
      assert toolNames == [toolNames[0]] + toolNames[1..];
      assert Split(toolNames, ':')[j] == if j == 0 then [toolNames[0]] + part else part;
      assert j == 0 ==> "" + (":" + ([toolNames[0]] + part) + ":") + b == ":" + ([toolNames[0]] + part) + ":" + b;
    }
  }

  lemma InsertAfterColon(c: char, names: string, a: string, part: string, b: string)
    requires ":" + names + ":" == a + (":" + part + ":") + b
    ensures a == "" ==> ":" + ([c] + names) + ":" == ":" + ([c] + part) + ":" + b
    ensures a != "" ==> ":" + ([c] + names) + ":" == (":" + [c] + a[1..]) + (":" + part + ":") + b
  {
    var whole := ":" + names + ":";
    assert ":" + ([c] + names) + ":" == ":" + [c] + whole[1..];
    if a == "" {
      assert whole[1..] == part + ":" + b;
    } else {
      assert whole[1..] == a[1..] + (":" + part + ":") + b;
    }
  }

  /**
    The launcher service is wanted exactly if a request without colons was made and is one of
    the colon-separated tool names, of which any may be empty.
   */
  lemma WantedIfListed(toolNames: string, requested: Option<string>)
    ensures WantLauncherService(toolNames, requested) <==>
            requested.Some? && ':' !in requested.value && requested.value in Split(toolNames, ':')
  {
    if requested.Some? && ':' !in requested.value {
      var request := requested.value;
      var haystack, needle := ":" + toolNames + ":", ":" + request + ":";
      if Contains(haystack, needle) {
        var i: nat :| i <= |haystack| && IsAt(haystack, needle, i);
        var j := RequestIsPart(toolNames, request, i);
      }
      if request in Split(toolNames, ':') {
        var j :| 0 <= j < |Split(toolNames, ':')| && Split(toolNames, ':')[j] == request;
        var before, after := PartIsFound(toolNames, j);
        FoundBetween(haystack, before, needle, after);
      }
    }
  }

  lemma FoundBetween(haystack: string, before: string, needle: string, after: string)
    requires haystack == before + needle + after
    ensures Contains(haystack, needle)
  {
    assert haystack[|before|..|before| + |needle|] == needle;
    assert IsAt(haystack, needle, |before|);
  }
}
