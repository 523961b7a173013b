/** prefix.rs: the text written at the top of the generated C file. */
module Prefix {
  import opened Strings
  import opened CRepr
  import opened Include

  /** `Prefix`: a growing buffer of C code. */
  class Prefix {
    var code: string

    constructor()
      ensures code == ""
    {
      code := "";
    }

    /** `push`: append the code, and a newline when asked; what was there
        stays. */
    method Push(s: string, newline: bool)
      modifies this
      ensures code == old(code) + s + (if newline then "\n" else "")
    {
      code := code + s;
      if newline {
        code := code + "\n";
      }
    }

    /** `get_code`. */
    function GetCode(): string
      reads this
    {
      code
    }
  }

  /** The headers included on every generated file, in order. */
  const PREFIX_HEADERS: seq<string> := [
    "stdio.h", "stdlib.h", "math.h", "string.h", "ctype.h", "time.h",
    "stddef.h", "limits.h", "float.h", "stdbool.h", "assert.h", "errno.h",
    "signal.h", "setjmp.h", "stdarg.h", "locale.h", "wchar.h", "complex.h"]

  const PREFIX_FUNCTIONS: string := "// TODO: Implement prefix functions here!"
  const PREFIX_STRUCTS: string := "// TODO: Implement prefix structs here!"

  /** The include line of each prefix header: the rendering of a system
      `Include`. */
  function IncludeLines(hs: seq<string>): (r: seq<string>)
    ensures |r| == |hs|
    ensures forall i :: 0 <= i < |hs| ==> r[i] == IncludeText(Include(hs[i], true), DefaultContext())
  {
    seq(|hs|, i requires 0 <= i < |hs| => "#include <" + hs[i] + ">")
  }

  /** `prefix_includes`: the include lines joined by newlines. */
  function PrefixIncludes(): string
  {
    Join(IncludeLines(PREFIX_HEADERS), "\n")
  }

  /** `build_prefix`: the includes, the functions section and the structs
      section, each followed by a newline. */
  method BuildPrefix(p: Prefix)
    modifies p
    ensures p.code == old(p.code) + PrefixIncludes() + "\n" + PREFIX_FUNCTIONS + "\n" + PREFIX_STRUCTS + "\n"
  {
    p.Push(PrefixIncludes(), true);
    p.Push(PREFIX_FUNCTIONS, true);
    p.Push(PREFIX_STRUCTS, true);
  }

  /** The include block is 18 lines: 17 newlines between them and none
      after the last. */
  lemma PrefixIncludesLines()
    ensures |IncludeLines(PREFIX_HEADERS)| == 18
    ensures CountChar(PrefixIncludes(), '\n') == 17
  {
    var lines := IncludeLines(PREFIX_HEADERS);
    HeadersNoNewline();
    IncludeLinesNoNewline(PREFIX_HEADERS);
    CountCharAllAbsent(lines, '\n');
    JoinCount(lines, "\n", '\n');
    assert CountChar("\n", '\n') == 1;
  }

  /** The include block ends with the last include line, not a newline. */
  lemma PrefixIncludesEnd()
    ensures var p := PrefixIncludes(); |p| > 0 && p[|p| - 1] == '>'
  {
    var lines := IncludeLines(PREFIX_HEADERS);
    JoinEndsWithLast(lines, "\n");
    var last := lines[|lines| - 1];
    assert last == "#include <" + "complex.h" + ">";
  }

  lemma HeadersNoNewline()
    ensures forall i :: 0 <= i < |PREFIX_HEADERS| ==> '\n' !in PREFIX_HEADERS[i]
  {
    forall i | 0 <= i < |PREFIX_HEADERS|
      ensures '\n' !in PREFIX_HEADERS[i]
    {
      var h := PREFIX_HEADERS[i];
      assert forall j :: 0 <= j < |h| ==> h[j] in "abcdefghijklmnopqrstuvwxyz.";
    }
  }

  lemma IncludeLinesNoNewline(hs: seq<string>)
    requires forall i :: 0 <= i < |hs| ==> '\n' !in hs[i]
    ensures forall i :: 0 <= i < |hs| ==> '\n' !in IncludeLines(hs)[i]
  {
    forall i | 0 <= i < |hs|
      ensures '\n' !in IncludeLines(hs)[i]
    {
      assert IncludeLines(hs)[i] == "#include <" + hs[i] + ">";
    }
  }
}
