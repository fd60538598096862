/** The Gemtext line grammar shared by Gemini, Spartan, Guppy and Scroll,
    with its persistent preformat toggle. */
module Gemtext {
  import opened Wrappers
  import opened Strings

  datatype LineType =
    | Text
    | Link
    | Heading1
    | Heading2
    | Heading3
    | List
    | Quote
    | PreformatToggle
    | Prompt  // Spartan's "=:" input line

  /** `LineType::from_str`: prefixes tested in a fixed order, so "###" is a
      level-3 heading although it also starts with "#", and "=>" wins over
      every other prefix. */
  function Classify(s: string): (t: LineType)
    ensures t == Link <==> StartsWith(s, "=>")
    ensures t == Heading3 <==> StartsWith(s, "###")
    ensures t == Heading2 <==> StartsWith(s, "##") && !StartsWith(s, "###")
    ensures t == Heading1 <==> StartsWith(s, "#") && !StartsWith(s, "##")
    ensures t == Quote <==> StartsWith(s, ">")
    ensures t == PreformatToggle <==> StartsWith(s, "```")
    ensures t == List <==> StartsWith(s, "*")
    ensures t == Prompt <==> StartsWith(s, "=:")
    ensures t == Text <==>
      && !StartsWith(s, "=>") && !StartsWith(s, "#") && !StartsWith(s, ">")
      && !StartsWith(s, "```") && !StartsWith(s, "*") && !StartsWith(s, "=:")
  {
    PrefixChars(s);
    if StartsWith(s, "=>") then Link
    else if StartsWith(s, "###") then Heading3
    else if StartsWith(s, "##") then Heading2
    else if StartsWith(s, "#") then Heading1
    else if StartsWith(s, ">") then Quote
    else if StartsWith(s, "```") then PreformatToggle
    else if StartsWith(s, "*") then List
    else if StartsWith(s, "=:") then Prompt
    else Text
  }

  /** What each line-type prefix says about the first characters; apart
      from the nested headings, only "=>" and "=:" share a first
      character, and they differ in the second. */
  lemma PrefixChars(s: string)
    ensures StartsWith(s, "=>") ==> |s| >= 2 && s[0] == '=' && s[1] == '>'
    ensures StartsWith(s, "=:") ==> |s| >= 2 && s[0] == '=' && s[1] == ':'
    ensures StartsWith(s, "###") ==> StartsWith(s, "##")
    ensures StartsWith(s, "##") ==> StartsWith(s, "#")
    ensures StartsWith(s, "#") ==> |s| >= 1 && s[0] == '#'
    ensures StartsWith(s, ">") ==> |s| >= 1 && s[0] == '>'
    ensures StartsWith(s, "```") ==> |s| >= 1 && s[0] == '`'
    ensures StartsWith(s, "*") ==> |s| >= 1 && s[0] == '*'
  {
    if StartsWith(s, "###") {
      assert s[..2] == s[..3][..2];
    }
    if StartsWith(s, "##") {
      assert s[..1] == s[..2][..1];
    }
  }

  /** A line that opens or closes a preformatted run: one starting with
      three backticks, which no earlier prefix in the order can claim. */
  predicate IsToggle(s: string) {
    StartsWith(s, "```")
  }

  lemma ToggleIffClassified(s: string)
    ensures IsToggle(s) <==> Classify(s) == PreformatToggle
  {
    if StartsWith(s, "```") {
      assert s[0] == '`';
    }
  }

  /** One parsed line. `path` is the link or prompt target. */
  datatype GemtextLine = GemtextLine(
    lineType: LineType,
    content: string,
    path: Option<string>,
    preformatted: bool)

  /** The Gemtext handler's state: the page and the preformat flag. */
  datatype Store = Store(lines: seq<GemtextLine>, preformat: bool)

  /** The target and caption of a link or prompt line, given the text after
      its two-character prefix: the trimmed text up to the first
      whitespace is the target, the trimmed rest is the caption; without
      whitespace both are the trimmed text. */
  function LinkParts(text: string): (r: (string, string))
    ensures var caption := r.0; var path := r.1; var rest := Trim(text);
      && StartsWith(rest, path)
      && (forall i :: 0 <= i < |path| ==> !IsWhitespace(path[i]))
      && (|path| < |rest| ==> IsWhitespace(rest[|path|]) && caption == Trim(rest[|path| + 1..]))
      && (|path| == |rest| ==> caption == rest)
  {
    var rest := Trim(text);
    match IndexOfWhitespace(rest)
    case Some(i) => FirstWord(rest, i); (Trim(rest[i + 1..]), rest[..i])
    case None => WholeWord(rest); (rest, rest)
  }

  /** Text without whitespace is one whole word. */
  lemma WholeWord(s: string)
    requires IndexOfWhitespace(s).None?
    ensures StartsWith(s, s)
    ensures forall k :: 0 <= k < |s| ==> !IsWhitespace(s[k])
  {
    assert s[..|s|] == s;
  }

  /** The text before the first whitespace is a whitespace-free prefix. */
  lemma FirstWord(s: string, i: nat)
    requires IndexOfWhitespace(s) == Some(i)
    ensures i < |s| && StartsWith(s, s[..i]) && IsWhitespace(s[|s[..i]|])
    ensures forall k :: 0 <= k < |s[..i]| ==> !IsWhitespace(s[..i][k])
  {
    assert s[..i] == s[..|s[..i]|];
  }

  /** `GemtextLine::from_str`: the parsed line and the preformat flag after
      it. */
  function ParseLine(s: string, plaintext: bool, preformat: bool): (r: (GemtextLine, bool))
    // Only a toggle line outside plaintext mode flips the flag, and every
    // line is marked with the flag after it.
    ensures r.1 == (preformat != (!plaintext && IsToggle(s)))
    ensures r.0.preformatted == r.1
    // Plaintext mode and empty lines: verbatim text.
    ensures plaintext || s == "" ==> r == (GemtextLine(Text, s, None, preformat), preformat)
    ensures !plaintext && s != "" ==> r.0.lineType == Classify(s)
    // A toggle has no content; inside a preformatted run lines are verbatim.
    ensures !plaintext && s != "" && Classify(s) == PreformatToggle ==>
      r.0.content == "" && r.0.path == None
    ensures !plaintext && s != "" && Classify(s) != PreformatToggle && preformat ==>
      r.0.content == s && r.0.path == None
    // Outside a preformatted run: links and prompts carry a target, all
    // other lines keep the whole line, prefix included.
    ensures !plaintext && s != "" && !preformat && Classify(s) in {Link, Prompt} ==>
      (r.0.content, r.0.path) == (LinkParts(s[2..]).0, Some(LinkParts(s[2..]).1))
    ensures !plaintext && s != "" && !preformat && Classify(s) !in {Link, Prompt, PreformatToggle} ==>
      r.0.content == s && r.0.path == None
  {
    ToggleIffClassified(s);
    if plaintext || s == "" then
      (GemtextLine(Text, s, None, preformat), preformat)
    else
      var t := Classify(s);
      var flag := if t == PreformatToggle then !preformat else preformat;
      var (content, path) :=
        if flag && t != PreformatToggle then (s, None)
        else match t
          case Link => var (caption, target) := LinkParts(s[2..]); (caption, Some(target))
          case Prompt => var (caption, target) := LinkParts(s[2..]); (caption, Some(target))
          case Text => (s, None)
          case PreformatToggle => ("", None)
          case _ => (s, None);
      (GemtextLine(t, content, path, flag), flag)
  }

  /** The fold of `parse_content` over the lines, skipping "." lines. */
  function ParseLines(ls: seq<string>, preformat: bool): (r: (seq<GemtextLine>, bool))
    decreases |ls|
  {
    if |ls| == 0 then ([], preformat)
    else if ls[0] == "." then ParseLines(ls[1..], preformat)
    else
      var (line, flag) := ParseLine(ls[0], false, preformat);
      var (rest, final) := ParseLines(ls[1..], flag);
      ([line] + rest, final)
  }

  /** `Gemtext::parse_content` on the decoded body. The flag is reset
      first, so the previous store plays no part. Outside plaintext mode
      there is one record per non-"." line, each read under the parity of
      the toggles before it, and the final flag is the parity of them all. */
  function ParseContent(store: Store, body: string, plaintext: bool): (r: Store)
    ensures plaintext ==>
      r == Store([GemtextLine(Text, Join(WithoutDots(Lines(body)), "\n"), None, false)], false)
    ensures !plaintext ==> PageByParity(WithoutDots(Lines(body)), r)
  {
    var preformat := false;
    if plaintext then
      var (line, flag) := ParseLine(Join(WithoutDots(Lines(body)), "\n"), true, preformat);
      Store([line], flag)
    else
      var (lines, flag) := ParseLines(Lines(body), preformat);
      var kept := WithoutDots(Lines(body));
      ParseLinesSkipsDots(Lines(body), preformat);
      ParseLinesByParity(kept, preformat);
      Store(lines, flag)
  }

  /** The page `r` holds one record per line of `kept`, record `i` being
      line `i` read under the parity of the toggles before it, and ends
      with the parity of all toggles. */
  predicate PageByParity(kept: seq<string>, r: Store) {
    && |r.lines| == |kept|
    && r.preformat == Odd(ToggleCount(kept))
    && forall i :: 0 <= i < |kept| ==>
         r.lines[i] == ParseLine(kept[i], false, Odd(ToggleCount(kept[..i]))).0
  }

  /** Number of toggle lines in `ls`. */
  function ToggleCount(ls: seq<string>): nat {
    if |ls| == 0 then 0 else (if IsToggle(ls[0]) then 1 else 0) + ToggleCount(ls[1..])
  }

  predicate Odd(n: nat) {
    n % 2 == 1
  }

  /** "." lines play no part in the fold. */
  lemma {:induction false} ParseLinesSkipsDots(ls: seq<string>, preformat: bool)
    ensures ParseLines(ls, preformat) == ParseLines(WithoutDots(ls), preformat)
    decreases |ls|
  {
    if |ls| > 0 {
      ParseLinesSkipsDots(ls[1..], preformat);
      if ls[0] != "." {
        var (_, flag) := ParseLine(ls[0], false, preformat);
        ParseLinesSkipsDots(ls[1..], flag);
        assert WithoutDots(ls)[1..] == WithoutDots(ls[1..]);
      }
    }
  }

  /** Over lines without ".", the fold yields one record per line, in order;
      record `i` is line `i` parsed with the flag given by the parity of the
      toggles before it, and the final flag is the parity of all toggles. */
  lemma ParseLinesByParity(ls: seq<string>, preformat: bool)
    requires "." !in ls
    ensures |ParseLines(ls, preformat).0| == |ls|
    ensures ParseLines(ls, preformat).1 == (preformat != Odd(ToggleCount(ls)))
    ensures forall i :: 0 <= i < |ls| ==>
      ParseLines(ls, preformat).0[i] == ParseLine(ls[i], false, preformat != Odd(ToggleCount(ls[..i]))).0
  {
    ParseLinesFinal(ls, preformat);
    forall i | 0 <= i < |ls|
      ensures ParseLines(ls, preformat).0[i] == ParseLine(ls[i], false, preformat != Odd(ToggleCount(ls[..i]))).0
    {
      ParseLineAt(ls, preformat, i);
    }
  }

  /** Without "." lines there is one record per line, and the final flag
      is the parity of all toggles. */
  lemma {:induction false} ParseLinesFinal(ls: seq<string>, preformat: bool)
    requires "." !in ls
    ensures |ParseLines(ls, preformat).0| == |ls|
    ensures ParseLines(ls, preformat).1 == (preformat != Odd(ToggleCount(ls)))
    decreases |ls|
  {
    if |ls| > 0 {
      var flag := ParseLine(ls[0], false, preformat).1;
      assert flag == (preformat != IsToggle(ls[0]));
      NoDotInTail(ls);
      var rest := ParseLines(ls[1..], flag);
      assert ParseLines(ls, preformat) == ([ParseLine(ls[0], false, preformat).0] + rest.0, rest.1);
      ParseLinesFinal(ls[1..], flag);
      assert ToggleCount(ls) == (if IsToggle(ls[0]) then 1 else 0) + ToggleCount(ls[1..]);
      OddStep(ToggleCount(ls[1..]), IsToggle(ls[0]));
    }
  }

  /** Record `i` is line `i` parsed with the parity of the toggles before
      it. */
  lemma {:induction false} ParseLineAt(ls: seq<string>, preformat: bool, i: nat)
    requires "." !in ls && i < |ls|
    ensures |ParseLines(ls, preformat).0| == |ls|
    ensures ParseLines(ls, preformat).0[i] == ParseLine(ls[i], false, preformat != Odd(ToggleCount(ls[..i]))).0
    decreases i
  {
    ParseLinesFinal(ls, preformat);
    var flag := ParseLine(ls[0], false, preformat).1;
    NoDotInTail(ls);
    ParseLinesFinal(ls[1..], flag);
    assert ParseLines(ls, preformat).0 == [ParseLine(ls[0], false, preformat).0] + ParseLines(ls[1..], flag).0;
    if i == 0 {
      assert ToggleCount(ls[..0]) == 0;
    } else {
      ParseLineAt(ls[1..], flag, i - 1);
      ParityShift(ls, preformat, i);
    }
  }

  lemma NoDotInTail(ls: seq<string>)
    requires "." !in ls && |ls| > 0
    ensures "." !in ls[1..] && ls[0] != "."
  {
    assert forall j :: 0 <= j < |ls| - 1 ==> ls[1..][j] == ls[j + 1];
  }

  /** The flag a line sees after the first line has been read, in terms
      of the whole prefix before it. */
  lemma ParityShift(ls: seq<string>, preformat: bool, i: nat)
    requires 1 <= i < |ls|
    ensures ls[1..][i - 1] == ls[i]
    ensures ((preformat != IsToggle(ls[0])) != Odd(ToggleCount(ls[1..][..i - 1])))
      == (preformat != Odd(ToggleCount(ls[..i])))
  {
    ToggleCountOfPrefix(ls, i);
    OddStep(ToggleCount(ls[1..][..i - 1]), IsToggle(ls[0]));
  }

  /** A prefix's toggle count is its first line's plus that of the rest. */
  lemma ToggleCountOfPrefix(ls: seq<string>, i: nat)
    requires 1 <= i <= |ls|
    ensures ToggleCount(ls[..i]) == (if IsToggle(ls[0]) then 1 else 0) + ToggleCount(ls[1..][..i - 1])
  {
    assert ls[..i][0] == ls[0];
    assert ls[..i][1..] == ls[1..][..i - 1];
  }

  /** One more toggle flips the parity. */
  lemma OddStep(n: nat, toggle: bool)
    ensures Odd(n + (if toggle then 1 else 0)) == (toggle != Odd(n))
  {
  }

  /** Each record's `preformatted` mark is the parity of the toggles up to
      and including its line. */
  lemma MarksByParity(ls: seq<string>, preformat: bool)
    requires "." !in ls
    ensures |ParseLines(ls, preformat).0| == |ls|
    ensures forall i :: 0 <= i < |ls| ==>
      ParseLines(ls, preformat).0[i].preformatted == (preformat != Odd(ToggleCount(ls[..i + 1])))
  {
    ParseLinesByParity(ls, preformat);
    var lines := ParseLines(ls, preformat).0;
    forall i | 0 <= i < |ls|
      ensures lines[i].preformatted == (preformat != Odd(ToggleCount(ls[..i + 1])))
    {
      assert lines[i] == ParseLine(ls[i], false, preformat != Odd(ToggleCount(ls[..i]))).0;
      MarkAt(ls, preformat, i);
    }
  }

  /** A line parsed with the parity of the toggles before it is marked
      with the parity of the toggles up to and including it. */
  lemma MarkAt(ls: seq<string>, preformat: bool, i: nat)
    requires i < |ls|
    ensures ParseLine(ls[i], false, preformat != Odd(ToggleCount(ls[..i]))).0.preformatted
      == (preformat != Odd(ToggleCount(ls[..i + 1])))
  {
    var n := ToggleCount(ls[..i]);
    ParseLineMark(ls[i], preformat != Odd(n));
    assert ls[..i + 1] == ls[..i] + [ls[i]];
    ToggleCountSnoc(ls[..i], ls[i]);
    OddStep(n, IsToggle(ls[i]));
  }

  lemma ParseLineMark(s: string, preformat: bool)
    ensures ParseLine(s, false, preformat).0.preformatted == (preformat != IsToggle(s))
  {
  }

  lemma {:induction false} ToggleCountSnoc(ls: seq<string>, s: string)
    ensures ToggleCount(ls + [s]) == ToggleCount(ls) + (if IsToggle(s) then 1 else 0)
    decreases |ls|
  {
    if |ls| == 0 {
      assert (ls + [s])[1..] == [];
    } else {
      ToggleCountSnoc(ls[1..], s);
      assert (ls + [s])[1..] == ls[1..] + [s];
    }
  }

  /** The preformat state does not leak across pages: the result of a parse
      does not depend on the store it replaces. */
  lemma PreformatDoesNotLeak(a: Store, b: Store, body: string, plaintext: bool)
    ensures ParseContent(a, body, plaintext) == ParseContent(b, body, plaintext)
  {
  }

  /** A parse outside plaintext mode: one record per line that is not ".",
      in input order, each parsed with the flag given by the parity of the
      toggles before it; the final flag is the parity of all toggles. */
  lemma ParseContentByParity(store: Store, body: string)
    ensures var kept := WithoutDots(Lines(body)); var r := ParseContent(store, body, false);
      && |r.lines| == |kept|
      && r.preformat == Odd(ToggleCount(kept))
      && (forall i :: 0 <= i < |kept| ==>
            r.lines[i] == ParseLine(kept[i], false, Odd(ToggleCount(kept[..i]))).0)
      && (forall i :: 0 <= i < |kept| ==>
            r.lines[i].preformatted == Odd(ToggleCount(kept[..i + 1])))
  {
    var kept := WithoutDots(Lines(body));
    ParseLinesSkipsDots(Lines(body), false);
    ParseLinesByParity(kept, false);
    MarksByParity(kept, false);
  }

  /** The example link line of the Gemtext format. */
  lemma ExampleLink()
    ensures ParseLine("=> /foo.gmi Foo", false, false).0
      == GemtextLine(Link, "Foo", Some("/foo.gmi"), false)
  {
    var s := "=> /foo.gmi Foo";
    assert StartsWith(s, "=>") && s[2..] == " /foo.gmi Foo";
    ExampleLinkParts();
  }

  lemma ExampleLinkParts()
    ensures LinkParts(" /foo.gmi Foo") == ("Foo", "/foo.gmi")
  {
    var path, caption := "/foo.gmi", "Foo";
    ExampleTrims();
    ExampleLineSplits();
    FirstWhitespaceAfter(path, ' ', caption);
  }

  lemma ExampleLineSplits()
    ensures forall i :: 0 <= i < |"/foo.gmi"| ==> !IsWhitespace("/foo.gmi"[i])
    ensures "/foo.gmi Foo" == "/foo.gmi" + [' '] + "Foo"
  {
  }

  /** The first whitespace of `p + [c] + q` is `c` when `p` has none. */
  lemma FirstWhitespaceAfter(p: string, c: char, q: string)
    requires IsWhitespace(c)
    requires forall i :: 0 <= i < |p| ==> !IsWhitespace(p[i])
    ensures IndexOfWhitespace(p + [c] + q) == Some(|p|)
    ensures (p + [c] + q)[..|p|] == p && (p + [c] + q)[|p| + 1..] == q
  {
    var s := p + [c] + q;
    assert s[..|p|] == p;
    FirstWhitespaceAt(s, |p|);
  }

  lemma FirstWhitespaceAt(s: string, k: nat)
    requires k < |s| && IsWhitespace(s[k])
    requires forall i :: 0 <= i < k ==> !IsWhitespace(s[..k][i])
    ensures IndexOfWhitespace(s) == Some(k)
  {
    assert forall i :: 0 <= i < k ==> s[..k][i] == s[i];
  }

  lemma ExampleTrims()
    ensures Trim(" /foo.gmi Foo") == "/foo.gmi Foo"
    ensures Trim("Foo") == "Foo"
  {
    var text := " /foo.gmi Foo";
    var t := "/foo.gmi Foo";
    assert text[1..] == t;
    assert LeadingWhitespace(t) == 0 by { assert !IsWhitespace(t[0]); }
    assert TrailingWhitespace(t) == 0 by { assert !IsWhitespace(t[|t| - 1]); }
    assert LeadingWhitespace("Foo") == 0 by { assert !IsWhitespace('F'); }
    assert TrailingWhitespace("Foo") == 0 by { assert !IsWhitespace('o'); }
  }
}
