/** Nex pages: plain lines, of which those starting with "=> " are links. */
module Nex {
  import opened Wrappers
  import opened Strings

  datatype NexLine = NexLine(text: string, isLink: bool)

  const LinkPrefix := "=> "

  /** `NexLine::from_str`: the line verbatim, marked as a link exactly when
      it starts with "=> ", space included. */
  function FromStr(s: string): (l: NexLine)
    ensures l.text == s
    ensures l.isLink <==> |s| >= 3 && s[0] == '=' && s[1] == '>' && s[2] == ' '
  {
    NexLine(s, StartsWith(s, LinkPrefix))
  }

  /** The records of a sequence of lines, one per line, in order. */
  function FromLines(ls: seq<string>): (r: seq<NexLine>)
    ensures |r| == |ls|
    ensures forall i :: 0 <= i < |ls| ==> r[i] == FromStr(ls[i])
  {
    if |ls| == 0 then [] else [FromStr(ls[0])] + FromLines(ls[1..])
  }

  /** `Nex::parse_content` on the decoded body: one record for the whole
      body in plaintext mode, otherwise one per line. Lines "." are kept. */
  function ParseContent(body: string, plaintext: bool): (r: seq<NexLine>)
    ensures plaintext ==> r == [FromStr(body)]
    ensures !plaintext ==> |r| == |Lines(body)|
    ensures !plaintext ==> forall i :: 0 <= i < |r| ==> r[i] == FromStr(Lines(body)[i])
  {
    if plaintext then [FromStr(body)] else FromLines(Lines(body))
  }

  function Texts(r: seq<NexLine>): (ts: seq<string>)
    ensures |ts| == |r|
    ensures forall i :: 0 <= i < |r| ==> ts[i] == r[i].text
  {
    if |r| == 0 then [] else [r[0].text] + Texts(r[1..])
  }

  /** Parsing loses no text: a body whose lines contain no line feed,
      none ends in CR and the last is non-empty, is the records' texts
      joined with line feeds. */
  lemma ParseContentKeepsText(ls: seq<string>)
    requires |ls| > 0 && ls[|ls| - 1] != ""
    requires forall i :: 0 <= i < |ls| ==> '\n' !in ls[i] && !EndsWithCr(ls[i])
    ensures Join(Texts(ParseContent(Join(ls, "\n"), false)), "\n") == Join(ls, "\n")
  {
    LinesOfJoin(ls);
    assert ParseContent(Join(ls, "\n"), false) == FromLines(ls);
    TextsOfFromLines(ls);
  }

  lemma TextsOfFromLines(ls: seq<string>)
    ensures Texts(FromLines(ls)) == ls
  {
    var ts := Texts(FromLines(ls));
    assert forall i :: 0 <= i < |ls| ==> ts[i] == ls[i];
  }

  /** The label and the target the client shows for a link line: the text
      before and after its first space. */
  function LinkParts(text: string): (r: Option<(string, string)>)
    ensures r.Some? <==> FromStr(text).isLink
    ensures r.Some? ==> |text| >= 3 && r.value == ("=>", text[3..])
  {
    if !StartsWith(text, LinkPrefix) then None
    else
      assert text == "=>" + [' '] + text[3..];
      SplitOnceOfConcat("=>", ' ', text[3..]);
      SplitOnce(text, ' ')
  }

  /** A link's target, put back behind the prefix, gives the line. */
  lemma LinkPartsRoundTrip(text: string)
    requires FromStr(text).isLink
    ensures LinkPrefix + LinkParts(text).value.1 == text
  {
  }
}
