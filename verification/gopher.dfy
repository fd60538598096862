/** Gopher menus (RFC 1436): one item per line, a type character followed
    by tab-separated display string, selector, host and port, and the URLs
    the client builds from a menu item. */
module Gopher {
  import opened Wrappers
  import opened Strings
  import Protocols

  /** Item types of section 3.8 of RFC 1436, the Gopher+ additions and the
      common non-canonical ones. */
  datatype LineType =
    | TextFile
    | Submenu
    | CcsoNameserver
    | ErrorItem
    | BinHexFile
    | DosFile
    | UuencodedFile
    | Search
    | Telnet
    | BinaryFile
    | Mirror
    | GifFile
    | ImageFile
    | Telnet3270
    | BitmapImage
    | MovieFile
    | SoundFile
    | Document
    | Html
    | Informational
    | PngFile
    | RtfFile
    | PdfFile
    | XmlFile
    | UnknownItem

  /** `LineType::from_str` on the type field. */
  function TypeOf(t: string): LineType {
    match t
    case "0" => TextFile
    case "1" => Submenu
    case "2" => CcsoNameserver
    case "3" => ErrorItem
    case "4" => BinHexFile
    case "5" => DosFile
    case "6" => UuencodedFile
    case "7" => Search
    case "8" => Telnet
    case "9" => BinaryFile
    case "+" => Mirror
    case "g" => GifFile
    case "I" => ImageFile
    case "T" => Telnet3270
    case ":" => BitmapImage
    case ";" => MovieFile
    case "<" => SoundFile
    case "d" => Document
    case "h" => Html
    case "i" => Informational
    case "p" => PngFile
    case "r" => RtfFile
    case "s" => SoundFile
    case "t" => PdfFile
    case "x" => XmlFile
    case _ => UnknownItem
  }

  /** The type character of each item type; a sound file is written "s"
      or "<", and an unknown item has none. */
  function TypeCodes(t: LineType): set<string> {
    match t
    case TextFile => {"0"}
    case Submenu => {"1"}
    case CcsoNameserver => {"2"}
    case ErrorItem => {"3"}
    case BinHexFile => {"4"}
    case DosFile => {"5"}
    case UuencodedFile => {"6"}
    case Search => {"7"}
    case Telnet => {"8"}
    case BinaryFile => {"9"}
    case Mirror => {"+"}
    case GifFile => {"g"}
    case ImageFile => {"I"}
    case Telnet3270 => {"T"}
    case BitmapImage => {":"}
    case MovieFile => {";"}
    case SoundFile => {"s", "<"}
    case Document => {"d"}
    case Html => {"h"}
    case Informational => {"i"}
    case PngFile => {"p"}
    case RtfFile => {"r"}
    case PdfFile => {"t"}
    case XmlFile => {"x"}
    case UnknownItem => {}
  }

  /** The type table: a listed type field yields the item type it codes
      for, and every unlisted one yields `UnknownItem`. */
  lemma TypeOfMatchesCodes(s: string, t: LineType)
    requires t != UnknownItem
    ensures TypeOf(s) == t <==> s in TypeCodes(t)
  {
    if s in TypeCodes(t) {
      TypeCodesClassify(s, t);
    }
    if TypeOf(s) == t {
      ClassifiedHasCode(s);
    }
  }

  lemma TypeCodesClassify(s: string, t: LineType)
    requires s in TypeCodes(t)
    ensures TypeOf(s) == t
  {
  }

  lemma ClassifiedHasCode(s: string)
    requires TypeOf(s) != UnknownItem
    ensures s in TypeCodes(TypeOf(s))
  {
  }

  /** One menu item. The client also keeps a per-item search box, which is
      interface state. */
  datatype GopherLine = GopherLine(
    lineType: LineType,
    display: string,
    selector: string,
    hostname: string,
    port: nat,
    isLink: bool)

  /** A line shown as is, with no link. */
  function InfoLine(text: string): (l: GopherLine)
    ensures l.lineType == Informational && l.display == text && !l.isLink
  {
    GopherLine(Informational, text, "", "", 0, false)
  }

  /** `split_at_checked(1)`: the first character and the rest, when the
      first character takes exactly one byte; otherwise "i" and the whole
      line. */
  function SplitType(s: string): (r: (string, string))
    ensures |s| > 0 && Utf8Width(s[0]) == 1 ==> r.0 == [s[0]] && s == r.0 + r.1
    ensures |s| == 0 || Utf8Width(s[0]) > 1 ==> r == ("i", s)
  {
    if |s| == 0 || Utf8Width(s[0]) > 1 then ("i", s) else (s[..1], s[1..])
  }

  /** `GopherLine::from_str`. A line without a tab is a blank informational
      line; one with a tab needs display, selector, host and a 16-bit
      port. */
  function ParseLine(s: string, plaintext: bool): (r: Result<GopherLine>)
    ensures plaintext ==> r == Ok(InfoLine(s))
    ensures !plaintext && '\t' !in SplitType(s).1 ==> r == Ok(InfoLine(""))
    ensures !plaintext && '\t' in SplitType(s).1 ==>
      var fields := Split(SplitType(s).1, '\t');
      && (|fields| < 4 ==> r == Err(GopherMissingFields(s)))
      && (|fields| >= 4 && ParseU16(fields[3]).None? ==> r == Err(GopherBadPort(fields[3])))
      && (|fields| >= 4 && ParseU16(fields[3]).Some? ==> r.Ok?)
      && (r.Ok? ==>
            r.value == GopherLine(TypeOf(SplitType(s).0), fields[0], fields[1], fields[2],
                                  ParseU16(fields[3]).value, r.value.isLink))
    ensures !plaintext && r.Ok? && '\t' in SplitType(s).1 ==>
      (r.value.isLink <==> SplitType(s).0 !in {"i", "7"})
  {
    if plaintext then Ok(InfoLine(s))
    else
      var (t, content) := SplitType(s);
      var fields := Split(content, '\t');
      if |fields| == 1 then Ok(InfoLine(""))
      else if |fields| < 4 then Err(GopherMissingFields(s))
      else match ParseU16(fields[3])
        case None => Err(GopherBadPort(fields[3]))
        case Some(port) =>
          Ok(GopherLine(TypeOf(t), fields[0], fields[1], fields[2], port, !(t == "i" || t == "7")))
  }

  /** The menu line a server writes for one item. */
  function MenuLine(t: char, display: string, selector: string, host: string, port: nat): string
    requires port < 0x1_0000
  {
    [t] + Join([display, selector, host, Decimal(port)], "\t")
  }

  /** Round trip: a server's menu line reads back as the item it describes,
      whenever the type is a one-byte character and no field holds a tab. */
  lemma ParseMenuLine(t: char, display: string, selector: string, host: string, port: nat)
    requires port < 0x1_0000 && Utf8Width(t) == 1
    requires '\t' !in display && '\t' !in selector && '\t' !in host
    ensures ParseLine(MenuLine(t, display, selector, host, port), false)
      == Ok(GopherLine(TypeOf([t]), display, selector, host, port, t != 'i' && t != '7'))
  {
    var fields := [display, selector, host, Decimal(port)];
    assert '\t' !in Decimal(port) by {
      assert forall i :: 0 <= i < |Decimal(port)| ==> IsDigit(Decimal(port)[i]);
    }
    JoinThenSplit(fields, '\t');
    var s := MenuLine(t, display, selector, host, port);
    assert SplitType(s) == ([t], Join(fields, "\t"));
    ParseU16OfDecimal(port);
  }

  /** The items of a menu, in order; the first line that faults stops the
      reading, as the client's panic does. */
  function ParseLines(ls: seq<string>): (r: Result<seq<GopherLine>>)
    ensures r.Ok? <==> forall i :: 0 <= i < |ls| ==> ParseLine(ls[i], false).Ok?
    ensures r.Ok? ==> |r.value| == |ls|
    ensures r.Ok? ==> forall i :: 0 <= i < |ls| ==> r.value[i] == ParseLine(ls[i], false).value
    ensures r.Err? ==> exists i :: 0 <= i < |ls| && ParseLine(ls[i], false) == Err(r.fault)
  {
    if |ls| == 0 then Ok([])
    else
      var line :- ParseLine(ls[0], false);
      var rest :- ParseLines(ls[1..]);
      Ok([line] + rest)
  }

  /** `Gopher::parse_content`: "." lines are dropped; in plaintext mode the
      remaining lines, joined again, form one informational item. */
  function ParseContent(body: string, plaintext: bool): (r: Result<seq<GopherLine>>)
    ensures plaintext ==> r == Ok([InfoLine(Join(WithoutDots(Lines(body)), "\n"))])
    ensures !plaintext ==> r == ParseLines(WithoutDots(Lines(body)))
  {
    if plaintext then
      Ok([ParseLine(Join(WithoutDots(Lines(body)), "\n"), true).value])
    else ParseLines(WithoutDots(Lines(body)))
  }

  /** One item as a server describes it. */
  datatype MenuItem = MenuItem(t: char, display: string, selector: string, host: string, port: nat)

  /** An item a server can write on one menu line: a one-byte type, a
      16-bit port, and no tab or line break inside a field. */
  predicate Writable(m: MenuItem) {
    && m.port < 0x1_0000 && Utf8Width(m.t) == 1 && m.t != '\n'
    && '\t' !in m.display && '\t' !in m.selector && '\t' !in m.host
    && '\n' !in m.display && '\n' !in m.selector && '\n' !in m.host
  }

  /** The line a server writes for an item. */
  function ItemText(m: MenuItem): string
    requires Writable(m)
  {
    MenuLine(m.t, m.display, m.selector, m.host, m.port)
  }

  /** The record the client should make of an item. */
  function ItemLine(m: MenuItem): GopherLine {
    GopherLine(TypeOf([m.t]), m.display, m.selector, m.host, m.port, m.t != 'i' && m.t != '7')
  }

  function ItemLines(ms: seq<MenuItem>): (r: seq<GopherLine>)
    ensures |r| == |ms| && forall i :: 0 <= i < |ms| ==> r[i] == ItemLine(ms[i])
  {
    if |ms| == 0 then [] else [ItemLine(ms[0])] + ItemLines(ms[1..])
  }

  /** The item lines of a menu, in order. */
  function ItemTexts(ms: seq<MenuItem>): (lines: seq<string>)
    requires forall i :: 0 <= i < |ms| ==> Writable(ms[i])
    ensures |lines| == |ms| && forall i :: 0 <= i < |ms| ==> lines[i] == ItemText(ms[i])
  {
    if |ms| == 0 then [] else [ItemText(ms[0])] + ItemTexts(ms[1..])
  }

  /** A menu as a server writes it: one line per item, then the
      terminating "." line of section 3.1 of RFC 1436. */
  function Menu(ms: seq<MenuItem>): string
    requires forall i :: 0 <= i < |ms| ==> Writable(ms[i])
  {
    Join(ItemTexts(ms) + ["."], "\n")
  }

  /** An item line holds no line break, does not end in '\r', and is not
      the "." terminator: it ends with the port's last digit. */
  lemma ItemTextIsOneLine(m: MenuItem)
    requires Writable(m)
    ensures var line := ItemText(m);
      '\n' !in line && !EndsWithCr(line) && line != "."
  {
    var digits := Decimal(m.port);
    assert '\n' !in digits && |digits| > 0 && IsDigit(digits[|digits| - 1]) by {
      assert forall i :: 0 <= i < |digits| ==> IsDigit(digits[i]);
    }
    var fields := [m.display, m.selector, m.host, digits];
    NotInJoin(fields, "\t", '\n');
    JoinEndsWithLast(fields, "\t");
    var joined := Join(fields, "\t");
    var line := [m.t] + joined;
    assert line[|line| - 1] == joined[|joined| - 1] == digits[|digits| - 1];
  }

  /** No item line of a menu can be mistaken for a line break, a '\r'
      or the terminator. */
  lemma ItemTextsAreLines(ms: seq<MenuItem>)
    requires forall i :: 0 <= i < |ms| ==> Writable(ms[i])
    ensures BodyLines(ItemTexts(ms))
  {
    forall i | 0 <= i < |ms|
      ensures var line := ItemText(ms[i]); '\n' !in line && !EndsWithCr(line) && line != "."
    {
      ItemTextIsOneLine(ms[i]);
    }
  }

  /** Every item line parses to the item's record. */
  lemma {:induction false} ParseItemTexts(ms: seq<MenuItem>)
    requires forall i :: 0 <= i < |ms| ==> Writable(ms[i])
    ensures ParseLines(ItemTexts(ms)) == Ok(ItemLines(ms))
    decreases |ms|
  {
    if |ms| > 0 {
      var items := ItemTexts(ms);
      assert items[1..] == ItemTexts(ms[1..]);
      ParseItemTexts(ms[1..]);
      ParseItemText(ms[0]);
      assert ItemLines(ms) == [ItemLine(ms[0])] + ItemLines(ms[1..]);
    }
  }

  lemma ParseItemText(m: MenuItem)
    requires Writable(m)
    ensures ParseLine(ItemText(m), false) == Ok(ItemLine(m))
  {
    ParseMenuLine(m.t, m.display, m.selector, m.host, m.port);
  }

  /** Round trip: a whole menu, terminator included, reads back as its
      items in order. */
  lemma ParseMenu(ms: seq<MenuItem>)
    requires forall i :: 0 <= i < |ms| ==> Writable(ms[i])
    ensures ParseContent(Menu(ms), false) == Ok(ItemLines(ms))
  {
    var items := ItemTexts(ms);
    var body := Menu(ms);
    ItemTextsAreLines(ms);
    TerminatedLines(items);
    ParseItemTexts(ms);
  }

  /** The port part of a Gopher URL: omitted for the default port 70. */
  function PortPart(port: nat): (s: string)
    ensures s == "" <==> port == 70
  {
    if port != 70 then ":" + Decimal(port) else ""
  }

  /** The URL a followed link navigates to. */
  function LinkUrl(l: GopherLine): string {
    "gopher://" + l.hostname + PortPart(l.port) + l.selector
  }

  /** The URL a search item submits `query` to. */
  function SearchUrl(l: GopherLine, query: string): string {
    LinkUrl(l) + "?" + query
  }

  /** Both URLs are classified as plain Gopher. */
  lemma ItemUrlsAreGopher(l: GopherLine, query: string)
    ensures Protocols.FromStr(LinkUrl(l)) == Protocols.Gopher(false)
    ensures Protocols.FromStr(SearchUrl(l, query)) == Protocols.Gopher(false)
  {
    var rest := "//" + l.hostname + PortPart(l.port) + l.selector;
    var link := LinkUrl(l);
    assert link == "gopher:" + rest;
    GopherScheme(rest);
    var tail := "?" + query;
    assert SearchUrl(l, query) == link + tail;
    ConcatAssociative("gopher:", rest, tail);
    GopherScheme(rest + tail);
  }

  /** A search URL is the link URL with "?" and the query appended. */
  lemma SearchUrlExtendsLink(l: GopherLine, query: string)
    ensures StartsWith(SearchUrl(l, query), LinkUrl(l))
    ensures SearchUrl(l, query)[|LinkUrl(l)|..] == "?" + query
  {
  }

  /** An explicit port in an item URL reads back as the item's port. */
  lemma PortPartReadsBack(port: nat)
    requires port < 0x1_0000 && port != 70
    ensures ParseU16(PortPart(port)[1..]) == Some(port)
  {
    assert PortPart(port)[1..] == Decimal(port);
    ParseU16OfDecimal(port);
  }

  lemma GopherScheme(rest: string)
    ensures Protocols.FromStr("gopher:" + rest) == Protocols.Gopher(false)
  {
    assert "gopher:" + rest == "gopher" + [':'] + rest;
    SplitOnceOfConcat("gopher", ':', rest);
  }
}
