/** Parsing the text of an INFO reply into sections of key/value pairs. */
module RedisInfo {
  import opened Wrappers
  import opened Strings

  type Sections = map<string, map<string, string>>

  // ── Strings ────────────────────────────────────────────────────────────────

  /** Unicode white space, as strings.TrimSpace removes it. */
  predicate IsSpace(c: char) {
    || '\U{9}' <= c <= '\U{D}' || c == ' ' || c == '\U{85}' || c == '\U{A0}' || c == '\U{1680}'
    || '\U{2000}' <= c <= '\U{200A}' || c == '\U{2028}' || c == '\U{2029}' || c == '\U{202F}'
    || c == '\U{205F}' || c == '\U{3000}'
  }

  function TrimLeft(s: string): string {
    if s != "" && IsSpace(s[0]) then TrimLeft(s[1..]) else s
  }

  function TrimRight(s: string): string {
    if s != "" && IsSpace(s[|s| - 1]) then TrimRight(s[..|s| - 1]) else s
  }

  function TrimSpace(s: string): string {
    TrimRight(TrimLeft(s))
  }

  function Split(s: string): seq<string>
    decreases |s|
  {
    var i := IndexOf(s, '\n');
    if i == |s| then [s] else [s[..i]] + Split(s[i + 1..])
  }

  // ── The parser ─────────────────────────────────────────────────────────────

  datatype Parse = Parse(sections: Sections, current: string)

  function WithSection(sections: Sections, name: string): Sections {
    if name in sections then sections else sections[name := map[]]
  }

  /** What one trimmed, non-empty line does. */
  function ParseLine(p: Parse, trimmed: string, lower: string -> string): Parse {
    if "# " <= trimmed then
      var name := lower(trimmed[2..]);
      Parse(WithSection(p.sections, name), name)
    else
      var i := IndexOf(trimmed, ':');
      if i == |trimmed| then p
      else
        var sections := WithSection(p.sections, p.current);
        p.(sections := sections[p.current := sections[p.current][trimmed[..i] := trimmed[i + 1..]]])
  }

  function ParseLines(p: Parse, lines: seq<string>, lower: string -> string): Parse
    decreases |lines|
  {
    if lines == [] then p
    else
      var trimmed := TrimSpace(lines[0]);
      ParseLines(if trimmed == "" then p else ParseLine(p, trimmed, lower), lines[1..], lower)
  }

  const START := Parse(map[], "default")

  method ParseRedisInfo(info: string, lower: string -> string) returns (sections: Sections)
    ensures sections == ParseLines(START, Split(info), lower).sections
  {
    sections := map[];
    var currentSection := "default";
    var lines := Split(info);
    for i := 0 to |lines|
      invariant ParseLines(START, lines, lower) == ParseLines(Parse(sections, currentSection), lines[i..], lower)
    {
      assert lines[i..][1..] == lines[i + 1..];
      var line := TrimSpace(lines[i]);
      if line == "" {
        continue;
      }
      if "# " <= line {
        currentSection := lower(line[2..]);
        if currentSection !in sections {
          sections := sections[currentSection := map[]];
        }
        continue;
      }
      var j := IndexOf(line, ':');
      if j < |line| {
        if currentSection !in sections {
          sections := sections[currentSection := map[]];
        }
        sections := sections[currentSection := sections[currentSection][line[..j] := line[j + 1..]]];
      }
    }
  }

  // ── Documents and what they mean ───────────────────────────────────────────

  /** A comment is any other text, such as one without a colon. */
  datatype Item = Header(title: string) | Pair(key: string, value: string) | Comment(text: string) | Blank

  /** A line of a reply, with white space around it: one that ends with CRLF trails a carriage return. */
  datatype Line = Line(item: Item, lead: string, trail: string)

  function Body(item: Item): string {
    match item
    case Header(title) => "# " + title
    case Pair(key, value) => key + ":" + value
    case Comment(text) => text
    case Blank => ""
  }

  function Raw(line: Line): string {
    line.lead + Body(line.item) + line.trail
  }

  function Print(lines: seq<Line>): string
    decreases |lines|
  {
    if lines == [] then ""
    else Raw(lines[0]) + "\n" + Print(lines[1..])
  }

  /** What a printed item must not contain for the line structure to show it: no line feed, no
      white space at the ends of the line, no colon in a key, and no key that looks like a header. */
  predicate WellFormed(item: Item) {
    var body := Body(item);
    && '\n' !in body
    && (item.Header? ==> item.title != "")
    && (item.Pair? ==> ':' !in item.key && !("# " <= item.key))
    && (item.Comment? ==> item.text != "" && ':' !in item.text && !("# " <= item.text))
    && (body != "" ==> !IsSpace(body[0]) && !IsSpace(body[|body| - 1]))
  }

  predicate Padding(s: string) {
    forall c :: c in s ==> IsSpace(c) && c != '\n'
  }

  predicate Proper(line: Line) {
    WellFormed(line.item) && Padding(line.lead) && Padding(line.trail)
  }

  /** The section in force after an item. */
  function Section(current: string, item: Item, lower: string -> string): string {
    if item.Header? then lower(item.title) else current
  }

  /** The last value `key` is given in section `name`, when the items start in section `current`. */
  function LastValue(current: string, lines: seq<Line>, lower: string -> string, name: string, key: string)
    : Option<string>
    decreases |lines|
  {
    if lines == [] then None
    else
      var item := lines[0].item;
      var later := LastValue(Section(current, item, lower), lines[1..], lower, name, key);
      if later.Some? then later
      else if item.Pair? && item.key == key && current == name then Some(item.value)
      else None
  }

  /** Whether section `name` has a header or a pair. */
  predicate Mentions(current: string, lines: seq<Line>, lower: string -> string, name: string)
    decreases |lines|
  {
    lines != [] &&
    (|| (lines[0].item.Header? && lower(lines[0].item.title) == name)
     || (lines[0].item.Pair? && current == name)
     || Mentions(Section(current, lines[0].item, lower), lines[1..], lower, name))
  }

  function Lookup(sections: Sections, name: string, key: string): Option<string> {
    if name in sections && key in sections[name] then Some(sections[name][key]) else None
  }

  // ── Round trip ─────────────────────────────────────────────────────────────

  lemma {:induction false} TrimRightSpace(s: string, c: char)
    requires IsSpace(c)
    ensures TrimRight(s + [c]) == TrimRight(s)
  {
    assert (s + [c])[..|s|] == s;
  }

  lemma {:induction false} TrimRightPadding(s: string, trail: string)
    requires Padding(trail)
    ensures TrimRight(s + trail) == TrimRight(s)
    decreases |trail|
  {
    if trail == "" {
      assert s + trail == s;
    } else {
      var front := trail[..|trail| - 1];
      assert s + trail == (s + front) + [trail[|trail| - 1]];
      TrimRightSpace(s + front, trail[|trail| - 1]);
      TrimRightPadding(s, front);
    }
  }

  lemma {:induction false} TrimLeftPadding(lead: string, s: string)
    requires Padding(lead)
    ensures TrimLeft(lead + s) == TrimLeft(s)
    decreases |lead|
  {
    if lead == "" {
      assert lead + s == s;
    } else {
      assert (lead + s)[1..] == lead[1..] + s;
      TrimLeftPadding(lead[1..], s);
    }
  }

  lemma TrimBody(line: Line)
    requires Proper(line)
    ensures TrimSpace(Raw(line)) == Body(line.item)
  {
    var body := Body(line.item);
    assert Raw(line) == line.lead + (body + line.trail);
    TrimLeftPadding(line.lead, body + line.trail);
    if body == "" {
      assert body + line.trail == line.trail == line.trail + "";
      TrimLeftPadding(line.trail, "");
    } else {
      TrimRightPadding(body, line.trail);
    }
  }

  lemma SplitLine(line: string, rest: string)
    requires '\n' !in line
    ensures Split(line + "\n" + rest) == [line] + Split(rest)
  {
    var s := line + ['\n'] + rest;
    IndexOfFirst(line, '\n', rest);
    assert s[..|line|] == line && s[|line| + 1..] == rest;
  }

  lemma SplitPrinted(lines: seq<Line>)
    requires lines != [] && Proper(lines[0])
    ensures Split(Print(lines)) == [Raw(lines[0])] + Split(Print(lines[1..]))
  {
    hide Split, Body;
    SplitLine(Raw(lines[0]), Print(lines[1..]));
  }

  /** What an item does to a parse. */
  function Meaning(p: Parse, item: Item, lower: string -> string): Parse {
    match item
    case Header(title) => Parse(WithSection(p.sections, lower(title)), lower(title))
    case Pair(key, value) =>
      var sections := WithSection(p.sections, p.current);
      p.(sections := sections[p.current := sections[p.current][key := value]])
    case Comment(_) => p
    case Blank => p
  }

  lemma ParseBody(p: Parse, item: Item, lower: string -> string)
    requires WellFormed(item) && !item.Blank?
    ensures ParseLine(p, Body(item), lower) == Meaning(p, item, lower)
  {
    match item
    case Header(title) =>
      assert ("# " + title)[2..] == title;
    case Pair(key, value) =>
      var body := key + ":" + value;
      assert !("# " <= body) by {
        if |key| >= 2 {
          assert body[..2] == key[..2];
        } else if |key| == 1 {
          assert body[1] == ':';
        } else {
          assert body[0] == ':';
        }
      }
      assert body == key + [':'] + value;
      IndexOfFirst(key, ':', value);
      assert body[..|key|] == key && body[|key| + 1..] == value;
    case Comment(text) =>
      assert IndexOf(text, ':') == |text|;
  }

  ghost predicate Printable(lines: seq<Line>) {
    forall l :: l in lines ==> Proper(l)
  }

  /** A printed reply is parsed item by item. */
  lemma ParsePrintedLine(p: Parse, lines: seq<Line>, lower: string -> string)
    requires lines != [] && Proper(lines[0])
    ensures ParseLines(p, Split(Print(lines)), lower)
         == ParseLines(Meaning(p, lines[0].item, lower), Split(Print(lines[1..])), lower)
  {
    hide Split, Print, TrimSpace, ParseLine, Meaning, Raw, Padding;
    var item := lines[0].item;
    SplitPrinted(lines);
    TrimBody(lines[0]);
    if !item.Blank? {
      ParseBody(p, item, lower);
    }
    assert Body(item) == "" <==> item.Blank?;
    hide WellFormed, Body;
    var rest := Split(Print(lines[1..]));
    assert ([Raw(lines[0])] + rest)[1..] == rest;
    assert item.Blank? ==> Meaning(p, item, lower) == p by { BlankMeansNothing(p, lower); }
  }

  lemma BlankMeansNothing(p: Parse, lower: string -> string)
    ensures Meaning(p, Blank, lower) == p
  {
  }

  lemma MeaningEffect(p: Parse, item: Item, lower: string -> string, name: string, key: string)
    ensures var p' := Meaning(p, item, lower);
      && p'.current == Section(p.current, item, lower)
      && (name in p'.sections <==> || name in p.sections || (item.Header? && lower(item.title) == name)
                                   || (item.Pair? && p.current == name))
      && Lookup(p'.sections, name, key)
         == if item.Pair? && item.key == key && p.current == name then Some(item.value)
            else Lookup(p.sections, name, key)
  {
  }

  lemma {:induction false} ParsePrintedFrom(p: Parse, lines: seq<Line>, lower: string -> string, name: string,
                                            key: string)
    requires Printable(lines)
    ensures var r := ParseLines(p, Split(Print(lines)), lower).sections;
      && (name in r <==> name in p.sections || Mentions(p.current, lines, lower, name))
      && Lookup(r, name, key)
         == var last := LastValue(p.current, lines, lower, name, key);
            if last.Some? then last else Lookup(p.sections, name, key)
    decreases |lines|
  {
    if lines == [] {
      assert Split("") == [""];
      assert ParseLines(p, [""], lower) == ParseLines(p, [""][1..], lower);
    } else {
      hide ParseLines, Split, Print, Meaning, Lookup;
      ParsePrintedLine(p, lines, lower);
      MeaningEffect(p, lines[0].item, lower, name, key);
      ParsePrintedFrom(Meaning(p, lines[0].item, lower), lines[1..], lower, name, key);
    }
  }

  /** Parsing any printed reply: a section is present exactly if it has a header or a pair, and
      each of its keys has the last value given under any header of that section. */
  lemma ParsePrinted(lines: seq<Line>, lower: string -> string, name: string, key: string)
    requires Printable(lines)
    ensures var r := ParseLines(START, Split(Print(lines)), lower).sections;
      && (name in r <==> Mentions("default", lines, lower, name))
      && Lookup(r, name, key) == LastValue("default", lines, lower, name, key)
  {
    ParsePrintedFrom(START, lines, lower, name, key);
  }

  /** The lines list `m`: every header names a section of it and every pair an entry, in any
      order and with any repetition, and nothing of `m` is missing. */
  predicate Consistent(current: string, lines: seq<Line>, lower: string -> string, m: Sections)
    decreases |lines|
  {
    lines != [] ==>
      && (match lines[0].item
          case Header(title) => lower(title) in m
          case Pair(key, value) => Lookup(m, current, key) == Some(value)
          case Comment(_) => true
          case Blank => true)
      && Consistent(Section(current, lines[0].item, lower), lines[1..], lower, m)
  }

  ghost predicate Lists(lines: seq<Line>, lower: string -> string, m: Sections) {
    && Consistent("default", lines, lower, m)
    && (forall name :: name in m ==> Mentions("default", lines, lower, name))
    && (forall name, key :: name in m && key in m[name] ==> LastValue("default", lines, lower, name, key).Some?)
  }

  lemma {:induction false} ConsistentValues(current: string, lines: seq<Line>, lower: string -> string, m: Sections,
                                            name: string, key: string)
    requires Consistent(current, lines, lower, m)
    ensures Mentions(current, lines, lower, name) ==> name in m
    ensures var last := LastValue(current, lines, lower, name, key);
      last.Some? ==> Lookup(m, name, key) == last
    decreases |lines|
  {
    if lines != [] {
      ConsistentValues(Section(current, lines[0].item, lower), lines[1..], lower, m, name, key);
    }
  }

  /** Parsing undoes printing: whatever the order of sections and keys, however often they are
      repeated, and whichever white space surrounds the lines. */
  lemma ParseUndoesPrint(lines: seq<Line>, lower: string -> string, m: Sections)
    requires Printable(lines) && Lists(lines, lower, m)
    ensures ParseLines(START, Split(Print(lines)), lower).sections == m
  {
    var r := ParseLines(START, Split(Print(lines)), lower).sections;
    hide ParseLines, Split, Print, LastValue, Mentions, Consistent;
    forall name: string, key: string
      ensures Lookup(r, name, key) == Lookup(m, name, key)
    {
      ParsePrinted(lines, lower, name, key);
      ConsistentValues("default", lines, lower, m, name, key);
    }
    forall name: string ensures name in r <==> name in m {
      ParsePrinted(lines, lower, name, "");
      ConsistentValues("default", lines, lower, m, name, "");
    }
    SameSections(r, m);
  }

  /** A map whose sections and pairs can be printed: section names are in lower case, and each
      header and pair is well-formed. */
  ghost predicate CanPrint(m: Sections, lower: string -> string) {
    && (forall name :: name in m ==> lower(name) == name && WellFormed(Header(name)))
    && (forall name, key :: name in m && key in m[name] ==> WellFormed(Pair(key, m[name][key])))
  }

  /** `lines`, read in section `current`, are consistent with `m` and show all of `part`. */
  ghost predicate Shows(current: string, lines: seq<Line>, lower: string -> string, part: Sections, m: Sections) {
    && Printable(lines) && Consistent(current, lines, lower, m)
    && (forall name :: name in part ==> Mentions(current, lines, lower, name))
    && (forall name, key :: name in part && key in part[name] ==> LastValue(current, lines, lower, name, key).Some?)
  }

  /** Adding one line in front keeps what the others show. */
  lemma ShowsAfter(current: string, line: Line, lines: seq<Line>, lower: string -> string, part: Sections, m: Sections)
    requires Proper(line) && Shows(Section(current, line.item, lower), lines, lower, part, m)
    requires match line.item
             case Header(title) => lower(title) in m
             case Pair(key, value) => Lookup(m, current, key) == Some(value)
             case Comment(_) => true
             case Blank => true
    ensures Shows(current, [line] + lines, lower, part, m)
  {
    var all := [line] + lines;
    assert all[1..] == lines && all[0] == line;
    hide WellFormed;
  }

  lemma PairsAreWellFormed(m: Sections, lower: string -> string)
    requires CanPrint(m, lower)
    ensures forall name, key :: name in m && key in m[name] ==> WellFormed(Pair(key, m[name][key]))
  {
  }

  /** A pair in front of lines that show other pairs of the same section. */
  lemma PairInFront(name: string, key: string, more: seq<Line>, lower: string -> string, part: Sections, m: Sections,
                    trail: string)
    requires name in m && key in m[name] && WellFormed(Pair(key, m[name][key])) && Padding(trail)
    requires Shows(name, more, lower, part, m)
    ensures var lines := [Line(Pair(key, m[name][key]), "", trail)] + more;
      && Shows(name, lines, lower, part, m)
      && LastValue(name, lines, lower, name, key).Some?
      && forall k :: LastValue(name, more, lower, name, k).Some? ==> LastValue(name, lines, lower, name, k).Some?
  {
    var line := Line(Pair(key, m[name][key]), "", trail);
    hide WellFormed, Shows;
    ShowsAfter(name, line, more, lower, part, m);
    assert ([line] + more)[1..] == more;
  }

  /** The pairs of one section, in front of lines that show the other sections. */
  lemma {:induction false} PrintPairs(name: string, keys: set<string>, rest: seq<Line>, lower: string -> string,
                                      part: Sections, m: Sections, trail: string) returns (lines: seq<Line>)
    requires Padding(trail)
    requires CanPrint(m, lower) && name in m && keys <= m[name].Keys && Shows(name, rest, lower, part, m)
    ensures Shows(name, lines, lower, part, m)
    ensures forall key :: key in keys ==> LastValue(name, lines, lower, name, key).Some?
    decreases keys
  {
    hide Shows, CanPrint, LastValue, WellFormed;
    if keys == {} {
      lines := rest;
    } else {
      var key :| key in keys;
      var more := PrintPairs(name, keys - {key}, rest, lower, part, m, trail);
      PairsAreWellFormed(m, lower);
      PairInFront(name, key, more, lower, part, m, trail);
      lines := [Line(Pair(key, m[name][key]), "", trail)] + more;
    }
  }

  /** A header in front of lines that show the pairs of its section and other sections. */
  lemma HeaderInFront(current: string, name: string, more: seq<Line>, lower: string -> string, part: Sections,
                      m: Sections, trail: string)
    requires CanPrint(m, lower) && name in m && name in part && part[name] == m[name] && Padding(trail)
    requires Shows(name, more, lower, part - {name}, m)
    requires forall key :: key in m[name] ==> LastValue(name, more, lower, name, key).Some?
    ensures Shows(current, [Line(Header(name), "", trail)] + more, lower, part, m)
  {
    var line := Line(Header(name), "", trail);
    var lines := [line] + more;
    assert lower(name) == name && WellFormed(line.item);
    hide WellFormed, CanPrint;
    ShowsAfter(current, line, more, lower, part - {name}, m);
    assert lines[1..] == more && lines[0] == line;
  }

  /** The sections of `part`, whatever section the lines before them were in. */
  lemma {:induction false} PrintSections(part: Sections, lower: string -> string, m: Sections, trail: string)
    returns (lines: seq<Line>)
    requires CanPrint(m, lower) && Padding(trail)
    requires forall name :: name in part ==> name in m && part[name] == m[name]
    ensures forall current {:trigger Shows(current, lines, lower, part, m)} :: Shows(current, lines, lower, part, m)
    decreases part.Keys
  {
    if part == map[] {
      lines := [];
    } else {
      hide Shows, CanPrint;
      var name :| name in part;
      assert (part - {name}).Keys == part.Keys - {name};
      var rest := PrintSections(part - {name}, lower, m, trail);
      var more := PrintPairs(name, m[name].Keys, rest, lower, part - {name}, m, trail);
      lines := [Line(Header(name), "", trail)] + more;
      forall current: string ensures Shows(current, lines, lower, part, m) {
        HeaderInFront(current, name, more, lower, part, m, trail);
      }
    }
  }

  /** Every map of lower-case section names to well-formed pairs has lines that list it, with
      either line ending, and parsing them gives it back. */
  lemma EveryMapIsListed(m: Sections, lower: string -> string, trail: string) returns (lines: seq<Line>)
    requires CanPrint(m, lower) && Padding(trail)
    ensures Printable(lines) && Lists(lines, lower, m)
    ensures ParseLines(START, Split(Print(lines)), lower).sections == m
  {
    lines := PrintSections(m, lower, m, trail);
    assert Shows("default", lines, lower, m, m);
    ParseUndoesPrint(lines, lower, m);
  }

  lemma SameSections(a: Sections, b: Sections)
    requires a.Keys == b.Keys
    requires forall name, key :: Lookup(a, name, key) == Lookup(b, name, key)
    ensures a == b
  {
    forall name | name in a ensures a[name] == b[name] {
      assert forall key :: key in a[name] <==> Lookup(a, name, key).Some?;
      assert forall key :: key in b[name] <==> Lookup(b, name, key).Some?;
      assert forall key | key in a[name] :: a[name][key] == Lookup(a, name, key).value;
    }
  }
}
