/** The vita page's text parser: the fetched `vita.txt` (or the built-in
    fallback when it is blank) is cut into lines, each line is trimmed, and the
    lines are folded into year blocks of (title, detail) items plus an optional
    contact string. */
module Vita {
  import opened Optional
  import opened Text

  datatype Item = Item(title: string, detail: string)

  datatype YearBlock = YearBlock(year: string, items: seq<Item>)

  /** What the page renders: the timeline and, when some line set it, the
      contact text. */
  datatype VitaData = VitaData(timeline: seq<YearBlock>, contact: Option<string>)

  /** The loop variables of the parser: the blocks emitted so far, the year
      being filled (`null` before the first year line), its items, a title
      waiting for its detail, and the contact text seen last. */
  datatype Parser = Parser(
    timeline: seq<YearBlock>,
    year: Option<string>,
    items: seq<Item>,
    pending: Option<string>,
    contact: Option<string>)

  const Start := Parser([], None, [], None, None)

  const ContactPrefix := "contact"

  /** The lines of the built-in text parsed when the fetched text is blank;
      the text ends with a line break, hence the empty last line. */
  const FallbackLines: seq<string> := ["Christian Silvester Seemann"] + [
    "",
    "VITA",
    "",
    "Group Exhibition / Selection",
    "",
    "2024",
    "„New ecologies“ - Kunst Sammlungen, Chemnitz",
    "climate/weather reactive installation",
    "„Kollektiv Rabatzzz“ - Segment 3.0, Dresden",
    "AV installation",
    "",
    "2023",
    "„Stresstest“ – New Scenario",
    "Sculpture",
    "„Dark Matter III“ – C. Rockefeller Center, Dresden",
    "AV installation",
    "„Crashtest 12“ – Jilska 14, Praha",
    "AV installation",
    "",
    "2022",
    "„Geschäft gesucht“ – Weiße Gasse 8, Dresden",
    "Intervention with Lisa Maria Baier for anniversary of Nazi Progrome",
    "„Opening“ – Juri, Dresden",
    "Sound cyanotype",
    "„Circuit Control 2022“ Alte Feuerwache, Loschwitz",
    "Visual performance",
    "„Hauptsache mit Stecker“ – Oswalz, Dresden",
    "Curation and visual installation",
    "„DIWO“ – Konglomerat, Dresden",
    "Visual Installation an Organisation",
    "„Kodekü 2022“ – Stadt Weißwasser",
    "Sound performance",
    "",
    "2021",
    "“Glass in your shoes“ – Weisse Gasse 8, Dresden",
    "Intervention with Lisa Maria Baier for anniversary of Nazi Progrome",
    "„Territorien II“ – Kunsthalle Oktogon, Dresden",
    "Audiovisuell Installation",
    "„Circuit Control 2021“ – Medienkulturzentrum, Dresden",
    "Organisation",
    "„Kodekü 2021“ – Eastclub, Bischofswerda",
    "AV installation",
    "",
    "2020",
    "„Space Baitler for sewing machines” Galerie Ursula Walter, Dresden",
    "Virtuell AV object",
    "„Circuit Control 2020“ – Sektor, Dresden",
    "Participation",
    "„Kodekü 2020“ – Eastclub, Bischofswerda",
    "Audio installation",
    "„M20 Meisterschüler*innen“ – Motorenhalle, Dresden",
    "Visual experiments",
    "„Liminalität oder das peinliche Alter / Nebliger Mai“ – Zentralwerk, Dresden",
    "Room intervention",
    "",
    "2019",
    "„Intervention auf dem Heidefriedhof“ – Kunsthaus, Dresden",
    "Intervention and video",
    "„Art for Humanism“ – Kunsthalle im Lipsiusbau, Dresden",
    "Co-Curation",
    "„What are you looking at?“ – Kunsthalle Oktogon, Dresden",
    "",
    "Contact: christianseemann@me.com",
    ""
  ]

  const FallbackVita := Join(FallbackLines, '\n')

  function AsciiLower(c: char): char {
    if 'A' <= c <= 'Z' then (c as int + 32) as char else c
  }

  /** `/^contact:/i`: the line starts with "contact" in any ASCII case,
      followed by a colon. Without the `u` flag, case-insensitive matching
      never maps a character outside ASCII onto an ASCII one, so only ASCII
      letters match the ASCII pattern. */
  predicate IsContactLine(line: string)
    ensures IsContactLine(line) <==>
      && |line| > |ContactPrefix|
      && (forall k :: 0 <= k < |ContactPrefix| ==> AsciiLower(line[k]) == ContactPrefix[k])
      && line[|ContactPrefix|] == ':'
  {
    && |line| > |ContactPrefix|
    && AsciiLower(line[0]) == ContactPrefix[0] && AsciiLower(line[1]) == ContactPrefix[1]
    && AsciiLower(line[2]) == ContactPrefix[2] && AsciiLower(line[3]) == ContactPrefix[3]
    && AsciiLower(line[4]) == ContactPrefix[4] && AsciiLower(line[5]) == ContactPrefix[5]
    && AsciiLower(line[6]) == ContactPrefix[6]
    && line[|ContactPrefix|] == ':'
  }

  predicate IsDigit(c: char) {
    '0' <= c <= '9'
  }

  /** `/^\d{4}$/`: exactly four ASCII digits. */
  predicate IsYearLine(line: string)
    ensures IsYearLine(line) <==> |line| == 4 && forall k :: 0 <= k < |line| ==> IsDigit(line[k])
    ensures IsYearLine(line) ==> !IsContactLine(line)
  {
    |line| == 4 && IsDigit(line[0]) && IsDigit(line[1]) && IsDigit(line[2]) && IsDigit(line[3])
  }

  /** `line.split(":").slice(1).join(":").trim()`. */
  function ContactValue(line: string): (r: string)
    requires IsContactLine(line)
    ensures IsTrimmed(r)
    ensures r == Trim(line[|ContactPrefix| + 1..])
  {
    var k := |ContactPrefix|;
    assert line[k] == ':';
    assert FirstIndex(line, ':') == Some(k) by {
      assert forall i :: 0 <= i < k ==> line[i] != ':';
      assert ':' !in line[..k];
    }
    AfterFirstSeparator(line, ':', k);
    Trim(Join(Split(line, ':')[1..], ':'))
  }

  /** The block a year line closes: kept only when it has items. */
  function Closed(year: Option<string>, items: seq<Item>): seq<YearBlock> {
    if year.Some? && |items| > 0 then [YearBlock(year.value, items)] else []
  }

  /** One iteration of the parser's loop over the trimmed lines. Only a
      contact line changes the contact; only a year line emits a block or
      changes the year; before the first year every other line is skipped. */
  function Step(p: Parser, line: string): (r: Parser)
    ensures r.contact == (if IsContactLine(line) then Some(ContactValue(line)) else p.contact)
    ensures !IsYearLine(line) || IsContactLine(line) ==> r.timeline == p.timeline && r.year == p.year
    ensures p.year.None? && !IsYearLine(line) ==> r == p.(contact := r.contact)
    ensures |r.items| <= |p.items| + 1
  {
    if line == "" then p
    else if IsContactLine(line) then p.(contact := Some(ContactValue(line)))
    else if IsYearLine(line) then
      p.(timeline := p.timeline + Closed(p.year, p.items),
         year := Some(line), items := [], pending := None)
    else if p.year.None? then p
    else
      match p.pending
      case None => p.(pending := Some(line))
      case Some(title) => p.(items := p.items + [Item(title, line)], pending := None)
  }

  /** The loop itself: `Step` folded over `lines` from the front. */
  function Run(p: Parser, lines: seq<string>): Parser
    decreases |lines|
  {
    if |lines| == 0 then p else Run(Step(p, lines[0]), lines[1..])
  }

  /** The code after the loop: a pending title becomes an item with an empty
      detail and the last year is emitted when it has items. */
  function Finish(p: Parser): (r: VitaData)
    ensures r.contact == p.contact
    ensures p.year.None? ==> r.timeline == p.timeline
    ensures p.year.Some? && p.pending.Some? ==>
      r.timeline == p.timeline + [YearBlock(p.year.value, p.items + [Item(p.pending.value, "")])]
    ensures p.year.Some? && p.pending.None? ==> r.timeline == p.timeline + Closed(p.year, p.items)
  {
    var items := p.items + (if p.pending.Some? then [Item(p.pending.value, "")] else []);
    assert p.pending.None? ==> items == p.items;
    VitaData(
      if p.year.Some? then p.timeline + Closed(p.year, items) else p.timeline,
      p.contact)
  }

  /** The parser applied to lines that are already trimmed. */
  function ParseLines(lines: seq<string>): VitaData {
    Finish(Run(Start, lines))
  }

  function TrimAll(lines: seq<string>): (r: seq<string>)
    ensures |r| == |lines|
    ensures forall i :: 0 <= i < |r| ==> r[i] == Trim(lines[i])
  {
    seq(|lines|, i requires 0 <= i < |lines| => Trim(lines[i]))
  }

  /** `parseVita(raw)`. */
  function ParseVita(raw: string): VitaData {
    ParseLines(TrimAll(Split(raw, '\n')))
  }

  /** `vitaRaw.trim() ? vitaRaw : FALLBACK_VITA`: the fetched text unless it
      is blank; the text handed to the parser is never blank. */
  function VitaSource(raw: string): (r: string)
    ensures !IsBlank(raw) ==> r == raw
    ensures IsBlank(raw) ==> r == FallbackVita
    ensures !IsBlank(r)
  {
    FallbackNotBlank();
    if Trim(raw) != "" then raw else FallbackVita
  }

  lemma FallbackNotBlank()
    ensures !IsBlank(FallbackVita)
  {
    assert FallbackLines[0] == "Christian Silvester Seemann";
    assert FallbackVita[0] == 'C';
  }

  /** What the page shows for the fetched text `raw`. */
  function RenderedVita(raw: string): (r: VitaData)
    ensures !IsBlank(raw) ==> r == ParseVita(raw)
    ensures IsBlank(raw) ==> r == ParseVita(FallbackVita)
  {
    ParseVita(VitaSource(raw))
  }
}
