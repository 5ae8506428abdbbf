/** Exactly which descriptions and criteria come back from the editable block. */
module EditableExactness {
  import opened Wrappers
  import opened PythonText
  import opened WorkflowTables
  import opened EditableText

  // ---- Descriptions: any text that comes back is regular -----------------------------------

  ghost predicate AllIn(r: string, s: string) { forall c :: c in r ==> c in s }

  /** What follows a heading on its line. */
  lemma RestIsOneLine(line: string)
    requires OneLine(line)
    ensures OneLine(Strip(Cut(line).2))
  {
    var value := Cut(line).2;
    forall c | c in value ensures !IsBreak(c) {
      CutSource(line, c);
      if c in line { InOneLine(line, c); }
    }
    NoBreakIn(Strip(value), value);
  }

  lemma NoBreakIn(r: string, s: string)
    requires (forall c :: c in s ==> !IsBreak(c)) && AllIn(r, s)
    ensures OneLine(r)
  {
    forall k | 0 <= k < |r| ensures !IsBreak(r[k]) { assert r[k] in r; }
  }

  /** Nothing taken from the line can break a line. */
  predicate WholeLine(f: Facts) {
    && OneLine(f.line) && (f.reading.DescriptionHeading? ==> OneLine(f.reading.rest))
  }

  lemma ReadsWhole(line: string)
    requires OneLine(line)
    ensures WholeLine(FactsOf(line))
  {
    RestIsOneLine(line);
  }

  lemma TakesWhole(p: Parsing, f: Facts)
    requires AllOneLine(p.description) && WholeLine(f)
    ensures AllOneLine(Take(p, f).description)
  {}

  lemma {:induction false} DescriptionOneLineEach(p: Parsing, lines: seq<Facts>)
    requires AllOneLine(p.description) && forall k :: 0 <= k < |lines| ==> WholeLine(lines[k])
    ensures AllOneLine(TakeAll(p, lines).description)
  {
    if lines != [] {
      var n := |lines| - 1;
      DescriptionOneLineEach(p, lines[..n]);
      TakesWhole(TakeAll(p, lines[..n]), lines[n]);
    }
  }

  lemma {:induction false} JoinedBreaks(lines: seq<string>, c: char)
    requires AllOneLine(lines) && c in Joined(lines) && IsBreak(c)
    ensures c == '\n'
  {
    if |lines| == 1 {
      InOneLine(lines[0], c);
    } else {
      if c in lines[0] { InOneLine(lines[0], c); }
      if c in Joined(lines[1..]) { JoinedBreaks(lines[1..], c); }
    }
  }

  lemma JoinedStep(s: string, i: nat, rest: seq<string>)
    requires i == FirstBreak(s) < |s| && s[i] == '\n' && rest == Lines(s[i + 1..]) && rest != [] && Joined(rest) == s[i + 1..]
    ensures Joined(Lines(s)) == s && Lines(s) != []
  {
    assert Lines(s) == [s[..i]] + rest;
    JoinedTwo([s[..i]], rest);
    assert s == s[..i] + "\n" + s[i + 1..];
  }

  /** Lines ended by line feeds only, and the last not ended at all. */
  predicate LineFeeds(s: string) {
    (forall k :: 0 <= k < |s| && IsBreak(s[k]) ==> s[k] == '\n') && (s != "" ==> !IsBreak(s[|s| - 1]))
  }

  lemma LineFeedsFrom(s: string, n: nat)
    requires LineFeeds(s) && n < |s|
    ensures LineFeeds(s[n..])
  {}

  lemma {:induction false} LineFeedsOnly(s: string)
    requires LineFeeds(s)
    ensures Joined(Lines(s)) == s && (s != "" ==> Lines(s) != [])
    decreases |s|
  {
    var i := FirstBreak(s);
    if i < |s| {
      LineFeedsFrom(s, i + 1);
      LineFeedsOnly(s[i + 1..]);
      JoinedStep(s, i, Lines(s[i + 1..]));
    }
  }

  /** Over every text that can come back: the description is the original's or
      regular. */
  lemma DescriptionKeptOrRegular(raw: string, original: Template)
    requires Parse(raw, original).Ok?
    ensures var d := Parse(raw, original).value.description; d == original.description || Regular(d)
  {
    var lines := Lines(Strip(raw));
    var facts := AllFacts(lines);
    forall k | 0 <= k < |facts| ensures WholeLine(facts[k]) {
      assert lines[k] in lines;
      ReadsWhole(lines[k]);
    }
    var texts := TakeAll(Begin(original), facts).description;
    DescriptionOneLineEach(Begin(original), facts);
    var d := Strip(Joined(texts));
    forall k | 0 <= k < |d| && IsBreak(d[k]) ensures d[k] == '\n' {
      assert d[k] in d;
      JoinedBreaks(texts, d[k]);
    }
    LineFeedsOnly(d);
  }

  // ---- Descriptions: a heading among the lines makes what comes back shorter ------------------

  /** The length of the joined lines, and one more. */
  function Size(lines: seq<string>): nat {
    if lines == [] then 0 else Size(lines[..|lines| - 1]) + |lines[|lines| - 1]| + 1
  }

  lemma SizeAppend(lines: seq<string>, line: string)
    ensures Size(lines + [line]) == Size(lines) + |line| + 1
  {
    assert (lines + [line])[..|lines|] == lines;
  }

  lemma {:induction false} JoinedSize(lines: seq<string>)
    requires lines != []
    ensures |Joined(lines)| + 1 == Size(lines)
  {
    var n := |lines| - 1;
    if n == 0 {
      assert lines[..0] == [];
    } else {
      JoinedSize(lines[..n]);
      JoinedTwo(lines[..n], [lines[n]]);
      assert lines == lines[..n] + [lines[n]];
    }
  }

  lemma StripShorter(s: string)
    ensures |Strip(s)| <= |s|
  {}

  predicate IsHeading(r: Reading) { r.DescriptionHeading? || r.CriteriaHeading? }

  /** What is kept of a heading is shorter than its line. */
  predicate ShortRest(f: Facts) { f.reading.DescriptionHeading? ==> f.reading.rest == "" || |f.reading.rest| < |f.line| }

  lemma HeadingRead(line: string)
    ensures SectionLine(line) <==> IsHeading(Read(line))
  {
    var section := Lookup(HEADINGS, Lower(Cut(line).0));
    if section.Some? { assert section.value == DescriptionSection || section.value == CriteriaSection; }
  }

  lemma ReadsShort(line: string)
    ensures ShortRest(FactsOf(line)) && (SectionLine(line) <==> IsHeading(Read(line)))
  {
    HeadingRead(line);
    StripShorter(Cut(line).2);
    StripShorter(line);
  }

  /** One line outside the header: what it adds to the description is no longer than
      the line, and shorter if the line is a heading. */
  lemma TakeShrinks(p: Parsing, f: Facts)
    requires p.mode != InHeader && ShortRest(f)
    ensures var q := Take(p, f);
            && q.mode != InHeader && Size(q.description) <= Size(p.description) + |f.line| + 1
            && (IsHeading(f.reading) ==> Size(q.description) < Size(p.description) + |f.line| + 1)
  {
    SizeAppend(p.description, f.line);
    if f.reading.DescriptionHeading? {
      SizeAppend(p.description, f.reading.rest);
      assert p.description + Maybe(f.reading.rest) == if f.reading.rest == "" then p.description else p.description + [f.reading.rest];
    }
  }

  lemma {:induction false} LinesShrink(p: Parsing, lines: seq<string>, h: nat)
    requires p.mode != InHeader && h <= |lines| && (h < |lines| ==> SectionLine(lines[h]))
    ensures var q := TakeAll(p, AllFacts(lines));
            && q.mode != InHeader && Size(q.description) <= Size(p.description) + Size(lines)
            && (h < |lines| ==> Size(q.description) < Size(p.description) + Size(lines))
  {
    if lines == [] {
      assert AllFacts(lines) == [];
    } else {
      var n := |lines| - 1;
      LinesShrink(p, lines[..n], if h < n then h else n);
      FactsGrow(p, lines, n);
      assert lines[..n + 1] == lines;
      ReadsShort(lines[n]);
      TakeShrinks(TakeAll(p, AllFacts(lines[..n])), FactsOf(lines[n]));
    }
  }

  lemma {:induction false} LeftTrimThenBreak(s: string)
    ensures LeftTrim(s + "\n") == if LeftTrim(s) == "" then "" else LeftTrim(s) + "\n"
  {
    if s == "" {
      assert s + "\n" == "\n" && "\n"[1..] == "";
    } else if IsSpace(s[0]) {
      assert (s + "\n")[1..] == s[1..] + "\n";
      LeftTrimThenBreak(s[1..]);
    }
  }

  /** The blank line after the description disappears again. */
  lemma StripThenBreak(s: string)
    ensures |Strip(s + "\n")| <= |s|
  {
    LeftTrimThenBreak(s);
    var left := LeftTrim(s) + "\n";
    assert left[..|left| - 1] == LeftTrim(s);
  }

  /** What the parser has of the description when it has read it and the blank line. */
  lemma BlankAfter(q: Parsing, d: string)
    requires q.mode != InHeader && Size(q.description) <= |d|
    ensures var after := Take(q, FactsOf("")).description; Strip(Joined(after)) == "" || |Strip(Joined(after))| < |d|
  {
    BlankLine();
    var after := Take(q, FactsOf("")).description;
    if q.description == [] {
      assert Joined([""]) == "";
    } else {
      JoinedSize(q.description);
      StripShorter(Joined(q.description));
      if after != q.description {
        JoinedTwo(q.description, [""]);
        assert Joined(q.description) + "\n" + "" == Joined(q.description) + "\n";
        StripThenBreak(Joined(q.description));
      }
    }
  }

  /** The description the parser ends with. */
  lemma ParsedDescription(raw: string, original: Template)
    requires Parse(raw, original).Ok?
    ensures var text := Strip(Joined(TakeAll(Begin(original), AllFacts(Lines(Strip(raw)))).description));
            Parse(raw, original).value.description == OrElse(text, original.description)
  {}

  /** A template with a heading among the lines of its description. */
  lemma HeadingShortens(t: Template, original: Template, k: nat)
    requires Laid(t) && k < |Lines(t.description)| && SectionLine(Lines(t.description)[k])
    ensures var r := Parse(Print(t), original);
            r.Ok? ==> r.value.description == original.description || |r.value.description| < |t.description|
  {
    LinesBack(t);
    LinesInThree(t);
    SameFacts(PrintLines(t));
    HeaderRead(t);
    CriteriaRead(t);
    BlockShortens(FactsOf, t, Begin(original), k);
    if Parse(Print(t), original).Ok? { ParsedDescription(Print(t), original); }
  }

  lemma BlockShortens(read: string -> Facts, t: Template, p: Parsing, k: nat)
    requires read == FactsOf && Regular(t.description) && k < |Lines(t.description)| && SectionLine(Lines(t.description)[k])
    requires p.mode == InHeader && p.description == [] && ReadsHeader(read, t) && ReadsCriteria(read, t)
    ensures var a, b, c := HeaderLines(t), ["描述:"] + (Lines(t.description) + [""]), ["驗收標準:"] + PrintedCriteria(t.criteria);
            var text := Strip(Joined(TakeAll(p, AllBy(read, a + b + c)).description));
            text == "" || |text| < |t.description|
  {
    var a, b, c := HeaderLines(t), ["描述:"] + (Lines(t.description) + [""]), ["驗收標準:"] + PrintedCriteria(t.criteria);
    AllInParts(read, p, a + b, c);
    AllInParts(read, p, a, b);
    TakeHeader(read, t, p);
    var q := p.(header := HeaderOf(t));
    DescriptionPart(q, Lines(t.description), t.description, k);
    TakeCriteria(read, t, TakeAll(q, AllBy(read, b)));
  }

  lemma DescriptionPart(p: Parsing, lines: seq<string>, d: string, h: nat)
    requires p.mode == InHeader && p.description == [] && d == Joined(lines) && h < |lines| && SectionLine(lines[h])
    ensures var texts := TakeAll(p, AllBy(FactsOf, ["描述:"] + (lines + [""]))).description;
            Strip(Joined(texts)) == "" || |Strip(Joined(texts))| < |d|
  {
    var begun := Take(p, FactsOf("描述:"));
    DescriptionHeadingLine();
    AllInParts(FactsOf, p, ["描述:"], lines + [""]);
    TakeOne(FactsOf, p, "描述:");
    AllInParts(FactsOf, begun, lines, [""]);
    SameFacts(lines);
    var q := TakeAll(begun, AllFacts(lines));
    LinesShrink(begun, lines, h);
    JoinedSize(lines);
    TakeOne(FactsOf, q, "");
    BlankAfter(q, d);
  }

  /** A description that differs from the original's comes back exactly if it is
      regular and none of its lines reads as a heading, everything else being
      printable. */
  lemma DescriptionExactly(t: Template, original: Template)
    requires Printable(t.(description := "d")) && t.description != original.description
    ensures var r := Parse(Print(t), original);
            DescriptionOk(t.description) <==> r.Ok? && r.value.description == t.description
  {
    var r := Parse(Print(t), original);
    if DescriptionOk(t.description) {
      RoundTrip(t, original);
    } else if r.Ok? && r.value.description == t.description {
      DescriptionKeptOrRegular(Print(t), original);
      var k :| 0 <= k < |Lines(t.description)| && SectionLine(Lines(t.description)[k]);
      HeadingShortens(t, original, k);
    }
  }

  // ---- Criteria: whatever comes back is on one line ------------------------------------------

  lemma {:induction false} LeftStripWithin(s: string, marks: set<char>)
    ensures AllIn(LeftStrip(s, marks), s) && |LeftStrip(s, marks)| <= |s|
  {
    if s != "" && s[0] in marks { LeftStripWithin(s[1..], marks); }
  }

  /** Nothing taken from the line as a criterion can break a line. */
  predicate WholeItem(f: Facts) { OneLine(f.item) && (f.reading.CriteriaHeading? ==> OneLine(LeftStrip(f.reading.rest, MARKS))) }

  lemma ItemIsWhole(line: string)
    requires OneLine(line)
    ensures WholeItem(FactsOf(line))
  {
    RestIsOneLine(line);
    OneLineStripped(Strip(Cut(line).2));
    forall c | c in Strip(line) ensures !IsBreak(c) { InOneLine(line, c); }
    NoBreakIn(Strip(line), Strip(line));
    OneLineStripped(Strip(line));
    var marked := LeftStrip(Strip(line), MARKS);
    forall c | c in marked ensures !IsBreak(c) { InOneLine(marked, c); }
    NoBreakIn(Strip(marked), marked);
  }

  lemma OneLineStripped(s: string)
    requires OneLine(s)
    ensures OneLine(LeftStrip(s, MARKS))
  {
    LeftStripWithin(s, MARKS);
    forall c | c in s ensures !IsBreak(c) { InOneLine(s, c); }
    NoBreakIn(LeftStrip(s, MARKS), s);
  }

  lemma TakesWholeItem(p: Parsing, f: Facts)
    requires AllOneLine(p.criteria) && WholeItem(f)
    ensures AllOneLine(Take(p, f).criteria)
  {}

  lemma {:induction false} CriteriaOneLineEach(p: Parsing, lines: seq<Facts>)
    requires AllOneLine(p.criteria) && forall k :: 0 <= k < |lines| ==> WholeItem(lines[k])
    ensures AllOneLine(TakeAll(p, lines).criteria)
  {
    if lines != [] {
      var n := |lines| - 1;
      CriteriaOneLineEach(p, lines[..n]);
      TakesWholeItem(TakeAll(p, lines[..n]), lines[n]);
    }
  }

  /** Over every text that can come back: the criteria are the original's or each on
      one line. */
  lemma CriteriaKeptOrOneLine(raw: string, original: Template)
    requires Parse(raw, original).Ok?
    ensures var items := Parse(raw, original).value.criteria; items == original.criteria || AllOneLine(items)
  {
    var lines := Lines(Strip(raw));
    var facts := AllFacts(lines);
    forall k | 0 <= k < |facts| ensures WholeItem(facts[k]) {
      assert lines[k] in lines;
      ItemIsWhole(lines[k]);
    }
    CriteriaOneLineEach(Begin(original), facts);
  }

  // ---- Criteria: what each printed item reads as ----------------------------------------------

  /** What is made of an item once it has been printed. */
  function ItemBack(item: string): string { Strip(LeftStrip(RightTrim("- " + item), MARKS)) }

  lemma PrintedItemRead(item: string, line: string)
    requires line == "- " + item || line == RightTrim("- " + item)
    ensures FactsOf(line).reading == Plain && FactsOf(line).item == ItemBack(item)
  {
    var cut := RightTrim("- " + item);
    TrimKeepsHyphen(item);
    assert LeftTrim("- " + item) == "- " + item && LeftTrim(cut) == cut;
    StripsNothing(cut);
    HyphenLine(cut);
    assert Strip(line) == cut;
    assert Cut(line) == Cut(cut);
  }

  lemma {:induction false} TrimKeepsHyphen(item: string)
    ensures RightTrim("- " + item) != "" && RightTrim("- " + item)[0] == '-' && Trimmed(RightTrim("- " + item))
  {
    RightTrimTail("-", " " + item);
    assert "-" + (" " + item) == "- " + item;
    assert RightTrim("-") == "-";
  }

  /** Trimming at the right stops where something is left. */
  lemma {:induction false} RightTrimTail(u: string, x: string)
    ensures RightTrim(u + x) == if RightTrim(x) == "" then RightTrim(u) else u + RightTrim(x)
  {
    if x == "" {
      assert u + x == u;
    } else {
      var n := |x| - 1;
      assert (u + x)[..|u + x| - 1] == u + x[..n] && (u + x)[|u + x| - 1] == x[n];
      RightTrimTail(u, x[..n]);
    }
  }

  function Kept(items: seq<string>): seq<string> {
    if items == [] then [] else
      var n := |items| - 1;
      Kept(items[..n]) + if Meant(items[n]) then [items[n]] else []
  }

  lemma {:induction false} KeptAll(items: seq<string>)
    ensures |Kept(items)| <= |items|
    ensures |Kept(items)| == |items| ==> Kept(items) == items && forall k :: 0 <= k < |items| ==> Meant(items[k])
  {
    if items != [] {
      var n := |items| - 1;
      KeptAll(items[..n]);
      assert items == items[..n] + [items[n]];
      if |Kept(items)| == |items| {
        forall k | 0 <= k < |items| ensures Meant(items[k]) { if k < n { assert items[..n][k] == items[k]; } }
      }
    }
  }

  /** Plain lines in the list of criteria add the items that mean something. */
  lemma {:induction false} TakesItems(p: Parsing, lines: seq<Facts>, items: seq<string>)
    requires p.mode == InCriteria && |lines| == |items|
    requires forall k :: 0 <= k < |lines| ==> lines[k].reading.Plain? && lines[k].item == items[k]
    ensures TakeAll(p, lines) == p.(criteria := p.criteria + Kept(items))
  {
    if lines != [] {
      var n := |lines| - 1;
      TakesItems(p, lines[..n], items[..n]);
    }
  }

  /** An item that comes back as itself is a good one. */
  lemma BackIsGood(item: string)
    requires OneLine(item) && Meant(item) && ItemBack(item) == item
    ensures CriterionOk(item)
  {
    var line := "- " + item;
    assert line[..|line| - 1] == "- " + item[..|item| - 1] && line[|line| - 1] == item[|item| - 1];
    assert RightTrim(line) == line;
    assert line[1..][1..] == item && line[0] in MARKS && line[1..][0] in MARKS;
    assert LeftStrip(line, MARKS) == LeftStrip(line[1..], MARKS) == LeftStrip(item, MARKS);
    StripShorter(LeftStrip(item, MARKS));
    if item[0] in MARKS { LeftStripWithin(item[1..], MARKS); }
  }

  /** The printed block with the last line trimmed, for items that are on one line. */
  function TrimmedBullets(items: seq<string>): seq<string>
    requires items != []
  {
    var n := |items| - 1;
    Bullets(items)[..n] + [RightTrim("- " + items[n])]
  }

  function Before(t: Template): seq<string> { HeaderLines(t) + (["描述:"] + (Lines(t.description) + [""])) + ["驗收標準:"] }

  lemma JoinedTrims(front: seq<string>, last: string)
    requires front != [] && front[0] != "" && !IsSpace(front[0][0]) && RightTrim(last) != ""
    ensures Strip(Joined(front + [last])) == Joined(front + [RightTrim(last)])
  {
    JoinedTwo(front, [last]);
    JoinedTwo(front, [RightTrim(last)]);
    var text := Joined(front) + "\n";
    RightTrimTail(text, last);
    FirstOfJoined(front);
    assert LeftTrim(text + last) == text + last;
  }

  lemma BulletsSplit(pre: seq<string>, items: seq<string>)
    requires items != []
    ensures var n := |items| - 1;
            var front := pre + Bullets(items)[..n];
            pre + Bullets(items) == front + ["- " + items[n]] && pre + TrimmedBullets(items) == front + [RightTrim("- " + items[n])]
  {}

  lemma PrintTrims(t: Template)
    requires HeaderPrintable(t) && Regular(t.description) && t.criteria != []
    ensures Strip(Print(t)) == Joined(Before(t) + TrimmedBullets(t.criteria))
  {
    PrintJoined(t);
    BlockTrims(Before(t), t.criteria, t.summary);
  }

  lemma BlockTrims(pre: seq<string>, items: seq<string>, summary: string)
    requires items != [] && pre != [] && pre[0] == "標題: " + summary
    ensures Strip(Joined(pre + Bullets(items))) == Joined(pre + TrimmedBullets(items))
  {
    var n := |items| - 1;
    BulletsSplit(pre, items);
    TrimKeepsHyphen(items[n]);
    assert pre[0][0] == '標';
    JoinedTrims(pre + Bullets(items)[..n], "- " + items[n]);
  }

  lemma Regrouped(a: seq<string>, b: seq<string>, c: seq<string>, d: seq<string>, e: seq<string>, f: seq<string>)
    ensures a + (b + (c + d)) + e + f == a + b + c + d + e + f
  {}

  lemma PrintJoined(t: Template)
    requires HeaderPrintable(t) && Regular(t.description) && t.criteria != []
    ensures Print(t) == Joined(Before(t) + Bullets(t.criteria))
  {
    var a, b, c, d := "標題: " + t.summary, "類型: " + t.issueType, "專案: " + t.projectKey, "優先級: " + t.priority;
    JoinedFour(a, b, c, d);
    SectionsJoined([a, b, c, d], "描述:", Lines(t.description), "", "驗收標準:", Bullets(t.criteria));
    Regrouped(HeaderLines(t), ["描述:"], Lines(t.description), [""], ["驗收標準:"], Bullets(t.criteria));
    assert Bullets(t.criteria)[0] == "- " + t.criteria[0];
  }

  lemma BulletsOneLine(items: seq<string>)
    requires items != [] && AllOneLine(items)
    ensures AllOneLine(TrimmedBullets(items)) && TrimmedBullets(items)[|items| - 1] != ""
  {
    var n := |items| - 1;
    TrimKeepsHyphen(items[n]);
    var last := "- " + items[n];
    forall c | c in last ensures !IsBreak(c) { if c in items[n] { InOneLine(items[n], c); } }
    NoBreakIn(RightTrim(last), last);
  }

  lemma CriteriaPartOneLine(items: seq<string>)
    requires items != [] && AllOneLine(items)
    ensures var lines := ["驗收標準:"] + TrimmedBullets(items); AllOneLine(lines) && lines[|lines| - 1] != ""
  {
    BulletsOneLine(items);
    assert OneLine("驗收標準:");
  }

  lemma BlockLines(t: Template)
    requires HeaderPrintable(t) && Regular(t.description) && t.criteria != [] && AllOneLine(t.criteria)
    ensures Lines(Strip(Print(t))) == Before(t) + TrimmedBullets(t.criteria)
  {
    PrintTrims(t);
    HeaderOneLine(t);
    DescriptionOneLine(t.description);
    CriteriaPartOneLine(t.criteria);
    LinesOfThree(HeaderLines(t), ["描述:"] + (Lines(t.description) + [""]), ["驗收標準:"], TrimmedBullets(t.criteria));
  }

  lemma LinesOfThree(a: seq<string>, b: seq<string>, c: seq<string>, d: seq<string>)
    requires AllOneLine(a) && AllOneLine(b) && AllOneLine(c + d) && d != [] && (c + d)[|c + d| - 1] != ""
    ensures Lines(Joined(a + b + c + d)) == a + b + c + d
  {
    AllOneLineTogether(a, b, c + d);
    assert a + b + c + d == a + b + (c + d);
    LinesOfJoined(a + b + (c + d));
  }

  function ItemsBack(items: seq<string>): seq<string> { seq(|items|, i requires 0 <= i < |items| => ItemBack(items[i])) }

  /** Everything above the bullets, for any reading that gives the expected answers. */
  lemma TakeBefore(read: string -> Facts, t: Template, p: Parsing)
    requires p.mode == InHeader && ReadsHeader(read, t) && ReadsDescription(read, t) && read("驗收標準:").reading == CriteriaHeading("")
    ensures TakeAll(p, AllBy(read, Before(t))) == Parsing(InCriteria, HeaderOf(t), p.description + (Lines(t.description) + [""]), p.criteria)
  {
    var a, b, c := HeaderLines(t), ["描述:"] + (Lines(t.description) + [""]), ["驗收標準:"];
    AllInParts(read, p, a + b, c);
    AllInParts(read, p, a, b);
    TakeHeader(read, t, p);
    var q := p.(header := HeaderOf(t));
    TakeDescription(read, t, q);
    TakeOne(read, q.(mode := InDescription, description := p.description + (Lines(t.description) + [""])), "驗收標準:");
    assert p.criteria + [] == p.criteria;
  }

  /** What comes back of items on one line each: those that mean something, as they
      are read. */
  lemma CriteriaBack(t: Template, original: Template)
    requires HeaderPrintable(t) && DescriptionOk(t.description) && t.criteria != [] && AllOneLine(t.criteria)
    ensures TakeAll(Begin(original), AllFacts(Lines(Strip(Print(t))))).criteria == Kept(ItemsBack(t.criteria))
  {
    BlockLines(t);
    SameFacts(Before(t) + TrimmedBullets(t.criteria));
    HeaderRead(t);
    DescriptionRead(t);
    CriteriaHeadingLine();
    BlockTaken(FactsOf, t, Begin(original));
  }

  lemma BlockTaken(read: string -> Facts, t: Template, p: Parsing)
    requires p.mode == InHeader && ReadsHeader(read, t) && ReadsDescription(read, t) && read("驗收標準:").reading == CriteriaHeading("")
    requires t.criteria != [] && read == FactsOf && p.criteria == []
    ensures TakeAll(p, AllBy(read, Before(t) + TrimmedBullets(t.criteria))).criteria == Kept(ItemsBack(t.criteria))
  {
    TakeBefore(read, t, p);
    AllInParts(read, p, Before(t), TrimmedBullets(t.criteria));
    BulletsTaken(TakeAll(p, AllBy(read, Before(t))), t.criteria);
  }

  lemma BulletsTaken(p: Parsing, items: seq<string>)
    requires p.mode == InCriteria && items != []
    ensures TakeAll(p, AllBy(FactsOf, TrimmedBullets(items))) == p.(criteria := p.criteria + Kept(ItemsBack(items)))
  {
    var facts := AllBy(FactsOf, TrimmedBullets(items));
    forall k | 0 <= k < |facts| ensures facts[k].reading.Plain? && facts[k].item == ItemsBack(items)[k] {
      PrintedItemRead(items[k], TrimmedBullets(items)[k]);
    }
    TakesItems(p, facts, ItemsBack(items));
  }

  /** A list of criteria that differs from the original's comes back exactly if each
      of its items is a good one, everything else being printable. */
  lemma CriteriaExactly(t: Template, original: Template)
    requires Printable(t.(criteria := [])) && t.criteria != [] && t.criteria != original.criteria
    ensures var r := Parse(Print(t), original);
            CriteriaOk(t.criteria) <==> r.Ok? && r.value.criteria == t.criteria
  {
    var r := Parse(Print(t), original);
    if CriteriaOk(t.criteria) {
      RoundTrip(t, original);
    } else if r.Ok? && r.value.criteria == t.criteria {
      CriteriaKeptOrOneLine(Print(t), original);
      CriteriaBack(t, original);
      KeptAll(ItemsBack(t.criteria));
      EachIsGood(t.criteria);
    }
  }

  lemma EachIsGood(items: seq<string>)
    requires AllOneLine(items) && ItemsBack(items) == items && forall k :: 0 <= k < |items| ==> Meant(items[k])
    ensures CriteriaOk(items)
  {
    forall k | 0 <= k < |items| ensures CriterionOk(items[k]) {
      assert ItemsBack(items)[k] == items[k];
      BackIsGood(items[k]);
    }
  }

  // ---- One line at a time: what each spelling of a key does -----------------------------------

  /** A single line, key and value, as the whole text. */
  lemma OneLineText(key: string, value: string)
    requires GoodLine(key) && value != "" && Trimmed(value) && OneLine(value) && '：' !in value
    ensures var line := key + ": " + value;
            Lines(Strip(line)) == [line] && Cut(line) == (key, true, " " + value) && Strip(" " + value) == value
  {
    var line := key + ": " + value;
    assert line[0] == key[0] && line[|line| - 1] == value[|value| - 1];
    StripsNothing(line);
    forall k | 0 <= k < |line| ensures !IsBreak(line[k]) { assert line[k] in key || line[k] in ": " || line[k] in value; }
    LinesOfJoined([line]);
    assert Joined([line]) == line;
    forall c | c in line ensures c != '：' { assert c in key || c in ": " || c in value; }
    ReplacesNothing(line, '：', ':');
    assert line == key + [':'] + (" " + value);
    CutAfter(key, ':', " " + value);
    StripsASpace(value);
  }

  predicate GoodLine(key: string) { key != "" && Trimmed(key) && OneLine(key) && ':' !in key && '：' !in key }

  lemma ParseOneLine(line: string, original: Template)
    requires Lines(Strip(line)) == [line]
    ensures Parse(line, original) == Finish(Take(Begin(original), FactsOf(line)), original)
  {
    SameFacts([line]);
    TakeOne(FactsOf, Begin(original), line);
  }

  /** A key is told from the earlier ones, and from the headings, by its length and its
      first character. */
  predicate Differs(other: string, name: string) { |other| != |name| || other == "" || other[0] != name[0] }

  lemma PrefixAt(n: nat, name: string)
    requires n < |PREFIXES| && PREFIXES[n].0 == name && name != ""
    requires forall k :: 0 <= k < n ==> Differs(PREFIXES[k].0, name)
    requires forall k :: 0 <= k < |HEADINGS| ==> Differs(HEADINGS[k].0, name)
    ensures Lookup(PREFIXES, name) == Some(PREFIXES[n].1) && Lookup(HEADINGS, name).None?
  {
    Listed(PREFIXES, n);
    NotListed(HEADINGS, name);
  }

  lemma SummarySpellings(name: string)
    requires name in {"標題", "标题", "summary"}
    ensures Lookup(PREFIXES, name) == Some(SummaryField) && Lookup(HEADINGS, name).None?
  {
    PrefixAt(if name == "標題" then 0 else if name == "标题" then 1 else 2, name);
  }

  lemma TypeSpellings(name: string)
    requires name in {"類型", "类型", "type", "issuetype"}
    ensures Lookup(PREFIXES, name) == Some(TypeField) && Lookup(HEADINGS, name).None?
  {
    PrefixAt(if name == "類型" then 3 else if name == "类型" then 4 else if name == "type" then 5 else 6, name);
  }

  lemma ProjectSpellings(name: string)
    requires name in {"專案", "项目", "project"}
    ensures Lookup(PREFIXES, name) == Some(ProjectField) && Lookup(HEADINGS, name).None?
  {
    PrefixAt(if name == "專案" then 7 else if name == "项目" then 8 else 9, name);
  }

  lemma PrioritySpellings(name: string)
    requires name in {"優先級", "优先级", "priority"}
    ensures Lookup(PREFIXES, name) == Some(PriorityField) && Lookup(HEADINGS, name).None?
  {
    PrefixAt(if name == "優先級" then 10 else if name == "优先级" then 11 else 12, name);
  }

  lemma FieldLine(key: string, f: HeaderField, value: string, original: Template)
    requires GoodLine(key) && HeaderOk(value) && original.issueType != ""
    requires Lookup(PREFIXES, Lower(key)) == Some(f) && Lookup(HEADINGS, Lower(key)).None?
    ensures Parse(key + ": " + value, original) == Ok(SetField(original, f, value))
  {
    OneLineText(key, value);
    ParseOneLine(key + ": " + value, original);
    HeaderLine(key, f, value);
    FieldSet(f, value, original);
  }

  lemma FieldSet(f: HeaderField, value: string, original: Template)
    requires value != "" && original.issueType != ""
    ensures Finish(Begin(original).(header := WithField(Begin(original).header, f, value)), original) == Ok(SetField(original, f, value))
  {}

  /** The spellings of a field's key, in lower case. */
  predicate Spells(name: string, f: HeaderField) {
    match f
    case SummaryField => name in {"標題", "标题", "summary"}
    case TypeField => name in {"類型", "类型", "type", "issuetype"}
    case ProjectField => name in {"專案", "项目", "project"}
    case PriorityField => name in {"優先級", "优先级", "priority"}
  }

  /** Whichever spelling and case of its key is used, a header line sets its own field
      and no other. */
  lemma EachSpelling(key: string, f: HeaderField, value: string, original: Template)
    requires GoodLine(key) && Spells(Lower(key), f) && HeaderOk(value) && original.issueType != ""
    ensures Parse(key + ": " + value, original) == Ok(SetField(original, f, value))
  {
    var name := Lower(key);
    match f {
      case SummaryField => SummarySpellings(name);
      case TypeField => TypeSpellings(name);
      case ProjectField => ProjectSpellings(name);
      case PriorityField => PrioritySpellings(name);
    }
    FieldLine(key, f, value, original);
  }

  lemma HeadingAt(n: nat, name: string)
    requires n < |HEADINGS| && HEADINGS[n].0 == name && name != "" && forall k :: 0 <= k < n ==> Differs(HEADINGS[k].0, name)
    ensures Lookup(HEADINGS, name) == Some(HEADINGS[n].1)
  {
    Listed(HEADINGS, n);
  }

  lemma HeadingSpellings(name: string)
    ensures name in {"描述", "description"} ==> Lookup(HEADINGS, name) == Some(DescriptionSection)
    ensures name in {"驗收標準", "验收标准", "acceptance criteria"} ==> Lookup(HEADINGS, name) == Some(CriteriaSection)
  {
    if name in {"描述", "description"} { HeadingAt(if name == "描述" then 0 else 1, name); }
    if name in {"驗收標準", "验收标准", "acceptance criteria"} {
      HeadingAt(if name == "驗收標準" then 2 else if name == "验收标准" then 3 else 4, name);
    }
  }

  lemma DescriptionSet(text: string, original: Template)
    requires text != "" && Trimmed(text) && original.issueType != ""
    ensures Finish(Take(Begin(original), Facts("", DescriptionHeading(text), "")), original) == Ok(original.(description := text))
  {
    StripsNothing(text);
    assert [] + [text] == [text] && Joined([text]) == text;
  }

  lemma CriterionSet(text: string, original: Template)
    requires text != "" && Trimmed(text) && text[0] !in {'-', '*'} && original.issueType != ""
    ensures Finish(Take(Begin(original), Facts("", CriteriaHeading(text), "")), original) == Ok(original.(criteria := [text]))
  {
    assert [] + [text] == [text] && LeftStrip(text, MARKS) == text;
  }

  /** The same for the two headings, with something after the colon. */
  lemma EachHeading(key: string, text: string, original: Template)
    requires GoodLine(key) && text != "" && Trimmed(text) && OneLine(text) && '：' !in text && text[0] !in {'-', '*'} && original.issueType != ""
    ensures var r, name := Parse(key + ": " + text, original), Lower(key);
            && (name in {"描述", "description"} ==> r == Ok(original.(description := text)))
            && (name in {"驗收標準", "验收标准", "acceptance criteria"} ==> r == Ok(original.(criteria := [text])))
  {
    OneLineText(key, text);
    ParseOneLine(key + ": " + text, original);
    HeadingSpellings(Lower(key));
    DescriptionSet(text, original);
    CriterionSet(text, original);
  }
}
