/** The editable block of a template: printed for the user, and parsed when it
    comes back. */
module EditableText {
  import opened Wrappers
  import opened PythonText
  import opened WorkflowTables

  datatype Mode = InHeader | InDescription | InCriteria

  datatype Header = Header(summary: string, issueType: string, projectKey: string, priority: string)

  /** The parser's variables. */
  datatype Parsing = Parsing(mode: Mode, header: Header, description: seq<string>, criteria: seq<string>)

  datatype HeaderField = SummaryField | TypeField | ProjectField | PriorityField

  datatype ParseError = EmptyIssueType

  const HINT := "(請輸入"

  // ---- Printing -----------------------------------------------------------------

  function OrElse(s: string, other: string): string { if s == "" then other else s }

  function Bullets(items: seq<string>): seq<string> { seq(|items|, i requires 0 <= i < |items| => "- " + items[i]) }

  /** `jira_template_editable_text`. */
  function Print(t: Template): string {
    ("標題: " + OrElse(t.summary, "(請輸入標題)")) + "\n"
    + ("類型: " + OrElse(t.issueType, "Task")) + "\n"
    + ("專案: " + OrElse(t.projectKey, "NGSSA3")) + "\n"
    + ("優先級: " + OrElse(t.priority, "Medium")) + "\n"
    + "描述:" + "\n" + OrElse(t.description, "(請輸入描述)") + "\n" + "" + "\n"
    + "驗收標準:" + "\n" + OrElse(Joined(Bullets(t.criteria)), "- (請輸入驗收標準)")
  }

  // ---- Parsing -------------------------------------------------------------------

  datatype Section = DescriptionSection | CriteriaSection

  const HEADINGS: seq<(string, Section)> := [
    ("描述", DescriptionSection), ("description", DescriptionSection),
    ("驗收標準", CriteriaSection), ("验收标准", CriteriaSection), ("acceptance criteria", CriteriaSection)]

  const PREFIXES: seq<(string, HeaderField)> := [
    ("標題", SummaryField), ("标题", SummaryField), ("summary", SummaryField),
    ("類型", TypeField), ("类型", TypeField), ("type", TypeField), ("issuetype", TypeField),
    ("專案", ProjectField), ("项目", ProjectField), ("project", ProjectField),
    ("優先級", PriorityField), ("优先级", PriorityField), ("priority", PriorityField)]

  function Lookup<V>(table: seq<(string, V)>, key: string): Option<V> {
    if table == [] then None else if table[0].0 == key then Some(table[0].1) else Lookup(table[1..], key)
  }

  function WithField(h: Header, f: HeaderField, value: string): Header {
    match f
    case SummaryField => h.(summary := value)
    case TypeField => h.(issueType := value)
    case ProjectField => h.(projectKey := value)
    case PriorityField => h.(priority := value)
  }

  /** A line, cut at its first colon of either width. */
  function Cut(line: string): (string, bool, string) { Partition(Replace(Strip(line), '：', ':'), ':') }

  function CleanValue(value: string): string { Strip(Partition(value, '(').0) }

  function Maybe(s: string): seq<string> { if s != "" then [s] else [] }

  const MARKS: set<char> := {'-', '*', ' '}

  /** What a line can count as, and what it is as a list item. */
  datatype Reading = DescriptionHeading(rest: string) | CriteriaHeading(rest: string) | Keyed(f: HeaderField, value: string) | Plain
  datatype Facts = Facts(line: string, reading: Reading, item: string)

  function Read(line: string): Reading {
    var (key, separated, value) := Cut(line);
    var name := Lower(key);
    var section, f := Lookup(HEADINGS, name), Lookup(PREFIXES, name);
    if section == Some(DescriptionSection) then DescriptionHeading(Strip(value))
    else if section == Some(CriteriaSection) then CriteriaHeading(Strip(value))
    else if separated && f.Some? then Keyed(f.value, CleanValue(value))
    else Plain
  }

  function FactsOf(line: string): Facts { Facts(line, Read(line), Strip(LeftStrip(Strip(line), MARKS))) }

  predicate Meant(s: string) { s != "" && !StartsWith(s, HINT) }

  /** One turn of the loop. */
  function Take(p: Parsing, line: Facts): Parsing {
    match line.reading
    case DescriptionHeading(rest) => p.(mode := InDescription, description := p.description + Maybe(rest))
    case CriteriaHeading(rest) =>
      p.(mode := InCriteria, criteria := p.criteria + if rest != "" then [LeftStrip(rest, MARKS)] else [])
    case _ =>
      match p.mode
      case InHeader =>
        if line.reading.Keyed? && Meant(line.reading.value)
        then p.(header := WithField(p.header, line.reading.f, line.reading.value)) else p
      case InDescription => p.(description := p.description + [line.line])
      case InCriteria => if Meant(line.item) then p.(criteria := p.criteria + [line.item]) else p
  }

  function TakeAll(p: Parsing, lines: seq<Facts>): Parsing {
    if lines == [] then p else Take(TakeAll(p, lines[..|lines| - 1]), lines[|lines| - 1])
  }

  function AllFacts(lines: seq<string>): seq<Facts> { seq(|lines|, i requires 0 <= i < |lines| => FactsOf(lines[i])) }

  lemma FactsGrow(p: Parsing, lines: seq<string>, n: nat)
    requires n < |lines|
    ensures TakeAll(p, AllFacts(lines[..n + 1])) == Take(TakeAll(p, AllFacts(lines[..n])), FactsOf(lines[n]))
  {
    var facts := AllFacts(lines[..n + 1]);
    assert facts[..n] == AllFacts(lines[..n]) && facts[n] == FactsOf(lines[n]);
  }

  function Begin(original: Template): Parsing {
    Parsing(InHeader, Header(original.summary, original.issueType, original.projectKey, original.priority), [], [])
  }

  function Finish(p: Parsing, original: Template): Fallible<Template, ParseError> {
    if p.header.issueType == "" then Err(EmptyIssueType) else
      Ok(original.(summary := p.header.summary, issueType := p.header.issueType, projectKey := p.header.projectKey,
                   priority := p.header.priority, description := OrElse(Strip(Joined(p.description)), original.description),
                   criteria := if p.criteria == [] then original.criteria else p.criteria))
  }

  function Parse(raw: string, original: Template): Fallible<Template, ParseError> {
    Finish(TakeAll(Begin(original), AllFacts(Lines(Strip(raw)))), original)
  }

  /** The body of the loop. */
  method ParseLine(mode: Mode, header: Header, description: seq<string>, criteria: seq<string>, line: string)
    returns (mode': Mode, header': Header, description': seq<string>, criteria': seq<string>)
    ensures Parsing(mode', header', description', criteria') == Take(Parsing(mode, header, description, criteria), FactsOf(line))
  {
    mode', header', description', criteria' := mode, header, description, criteria;
    var stripped := Strip(line);
    var (key, separated, value) := Partition(Replace(stripped, '：', ':'), ':');
    var name := Lower(key);
    var section, f := Lookup(HEADINGS, name), Lookup(PREFIXES, name);
    if section == Some(DescriptionSection) {
      mode' := InDescription;
      if Strip(value) != "" { description' := description + [Strip(value)]; }
    } else if section == Some(CriteriaSection) {
      mode' := InCriteria;
      if Strip(value) != "" { criteria' := criteria + [LeftStrip(Strip(value), MARKS)]; }
    } else {
      header', description', criteria' := ParseContent(mode, header, description, criteria, line, separated, f, value);
      assert Read(line) == if separated && f.Some? then Keyed(f.value, CleanValue(value)) else Plain;
    }
  }

  /** The branches for a line that is no heading. */
  method ParseContent(mode: Mode, header: Header, description: seq<string>, criteria: seq<string>, line: string,
                      separated: bool, f: Option<HeaderField>, value: string)
    returns (header': Header, description': seq<string>, criteria': seq<string>)
    ensures var reading := if separated && f.Some? then Keyed(f.value, CleanValue(value)) else Plain;
            Parsing(mode, header', description', criteria')
            == Take(Parsing(mode, header, description, criteria), Facts(line, reading, Strip(LeftStrip(Strip(line), MARKS))))
  {
    header', description', criteria' := header, description, criteria;
    if mode == InHeader && separated && f.Some? {
      var cleaned := CleanValue(value);
      if cleaned != "" && !StartsWith(cleaned, HINT) { header' := WithField(header, f.value, cleaned); }
    } else if mode == InDescription {
      description' := description + [line];
    } else if mode == InCriteria && Strip(line) != "" {
      var cleaned := Strip(LeftStrip(Strip(line), MARKS));
      if cleaned != "" && !StartsWith(cleaned, HINT) { criteria' := criteria + [cleaned]; }
    }
  }

  /** `parse_edited_template`. */
  method ParseEdited(raw: string, original: Template) returns (r: Fallible<Template, ParseError>)
    ensures r == Parse(raw, original)
  {
    var header := Header(original.summary, original.issueType, original.projectKey, original.priority);
    var description: seq<string>, criteria: seq<string> := [], [];
    var mode := InHeader;
    var lines := Lines(Strip(raw));
    for n := 0 to |lines|
      invariant Parsing(mode, header, description, criteria) == TakeAll(Begin(original), AllFacts(lines[..n]))
    {
      FactsGrow(Begin(original), lines, n);
      mode, header, description, criteria := ParseLine(mode, header, description, criteria, lines[n]);
    }
    assert lines[..|lines|] == lines;
    r := Finish(Parsing(mode, header, description, criteria), original);
  }

  // ---- What survives --------------------------------------------------------------

  /** A header value that comes back as it went out. */
  predicate HeaderOk(s: string) { s != "" && Trimmed(s) && OneLine(s) && '(' !in s && '：' !in s }

  predicate SectionLine(line: string) { Lookup(HEADINGS, Lower(Cut(line).0)).Some? }

  /** A trimmed text whose lines are ended by line feeds only. */
  predicate Regular(s: string) { s != "" && Trimmed(s) && Joined(Lines(s)) == s }

  /** A description: such a text, none of its lines read as a section heading. */
  predicate DescriptionOk(s: string) { Regular(s) && forall k :: 0 <= k < |Lines(s)| ==> !SectionLine(Lines(s)[k]) }

  predicate CriterionOk(s: string) {
    s != "" && Trimmed(s) && OneLine(s) && s[0] !in {'-', '*'} && !StartsWith(s, HINT)
  }

  predicate CriteriaOk(items: seq<string>) { forall i :: 0 <= i < |items| ==> CriterionOk(items[i]) }

  predicate HeaderPrintable(t: Template) { HeaderOk(t.summary) && HeaderOk(t.issueType) && HeaderOk(t.projectKey) && HeaderOk(t.priority) }

  predicate Printable(t: Template) { HeaderPrintable(t) && DescriptionOk(t.description) && CriteriaOk(t.criteria) }

  /** Printed line by line, whatever the lines of the description may read as. */
  predicate Laid(t: Template) { HeaderPrintable(t) && Regular(t.description) && CriteriaOk(t.criteria) }

  lemma {:induction false} TakeInParts(p: Parsing, a: seq<Facts>, b: seq<Facts>)
    ensures TakeAll(p, a + b) == TakeAll(TakeAll(p, a), b)
  {
    if b == [] {
      assert a + b == a;
    } else {
      var n := |b| - 1;
      TakeInParts(p, a, b[..n]);
      assert (a + b)[..|a + b| - 1] == a + b[..n];
    }
  }

  lemma CutLine(key: string, value: string)
    requires HeaderOk(value) && key != "" && Trimmed(key) && ':' !in key && '：' !in key
    ensures Cut(key + ": " + value) == (key, true, " " + value)
  {
    var line := key + ": " + value;
    assert line[0] == key[0] && line[|line| - 1] == value[|value| - 1];
    StripsNothing(line);
    forall c | c in line ensures c != '：' { assert c in key || c in ": " || c in value; }
    ReplacesNothing(line, '：', ':');
    assert line == key + [':'] + (" " + value);
    CutAfter(key, ':', " " + value);
  }

  lemma CleansToItself(value: string)
    requires HeaderOk(value)
    ensures CleanValue(" " + value) == value && !StartsWith(value, HINT)
  {
    var padded := " " + value;
    forall c | c in padded ensures c != '(' { assert c == ' ' || c in value; }
    CutNowhere(padded, '(');
    StripsASpace(value);
    assert value[0] in value && HINT[0] == '(';
    assert |HINT| <= |value| ==> value[..|HINT|][0] == value[0];
  }

  /** A header line with a good value reads as exactly that value. */
  lemma HeaderLine(key: string, f: HeaderField, value: string)
    requires HeaderOk(value) && key != "" && Trimmed(key) && ':' !in key && '：' !in key
    requires Lookup(PREFIXES, Lower(key)) == Some(f) && Lookup(HEADINGS, Lower(key)).None?
    ensures Read(key + ": " + value) == Keyed(f, value) && Meant(value)
  {
    CutLine(key, value);
    CleansToItself(value);
  }

  lemma {:induction false} DescriptionLines(p: Parsing, lines: seq<Facts>, texts: seq<string>)
    requires p.mode == InDescription && |lines| == |texts|
    requires forall k :: 0 <= k < |lines| ==> lines[k].line == texts[k] && (lines[k].reading.Plain? || lines[k].reading.Keyed?)
    ensures TakeAll(p, lines) == p.(description := p.description + texts)
  {
    if lines != [] {
      var n := |lines| - 1;
      DescriptionLines(p, lines[..n], texts[..n]);
      assert texts == texts[..n] + [texts[n]];
    }
  }

  lemma {:induction false} CriteriaLines(p: Parsing, lines: seq<Facts>, items: seq<string>)
    requires p.mode == InCriteria && |lines| == |items|
    requires forall k :: 0 <= k < |lines| ==> lines[k].item == items[k] && lines[k].reading.Plain? && Meant(items[k])
    ensures TakeAll(p, lines) == p.(criteria := p.criteria + items)
  {
    if lines != [] {
      var n := |lines| - 1;
      CriteriaLines(p, lines[..n], items[..n]);
      assert items == items[..n] + [items[n]];
    }
  }

  /** A line that begins with a hyphen is never a heading or a field. */
  lemma HyphenLine(line: string)
    requires line != "" && line[0] == '-' && Trimmed(line)
    ensures Read(line) == Plain && Strip(line) == line
  {
    StripsNothing(line);
    var text := Replace(line, '：', ':');
    assert text[0] == '-';
    var name := Lower(Cut(line).0);
    assert name[0] == '-';
    NoKeyWithHyphen(name);
  }

  lemma NoKeyWithHyphen(name: string)
    requires name != "" && name[0] == '-'
    ensures Lookup(HEADINGS, name).None? && Lookup(PREFIXES, name).None?
  {
    forall k | 0 <= k < |HEADINGS| ensures HEADINGS[k].0 != name { assert HEADINGS[k].0[0] != '-'; }
    forall k | 0 <= k < |PREFIXES| ensures PREFIXES[k].0 != name { assert PREFIXES[k].0[0] != '-'; }
    NotListed(HEADINGS, name);
    NotListed(PREFIXES, name);
  }

  lemma {:induction false} NotListed<V>(table: seq<(string, V)>, key: string)
    requires forall k :: 0 <= k < |table| ==> table[k].0 != key
    ensures Lookup(table, key).None?
  {
    if table != [] { NotListed(table[1..], key); }
  }

  lemma {:induction false} Listed<V>(table: seq<(string, V)>, n: nat)
    requires n < |table| && forall k :: 0 <= k < n ==> table[k].0 != table[n].0
    ensures Lookup(table, table[n].0) == Some(table[n].1)
  {
    if n > 0 {
      assert table[1..][n - 1] == table[n];
      Listed(table[1..], n - 1);
    }
  }

  lemma CriterionLine(item: string)
    requires CriterionOk(item)
    ensures FactsOf("- " + item) == Facts("- " + item, Plain, item) && Meant(item)
  {
    var line := "- " + item;
    assert line[|line| - 1] == item[|item| - 1];
    HyphenLine(line);
    assert line[1..][0] == ' ' && line[1..][1..] == item;
    assert item[0] !in MARKS;
    assert LeftStrip(line, MARKS) == LeftStrip(line[1..], MARKS) == LeftStrip(item, MARKS) == item;
    StripsNothing(item);
  }

  lemma HeadingCut(key: string)
    requires key != "" && Trimmed(key) && ':' !in key && '：' !in key
    ensures Cut(key + ":") == (key, true, "")
  {
    var line := key + ":";
    StripsNothing(line);
    ReplacesNothing(line, '：', ':');
    assert line == key + [':'] + "";
    CutAfter(key, ':', "");
  }

  lemma DescriptionHeadingLine()
    ensures Read("描述:") == DescriptionHeading("")
  {
    HeadingCut("描述");
    assert "描述" + ":" == "描述:" && Lower("描述") == "描述";
    Listed(HEADINGS, 0);
  }

  lemma CriteriaHeadingLine()
    ensures Read("驗收標準:") == CriteriaHeading("")
  {
    HeadingCut("驗收標準");
    assert "驗收標準" + ":" == "驗收標準:" && Lower("驗收標準") == "驗收標準";
    Listed(HEADINGS, 2);
  }

  lemma BlankLine()
    ensures Read("") == Plain
  {
    assert Cut("") == ("", false, "") && Lower("") == "";
    NotListed(HEADINGS, "");
  }

  // ---- The round trip ----------------------------------------------------------------

  const NO_DESCRIPTION := "(請輸入描述)"
  const NO_CRITERIA := "(請輸入驗收標準)"

  function PrintedCriteria(items: seq<string>): seq<string> { if items == [] then ["- " + NO_CRITERIA] else Bullets(items) }

  /** What is printed for a template whose header is complete, line by line. */
  function PrintLines(t: Template): seq<string> {
    ["標題: " + t.summary, "類型: " + t.issueType, "專案: " + t.projectKey, "優先級: " + t.priority]
    + ["描述:"] + Lines(t.description) + [""] + ["驗收標準:"] + PrintedCriteria(t.criteria)
  }

  lemma {:induction false} BulletsJoined(items: seq<string>)
    requires CriteriaOk(items)
    ensures items != [] ==> Joined(Bullets(items)) != ""
    ensures items == [] ==> Joined(Bullets(items)) == ""
  {
    if items != [] { assert Bullets(items)[0] == "- " + items[0]; }
  }

  /** Printing is joining these lines. */
  lemma PrintIsLines(t: Template)
    requires Laid(t)
    ensures Print(t) == Joined(PrintLines(t))
  {
    var a, b, c, d := "標題: " + t.summary, "類型: " + t.issueType, "專案: " + t.projectKey, "優先級: " + t.priority;
    JoinedFour(a, b, c, d);
    SectionsJoined([a, b, c, d], "描述:", Lines(t.description), "", "驗收標準:", PrintedCriteria(t.criteria));
    CriteriaJoined(t.criteria);
  }

  lemma CriteriaJoined(items: seq<string>)
    requires CriteriaOk(items)
    ensures Joined(PrintedCriteria(items)) == OrElse(Joined(Bullets(items)), "- (請輸入驗收標準)")
  {
    BulletsJoined(items);
  }

  lemma JoinedFour(a: string, b: string, c: string, d: string)
    ensures Joined([a, b, c, d]) == a + "\n" + b + "\n" + c + "\n" + d
  {
    JoinedTwo([a], [b]);
    JoinedTwo([a] + [b], [c]);
    JoinedTwo([a] + [b] + [c], [d]);
    assert [a] + [b] + [c] + [d] == [a, b, c, d];
  }

  lemma SectionsJoined(head: seq<string>, x: string, lines: seq<string>, y: string, z: string, tail: seq<string>)
    requires head != [] && lines != [] && tail != []
    ensures Joined(head + [x] + lines + [y] + [z] + tail)
         == Joined(head) + "\n" + x + "\n" + Joined(lines) + "\n" + y + "\n" + z + "\n" + Joined(tail)
  {
    JoinedTwo(head, [x]);
    JoinedTwo(head + [x], lines);
    JoinedTwo(head + [x] + lines, [y]);
    JoinedTwo(head + [x] + lines + [y], [z]);
    JoinedTwo(head + [x] + lines + [y] + [z], tail);
  }

  /** The four printed keys are what they look like. */
  predicate GoodKey(key: string, f: HeaderField) {
    && key != "" && Trimmed(key) && OneLine(key) && ':' !in key && '：' !in key
    && Lookup(PREFIXES, Lower(key)) == Some(f) && Lookup(HEADINGS, Lower(key)).None?
  }

  /** A key is told from the earlier prefixes, and from the headings, by its first
      character. */
  lemma KeyAt(n: nat, key: string)
    requires n < |PREFIXES| && PREFIXES[n].0 == key == Lower(key) && key != "" && Trimmed(key) && OneLine(key) && ':' !in key && '：' !in key
    requires forall k :: 0 <= k < n ==> PREFIXES[k].0[..1] != key[..1]
    requires forall k :: 0 <= k < |HEADINGS| ==> HEADINGS[k].0[..1] != key[..1]
    ensures GoodKey(key, PREFIXES[n].1)
  {
    Listed(PREFIXES, n);
    NotListed(HEADINGS, key);
  }

  lemma FirstCharacters()
    ensures forall k :: 0 <= k < |PREFIXES| ==> PREFIXES[k].0 != ""
    ensures forall k :: 0 <= k < |HEADINGS| ==> HEADINGS[k].0 != "" && HEADINGS[k].0[0] !in {'標', '類', '專', '優'}
    ensures forall k :: 0 <= k < 10 ==> PREFIXES[k].0[0] != '優' && (k < 7 ==> PREFIXES[k].0[0] != '專') && (k < 3 ==> PREFIXES[k].0[0] != '類')
  {}

  lemma SummaryKey()
    ensures GoodKey("標題", SummaryField)
  {
    FirstCharacters();
    KeyAt(0, "標題");
  }

  lemma TypeKey()
    ensures GoodKey("類型", TypeField)
  {
    FirstCharacters();
    KeyAt(3, "類型");
  }

  lemma ProjectKey()
    ensures GoodKey("專案", ProjectField)
  {
    FirstCharacters();
    KeyAt(7, "專案");
  }

  lemma PriorityKey()
    ensures GoodKey("優先級", PriorityField)
  {
    FirstCharacters();
    KeyAt(10, "優先級");
  }

  function HeaderOf(t: Template): Header { Header(t.summary, t.issueType, t.projectKey, t.priority) }

  function HeaderLines(t: Template): seq<string> {
    ["標題: " + t.summary, "類型: " + t.issueType, "專案: " + t.projectKey, "優先級: " + t.priority]
  }

  /** Four lines that read as the four fields. */
  lemma TakeFour(p: Parsing, lines: seq<Facts>, h: Header)
    requires p.mode == InHeader && |lines| == 4 && Meant(h.summary) && Meant(h.issueType) && Meant(h.projectKey) && Meant(h.priority)
    requires lines[0].reading == Keyed(SummaryField, h.summary) && lines[1].reading == Keyed(TypeField, h.issueType)
    requires lines[2].reading == Keyed(ProjectField, h.projectKey) && lines[3].reading == Keyed(PriorityField, h.priority)
    ensures TakeAll(p, lines) == p.(header := h)
  {
    assert lines[..4] == lines && lines[..0] == [];
    assert TakeAll(p, lines[..1]) == Take(p, lines[0]) by { assert lines[..1][..0] == []; }
    assert TakeAll(p, lines[..2]) == Take(TakeAll(p, lines[..1]), lines[1]) by { assert lines[..2][..1] == lines[..1]; }
    assert TakeAll(p, lines[..3]) == Take(TakeAll(p, lines[..2]), lines[2]) by { assert lines[..3][..2] == lines[..2]; }
    assert TakeAll(p, lines) == Take(TakeAll(p, lines[..3]), lines[3]);
  }

  // The parts of the printed block, for any way of reading lines that gives these
  // answers; that reading them as above does is shown afterwards, line by line.

  function AllBy(read: string -> Facts, lines: seq<string>): seq<Facts> {
    seq(|lines|, i requires 0 <= i < |lines| => read(lines[i]))
  }

  predicate ReadsField(read: string -> Facts, prefix: string, f: HeaderField, value: string) {
    read(prefix + value).reading == Keyed(f, value) && Meant(value)
  }

  predicate ReadsHeader(read: string -> Facts, t: Template) {
    && ReadsField(read, "標題: ", SummaryField, t.summary) && ReadsField(read, "類型: ", TypeField, t.issueType)
    && ReadsField(read, "專案: ", ProjectField, t.projectKey) && ReadsField(read, "優先級: ", PriorityField, t.priority)
  }

  predicate ReadsPlain(read: string -> Facts, line: string) {
    read(line).line == line && (read(line).reading.Plain? || read(line).reading.Keyed?)
  }

  predicate ReadsDescription(read: string -> Facts, t: Template) {
    && read("描述:").reading == DescriptionHeading("") && ReadsPlain(read, "")
    && forall k :: 0 <= k < |Lines(t.description)| ==> ReadsPlain(read, Lines(t.description)[k])
  }

  predicate ReadsItem(read: string -> Facts, item: string) {
    read("- " + item).reading.Plain? && read("- " + item).item == item
  }

  predicate ReadsCriteria(read: string -> Facts, t: Template) {
    && read("驗收標準:").reading == CriteriaHeading("")
    && (t.criteria == [] ==> ReadsItem(read, NO_CRITERIA))
    && forall k :: 0 <= k < |t.criteria| ==> ReadsItem(read, t.criteria[k]) && Meant(t.criteria[k])
  }

  lemma TakeHeader(read: string -> Facts, t: Template, p: Parsing)
    requires p.mode == InHeader && ReadsHeader(read, t)
    ensures TakeAll(p, AllBy(read, HeaderLines(t))) == p.(header := HeaderOf(t))
  {
    TakeFour(p, AllBy(read, HeaderLines(t)), HeaderOf(t));
  }

  lemma AllInParts(read: string -> Facts, p: Parsing, a: seq<string>, b: seq<string>)
    ensures TakeAll(p, AllBy(read, a + b)) == TakeAll(TakeAll(p, AllBy(read, a)), AllBy(read, b))
  {
    assert AllBy(read, a + b) == AllBy(read, a) + AllBy(read, b);
    TakeInParts(p, AllBy(read, a), AllBy(read, b));
  }

  lemma TakeOne(read: string -> Facts, p: Parsing, line: string)
    ensures TakeAll(p, AllBy(read, [line])) == Take(p, read(line))
  {
    var facts := AllBy(read, [line]);
    assert facts == [read(line)] && facts[..0] == [];
  }

  /** The description section: its heading, its lines, and the blank line after. */
  lemma TakeDescription(read: string -> Facts, t: Template, p: Parsing)
    requires p.mode == InHeader && ReadsDescription(read, t)
    ensures TakeAll(p, AllBy(read, ["描述:"] + (Lines(t.description) + [""])))
         == p.(mode := InDescription, description := p.description + (Lines(t.description) + [""]))
  {
    var lines := Lines(t.description) + [""];
    AllInParts(read, p, ["描述:"], lines);
    TakeOne(read, p, "描述:");
    var facts := AllBy(read, lines);
    forall k | 0 <= k < |facts| ensures facts[k].line == lines[k] && (facts[k].reading.Plain? || facts[k].reading.Keyed?) {
      assert ReadsPlain(read, lines[k]);
    }
    DescriptionLines(Take(p, read("描述:")), facts, lines);
    assert p.description + Maybe("") == p.description;
  }

  lemma TakeCriteria(read: string -> Facts, t: Template, p: Parsing)
    requires ReadsCriteria(read, t)
    ensures TakeAll(p, AllBy(read, ["驗收標準:"] + PrintedCriteria(t.criteria))) == p.(mode := InCriteria, criteria := p.criteria + t.criteria)
  {
    var q := Take(p, read("驗收標準:"));
    AllInParts(read, p, ["驗收標準:"], PrintedCriteria(t.criteria));
    TakeOne(read, p, "驗收標準:");
    assert q == p.(mode := InCriteria);
    TakeItems(read, q, t);
  }

  lemma TakeItems(read: string -> Facts, q: Parsing, t: Template)
    requires q.mode == InCriteria && ReadsCriteria(read, t)
    ensures TakeAll(q, AllBy(read, PrintedCriteria(t.criteria))) == q.(criteria := q.criteria + t.criteria)
  {
    if t.criteria == [] {
      TakeOne(read, q, "- " + NO_CRITERIA);
      HintIsNotMeant();
      assert q.criteria + t.criteria == q.criteria;
    } else {
      var facts := AllBy(read, Bullets(t.criteria));
      forall k | 0 <= k < |facts| ensures facts[k].item == t.criteria[k] && facts[k].reading.Plain? && Meant(t.criteria[k]) {
        assert ReadsItem(read, t.criteria[k]);
      }
      CriteriaLines(q, facts, t.criteria);
    }
  }

  lemma HintIsNotMeant()
    ensures !Meant(NO_CRITERIA)
  {
    assert NO_CRITERIA[..|HINT|] == HINT;
  }

  lemma TakePrinted(read: string -> Facts, t: Template, p: Parsing)
    requires p.mode == InHeader && ReadsHeader(read, t) && ReadsDescription(read, t) && ReadsCriteria(read, t)
    ensures TakeAll(p, AllBy(read, PrintLines(t)))
         == Parsing(InCriteria, HeaderOf(t), p.description + (Lines(t.description) + [""]), p.criteria + t.criteria)
  {
    var a, b, c := HeaderLines(t), ["描述:"] + (Lines(t.description) + [""]), ["驗收標準:"] + PrintedCriteria(t.criteria);
    LinesInThree(t);
    AllInParts(read, p, a + b, c);
    AllInParts(read, p, a, b);
    TakeHeader(read, t, p);
    var q := p.(header := HeaderOf(t));
    TakeDescription(read, t, q);
    TakeCriteria(read, t, q.(mode := InDescription, description := p.description + (Lines(t.description) + [""])));
  }

  lemma LinesInThree(t: Template)
    ensures PrintLines(t) == HeaderLines(t) + (["描述:"] + (Lines(t.description) + [""])) + (["驗收標準:"] + PrintedCriteria(t.criteria))
  {}

  // ---- Reading the printed lines ------------------------------------------------------

  lemma FieldRead(prefix: string, key: string, f: HeaderField, value: string)
    requires prefix == key + ": " && GoodKey(key, f) && HeaderOk(value)
    ensures ReadsField(FactsOf, prefix, f, value)
  {
    HeaderLine(key, f, value);
  }

  lemma HeaderRead(t: Template)
    requires HeaderPrintable(t)
    ensures ReadsHeader(FactsOf, t)
  {
    SummaryRead(t.summary);
    TypeRead(t.issueType);
    ProjectRead(t.projectKey);
    PriorityRead(t.priority);
  }

  lemma SummaryRead(value: string)
    requires HeaderOk(value)
    ensures ReadsField(FactsOf, "標題: ", SummaryField, value)
  {
    SummaryKey();
    FieldRead("標題: ", "標題", SummaryField, value);
  }

  lemma TypeRead(value: string)
    requires HeaderOk(value)
    ensures ReadsField(FactsOf, "類型: ", TypeField, value)
  {
    TypeKey();
    FieldRead("類型: ", "類型", TypeField, value);
  }

  lemma ProjectRead(value: string)
    requires HeaderOk(value)
    ensures ReadsField(FactsOf, "專案: ", ProjectField, value)
  {
    ProjectKey();
    FieldRead("專案: ", "專案", ProjectField, value);
  }

  lemma PriorityRead(value: string)
    requires HeaderOk(value)
    ensures ReadsField(FactsOf, "優先級: ", PriorityField, value)
  {
    PriorityKey();
    FieldRead("優先級: ", "優先級", PriorityField, value);
  }

  lemma PlainRead(line: string)
    requires !SectionLine(line)
    ensures ReadsPlain(FactsOf, line)
  {}

  lemma DescriptionRead(t: Template)
    requires DescriptionOk(t.description)
    ensures ReadsDescription(FactsOf, t)
  {
    DescriptionHeadingLine();
    BlankLine();
    PlainRead("");
    forall k | 0 <= k < |Lines(t.description)| ensures ReadsPlain(FactsOf, Lines(t.description)[k]) {
      PlainRead(Lines(t.description)[k]);
    }
  }

  lemma ItemRead(item: string)
    requires CriterionOk(item)
    ensures ReadsItem(FactsOf, item) && Meant(item)
  {
    CriterionLine(item);
  }

  lemma HintRead()
    ensures ReadsItem(FactsOf, NO_CRITERIA)
  {
    var line := "- " + NO_CRITERIA;
    HyphenLine(line);
    LeftStripsMark(line);
    StripsNothing(NO_CRITERIA);
  }

  lemma LeftStripsMark(line: string)
    requires line == "- " + NO_CRITERIA
    ensures LeftStrip(line, MARKS) == NO_CRITERIA
  {
    assert line[1..] == " " + NO_CRITERIA && line[1..][1..] == NO_CRITERIA;
    assert line[0] in MARKS && line[1..][0] in MARKS && NO_CRITERIA[0] !in MARKS;
    assert LeftStrip(NO_CRITERIA, MARKS) == NO_CRITERIA;
    assert LeftStrip(line[1..], MARKS) == NO_CRITERIA;
  }

  lemma CriteriaRead(t: Template)
    requires Laid(t)
    ensures ReadsCriteria(FactsOf, t)
  {
    CriteriaHeadingLine();
    HintRead();
    forall k | 0 <= k < |t.criteria| ensures ReadsItem(FactsOf, t.criteria[k]) && Meant(t.criteria[k]) { ItemRead(t.criteria[k]); }
  }

  /** The printed block is split into the lines it was made of. */
  lemma LinesBack(t: Template)
    requires Laid(t)
    ensures Lines(Strip(Print(t))) == PrintLines(t)
  {
    PrintIsLines(t);
    PrintIsTrimmed(t);
    StripsNothing(Print(t));
    OneLineEach(t);
    LinesOfJoined(PrintLines(t));
  }

  predicate AllOneLine(lines: seq<string>) { forall k :: 0 <= k < |lines| ==> OneLine(lines[k]) }

  lemma HeaderOneLine(t: Template)
    requires OneLine(t.summary) && OneLine(t.issueType) && OneLine(t.projectKey) && OneLine(t.priority)
    ensures AllOneLine(HeaderLines(t))
  {}

  lemma CriteriaOneLine(items: seq<string>)
    requires CriteriaOk(items)
    ensures AllOneLine(PrintedCriteria(items)) && PrintedCriteria(items)[|PrintedCriteria(items)| - 1] != ""
  {
    forall k | 0 <= k < |items| ensures OneLine(Bullets(items)[k]) { assert CriterionOk(items[k]); }
  }

  lemma AllOneLineTogether(a: seq<string>, b: seq<string>, c: seq<string>)
    requires AllOneLine(a) && AllOneLine(b) && AllOneLine(c) && c != []
    ensures AllOneLine(a + b + c) && (a + b + c)[|a + b + c| - 1] == c[|c| - 1]
  {}

  lemma DescriptionOneLine(d: string)
    ensures AllOneLine(["描述:"] + (Lines(d) + [""]))
  {
    var lines := Lines(d);
    forall k | 0 <= k < |lines| ensures OneLine(lines[k]) { assert lines[k] in lines; }
  }

  lemma CriteriaSectionOneLine(items: seq<string>)
    requires CriteriaOk(items)
    ensures var lines := ["驗收標準:"] + PrintedCriteria(items); AllOneLine(lines) && lines[|lines| - 1] != ""
  {
    CriteriaOneLine(items);
    assert OneLine("驗收標準:");
  }

  lemma OneLineEach(t: Template)
    requires Laid(t)
    ensures var lines := PrintLines(t); lines[|lines| - 1] != "" && AllOneLine(lines)
  {
    var a, b, c := HeaderLines(t), ["描述:"] + (Lines(t.description) + [""]), ["驗收標準:"] + PrintedCriteria(t.criteria);
    assert PrintLines(t) == a + b + c by { LinesInThree(t); }
    assert AllOneLine(a) by { HeaderOneLine(t); }
    assert AllOneLine(b) by { DescriptionOneLine(t.description); }
    assert AllOneLine(c) && c[|c| - 1] != "" by { CriteriaSectionOneLine(t.criteria); }
    AllOneLineTogether(a, b, c);
  }

  lemma {:induction false} LastOfJoined(lines: seq<string>)
    requires lines != [] && lines[|lines| - 1] != ""
    ensures Joined(lines) != "" && Joined(lines)[|Joined(lines)| - 1] == lines[|lines| - 1][|lines[|lines| - 1]| - 1]
  {
    if |lines| > 1 { LastOfJoined(lines[1..]); }
  }

  lemma LastPrintedCharacter(items: seq<string>)
    requires CriteriaOk(items)
    ensures var lines := PrintedCriteria(items);
            var last := lines[|lines| - 1]; last != "" && !IsSpace(last[|last| - 1])
  {
    if items != [] {
      var last := items[|items| - 1];
      assert CriterionOk(last) && PrintedCriteria(items)[|items| - 1] == "- " + last;
    }
  }

  lemma JoinedIsTrimmed(lines: seq<string>)
    requires EndsWell(lines)
    ensures Trimmed(Joined(lines))
  {
    FirstOfJoined(lines);
    LastOfJoined(lines);
  }

  lemma FirstOfJoined(lines: seq<string>)
    requires lines != [] && lines[0] != ""
    ensures Joined(lines) != "" && Joined(lines)[0] == lines[0][0]
  {}

  lemma FirstAndLastLine(t: Template)
    ensures var lines, items := PrintLines(t), PrintedCriteria(t.criteria);
            lines[0] == "標題: " + t.summary && lines[|lines| - 1] == items[|items| - 1]
  {}

  predicate EndsWell(lines: seq<string>) {
    && lines != [] && lines[0] != "" && !IsSpace(lines[0][0])
    && var last := lines[|lines| - 1]; last != "" && !IsSpace(last[|last| - 1])
  }

  lemma PrintEndsWell(t: Template)
    requires CriteriaOk(t.criteria)
    ensures EndsWell(PrintLines(t))
  {
    FirstAndLastLine(t);
    LastPrintedCharacter(t.criteria);
    var title := "標題: " + t.summary;
    assert title[0] == '標' && !IsSpace('標');
  }

  lemma PrintIsTrimmed(t: Template)
    requires Laid(t)
    ensures Trimmed(Print(t))
  {
    PrintEndsWell(t);
    JoinedIsTrimmed(PrintLines(t));
    assert Print(t) == Joined(PrintLines(t)) by { PrintIsLines(t); }
  }

  lemma StripsABreak(s: string)
    requires s != "" && Trimmed(s)
    ensures Strip(s + "\n") == s
  {
    var text := s + "\n";
    assert text[0] == s[0] && text[..|text| - 1] == s;
    assert LeftTrim(text) == text;
    assert RightTrim(text) == RightTrim(s);
  }

  lemma DescriptionBack(d: string)
    requires d != "" && Trimmed(d) && Joined(Lines(d)) == d
    ensures Strip(Joined(Lines(d) + [""])) == d
  {
    JoinedTwo(Lines(d), [""]);
    assert d + "\n" + "" == d + "\n";
    StripsABreak(d);
  }

  /** What is printed comes back, over any original: the six printed fields are the
      template's, except that no criteria means the original's; labels, components
      and assignee are the original's, for they are not printed. */
  lemma RoundTrip(t: Template, original: Template)
    requires Printable(t)
    ensures Parse(Print(t), original) == Ok(Restored(t, original))
  {
    LinesBack(t);
    HeaderRead(t);
    DescriptionRead(t);
    CriteriaRead(t);
    TakePrinted(FactsOf, t, Begin(original));
    SameFacts(PrintLines(t));
    DescriptionBack(t.description);
    FinishPrinted(t, original);
  }

  function Restored(t: Template, original: Template): Template {
    t.(labels := original.labels, components := original.components, assignee := original.assignee,
       criteria := if t.criteria == [] then original.criteria else t.criteria)
  }

  lemma SameFacts(lines: seq<string>)
    ensures AllBy(FactsOf, lines) == AllFacts(lines)
  {}

  lemma FinishPrinted(t: Template, original: Template)
    requires t.issueType != "" && t.description != "" && Strip(Joined(Lines(t.description) + [""])) == t.description
    ensures Finish(Parsing(InCriteria, HeaderOf(t), [] + (Lines(t.description) + [""]), [] + t.criteria), original) == Ok(Restored(t, original))
  {
    assert [] + (Lines(t.description) + [""]) == Lines(t.description) + [""] && [] + t.criteria == t.criteria;
  }

  /** What is empty is printed as a default and comes back as that default: an empty
      description as the very hint to enter one. */
  function Filled(t: Template): Template {
    t.(issueType := OrElse(t.issueType, "Task"), projectKey := OrElse(t.projectKey, "NGSSA3"),
       priority := OrElse(t.priority, "Medium"), description := OrElse(t.description, NO_DESCRIPTION))
  }

  lemma EmptyFieldsFilled(t: Template, original: Template)
    requires t.summary != "" && Printable(Filled(t))
    ensures Parse(Print(t), original) == Ok(Restored(Filled(t), original))
  {
    SamePrint(t);
    RoundTrip(Filled(t), original);
  }

  lemma SamePrint(t: Template)
    requires t.summary != ""
    ensures Print(t) == Print(Filled(t))
  {}

  // ---- No other header value can come back ---------------------------------------------------

  function GetField(h: Header, f: HeaderField): string {
    match f
    case SummaryField => h.summary
    case TypeField => h.issueType
    case ProjectField => h.projectKey
    case PriorityField => h.priority
  }

  lemma CutSource(line: string, c: char)
    requires c in Cut(line).2
    ensures c == ':' || (c in line && c != '：')
  {
    var text := Replace(Strip(line), '：', ':');
    var i := IndexOf(text, ':');
    var k :| 0 <= k < |text| - i - 1 && text[i + 1..][k] == c;
    assert text[i + 1 + k] == c;
    assert Strip(line)[i + 1 + k] in Strip(line);
  }

  /** Whatever a line says, the value taken from it is trimmed, on one line, and free
      of `(` and of full-width colons. */
  lemma ReadIsClean(line: string)
    requires OneLine(line) && Read(line).Keyed? && Read(line).value != ""
    ensures HeaderOk(Read(line).value)
  {
    var value := Cut(line).2;
    var cleaned := Read(line).value;
    var before := Partition(value, '(').0;
    forall c | c in cleaned ensures !IsBreak(c) && c != '(' && c != '：' {
      assert c in before;
      BeforeTheCut(value, c);
      CutSource(line, c);
      if c in line { InOneLine(line, c); }
    }
  }

  lemma BeforeTheCut(value: string, c: char)
    requires c in Partition(value, '(').0
    ensures c in value && c != '('
  {
    var i := IndexOf(value, '(');
    var before := Partition(value, '(').0;
    assert before == value[..i];
    var k :| 0 <= k < |before| && before[k] == c;
    assert value[k] == c;
  }

  lemma InOneLine(line: string, c: char)
    requires OneLine(line) && c in line
    ensures !IsBreak(c)
  {}

  predicate KeptOrClean(h: Header, before: Header) {
    forall f: HeaderField :: GetField(h, f) == GetField(before, f) || HeaderOk(GetField(h, f))
  }

  predicate CleanReading(r: Reading) { r.Keyed? && r.value != "" ==> HeaderOk(r.value) }

  lemma TakeTouchesOneField(p: Parsing, line: Facts)
    ensures var h := Take(p, line).header;
            h == p.header || (line.reading.Keyed? && line.reading.value != "" && h == WithField(p.header, line.reading.f, line.reading.value))
  {}

  lemma FieldReplaced(h: Header, f: HeaderField, value: string, before: Header)
    requires KeptOrClean(h, before) && HeaderOk(value)
    ensures KeptOrClean(WithField(h, f, value), before)
  {
    forall g: HeaderField
      ensures GetField(WithField(h, f, value), g) == GetField(before, g) || HeaderOk(GetField(WithField(h, f, value), g))
    {
      assert GetField(WithField(h, f, value), g) == if g == f then value else GetField(h, g);
    }
  }

  lemma TakesACleanValue(p: Parsing, line: Facts, before: Header)
    requires KeptOrClean(p.header, before) && CleanReading(line.reading)
    ensures KeptOrClean(Take(p, line).header, before)
  {
    TakeTouchesOneField(p, line);
    if Take(p, line).header != p.header {
      FieldReplaced(p.header, line.reading.f, line.reading.value, before);
    }
  }

  lemma {:induction false} TakesCleanValues(p: Parsing, lines: seq<Facts>, before: Header)
    requires KeptOrClean(p.header, before)
    requires forall k {:trigger lines[k]} :: 0 <= k < |lines| ==> CleanReading(lines[k].reading)
    ensures KeptOrClean(TakeAll(p, lines).header, before)
  {
    if lines != [] {
      var n := |lines| - 1;
      TakesCleanValues(p, lines[..n], before);
      TakesACleanValue(TakeAll(p, lines[..n]), lines[n], before);
    }
  }

  /** Over every text that can come back: a header field is the original's, or is a
      value of the kind that survives printing. */
  lemma HeaderKeptOrClean(raw: string, original: Template)
    requires Parse(raw, original).Ok?
    ensures KeptOrClean(HeaderOf(Parse(raw, original).value), HeaderOf(original))
  {
    var lines := Lines(Strip(raw));
    var facts := AllFacts(lines);
    forall k | 0 <= k < |facts| ensures CleanReading(facts[k].reading) {
      assert lines[k] in lines;
      if facts[k].reading.Keyed? && facts[k].reading.value != "" { ReadIsClean(lines[k]); }
    }
    TakesCleanValues(Begin(original), facts, HeaderOf(original));
  }

  function SetField(t: Template, f: HeaderField, value: string): Template {
    match f
    case SummaryField => t.(summary := value)
    case TypeField => t.(issueType := value)
    case ProjectField => t.(projectKey := value)
    case PriorityField => t.(priority := value)
  }

  /** A header value differing from the original's survives the trip exactly if it is
      such a value, everything else being printable. */
  lemma HeaderExactly(t: Template, original: Template, f: HeaderField)
    requires Printable(SetField(t, f, "x")) && GetField(HeaderOf(t), f) != GetField(HeaderOf(original), f)
    ensures var r := Parse(Print(t), original);
            HeaderOk(GetField(HeaderOf(t), f)) <==> r.Ok? && GetField(HeaderOf(r.value), f) == GetField(HeaderOf(t), f)
  {
    var r := Parse(Print(t), original);
    if HeaderOk(GetField(HeaderOf(t), f)) {
      RoundTrip(t, original);
    } else if r.Ok? {
      HeaderKeptOrClean(Print(t), original);
      assert GetField(HeaderOf(r.value), f) == GetField(HeaderOf(original), f) || HeaderOk(GetField(HeaderOf(r.value), f));
    }
  }

  /** There is such a template for every list of good criteria. */
  lemma SomethingIsPrintable(criteria: seq<string>, original: Template) returns (t: Template)
    requires CriteriaOk(criteria)
    ensures Printable(t) && t.criteria == criteria
  {
    var value, text := "x", "d";
    OneLineDescription();
    OneLetter();
    t := original.(summary := value, issueType := value, projectKey := value, priority := value, description := text, criteria := criteria);
  }

  lemma OneLetter()
    ensures HeaderOk("x")
  {}

  lemma OneLineDescription()
    ensures DescriptionOk("d")
  {
    BreakExact("d", 1);
    assert Lines("d") == ["d"];
    StripsNothing("d");
    ReplacesNothing("d", '：', ':');
    CutNowhere("d", ':');
    assert Lower("d") == "d";
    NotListed(HEADINGS, "d");
  }
}
