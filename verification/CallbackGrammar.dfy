/** The text carried by a button: `j1:<action>:<token>`. Patterns are stated on
    the characters; a text is a sequence of code points. */
module CallbackGrammar {
  import opened Wrappers

  datatype Action =
    | Confirm | Edit | Cancel | CopyLink | CopySummary | EditPublished | ToggleType | TogglePriority
    | Retry | Reconcile | MoveTransition | SelectTransition | QuickEdit | AddComment | BlockIssue | UnblockIssue
    | AssignIssue | AssignMe | CreateSubtask | QuickFilter | RefreshCard | WatchIssue | UnwatchIssue

  function Code(action: Action): string {
    match action
    case Confirm => "cfm" case Edit => "edt" case Cancel => "cnl" case CopyLink => "cpl" case CopySummary => "cps"
    case EditPublished => "edp" case ToggleType => "ttyp" case TogglePriority => "tpri" case Retry => "rty"
    case Reconcile => "rcn" case MoveTransition => "mv" case SelectTransition => "smv" case QuickEdit => "qed"
    case AddComment => "cmt" case BlockIssue => "blk" case UnblockIssue => "ubk" case AssignIssue => "asn"
    case AssignMe => "asme" case CreateSubtask => "sub" case QuickFilter => "flt" case RefreshCard => "rfh"
    case WatchIssue => "wtc" case UnwatchIssue => "uwtc"
  }

  const ACTIONS: seq<Action> := [
    Confirm, Edit, Cancel, CopyLink, CopySummary, EditPublished, ToggleType, TogglePriority, Retry, Reconcile,
    MoveTransition, SelectTransition, QuickEdit, AddComment, BlockIssue, UnblockIssue, AssignIssue, AssignMe,
    CreateSubtask, QuickFilter, RefreshCard, WatchIssue, UnwatchIssue]

  predicate DefaultOneShot(action: Action) {
    action in {Confirm, Cancel, Retry, Reconcile, EditPublished, SelectTransition, BlockIssue, UnblockIssue, AssignMe}
  }

  /** The enumeration member with the given value, looked up in order. */
  function Lookup(actions: seq<Action>, code: string): Option<Action> {
    if actions == [] then None else if Code(actions[0]) == code then Some(actions[0]) else Lookup(actions[1..], code)
  }

  function ActionOf(code: string): Option<Action> { Lookup(ACTIONS, code) }

  datatype ParseError =
    | DataMissing | DataEmpty | DataTooLong | NonAscii | VersionUnsupported | SegmentCount
    | ActionAlphabet | ActionUnknown | TokenAlphabet | DataMalformed

  datatype Parsed = Parsed(action: Action, token: string)

  const MAX_LENGTH := 64
  const TOKEN_LENGTH := 32
  const PREFIX := "j1:"

  predicate LowerCase(c: char) { 'a' <= c <= 'z' }
  predicate Hexadecimal(c: char) { '0' <= c <= '9' || 'a' <= c <= 'f' }

  predicate ActionPattern(s: string) { 2 <= |s| <= 4 && forall i :: 0 <= i < |s| ==> LowerCase(s[i]) }
  predicate TokenPattern(s: string) { |s| == TOKEN_LENGTH && forall i :: 0 <= i < |s| ==> Hexadecimal(s[i]) }

  predicate StartsWith(s: string, prefix: string) { |prefix| <= |s| && s[..|prefix|] == prefix }

  /** The full pattern; a match yields its two groups. The token group has a fixed
      length, so where it begins is determined. */
  function FullMatch(raw: string): Option<(string, string)> {
    var n := |raw| - |PREFIX| - 1 - TOKEN_LENGTH;
    if 2 <= n <= 4 && StartsWith(raw, PREFIX) && ActionPattern(raw[3..3 + n]) && raw[3 + n] == ':' && TokenPattern(raw[4 + n..])
    then Some((raw[3..3 + n], raw[4 + n..])) else None
  }

  /** `str.split`. */
  function Split(s: string, separator: char): (parts: seq<string>)
    ensures |parts| >= 1
  {
    if s == [] then [""] else
      var rest := Split(s[1..], separator);
      if s[0] == separator then [""] + rest else [[s[0]] + rest[0]] + rest[1..]
  }

  function Parse(raw: Option<string>): Fallible<Parsed, ParseError> {
    if raw.None? then Err(DataMissing) else
      var text := raw.value;
      if text == "" then Err(DataEmpty)
      else if |text| > MAX_LENGTH then Err(DataTooLong)
      else if exists i :: 0 <= i < |text| && text[i] as int >= 128 then Err(NonAscii)
      else
        var groups := FullMatch(text);
        if groups.None? then Err(Diagnose(text))
        else
          var action := ActionOf(groups.value.0);
          if action.None? then Err(ActionUnknown) else Ok(Parsed(action.value, groups.value.1))
  }

  /** The diagnosis of a text that does not match. */
  function Diagnose(text: string): ParseError {
    var parts := Split(text, ':');
    if !StartsWith(text, PREFIX) then VersionUnsupported
    else if |parts| != 3 then SegmentCount
    else if !ActionPattern(parts[1]) then ActionAlphabet
    else if ActionOf(parts[1]).None? then ActionUnknown
    else if !TokenPattern(parts[2]) then TokenAlphabet
    else DataMalformed
  }

  /** Building the text, which ends by parsing it again. */
  function Encode(action: string, token: string): Fallible<string, ParseError> {
    if ActionOf(action).None? then Err(ActionUnknown)
    else if !TokenPattern(token) then Err(TokenAlphabet)
    else
      var encoded := PREFIX + action + ":" + token;
      if |encoded| > MAX_LENGTH then Err(DataTooLong) else
        var again := Parse(Some(encoded));
        if again.Err? then Err(again.failure) else Ok(encoded)
  }

  // ---- Properties ------------------------------------------------------------------

  /** A name stands for exactly one action. */
  lemma {:induction false} LookupIsExact(actions: seq<Action>, action: Action)
    requires forall i, j :: 0 <= i < j < |actions| ==> Code(actions[i]) != Code(actions[j])
    requires action in actions
    ensures Lookup(actions, Code(action)) == Some(action)
  {
    if actions[0] != action {
      var j :| 0 <= j < |actions| && actions[j] == action;
      assert actions[1..][j - 1] == action;
      LookupIsExact(actions[1..], action);
    }
  }

  lemma {:induction false} LookupFinds(actions: seq<Action>, code: string)
    ensures Lookup(actions, code).Some? ==> Lookup(actions, code).value in actions && Code(Lookup(actions, code).value) == code
  {
    if actions != [] { LookupFinds(actions[1..], code); }
  }

  /** Every action has its own name of two to four lower-case letters. */
  lemma ActionNames(action: Action)
    ensures ActionPattern(Code(action)) && ActionOf(Code(action)) == Some(action)
  {
    NameShape(action);
    CodesDiffer();
    assert action in ACTIONS by { ListedAction(action); }
    LookupIsExact(ACTIONS, action);
  }

  lemma ListedAction(action: Action)
    ensures action in ACTIONS
  {
    var i := match action
      case Confirm => 0 case Edit => 1 case Cancel => 2 case CopyLink => 3 case CopySummary => 4 case EditPublished => 5
      case ToggleType => 6 case TogglePriority => 7 case Retry => 8 case Reconcile => 9 case MoveTransition => 10
      case SelectTransition => 11 case QuickEdit => 12 case AddComment => 13 case BlockIssue => 14 case UnblockIssue => 15
      case AssignIssue => 16 case AssignMe => 17 case CreateSubtask => 18 case QuickFilter => 19 case RefreshCard => 20
      case WatchIssue => 21 case UnwatchIssue => 22;
    assert ACTIONS[i] == action;
  }

  lemma CodesDiffer()
    ensures forall i, j :: 0 <= i < j < |ACTIONS| ==> Code(ACTIONS[i]) != Code(ACTIONS[j])
  {
    forall i, j | 0 <= i < j < |ACTIONS| ensures Code(ACTIONS[i]) != Code(ACTIONS[j]) {
      var a, b := ACTIONS[i], ACTIONS[j];
      SameCode(a, b);
    }
  }

  lemma SameCode(a: Action, b: Action)
    ensures Code(a) == Code(b) ==> a == b
  {}

  lemma NameShape(action: Action)
    ensures ActionPattern(Code(action))
  {}

  function Wire(p: Parsed): string { PREFIX + Code(p.action) + ":" + p.token }

  lemma PatternMatches(code: string, token: string)
    requires ActionPattern(code) && TokenPattern(token)
    ensures FullMatch(PREFIX + code + ":" + token) == Some((code, token))
  {
    var raw := PREFIX + code + ":" + token;
    assert raw[..3] == PREFIX && raw[3..3 + |code|] == code && raw[4 + |code|..] == token;
  }

  /** Printing fits a button and parses back. */
  lemma WireParses(p: Parsed)
    requires TokenPattern(p.token)
    ensures |Wire(p)| <= MAX_LENGTH && Parse(Some(Wire(p))) == Ok(p)
  {
    var raw, code := Wire(p), Code(p.action);
    ActionNames(p.action);
    PatternMatches(code, p.token);
    forall i | 0 <= i < |raw| ensures raw[i] as int < 128 {
      if 3 <= i < 3 + |code| { assert raw[i] == code[i - 3]; }
      if i >= 4 + |code| { assert raw[i] == p.token[i - 4 - |code|]; }
    }
  }

  /** What parses is a printed pair: parsing and printing are inverse, on every
      text there is. */
  lemma ParseExactly(raw: string, p: Parsed)
    ensures Parse(Some(raw)) == Ok(p) <==> TokenPattern(p.token) && raw == Wire(p)
  {
    if Parse(Some(raw)) == Ok(p) {
      var groups := FullMatch(raw).value;
      LookupFinds(ACTIONS, groups.0);
      assert raw == raw[..3] + raw[3..3 + |groups.0|] + [raw[3 + |groups.0|]] + raw[4 + |groups.0|..];
    }
    if TokenPattern(p.token) && raw == Wire(p) {
      WireParses(p);
    }
  }

  /** Encoding succeeds exactly on the allowlisted names and well-formed tokens; its
      length check and its final parse never object. */
  lemma EncodeExactly(action: string, token: string)
    ensures Encode(action, token).Ok? <==> ActionOf(action).Some? && TokenPattern(token)
    ensures Encode(action, token).Ok? ==>
              && |Encode(action, token).value| <= MAX_LENGTH
              && Parse(Some(Encode(action, token).value)) == Ok(Parsed(ActionOf(action).value, token))
  {
    LookupFinds(ACTIONS, action);
    if ActionOf(action).Some? && TokenPattern(token) {
      WireParses(Parsed(ActionOf(action).value, token));
    }
  }

  function Joined(parts: seq<string>, separator: char): string
    requires |parts| >= 1
  {
    if |parts| == 1 then parts[0] else parts[0] + [separator] + Joined(parts[1..], separator)
  }

  /** Splitting cuts at every separator, and only there. */
  lemma {:induction false} SplitJoins(s: string, separator: char)
    ensures Joined(Split(s, separator), separator) == s
    ensures forall part :: part in Split(s, separator) ==> separator !in part
  {
    if s != [] {
      var rest := Split(s[1..], separator);
      SplitJoins(s[1..], separator);
      assert s == [s[0]] + s[1..];
      if s[0] == separator {
        assert Split(s, separator)[1..] == rest;
      } else {
        var parts := Split(s, separator);
        assert parts[1..] == rest[1..] && parts[0] == [s[0]] + rest[0];
        forall part | part in parts ensures separator !in part {
          if part != parts[0] { assert part in rest; } else { assert rest[0] in rest; }
        }
      }
    }
  }

  /** The last diagnosis, a malformed text without any other fault, never happens. */
  lemma NeverMalformed(raw: Option<string>)
    ensures Parse(raw) != Err(DataMalformed)
  {
    if raw.Some? {
      var text, parts := raw.value, Split(raw.value, ':');
      if StartsWith(text, PREFIX) && |parts| == 3 && ActionPattern(parts[1]) && TokenPattern(parts[2]) {
        ThreeParts(text);
        PatternMatches(parts[1], parts[2]);
      }
    }
  }

  lemma ThreeParts(text: string)
    requires StartsWith(text, PREFIX) && |Split(text, ':')| == 3
    ensures var parts := Split(text, ':'); text == PREFIX + parts[1] + ":" + parts[2]
  {
    var parts := Split(text, ':');
    SplitJoins(text, ':');
    var rest := parts[1] + ":" + parts[2];
    assert Joined(parts[1..], ':') == rest;
    assert text == parts[0] + [':'] + rest;
    assert text == "j1" + [':'] + text[3..];
    CutUnique(parts[0], rest, "j1", text[3..], ':');
  }

  /** A text is cut at its first separator in one way only. */
  lemma {:induction false} CutUnique(a: string, x: string, b: string, y: string, separator: char)
    requires a + [separator] + x == b + [separator] + y && separator !in a && separator !in b
    ensures a == b && x == y
  {
    var text := a + [separator] + x;
    assert text[|a|] == separator && text[|b|] == separator;
    assert |b| > 0 ==> text[0] == b[0] && b[0] in b;
    assert |a| > 0 ==> text[0] == a[0] && a[0] in a;
    if |a| > 0 {
      assert text[1..] == a[1..] + [separator] + x;
      assert text[1..] == b[1..] + [separator] + y;
      CutUnique(a[1..], x, b[1..], y, separator);
    } else {
      assert x == text[1..];
    }
  }
}
