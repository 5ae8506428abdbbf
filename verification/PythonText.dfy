/** The text operations the parsers use, on sequences of code points. */
module PythonText {

  /** `str.isspace`. */
  predicate IsSpace(c: char) {
    var n := c as int;
    9 <= n <= 13 || 28 <= n <= 32 || n == 0x85 || n == 0xA0 || n == 0x1680 || 0x2000 <= n <= 0x200A
    || n == 0x2028 || n == 0x2029 || n == 0x202F || n == 0x205F || n == 0x3000
  }

  /** Where `str.splitlines` cuts. */
  predicate IsBreak(c: char) {
    var n := c as int;
    10 <= n <= 13 || 28 <= n <= 30 || n == 0x85 || n == 0x2028 || n == 0x2029
  }

  predicate Trimmed(s: string) { s != "" ==> !IsSpace(s[0]) && !IsSpace(s[|s| - 1]) }

  function LeftTrim(s: string): (r: string)
    ensures |r| <= |s| && (r != "" ==> !IsSpace(r[0]) && r[|r| - 1] == s[|s| - 1])
    ensures forall c :: c in r ==> c in s
  {
    if s != "" && IsSpace(s[0]) then LeftTrim(s[1..]) else s
  }

  function RightTrim(s: string): (r: string)
    ensures |r| <= |s| && (r != "" ==> !IsSpace(r[|r| - 1]) && r[0] == s[0])
    ensures forall c :: c in r ==> c in s
  {
    if s != "" && IsSpace(s[|s| - 1]) then RightTrim(s[..|s| - 1]) else s
  }

  /** `str.strip()`. */
  function Strip(s: string): (r: string)
    ensures Trimmed(r) && forall c :: c in r ==> c in s
  {
    RightTrim(LeftTrim(s))
  }

  /** `str.lstrip(chars)`. */
  function LeftStrip(s: string, chars: set<char>): string {
    if s != "" && s[0] in chars then LeftStrip(s[1..], chars) else s
  }

  /** The first place of a character, or the length. */
  function IndexOf(s: string, c: char): (i: nat)
    ensures i <= |s| && c !in s[..i] && (i < |s| ==> s[i] == c)
  {
    if s == "" || s[0] == c then 0 else
      var i := 1 + IndexOf(s[1..], c);
      assert s[..i] == [s[0]] + s[1..][..i - 1];
      i
  }

  /** `str.partition`: the part before, whether there is a separator, the part after. */
  function Partition(s: string, separator: char): (string, bool, string) {
    var i := IndexOf(s, separator);
    if i < |s| then (s[..i], true, s[i + 1..]) else (s, false, "")
  }

  function Replace(s: string, from: char, to: char): (r: string)
    ensures |r| == |s| && forall i :: 0 <= i < |s| ==> r[i] == if s[i] == from then to else s[i]
  {
    seq(|s|, i requires 0 <= i < |s| => if s[i] == from then to else s[i])
  }

  /** `str.lower`, as far as it can produce or alter ASCII letters other than k. */
  function Lower(s: string): (r: string)
    ensures |r| == |s|
  {
    seq(|s|, i requires 0 <= i < |s| => if 'A' <= s[i] <= 'Z' then (s[i] as int + 32) as char else s[i])
  }

  predicate StartsWith(s: string, prefix: string) { |prefix| <= |s| && s[..|prefix|] == prefix }

  function FirstBreak(s: string): (i: nat)
    ensures i <= |s| && (forall k :: 0 <= k < i ==> !IsBreak(s[k])) && (i < |s| ==> IsBreak(s[i]))
  {
    if s == "" || IsBreak(s[0]) then 0 else 1 + FirstBreak(s[1..])
  }

  /** `str.splitlines`. */
  function Lines(s: string): (r: seq<string>)
    ensures forall line, k :: line in r && 0 <= k < |line| ==> !IsBreak(line[k])
    decreases |s|
  {
    if s == "" then [] else
      var i := FirstBreak(s);
      if i == |s| then [s]
      else
        var width := if s[i] == '\r' && i + 1 < |s| && s[i + 1] == '\n' then 2 else 1;
        [s[..i]] + Lines(s[i + width..])
  }

  // ---- Properties --------------------------------------------------------------------

  predicate OneLine(s: string) { forall k :: 0 <= k < |s| ==> !IsBreak(s[k]) }

  lemma StripsNothing(s: string)
    requires Trimmed(s)
    ensures Strip(s) == s
  {}

  lemma StripsASpace(s: string)
    requires s != "" && Trimmed(s)
    ensures Strip(" " + s) == s
  {
    var t := " " + s;
    assert t[0] == ' ' && t[1..] == s;
    assert LeftTrim(t) == LeftTrim(s);
  }

  lemma {:induction false} IndexExact(s: string, k: nat, c: char)
    requires k <= |s| && c !in s[..k] && (k < |s| ==> s[k] == c)
    ensures IndexOf(s, c) == k
  {
    if k > 0 {
      assert s[0] == s[..k][0] && s[1..][..k - 1] == s[..k][1..];
      IndexExact(s[1..], k - 1, c);
    }
  }

  lemma CutAfter(key: string, separator: char, rest: string)
    requires separator !in key
    ensures Partition(key + [separator] + rest, separator) == (key, true, rest)
  {
    var s := key + [separator] + rest;
    assert s[..|key|] == key && s[|key| + 1..] == rest;
    IndexExact(s, |key|, separator);
  }

  lemma CutNowhere(s: string, separator: char)
    requires separator !in s
    ensures Partition(s, separator) == (s, false, "")
  {
    assert s[..|s|] == s;
    IndexExact(s, |s|, separator);
  }

  lemma ReplacesNothing(s: string, from: char, to: char)
    requires from !in s
    ensures Replace(s, from, to) == s
  {}

  /** `"\n".join`. */
  function Joined(lines: seq<string>): string {
    if lines == [] then "" else if |lines| == 1 then lines[0] else lines[0] + "\n" + Joined(lines[1..])
  }

  lemma LineThenRest(line: string, rest: string)
    requires OneLine(line)
    ensures Lines(line + "\n" + rest) == [line] + Lines(rest)
  {
    var s := line + "\n" + rest;
    BreakExact(s, |line|);
    assert s[|line|] == '\n' && s[..|line|] == line && s[|line| + 1..] == rest;
  }

  lemma {:induction false} BreakExact(s: string, k: nat)
    requires k <= |s| && (forall i :: 0 <= i < k ==> !IsBreak(s[i])) && (k < |s| ==> IsBreak(s[k]))
    ensures FirstBreak(s) == k
  {
    if k > 0 { BreakExact(s[1..], k - 1); }
  }

  /** Joining lines and splitting again gives the lines back, unless the last is
      empty. */
  lemma {:induction false} LinesOfJoined(lines: seq<string>)
    requires lines != [] && lines[|lines| - 1] != "" && forall k :: 0 <= k < |lines| ==> OneLine(lines[k])
    ensures Lines(Joined(lines)) == lines
  {
    if |lines| == 1 {
      BreakExact(lines[0], |lines[0]|);
    } else {
      LinesOfJoined(lines[1..]);
      LineThenRest(lines[0], Joined(lines[1..]));
    }
  }

  lemma {:induction false} JoinedTwo(a: seq<string>, b: seq<string>)
    requires a != [] && b != []
    ensures Joined(a + b) == Joined(a) + "\n" + Joined(b)
  {
    if |a| == 1 {
      assert (a + b)[1..] == b;
    } else {
      assert (a + b)[1..] == a[1..] + b;
      JoinedTwo(a[1..], b);
      assert (a + b)[0] == a[0];
    }
  }
}
