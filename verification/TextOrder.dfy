/** The order of texts by code points, as the database compares them. */
module TextOrder {

  predicate TextLess(s: string, t: string) {
    t != "" && (s == "" || s[0] < t[0] || (s[0] == t[0] && TextLess(s[1..], t[1..])))
  }

  lemma {:induction false} LessIsTransitive(s: string, t: string, u: string)
    requires TextLess(s, t) && TextLess(t, u)
    ensures TextLess(s, u)
  {
    if s != "" && s[0] == t[0] == u[0] { LessIsTransitive(s[1..], t[1..], u[1..]); }
  }

  lemma {:induction false} LessIsTotal(s: string, t: string)
    ensures s == t || TextLess(s, t) || TextLess(t, s)
  {
    if s != "" && t != "" && s[0] == t[0] {
      LessIsTotal(s[1..], t[1..]);
      assert s == [s[0]] + s[1..] && t == [t[0]] + t[1..];
    }
  }

  lemma {:induction false} NotBelowItself(s: string)
    ensures !TextLess(s, s)
  {
    if s != "" { NotBelowItself(s[1..]); }
  }
}
