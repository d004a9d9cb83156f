/** The few JavaScript string built-ins the console relies on: `toLowerCase`,
    `toUpperCase` of one character, `includes`, and `charAt(0).toUpperCase() + slice(1)`.
    Case mapping is the ASCII one (letters A to Z). */
module JsStrings {

  function ToLowerChar(c: char): char {
    if 'A' <= c <= 'Z' then (c as int + 32) as char else c
  }

  function ToUpperChar(c: char): char {
    if 'a' <= c <= 'z' then (c as int - 32) as char else c
  }

  /** `s.toLowerCase()` */
  function ToLowerCase(s: string): string {
    seq(|s|, i requires 0 <= i < |s| => ToLowerChar(s[i]))
  }

  /** Lower-casing twice is lower-casing once, so a search on already lower-cased text
      behaves like the search on the original. */
  lemma ToLowerCaseIdempotent(s: string)
    ensures ToLowerCase(ToLowerCase(s)) == ToLowerCase(s)
  {
  }

  /** Text without upper-case letters is left as it is, and lower-cased text has none. */
  lemma ToLowerCaseFixesLower(s: string)
    ensures (forall i :: 0 <= i < |s| ==> !('A' <= s[i] <= 'Z')) ==> ToLowerCase(s) == s
    ensures forall i :: 0 <= i < |s| ==> !('A' <= ToLowerCase(s)[i] <= 'Z')
  {
  }

  /** `s.charAt(0).toUpperCase() + s.slice(1)`; on the empty string both parts are empty. */
  function Capitalize(s: string): string {
    if s == [] then [] else [ToUpperChar(s[0])] + s[1..]
  }

  /** Capitalizing touches the first character only, keeps the length, and does not change
      what the text looks like to a case-insensitive comparison. */
  lemma CapitalizeShape(s: string)
    ensures |Capitalize(s)| == |s|
    ensures s != [] ==> Capitalize(s)[0] == ToUpperChar(s[0]) && Capitalize(s)[1..] == s[1..]
    ensures s != [] && 'a' <= s[0] <= 'z' ==> Capitalize(s) != s
    ensures ToLowerCase(Capitalize(s)) == ToLowerCase(s)
  {
  }

  /** `s.includes(t)`: some window of `s` spells `t`; the empty string is in every string. */
  function Includes(s: string, t: string): bool
    decreases |s|
  {
    if |t| > |s| then false
    else if s[..|t|] == t then true
    else Includes(s[1..], t)
  }

  ghost predicate OccursAt(s: string, t: string, i: int) {
    0 <= i && i + |t| <= |s| && s[i..i + |t|] == t
  }

  lemma {:induction false} IncludesIffOccurs(s: string, t: string)
    ensures Includes(s, t) <==> exists i :: OccursAt(s, t, i)
    decreases |s|
  {
    if |t| > |s| {
      assert forall i :: !OccursAt(s, t, i);
    } else if s[..|t|] == t {
      assert OccursAt(s, t, 0);
    } else {
      IncludesIffOccurs(s[1..], t);
      if Includes(s[1..], t) {
        var i :| OccursAt(s[1..], t, i);
        assert s[1..][i..i + |t|] == s[i + 1..i + 1 + |t|];
        assert OccursAt(s, t, i + 1);
      } else {
        forall i | OccursAt(s, t, i) ensures false {
          assert i != 0;
          assert s[1..][i - 1..i - 1 + |t|] == s[i..i + |t|];
          assert OccursAt(s[1..], t, i - 1);
        }
      }
    }
  }
}
