/**
 * The two string case conversions the pipeline uses, str.lower() and
 * str.title(), restricted to ASCII: letters are the only cased characters.
 */
module Text {

  predicate IsCased(c: char) {
    'a' <= c <= 'z' || 'A' <= c <= 'Z'
  }

  function LowerChar(c: char): (d: char)
    ensures IsCased(d) == IsCased(c)
    ensures !IsCased(c) ==> d == c
    ensures !('A' <= d <= 'Z')
  {
    if 'A' <= c <= 'Z' then (c as int + 32) as char else c
  }

  function UpperChar(c: char): (d: char)
    ensures IsCased(d) == IsCased(c)
    ensures !IsCased(c) ==> d == c
    ensures !('a' <= d <= 'z')
  {
    if 'a' <= c <= 'z' then (c as int - 32) as char else c
  }

  /** str.lower() */
  function Lower(s: string): (t: string)
    ensures |t| == |s|
    ensures forall i :: 0 <= i < |s| ==> t[i] == LowerChar(s[i])
  {
    if s == [] then [] else [LowerChar(s[0])] + Lower(s[1..])
  }

  /**
   * str.title() from a position whose preceding character is (or is not)
   * cased: a character after a cased one goes to lower case, any other to
   * upper (title) case.
   */
  function TitleFrom(s: string, afterCased: bool): (t: string)
    ensures |t| == |s|
    ensures forall i :: 0 <= i < |s| ==>
              t[i] == if (if i == 0 then afterCased else IsCased(s[i - 1])) then LowerChar(s[i]) else UpperChar(s[i])
  {
    if s == [] then []
    else
      var c := if afterCased then LowerChar(s[0]) else UpperChar(s[0]);
      [c] + TitleFrom(s[1..], IsCased(s[0]))
  }

  /** str.title(): a character that follows a cased one is lowered, every other one is upper-cased. */
  function TitleCase(s: string): (t: string)
    ensures |t| == |s|
    ensures forall i :: 0 <= i < |s| ==>
              t[i] == if i > 0 && IsCased(s[i - 1]) then LowerChar(s[i]) else UpperChar(s[i])
  {
    TitleFrom(s, false)
  }

  lemma {:induction false} TitleFromIdempotent(s: string, afterCased: bool)
    ensures TitleFrom(TitleFrom(s, afterCased), afterCased) == TitleFrom(s, afterCased)
  {
    if s != [] {
      var t := TitleFrom(s, afterCased);
      assert t[1..] == TitleFrom(s[1..], IsCased(s[0]));
      TitleFromIdempotent(s[1..], IsCased(s[0]));
    }
  }

  /** Title-casing a string that is already title-cased changes nothing. */
  lemma TitleCaseIdempotent(s: string)
    ensures TitleCase(TitleCase(s)) == TitleCase(s)
  {
    TitleFromIdempotent(s, false);
  }

  lemma {:induction false} TitleFromIgnoresCase(s: string, afterCased: bool)
    ensures TitleFrom(Lower(s), afterCased) == TitleFrom(s, afterCased)
  {
    if s != [] {
      assert Lower(s)[1..] == Lower(s[1..]);
      TitleFromIgnoresCase(s[1..], IsCased(s[0]));
    }
  }

  /** Title-casing undoes lower-casing: the result does not depend on the input's case. */
  lemma TitleCaseOfLower(s: string)
    ensures TitleCase(Lower(s)) == TitleCase(s)
  {
    TitleFromIgnoresCase(s, false);
  }

  /** A run of lower-case letters after a cased character is already in title case. */
  lemma {:induction false} TitleFromLowerRun(s: string)
    requires forall i :: 0 <= i < |s| ==> 'a' <= s[i] <= 'z'
    ensures TitleFrom(s, true) == s
  {
    if s != [] {
      TitleFromLowerRun(s[1..]);
    }
  }

  /** A capital followed by lower-case letters is in title case. */
  lemma CapitalizedIsTitled(s: string)
    requires |s| > 0 && 'A' <= s[0] <= 'Z'
    requires forall i :: 1 <= i < |s| ==> 'a' <= s[i] <= 'z'
    ensures TitleCase(s) == s
  {
    TitleFromLowerRun(s[1..]);
    assert s == [s[0]] + s[1..];
  }

  /** What step 2 does to a lower-cased plan name: "basic" becomes "Basic". */
  lemma TitleCaseRestoresBasic()
    ensures TitleCase("basic") == "Basic"
  {
    assert Lower("Basic") == "basic";
    TitleCaseOfLower("Basic");
    CapitalizedIsTitled("Basic");
  }
}
