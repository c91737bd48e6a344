/** The two Python string operations the page relies on: `str.rstrip(chars)`
    and `str.strip()`, stated over an explicit set of characters. */
module PyStr {

  /** The characters for which Python's `str.isspace()` holds; `str.strip()`
      with no argument removes exactly these from both ends. */
  const Whitespace: set<char> := {
    '\t', '\n', '\U{0B}', '\U{0C}', '\r', '\U{1C}', '\U{1D}', '\U{1E}', '\U{1F}', ' ',
    '\U{85}', '\U{A0}', '\U{1680}',
    '\U{2000}', '\U{2001}', '\U{2002}', '\U{2003}', '\U{2004}', '\U{2005}',
    '\U{2006}', '\U{2007}', '\U{2008}', '\U{2009}', '\U{200A}',
    '\U{2028}', '\U{2029}', '\U{202F}', '\U{205F}', '\U{3000}'
  }

  /** `s.rstrip(chars)`: drop every trailing character that is in `chars`. */
  function RStrip(s: string, chars: set<char>): (r: string)
    ensures |r| <= |s| && r == s[..|r|]
    ensures r == [] || r[|r| - 1] !in chars
    ensures forall i :: |r| <= i < |s| ==> s[i] in chars
  {
    if s != [] && s[|s| - 1] in chars then RStrip(s[..|s| - 1], chars) else s
  }

  /** `s.lstrip(chars)`: drop every leading character that is in `chars`. */
  function LStrip(s: string, chars: set<char>): (r: string)
    ensures |r| <= |s| && r == s[|s| - |r|..]
    ensures r == [] || r[0] !in chars
    ensures forall i :: 0 <= i < |s| - |r| ==> s[i] in chars
  {
    if s != [] && s[0] in chars then LStrip(s[1..], chars) else s
  }

  /** `s.strip(chars)`: characters in `chars` removed from both ends; with
      `Whitespace` it is `s.strip()`. The result is a slice of `s` with only
      `chars` before and after it, it neither starts nor ends with one of
      `chars`, and it is empty exactly when every character of `s` is one. */
  function Strip(s: string, chars: set<char>): (r: string)
    ensures |r| <= |s|
    ensures exists i :: SliceBetween(s, r, i, chars)
    ensures r == [] || (r[0] !in chars && r[|r| - 1] !in chars)
    ensures r == [] <==> forall i :: 0 <= i < |s| ==> s[i] in chars
  {
    var t := LStrip(s, chars);
    var r := RStrip(t, chars);
    StrippedBothEnds(s, t, r, chars);
    r
  }

  /** A suffix `t` of `s` that drops only leading `chars` and does not start
      with one, cut to a prefix `r` that drops only trailing `chars` and does
      not end with one, is a slice of `s` between two runs of `chars`; it is
      empty exactly when all of `s` is in `chars`. */
  lemma StrippedBothEnds(s: string, t: string, r: string, chars: set<char>)
    requires |t| <= |s| && t == s[|s| - |t|..]
    requires t == [] || t[0] !in chars
    requires forall j :: 0 <= j < |s| - |t| ==> s[j] in chars
    requires |r| <= |t| && r == t[..|r|]
    requires r == [] || r[|r| - 1] !in chars
    requires forall j :: |r| <= j < |t| ==> t[j] in chars
    ensures |r| <= |s|
    ensures SliceBetween(s, r, |s| - |t|, chars)
    ensures r == [] || (r[0] !in chars && r[|r| - 1] !in chars)
    ensures r == [] <==> forall i :: 0 <= i < |s| ==> s[i] in chars
  {
    var i := |s| - |t|;
    forall j | i + |r| <= j < |s| ensures s[j] in chars {
      assert s[j] == t[j - i];
    }
    assert r != [] ==> r[0] == t[0] == s[i];
  }

  /** `r` is `s[i..i + |r|]`, and everything of `s` before and after that
      slice is in `chars`. */
  predicate SliceBetween(s: string, r: string, i: nat, chars: set<char>)
  {
    i + |r| <= |s| && r == s[i..i + |r|]
    && (forall j :: 0 <= j < i ==> s[j] in chars)
    && (forall j :: i + |r| <= j < |s| ==> s[j] in chars)
  }

  /** The string has a character that is not whitespace. */
  predicate HasContent(s: string)
  {
    exists i :: 0 <= i < |s| && s[i] !in Whitespace
  }

  /** Python's `if s.strip():` takes its first branch exactly when `s` has
      content. */
  lemma StripTest(s: string)
    ensures Strip(s, Whitespace) != [] <==> HasContent(s)
  {
  }

  /** The three properties of `RStrip` pin its result down: any prefix of `s`
      that does not end in `chars` and leaves only `chars` behind is it. */
  lemma {:induction false} RStripUnique(s: string, chars: set<char>, p: string)
    requires |p| <= |s| && p == s[..|p|]
    requires p == [] || p[|p| - 1] !in chars
    requires forall i :: |p| <= i < |s| ==> s[i] in chars
    ensures p == RStrip(s, chars)
  {
    if |p| < |s| {
      assert s[|s| - 1] in chars;
      var t := s[..|s| - 1];
      assert p == t[..|p|];
      assert forall i :: |p| <= i < |t| ==> t[i] in chars by {
        forall i | |p| <= i < |t| ensures t[i] in chars {
          assert t[i] == s[i];
        }
      }
      RStripUnique(t, chars, p);
    } else {
      assert p == s;
    }
  }

  /** Stripping twice removes nothing more than stripping once. */
  lemma RStripIdempotent(s: string, chars: set<char>)
    ensures RStrip(RStrip(s, chars), chars) == RStrip(s, chars)
  {
    var r := RStrip(s, chars);
    RStripUnique(r, chars, r);
  }
}
