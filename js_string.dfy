/**
 * The JavaScript string built-ins the core relies on: `startsWith`, `indexOf`
 * with `replace` of a string pattern, `split(sep)[0]`, `trim` and
 * `toLowerCase`. JavaScript strings are modelled as `seq<char>`.
 */
module JsString {
  import opened Common

  /** `s.startsWith(p)`: `s` is `p` followed by the rest of `s`. */
  predicate StartsWith(s: string, p: string): (r: bool)
    ensures r <==> |p| <= |s| && s == p + s[|p|..]
  {
    |p| <= |s| && s[..|p|] == p
  }

  /** `s.startsWith(p)` holds exactly when `s` is `p` with something appended. */
  lemma StartsWithIsPrefix(s: string, p: string)
    ensures StartsWith(s, p) <==> exists t :: s == p + t
  {
    if StartsWith(s, p) {
      assert s == p + s[|p|..];
    }
  }

  /**
   * The characters `String.prototype.trim` strips: the ECMAScript WhiteSpace
   * code points (tab, vertical tab, form feed, space, no-break space, the
   * byte-order mark and the Unicode space separators) and the LineTerminator
   * code points.
   */
  predicate IsJsSpace(c: char) {
    c in JsSpaces
  }

  const JsSpaces: set<char> :=
    {'\t', '\n', '\U{000B}', '\U{000C}', '\r', ' ', '\U{00A0}', '\U{1680}',
     '\U{2000}', '\U{2001}', '\U{2002}', '\U{2003}', '\U{2004}', '\U{2005}', '\U{2006}',
     '\U{2007}', '\U{2008}', '\U{2009}', '\U{200A}',
     '\U{2028}', '\U{2029}', '\U{202F}', '\U{205F}', '\U{3000}', '\U{FEFF}'}

  /** Every character of `s` is white space (so `s.trim()` is the falsy `""`). */
  predicate Blank(s: string)
    ensures Blank(s) <==> forall c :: c in s ==> IsJsSpace(c)
  {
    forall i :: 0 <= i < |s| ==> IsJsSpace(s[i])
  }

  /** The end of the run of white space that starts at `i`. */
  function SpacesFrom(s: string, i: nat): (r: nat)
    requires i <= |s|
    ensures i <= r <= |s|
    ensures forall k :: i <= k < r ==> IsJsSpace(s[k])
    ensures r == |s| || !IsJsSpace(s[r])
    decreases |s| - i
  {
    if i < |s| && IsJsSpace(s[i]) then SpacesFrom(s, i + 1) else i
  }

  /** The start of the run of white space that ends just before `j`. */
  function SpacesBefore(s: string, j: nat): (r: nat)
    requires j <= |s|
    ensures r <= j
    ensures forall k :: r <= k < j ==> IsJsSpace(s[k])
    ensures r == 0 || !IsJsSpace(s[r - 1])
  {
    if 0 < j && IsJsSpace(s[j - 1]) then SpacesBefore(s, j - 1) else j
  }

  /** `s.trimStart()`: drops the longest all-space prefix. */
  function TrimStart(s: string): (r: string)
    ensures |r| <= |s| && r == s[|s| - |r|..]
    ensures Blank(s[..|s| - |r|])
    ensures r == [] || !IsJsSpace(r[0])
  {
    var i := SpacesFrom(s, 0);
    assert forall k :: 0 <= k < i ==> s[..i][k] == s[k];
    s[i..]
  }

  /** `s.trimEnd()`: drops the longest all-space suffix. */
  function TrimEnd(s: string): (r: string)
    ensures |r| <= |s| && r == s[..|r|]
    ensures Blank(s[|r|..])
    ensures r == [] || !IsJsSpace(r[|r| - 1])
  {
    var j := SpacesBefore(s, |s|);
    assert forall k :: 0 <= k < |s| - j ==> s[j..][k] == s[j + k];
    s[..j]
  }

  /** `s.trim()`; `TrimFacts` states which slice of `s` it keeps. */
  function Trim(s: string): (r: string)
    ensures |r| <= |s|
    ensures r == [] <==> Blank(s)
  {
    TrimEmptyIffBlank(s);
    TrimEnd(TrimStart(s))
  }

  /** Trimming leaves nothing exactly when the input is all white space. */
  lemma TrimEmptyIffBlank(s: string)
    ensures TrimEnd(TrimStart(s)) == [] <==> Blank(s)
  {
    var t := TrimStart(s);
    var i := SpacesFrom(s, 0);
    if TrimEnd(t) == [] {
      assert t == [];
      assert s[..i] == s;
    } else {
      assert t[0] == s[i];
    }
  }

  /**
   * `s.trim()` is the slice of `s` between its leading and its trailing white
   * space: both margins are all white space and neither end of the result is.
   */
  lemma TrimFacts(s: string)
    ensures var r := Trim(s);
            r == [] || (!IsJsSpace(r[0]) && !IsJsSpace(r[|r| - 1]))
    ensures var r := Trim(s);
            var i := SpacesFrom(s, 0);
            && i + |r| <= |s| && r == s[i..i + |r|]
            && Blank(s[..i]) && Blank(s[i + |r|..])
  {
    var t := TrimStart(s);
    var r := TrimEnd(t);
    var i := SpacesFrom(s, 0);
    var j := i + |r|;
    assert r == s[i..j];
    assert t[|r|..] == s[j..];
    if r != [] {
      assert r[0] == t[0];
    }
  }

  /** Trimming twice is the same as trimming once. */
  lemma TrimIdempotent(s: string)
    ensures Trim(Trim(s)) == Trim(s)
  {
    var r := Trim(s);
    if r != [] {
      TrimFacts(s);
      assert SpacesFrom(r, 0) == 0;
      assert TrimStart(r) == r[0..] == r;
      assert SpacesBefore(r, |r|) == |r|;
      assert TrimEnd(r) == r[..|r|] == r;
    }
  }

  /** The ASCII case mapping of `toLowerCase` for one character. */
  function LowerChar(c: char): char {
    if 'A' <= c <= 'Z' then (c as int + 32) as char else c
  }

  /** `s.toLowerCase()`, restricted to the ASCII letters. */
  function ToLower(s: string): (r: string)
    ensures |r| == |s|
  {
    seq(|s|, i requires 0 <= i < |s| => LowerChar(s[i]))
  }

  /**
   * `toLowerCase` leaves no ASCII capital behind, turns each capital into
   * its own small letter and changes nothing else.
   */
  lemma LowerResult(s: string)
    ensures forall i :: 0 <= i < |s| ==> !('A' <= ToLower(s)[i] <= 'Z')
    ensures forall i :: 0 <= i < |s| && 'A' <= s[i] <= 'Z' ==>
              ToLower(s)[i] == (s[i] as int - 'A' as int + 'a' as int) as char
    ensures forall i :: 0 <= i < |s| && !('A' <= s[i] <= 'Z') ==> ToLower(s)[i] == s[i]
  {
  }

  /** Two spellings of one email that differ only in case lower-case alike. */
  lemma LowerExample()
    ensures ToLower("Alice@X.com") == "alice@x.com"
    ensures ToLower("ALICE@x.COM") == ToLower("alice@X.com")
  {
  }

  /** Lower-casing never turns a character into white space or back. */
  lemma LowerKeepsSpace(c: char)
    ensures IsJsSpace(LowerChar(c)) == IsJsSpace(c)
  {
  }

  /** Lower-casing finds the same leading run of white space. */
  lemma {:induction false} SpacesFromLower(s: string, i: nat)
    requires i <= |s|
    ensures SpacesFrom(ToLower(s), i) == SpacesFrom(s, i)
    decreases |s| - i
  {
    if i < |s| {
      LowerKeepsSpace(s[i]);
      if IsJsSpace(s[i]) {
        SpacesFromLower(s, i + 1);
      }
    }
  }

  /** Lower-casing finds the same trailing run of white space. */
  lemma {:induction false} SpacesBeforeLower(s: string, j: nat)
    requires j <= |s|
    ensures SpacesBefore(ToLower(s), j) == SpacesBefore(s, j)
  {
    if 0 < j {
      LowerKeepsSpace(s[j - 1]);
      if IsJsSpace(s[j - 1]) {
        SpacesBeforeLower(s, j - 1);
      }
    }
  }

  lemma TrimStartLower(s: string)
    ensures TrimStart(ToLower(s)) == ToLower(TrimStart(s))
  {
    SpacesFromLower(s, 0);
    var i := SpacesFrom(s, 0);
    assert ToLower(s)[i..] == ToLower(s[i..]);
  }

  lemma TrimEndLower(s: string)
    ensures TrimEnd(ToLower(s)) == ToLower(TrimEnd(s))
  {
    SpacesBeforeLower(s, |s|);
    var j := SpacesBefore(s, |s|);
    assert ToLower(s)[..j] == ToLower(s[..j]);
  }

  /**
   * The two setters a schema field with both `lowercase` and `trim` applies
   * commute, so the order Mongoose runs them in does not matter.
   */
  lemma LowerTrimCommute(s: string)
    ensures Trim(ToLower(s)) == ToLower(Trim(s))
  {
    TrimStartLower(s);
    TrimEndLower(TrimStart(s));
  }

  /** `s.indexOf(pat)`: the first position at which `pat` occurs, if any. */
  function IndexOf(s: string, pat: string): (r: Option<nat>)
    ensures r.Some? ==> r.value + |pat| <= |s| && StartsWith(s[r.value..], pat)
    ensures r.Some? ==> forall j :: 0 <= j < r.value ==> !StartsWith(s[j..], pat)
    ensures r.None? ==> forall j :: 0 <= j <= |s| ==> !StartsWith(s[j..], pat)
    decreases |s|
  {
    if StartsWith(s, pat) then Some(0)
    else if s == [] then None
    else
      var rest := IndexOf(s[1..], pat);
      assert forall j :: 1 <= j <= |s| ==> s[j..] == s[1..][j - 1..];
      match rest
      case None => None
      case Some(i) => Some(i + 1)
  }

  /**
   * `s.replace(pat, rep)` with a string pattern: only the first occurrence is
   * replaced, and a string without one is returned as it is. The contract
   * specifies the two cases the core meets: a pattern at the very start of
   * `s` (a socket path prefix) and no occurrence at all; an occurrence further
   * in is computed but not specified.
   */
  function ReplaceFirst(s: string, pat: string, rep: string): (r: string)
    ensures StartsWith(s, pat) ==> r == rep + s[|pat|..]
    ensures IndexOf(s, pat).None? ==> r == s
  {
    match IndexOf(s, pat)
    case None => s
    case Some(i) => s[..i] + rep + s[i + |pat|..]
  }

  /** `s.split(sep)[0]`: everything before the first `sep`, or all of `s`. */
  function BeforeFirst(s: string, sep: char): (r: string)
    ensures StartsWith(s, r)
    ensures sep !in r
    ensures |r| < |s| ==> s[|r|] == sep
    decreases |s|
  {
    if s == [] || s[0] == sep then [] else [s[0]] + BeforeFirst(s[1..], sep)
  }
}
