/**
 * The JavaScript string built-ins the component relies on: `toUpperCase`,
 * `toLowerCase`, `charAt`, `slice`, `split(' ')`, `join(' ')` and `trim`.
 * Case mapping is restricted to the ASCII letters; every other character is
 * left as it is.
 */
module JsString {

  predicate IsLowerLetter(c: char) { 'a' <= c <= 'z' }

  predicate IsUpperLetter(c: char) { 'A' <= c <= 'Z' }

  /** `toUpperCase` on one character: 'a'..'z' become 'A'..'Z'. */
  function UpperChar(c: char): (u: char)
    ensures !IsLowerLetter(u)
    ensures IsLowerLetter(c) ==> IsUpperLetter(u) && u as int == c as int - 32
    ensures !IsLowerLetter(c) ==> u == c
  {
    if IsLowerLetter(c) then (c as int - 32) as char else c
  }

  /** `toLowerCase` on one character: 'A'..'Z' become 'a'..'z'. */
  function LowerChar(c: char): (l: char)
    ensures !IsUpperLetter(l)
    ensures IsUpperLetter(c) ==> IsLowerLetter(l) && l as int == c as int + 32
    ensures !IsUpperLetter(c) ==> l == c
  {
    if IsUpperLetter(c) then (c as int + 32) as char else c
  }

  /** Each case mapping is idempotent, and either one absorbs the other. */
  lemma CaseMappingAbsorbs(c: char)
    ensures UpperChar(UpperChar(c)) == UpperChar(c) && LowerChar(LowerChar(c)) == LowerChar(c)
    ensures UpperChar(LowerChar(c)) == UpperChar(c) && LowerChar(UpperChar(c)) == LowerChar(c)
  {
  }

  /** `s.toUpperCase()`. */
  function ToUpperCase(s: string): (r: string)
    ensures |r| == |s|
    ensures forall i :: 0 <= i < |s| ==> r[i] == UpperChar(s[i])
  {
    seq(|s|, i requires 0 <= i < |s| => UpperChar(s[i]))
  }

  /** `s.toLowerCase()`. */
  function ToLowerCase(s: string): (r: string)
    ensures |r| == |s|
    ensures forall i :: 0 <= i < |s| ==> r[i] == LowerChar(s[i])
  {
    seq(|s|, i requires 0 <= i < |s| => LowerChar(s[i]))
  }

  /** `s.charAt(i)`: the one-character string at i, or "" when i is out of range. */
  function CharAt(s: string, i: nat): (r: string)
    ensures i < |s| ==> r == [s[i]]
    ensures |s| <= i ==> r == ""
  {
    if i < |s| then [s[i]] else ""
  }

  /** `s.slice(i)` for a non-negative start: the suffix from i, or "" when i is past the end. */
  function SliceFrom(s: string, i: nat): (r: string)
    ensures i <= |s| ==> r == s[i..]
    ensures |s| <= i ==> r == ""
  {
    if i <= |s| then s[i..] else ""
  }

  /**
   * `s.charAt(i) + s.slice(i + 1)` is `s.slice(i)`: the character at i followed
   * by the rest. At i = 0 this gives back the whole string, "" included.
   */
  lemma CharAtThenSlice(s: string, i: nat)
    ensures CharAt(s, i) + SliceFrom(s, i + 1) == SliceFrom(s, i)
    ensures CharAt(s, 0) + SliceFrom(s, 1) == s
  {
    if i < |s| {
      assert s[i..] == [s[i]] + s[i + 1..];
    }
    if |s| > 0 {
      assert s == [s[0]] + s[1..];
    }
  }

  /** The index of the first ' ' in s, or |s| when there is none. */
  function FirstSpace(s: string): (k: nat)
    ensures k <= |s|
    ensures forall i :: 0 <= i < k ==> s[i] != ' '
    ensures k < |s| ==> s[k] == ' '
  {
    if |s| == 0 || s[0] == ' ' then 0 else 1 + FirstSpace(s[1..])
  }

  /**
   * `s.split(' ')`: the segments between consecutive spaces, in order. There is
   * always at least one segment; "" splits into [""].
   */
  function Split(s: string): (parts: seq<string>)
    ensures |parts| >= 1
    ensures forall k :: 0 <= k < |parts| ==> ' ' !in parts[k]
    decreases |s|
  {
    var k := FirstSpace(s);
    if k == |s| then [s] else [s[..k]] + Split(s[k + 1..])
  }

  /** `parts.join(' ')`: starts with the first segment. */
  function Join(parts: seq<string>): (s: string)
    ensures |parts| > 0 ==> parts[0] <= s
  {
    if |parts| == 0 then ""
    else if |parts| == 1 then parts[0]
    else parts[0] + " " + Join(parts[1..])
  }

  /** A string without a space is its own single segment. */
  lemma SplitNoSpace(s: string)
    requires FirstSpace(s) == |s|
    ensures Split(s) == [s]
  {
  }

  /** Joining the segments of s with ' ' gives back s. */
  lemma {:induction false} JoinSplit(s: string)
    ensures Join(Split(s)) == s
    decreases |s|
  {
    var k := FirstSpace(s);
    if k == |s| {
      SplitNoSpace(s);
    } else {
      var w, t := s[..k], s[k + 1..];
      assert s == w + " " + t;
      assert ' ' !in w by {
        forall i | 0 <= i < |w| ensures w[i] != ' ' {
          assert w[i] == s[i];
        }
      }
      SplitFirstSegment(w, t);
      JoinSplit(t);
      JoinFirstSegment(w, Split(t));
    }
  }

  /** Splitting a ' '-join of space-free segments gives back the segments. */
  lemma {:induction false} SplitJoin(parts: seq<string>)
    requires |parts| >= 1
    requires forall k :: 0 <= k < |parts| ==> ' ' !in parts[k]
    ensures Split(Join(parts)) == parts
  {
    var w := parts[0];
    if |parts| == 1 {
      FirstSpaceOfWord(w, "");
      assert w + "" == w;
    } else {
      SplitJoin(parts[1..]);
      JoinFirstSegment(w, parts[1..]);
      SplitFirstSegment(w, Join(parts[1..]));
      assert parts == [w] + parts[1..];
    }
  }

  /** A leading space-free segment followed by a space splits off as the first segment. */
  lemma SplitFirstSegment(w: string, t: string)
    requires ' ' !in w
    ensures Split(w + " " + t) == [w] + Split(t)
  {
    var s := w + " " + t;
    assert s == w + (" " + t);
    FirstSpaceOfWord(w, " " + t);
    assert FirstSpace(s) == |w|;
    assert s[..|w|] == w && s[|w| + 1..] == t;
  }

  /** Joining a segment in front of one or more segments puts one space between them. */
  lemma JoinFirstSegment(w: string, parts: seq<string>)
    requires |parts| >= 1
    ensures Join([w] + parts) == w + " " + Join(parts)
  {
    assert ([w] + parts)[1..] == parts;
  }

  /** The first space of w + t, where w holds no space, is the first space of t shifted by |w|. */
  lemma {:induction false} FirstSpaceOfWord(w: string, t: string)
    requires ' ' !in w
    ensures FirstSpace(w + t) == |w| + FirstSpace(t)
  {
    if |w| > 0 {
      assert (w + t)[1..] == w[1..] + t;
      FirstSpaceOfWord(w[1..], t);
    } else {
      assert w + t == t;
    }
  }

  /** A segment count: s has exactly one more segment than it has spaces. */
  function CountSpaces(s: string): nat
  {
    if |s| == 0 then 0 else (if s[0] == ' ' then 1 else 0) + CountSpaces(s[1..])
  }

  lemma {:induction false} SplitCount(s: string)
    ensures |Split(s)| == CountSpaces(s) + 1
    decreases |s|
  {
    var k := FirstSpace(s);
    CountSpacesOfWord(s[..k], s[k..]);
    assert s == s[..k] + s[k..];
    if k < |s| {
      SplitCount(s[k + 1..]);
      assert s[k..][1..] == s[k + 1..];
    }
  }

  lemma {:induction false} CountSpacesOfWord(w: string, t: string)
    requires ' ' !in w
    ensures CountSpaces(w + t) == CountSpaces(t)
  {
    if |w| > 0 {
      assert (w + t)[1..] == w[1..] + t;
      CountSpacesOfWord(w[1..], t);
    } else {
      assert w + t == t;
    }
  }

  /**
   * The characters `trim` removes: ECMAScript's WhiteSpace (TAB, VT, FF,
   * ZWNBSP and the Unicode space separators) and LineTerminator (LF, CR, LS, PS).
   */
  predicate IsWhiteSpace(c: char)
  {
    c == '\t' || c == '\U{000B}' || c == '\U{000C}' || c == ' ' || c == '\U{00A0}'
    || c == '\U{FEFF}' || c == '\U{1680}' || ('\U{2000}' <= c <= '\U{200A}')
    || c == '\U{202F}' || c == '\U{205F}' || c == '\U{3000}'
    || c == '\n' || c == '\r' || c == '\U{2028}' || c == '\U{2029}'
  }

  /** s with its leading white space removed. */
  function TrimStart(s: string): (r: string)
    ensures |r| <= |s| && r == s[|s| - |r|..]
    ensures forall i :: 0 <= i < |s| - |r| ==> IsWhiteSpace(s[i])
    ensures |r| > 0 ==> !IsWhiteSpace(r[0])
  {
    if |s| > 0 && IsWhiteSpace(s[0]) then TrimStart(s[1..]) else s
  }

  /** s with its trailing white space removed. */
  function TrimEnd(s: string): (r: string)
    ensures |r| <= |s| && r == s[..|r|]
    ensures forall i :: |r| <= i < |s| ==> IsWhiteSpace(s[i])
    ensures |r| > 0 ==> !IsWhiteSpace(r[|r| - 1])
  {
    if |s| > 0 && IsWhiteSpace(s[|s| - 1]) then TrimEnd(s[..|s| - 1]) else s
  }

  /**
   * `s.trim()`: a piece of s that neither starts nor ends with white space,
   * and empty exactly when every character of s is white space.
   */
  function Trim(s: string): (r: string)
    ensures |r| <= |s|
    ensures |r| > 0 ==> !IsWhiteSpace(r[0]) && !IsWhiteSpace(r[|r| - 1])
    ensures r == "" <==> IsBlank(s)
  {
    var m := TrimStart(s);
    assert |m| > 0 ==> m[0] == s[|s| - |m|];
    TrimEnd(m)
  }

  /** Every character of s is white space. */
  predicate IsBlank(s: string)
  {
    forall i :: 0 <= i < |s| ==> IsWhiteSpace(s[i])
  }

  /** Case mapping neither creates nor removes white space. */
  lemma CaseMappingKeepsWhiteSpace(c: char)
    ensures IsWhiteSpace(UpperChar(c)) <==> IsWhiteSpace(c)
    ensures IsWhiteSpace(LowerChar(c)) <==> IsWhiteSpace(c)
  {
  }
}
