/**
 * The city-name normaliser `capitalizeWords`: split on single spaces, give each
 * segment an upper-case first character and a lower-case rest, and join the
 * segments back with single spaces.
 */
module Capitalize {
  import opened JsString

  /** `word.charAt(0).toUpperCase() + word.slice(1).toLowerCase()`. */
  function CapitalizeWord(w: string): (r: string)
    ensures |r| == |w|
    ensures |w| > 0 ==> r[0] == UpperChar(w[0])
    ensures forall j :: 1 <= j < |w| ==> r[j] == LowerChar(w[j])
    ensures IsCapitalizedWord(r)
    ensures ' ' !in w ==> ' ' !in r
  {
    ToUpperCase(CharAt(w, 0)) + ToLowerCase(SliceFrom(w, 1))
  }

  /**
   * `.map(word => CapitalizeWord(word))`: one segment out per segment in, each
   * as long as before, in normal form, and space-free when it was.
   */
  function CapitalizeAll(words: seq<string>): (r: seq<string>)
    ensures |r| == |words|
    ensures forall k :: 0 <= k < |r| ==> |r[k]| == |words[k]| && IsCapitalizedWord(r[k])
    ensures forall k :: 0 <= k < |r| ==> ' ' !in words[k] ==> ' ' !in r[k]
  {
    seq(|words|, k requires 0 <= k < |words| => CapitalizeWord(words[k]))
  }

  /**
   * `capitalizeWords(str)`: the output splits into exactly the capitalized
   * segments of the input.
   */
  function CapitalizeWords(s: string): (r: string)
    ensures Split(r) == CapitalizeAll(Split(s))
  {
    var out := CapitalizeAll(Split(s));
    SplitJoin(out);
    Join(out)
  }

  /** Position i of s begins a segment: it is the first character or follows a space. */
  predicate StartsSegment(s: string, i: nat)
    requires i < |s|
  {
    i == 0 || s[i - 1] == ' '
  }

  /**
   * The reference definition of the normaliser, one character at a time: the
   * first character of every segment is upper-cased, every other one lower-cased.
   */
  function CapitalizedAt(s: string, i: nat): char
    requires i < |s|
  {
    if StartsSegment(s, i) then UpperChar(s[i]) else LowerChar(s[i])
  }

  /** A segment in normal form: its first character is upper case and the rest lower case. */
  predicate IsCapitalizedWord(w: string)
  {
    (|w| > 0 ==> UpperChar(w[0]) == w[0])
    && forall j :: 1 <= j < |w| ==> LowerChar(w[j]) == w[j]
  }

  /** A string with no space is one segment, capitalized as a word. */
  lemma CapitalizeWordsOneSegment(w: string)
    requires ' ' !in w
    ensures CapitalizeWords(w) == CapitalizeWord(w)
  {
    FirstSpaceOfWord(w, "");
    assert w + "" == w;
    assert Split(w) == [w];
    assert CapitalizeAll([w]) == [CapitalizeWord(w)];
  }

  /** A leading space-free segment is capitalized on its own, ahead of the rest. */
  lemma CapitalizeWordsFirstSegment(w: string, t: string)
    requires ' ' !in w
    ensures CapitalizeWords(w + " " + t) == CapitalizeWord(w) + " " + CapitalizeWords(t)
  {
    SplitFirstSegment(w, t);
    var words := Split(t);
    CapitalizeAllCons(w, words);
    JoinFirstSegment(CapitalizeWord(w), CapitalizeAll(words));
  }

  /** Mapping over a segment in front of others maps the segment first. */
  lemma CapitalizeAllCons(w: string, words: seq<string>)
    ensures CapitalizeAll([w] + words) == [CapitalizeWord(w)] + CapitalizeAll(words)
  {
    assert forall k :: 0 < k < |words| + 1 ==> ([w] + words)[k] == words[k - 1];
  }

  /**
   * The split/map/join pipeline agrees with the per-character reference: the
   * result has the length of the input, and each character is the input's
   * character upper-cased at the start of a segment and lower-cased elsewhere.
   */
  lemma {:induction false} CapitalizeWordsPointwise(s: string)
    ensures |CapitalizeWords(s)| == |s|
    ensures forall i :: 0 <= i < |s| ==> CapitalizeWords(s)[i] == CapitalizedAt(s, i)
    decreases |s|
  {
    var k := FirstSpace(s);
    if k == |s| {
      assert s[..k] == s;
      CapitalizeWordsOneSegment(s);
    } else {
      var w, t := s[..k], s[k + 1..];
      assert s == w + " " + t;
      CapitalizeWordsPointwise(t);
      CapitalizeWordsFirstSegment(w, t);
      PointwiseAfterSegment(w, t, CapitalizeWords(t));
    }
  }

  /**
   * The inductive step: if rt agrees with the reference on t, then the
   * capitalized leading segment, a space and rt agree with it on w + " " + t.
   */
  lemma PointwiseAfterSegment(w: string, t: string, rt: string)
    requires ' ' !in w
    requires |rt| == |t|
    requires forall j :: 0 <= j < |t| ==> rt[j] == CapitalizedAt(t, j)
    ensures forall i :: 0 <= i < |w| + 1 + |t| ==>
      (CapitalizeWord(w) + " " + rt)[i] == CapitalizedAt(w + " " + t, i)
  {
    forall i | 0 <= i < |w| + 1 + |t|
      ensures (CapitalizeWord(w) + " " + rt)[i] == CapitalizedAt(w + " " + t, i)
    {
      if i < |w| {
        ReferenceInFirstSegment(w, t, i);
      } else if i > |w| {
        ReferenceAfterFirstSegment(w, t, i);
      }
    }
  }

  /** Inside a leading segment the reference is the capitalized segment. */
  lemma ReferenceInFirstSegment(w: string, t: string, i: nat)
    requires ' ' !in w && i < |w|
    ensures CapitalizedAt(w + " " + t, i) == CapitalizeWord(w)[i]
  {
    var s := w + " " + t;
    assert s[i] == w[i];
    if i > 0 {
      assert s[i - 1] == w[i - 1];
    }
  }

  /** After a leading segment and its space, the reference is that of the rest. */
  lemma ReferenceAfterFirstSegment(w: string, t: string, i: nat)
    requires |w| < i < |w| + 1 + |t|
    ensures CapitalizedAt(w + " " + t, i) == CapitalizedAt(t, i - |w| - 1)
  {
    var s := w + " " + t;
    var j := i - |w| - 1;
    assert s[i] == t[j];
    assert s[i - 1] == if j == 0 then ' ' else t[j - 1];
  }

  /**
   * The normaliser changes letter case and nothing else: it preserves the
   * length, keeps every space at its index and introduces no other space, and
   * each output character equals the input's character up to case.
   */
  lemma CapitalizeWordsOnlyChangesCase(s: string)
    ensures |CapitalizeWords(s)| == |s|
    ensures forall i :: 0 <= i < |s| ==> (CapitalizeWords(s)[i] == ' ' <==> s[i] == ' ')
    ensures forall i :: 0 <= i < |s| ==> LowerChar(CapitalizeWords(s)[i]) == LowerChar(s[i])
  {
    CapitalizeWordsPointwise(s);
    forall i | 0 <= i < |s| ensures LowerChar(CapitalizeWords(s)[i]) == LowerChar(s[i]) {
      CaseMappingAbsorbs(s[i]);
    }
  }

  /** Normalising an already normalised city name leaves it unchanged. */
  lemma CapitalizeWordsIdempotent(s: string)
    ensures CapitalizeWords(CapitalizeWords(s)) == CapitalizeWords(s)
  {
    var r := CapitalizeWords(s);
    CapitalizeWordsOnlyChangesCase(s);
    CapitalizeWordsPointwise(s);
    CapitalizeWordsPointwise(r);
    forall i | 0 <= i < |r| ensures CapitalizeWords(r)[i] == r[i] {
      CaseMappingAbsorbs(s[i]);
      if i > 0 {
        assert r[i - 1] == ' ' <==> s[i - 1] == ' ';
      }
      assert StartsSegment(r, i) == StartsSegment(s, i);
    }
  }

  /** The empty input stays empty. */
  lemma CapitalizeWordsEmpty()
    ensures CapitalizeWords("") == ""
  {
    CapitalizeWordsOneSegment("");
  }

  /** "new york" becomes "New York". */
  lemma CapitalizeWordsNewYork(s: string)
    requires s == "new york"
    ensures CapitalizeWords(s) == "New York"
  {
    CapitalizeWordsPointwise(s);
    NewYorkReference(s, CapitalizeWords(s));
  }

  /** A string that agrees with the reference on "new york" is "New York". */
  lemma NewYorkReference(s: string, r: string)
    requires s == "new york"
    requires |r| == |s| && forall i :: 0 <= i < |s| ==> r[i] == CapitalizedAt(s, i)
    ensures r == "New York"
  {
    assert CapitalizedAt(s, 0) == 'N' && CapitalizedAt(s, 4) == 'Y';
    assert r[0] == 'N' && r[1] == 'e' && r[2] == 'w' && r[3] == ' ';
    assert r[4] == 'Y' && r[5] == 'o' && r[6] == 'r' && r[7] == 'k';
  }

  /** Boundary spaces survive while the one word is capitalized: "  pARIS  " becomes "  Paris  ". */
  lemma CapitalizeWordsBoundarySpaces(s: string)
    requires s == "  pARIS  "
    ensures CapitalizeWords(s) == "  Paris  "
  {
    CapitalizeWordsPointwise(s);
    BoundarySpacesReference(s, CapitalizeWords(s));
  }

  /** A string that agrees with the reference on "  pARIS  " is "  Paris  ". */
  lemma BoundarySpacesReference(s: string, r: string)
    requires s == "  pARIS  "
    requires |r| == |s| && forall i :: 0 <= i < |s| ==> r[i] == CapitalizedAt(s, i)
    ensures r == "  Paris  "
  {
    assert CapitalizedAt(s, 2) == 'P';
    assert r[0] == ' ' && r[1] == ' ' && r[2] == 'P' && r[3] == 'a' && r[4] == 'r';
    assert r[5] == 'i' && r[6] == 's' && r[7] == ' ' && r[8] == ' ';
  }
}
