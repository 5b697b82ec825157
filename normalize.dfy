/**
 * Text normalisation for record linkage: `normalizeTitle` and
 * `normalizeAuthor` run the same chain, lower-case, delete every character
 * outside `[\w\s]`, turn each run of white space into one blank, trim.
 */
module TextNormalization {
  import opened Strings

  /** `replace(/[^\w\s]/g, '')`: keep word characters and white space, in order. */
  function StripPunctuation(s: string): (r: string)
    ensures |r| <= |s|
    ensures forall i :: 0 <= i < |r| ==> IsWordChar(r[i]) || IsSpace(r[i])
    ensures forall c :: c in r ==> c in s
    ensures (forall i :: 0 <= i < |s| ==> IsWordChar(s[i]) || IsSpace(s[i])) ==> r == s
    ensures |s| == 1 ==> r == (if IsWordChar(s[0]) || IsSpace(s[0]) then s else [])
  {
    if s == [] then []
    else
      var rest := StripPunctuation(s[1..]);
      if IsWordChar(s[0]) || IsSpace(s[0]) then [s[0]] + rest else rest
  }

  /** Deleting characters works piece by piece: with the singleton case above, the result is exactly the kept characters, in order. */
  lemma {:induction false} StripPunctuationAppend(a: string, b: string)
    ensures StripPunctuation(a + b) == StripPunctuation(a) + StripPunctuation(b)
    decreases |a|
  {
    if a == [] {
      assert a + b == b;
    } else {
      assert (a + b)[0] == a[0];
      assert (a + b)[1..] == a[1..] + b;
      StripPunctuationAppend(a[1..], b);
    }
  }

  /**
   * `replace(/\s+/g, ' ')`: each maximal run of white space becomes a single
   * blank. Read left to right, a white-space character followed by another one
   * is dropped, and the last one of its run becomes the blank.
   */
  function CollapseSpaces(s: string): string
  {
    if s == [] then []
    else if IsSpace(s[0]) && |s| > 1 && IsSpace(s[1]) then CollapseSpaces(s[1..])
    else if IsSpace(s[0]) then [' '] + CollapseSpaces(s[1..])
    else [s[0]] + CollapseSpaces(s[1..])
  }

  /**
   * What every collapsed string looks like: every white-space character is a
   * blank, no two blanks touch, and every other character comes from the input.
   */
  lemma {:induction false} CollapseSpacesShape(s: string)
    ensures var r := CollapseSpaces(s);
      && |r| <= |s|
      && (s != [] ==> r != [] && r[0] == (if IsSpace(s[0]) then ' ' else s[0]))
      && (forall i :: 0 <= i < |r| && IsSpace(r[i]) ==> r[i] == ' ')
      && (forall i :: 0 <= i < |r| - 1 ==> !(r[i] == ' ' && r[i + 1] == ' '))
      && (forall c :: c in r && c != ' ' ==> c in s)
  {
    if s != [] {
      CollapseSpacesShape(s[1..]);
      assert forall c :: c in s[1..] ==> c in s;
    }
  }

  /** A single character other than white space is kept; a run made only of white space becomes one blank. */
  lemma {:induction false} CollapseSpacesUnits(s: string)
    ensures |s| == 1 && !IsSpace(s[0]) ==> CollapseSpaces(s) == s
    ensures s != [] && (forall i :: 0 <= i < |s| ==> IsSpace(s[i])) ==> CollapseSpaces(s) == " "
  {
    if |s| > 1 && (forall i :: 0 <= i < |s| ==> IsSpace(s[i])) {
      assert forall i :: 0 <= i < |s| - 1 ==> s[1..][i] == s[i + 1];
      CollapseSpacesUnits(s[1..]);
    }
  }

  /**
   * Collapsing works run by run: a cut that does not fall inside a run of
   * white space can be collapsed on either side separately. With the single
   * character and the single run cases above, every non-space character is
   * kept in order and every maximal run becomes exactly one blank.
   */
  lemma {:induction false} CollapseSpacesSplit(a: string, b: string)
    requires a == [] || b == [] || !IsSpace(a[|a| - 1]) || !IsSpace(b[0])
    ensures CollapseSpaces(a + b) == CollapseSpaces(a) + CollapseSpaces(b)
  {
    if a != [] {
      var ab := a + b;
      assert ab[0] == a[0] && ab[1..] == a[1..] + b;
      if |a| == 1 {
        assert CollapseSpaces(a) == [if IsSpace(a[0]) then ' ' else a[0]];
        assert a[1..] + b == b;
        assert CollapseSpaces(ab) == [if IsSpace(a[0]) then ' ' else a[0]] + CollapseSpaces(b);
      } else {
        assert ab[1] == a[1];
        assert a[1..][|a[1..]| - 1] == a[|a| - 1];
        CollapseSpacesSplit(a[1..], b);
        if !(IsSpace(a[0]) && IsSpace(a[1])) {
          AppendAssoc([if IsSpace(a[0]) then ' ' else a[0]], CollapseSpaces(a[1..]), CollapseSpaces(b));
        }
      }
    } else {
      assert a + b == b;
    }
  }

  lemma AppendAssoc<T>(x: seq<T>, y: seq<T>, z: seq<T>)
    ensures x + (y + z) == (x + y) + z
  {
  }


  /** The characters a normalised string is made of. */
  predicate IsNormalChar(c: char) {
    IsLowerAscii(c) || IsDigit(c) || c == '_' || c == ' '
  }

  /** The shape of every normalised string: lower-case word characters and single blanks between words. */
  predicate IsNormal(s: string) {
    && (forall i :: 0 <= i < |s| ==> IsNormalChar(s[i]))
    && (forall i :: 0 <= i < |s| - 1 ==> !(s[i] == ' ' && s[i + 1] == ' '))
    && (s == [] || (s[0] != ' ' && s[|s| - 1] != ' '))
  }

  /** Every space is a blank and no two blanks touch. */
  predicate Collapsed(s: string) {
    && (forall i :: 0 <= i < |s| && IsSpace(s[i]) ==> s[i] == ' ')
    && (forall i :: 0 <= i < |s| - 1 ==> !(s[i] == ' ' && s[i + 1] == ' '))
  }

  lemma CollapsedTail(s: string)
    requires s != [] && Collapsed(s)
    ensures Collapsed(s[1..])
    ensures IsSpace(s[0]) ==> s[0] == ' ' && (|s| == 1 || !IsSpace(s[1]))
  {
    var t := s[1..];
    assert forall i :: 0 <= i < |t| ==> t[i] == s[i + 1];
  }

  /** `CollapseSpaces` changes nothing when every space is a blank and no two blanks touch. */
  lemma {:induction false} CollapseSpacesNoop(s: string)
    requires Collapsed(s)
    ensures CollapseSpaces(s) == s
  {
    if s != [] {
      var t := s[1..];
      CollapsedTail(s);
      CollapseSpacesNoop(t);
      assert s == [s[0]] + t;
    }
  }

  /** Before trimming, every character is already a normal one. */
  lemma NormalCharsBeforeTrim(s: string, c: string)
    requires c == CollapseSpaces(StripPunctuation(ToLower(s)))
    ensures forall i :: 0 <= i < |c| ==> IsNormalChar(c[i])
  {
    CollapseSpacesShape(StripPunctuation(ToLower(s)));
    var l := ToLower(s);
    var p := StripPunctuation(l);
    forall i | 0 <= i < |c| ensures IsNormalChar(c[i]) {
      if c[i] != ' ' {
        assert c[i] in p;
        var j :| 0 <= j < |p| && p[j] == c[i];
        assert IsWordChar(c[i]);
        assert c[i] in l;
        var m :| 0 <= m < |l| && l[m] == c[i];
      }
    }
  }

  /** Trimming a string of normal characters without double blanks gives a normal string. */
  lemma TrimGivesNormal(c: string)
    requires forall i :: 0 <= i < |c| ==> IsNormalChar(c[i])
    requires forall i :: 0 <= i < |c| - 1 ==> !(c[i] == ' ' && c[i + 1] == ' ')
    ensures IsNormal(Trim(c))
  {
    TrimSlice(c);
    var r := Trim(c);
    var k := |c| - |TrimStart(c)|;
    assert forall i :: 0 <= i < |r| ==> r[i] == c[k + i];
  }

  /**
   * The shared body of `normalizeTitle` and `normalizeAuthor`. Whatever the
   * input, the result is in normal form and no longer than the input.
   */
  function Normalize(s: string): (r: string)
    ensures IsNormal(r)
    ensures |r| <= |s|
  {
    var c := CollapseSpaces(StripPunctuation(ToLower(s)));
    CollapseSpacesShape(StripPunctuation(ToLower(s)));
    NormalCharsBeforeTrim(s, c);
    TrimGivesNormal(c);
    Trim(c)
  }

  /** A normal string is a fixed point of `Normalize`. */
  lemma NormalizeFixesNormal(s: string)
    requires IsNormal(s)
    ensures Normalize(s) == s
  {
    assert ToLower(s) == s;
    assert StripPunctuation(s) == s;
    CollapseSpacesNoop(s);
    TrimNoop(s);
  }

  /** `normalizeTitle(normalizeTitle(x)) == normalizeTitle(x)`, and the same for authors. */
  lemma NormalizeIdempotent(s: string)
    ensures Normalize(Normalize(s)) == Normalize(s)
  {
    NormalizeFixesNormal(Normalize(s));
  }
}
