/** The string normalisation the short-answer check applies on both sides of the
    comparison: `toLowerCase()` followed by `trim()`.

    JavaScript lower-cases every Unicode letter and trims every Unicode white
    space and line terminator; this model restricts both to ASCII. */
module Text {

  /** ASCII white space as `String.prototype.trim` strips it: space, tab,
      line feed, vertical tab, form feed and carriage return. */
  predicate IsSpace(c: char) {
    c == ' ' || c == '\t' || c == '\n' || c == '\U{B}' || c == '\U{C}' || c == '\r'
  }

  predicate IsUpper(c: char) {
    'A' <= c <= 'Z'
  }

  /** An ASCII capital becomes the small letter 32 code points above it. */
  function LowerChar(c: char): (r: char)
    ensures IsUpper(c) ==> r as int == c as int + 32
    ensures !IsUpper(r)
    ensures IsSpace(r) <==> IsSpace(c)
    ensures !IsUpper(c) ==> r == c
  {
    if IsUpper(c) then (c as int + 32) as char else c
  }

  /** `toLowerCase()`: every character lower-cased in place. */
  function Lower(s: string): (r: string)
    ensures |r| == |s|
    ensures forall i | 0 <= i < |s| :: r[i] == LowerChar(s[i])
  {
    if s == [] then [] else [LowerChar(s[0])] + Lower(s[1..])
  }

  /** Leading white space removed: the result is the longest suffix of `s`
      that does not start with white space, and everything dropped is white space. */
  function TrimStart(s: string): (r: string)
    ensures |r| <= |s| && r == s[|s| - |r|..]
    ensures r == [] || !IsSpace(r[0])
    ensures forall i | 0 <= i < |s| - |r| :: IsSpace(s[i])
  {
    if s != [] && IsSpace(s[0]) then TrimStart(s[1..]) else s
  }

  /** Trailing white space removed: the longest prefix of `s` that does not end
      with white space, everything dropped being white space. */
  function TrimEnd(s: string): (r: string)
    ensures |r| <= |s| && r == s[..|r|]
    ensures r == [] || !IsSpace(r[|r| - 1])
    ensures forall i | |r| <= i < |s| :: IsSpace(s[i])
  {
    if s != [] && IsSpace(s[|s| - 1]) then TrimEnd(s[..|s| - 1]) else s
  }

  /** `trim()`: white space removed at both ends. */
  function Trim(s: string): string {
    TrimEnd(TrimStart(s))
  }

  /** A string trims to itself exactly when neither end is white space. */
  lemma {:induction false} TrimFixedPoint(s: string)
    ensures Trim(s) == s <==> (s == [] || (!IsSpace(s[0]) && !IsSpace(s[|s| - 1])))
  {
    if s == [] {
      assert Trim(s) == s;
    } else if !IsSpace(s[0]) && !IsSpace(s[|s| - 1]) {
      assert TrimStart(s) == s;
      assert TrimEnd(s) == s;
    } else {
      TrimCleanEnds(s);
    }
  }

  /** The trimmed string has no white space at either end. */
  lemma {:induction false} TrimCleanEnds(s: string)
    ensures Trim(s) == [] || (!IsSpace(Trim(s)[0]) && !IsSpace(Trim(s)[|Trim(s)| - 1]))
  {
    TrimEndOfClean(TrimStart(s));
  }

  /** Trimming never leaves white space at either end, and keeps what starts
      clean clean. */
  lemma {:induction false} TrimEndOfClean(t: string)
    requires t == [] || !IsSpace(t[0])
    ensures TrimEnd(t) == [] || !IsSpace(TrimEnd(t)[0])
  {
  }

  /** The normalised form of an answer: lower-cased, then trimmed. */
  function Normalize(s: string): (r: string)
    ensures forall i | 0 <= i < |r| :: !IsUpper(r[i])
    ensures r == [] || (!IsSpace(r[0]) && !IsSpace(r[|r| - 1]))
  {
    TrimCleanEnds(Lower(s));
    Trim(Lower(s))
  }

  /** Lower-casing a string without upper-case letters changes nothing. */
  lemma {:induction false} LowerOfLower(s: string)
    requires forall i | 0 <= i < |s| :: !IsUpper(s[i])
    ensures Lower(s) == s
  {
    if s != [] {
      LowerOfLower(s[1..]);
    }
  }

  /** Normalising twice is normalising once. */
  lemma NormalizeIdempotent(s: string)
    ensures Normalize(Normalize(s)) == Normalize(s)
  {
    var n := Normalize(s);
    LowerOfLower(n);
    TrimFixedPoint(n);
  }

  /** A padded, capitalised answer normalises to the plain lower-case word. */
  lemma NormalizePadded()
    ensures Normalize(" Eleven ") == "eleven" == Normalize("eleven")
  {
    LowerPadded();
    TrimPadded();
    NormalizeClean("eleven");
  }

  /** Digit strings are already normal: "11.0" stays distinct from "11". */
  lemma NormalizeDigits()
    ensures Normalize("11") == "11"
    ensures Normalize("11.0") == "11.0"
  {
    NormalizeClean("11");
    NormalizeClean("11.0");
  }

  lemma LowerPadded()
    ensures Lower(" Eleven ") == " eleven "
  {
    var r := Lower(" Eleven ");
    assert r[1] == 'e';
  }

  lemma TrimPadded()
    ensures Trim(" eleven ") == "eleven"
  {
    var s := " eleven ";
    var t := TrimStart(s);
    assert s[1] == 'e';
    assert |t| == 7;
    assert t == s[1..];
    var u := TrimEnd(t);
    assert t[5] == 'n' && t[6] == ' ';
    assert |u| == 6;
    assert u == t[..6];
  }

  /** A string without upper-case letters or outer white space is its own normal form. */
  lemma NormalizeClean(s: string)
    requires forall i | 0 <= i < |s| :: !IsUpper(s[i])
    requires s == [] || (!IsSpace(s[0]) && !IsSpace(s[|s| - 1]))
    ensures Normalize(s) == s
  {
    LowerOfLower(s);
    TrimFixedPoint(s);
  }
}
