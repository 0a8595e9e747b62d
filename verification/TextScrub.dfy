/** Scrubbing of text before it is stored as JSON: NUL and lone surrogates become U+FFFD. The scrub
    looks at one neighbour on either side; well-formedness is defined by reading the text from the
    left, one scalar value or one surrogate pair at a time. */
module TextScrub {
  type CodePoint = c: int | 0 <= c <= 0x10FFFF
  type Text = seq<CodePoint>

  const NUL: CodePoint := 0
  const REPLACEMENT: CodePoint := 0xFFFD

  predicate IsHigh(c: CodePoint) {
    0xD800 <= c <= 0xDBFF
  }

  predicate IsLow(c: CodePoint) {
    0xDC00 <= c <= 0xDFFF
  }

  // ----- the scrub ---------------------------------------------------------------------------------

  /** What the regular expression matches at position i: a high surrogate that no low one follows,
      or a low surrogate that no high one precedes. */
  predicate IsLone(t: Text, i: nat)
    requires i < |t|
  {
    || (IsHigh(t[i]) && !(i + 1 < |t| && IsLow(t[i + 1])))
    || (IsLow(t[i]) && !(0 < i && IsHigh(t[i - 1])))
  }

  predicate HasLone(t: Text) {
    exists i :: 0 <= i < |t| && IsLone(t, i)
  }

  function ReplaceNul(t: Text): Text {
    seq(|t|, i requires 0 <= i < |t| => if t[i] == NUL then REPLACEMENT else t[i])
  }

  /** The substitution: every match is a single position, and the look-around reads the original. */
  function ReplaceLone(t: Text): Text {
    seq(|t|, i requires 0 <= i < |t| => if IsLone(t, i) then REPLACEMENT else t[i])
  }

  function SanitizeText(t: Text): Text {
    if NUL !in t && !HasLone(t) then t else ReplaceLone(ReplaceNul(t))
  }

  // ----- what can be stored ------------------------------------------------------------------------

  /** Read from the left: a scalar value other than NUL, or a high surrogate followed by a low one. */
  predicate WellFormed(t: Text) {
    || t == []
    || (t[0] != NUL && !IsHigh(t[0]) && !IsLow(t[0]) && WellFormed(t[1..]))
    || (|t| >= 2 && IsHigh(t[0]) && IsLow(t[1]) && WellFormed(t[2..]))
  }

  predicate Clean(t: Text) {
    NUL !in t && !HasLone(t)
  }

  /** The look at neighbours and the reading from the left agree. */
  lemma {:induction false} CleanIffWellFormed(t: Text)
    ensures Clean(t) <==> WellFormed(t)
    decreases |t|
  {
    if t == [] || t[0] == NUL {
    } else if IsHigh(t[0]) {
      if |t| >= 2 && IsLow(t[1]) {
        SuffixIsClean(t, 2);
        CleanIffWellFormed(t[2..]);
      } else {
        assert IsLone(t, 0);
      }
    } else if IsLow(t[0]) {
      assert IsLone(t, 0);
    } else {
      SuffixIsClean(t, 1);
      CleanIffWellFormed(t[1..]);
    }
  }

  /** Cutting off a prefix that does not end in a high surrogate cuts no pair. */
  lemma SuffixIsClean(t: Text, k: nat)
    requires 0 < k <= |t| && !IsHigh(t[k - 1])
    requires forall i :: 0 <= i < k ==> t[i] != NUL && !IsLone(t, i)
    ensures Clean(t) <==> Clean(t[k..])
  {
    var s := t[k..];
    assert forall i :: 0 <= i < |s| ==> s[i] == t[k + i];
    forall i | 0 <= i < |s|
      ensures IsLone(s, i) <==> IsLone(t, k + i)
    {
    }
    if HasLone(t) {
      var i :| 0 <= i < |t| && IsLone(t, i);
      assert IsLone(s, i - k);
    }
    if HasLone(s) {
      var i :| 0 <= i < |s| && IsLone(s, i);
      assert IsLone(t, k + i);
    }
    if NUL in t {
      var i :| 0 <= i < |t| && t[i] == NUL;
      assert s[i - k] == NUL;
    }
  }

  // ----- results -----------------------------------------------------------------------------------

  /** The two ranges are the halves of the pairs that stand for the code points above U+FFFF: every pair
      stands for one of them, and each of them is the value of a pair. */
  lemma {:induction false} PairsAreTheRest(high: CodePoint, low: CodePoint, c: CodePoint)
    ensures IsHigh(high) && IsLow(low) ==>
      0x10000 <= 0x10000 + (high - 0xD800) * 0x400 + (low - 0xDC00) <= 0x10FFFF
    ensures c >= 0x10000 ==>
      IsHigh(0xD800 + (c - 0x10000) / 0x400) && IsLow(0xDC00 + (c - 0x10000) % 0x400)
    ensures IsHigh(c) || IsLow(c) <==> 0xD800 <= c <= 0xDFFF
  {
  }

  /** Position by position: the length is kept, and a position changes exactly when it holds NUL or a
      lone surrogate; replacing NUL first neither makes nor hides a lone surrogate. */
  lemma {:induction false} ScrubChangesOnlyBadPositions(t: Text)
    ensures |SanitizeText(t)| == |t|
    ensures forall i :: 0 <= i < |t| ==>
      SanitizeText(t)[i] == if t[i] == 0 || IsLone(t, i) then 0xFFFD else t[i]
  {
    var z := ReplaceNul(t);
    forall i | 0 <= i < |t|
      ensures IsLone(z, i) <==> IsLone(t, i)
    {
    }
  }

  /** The result can always be stored. */
  lemma {:induction false} ScrubbedIsWellFormed(t: Text)
    ensures WellFormed(SanitizeText(t))
  {
    var r := SanitizeText(t);
    ScrubChangesOnlyBadPositions(t);
    forall i | 0 <= i < |r|
      ensures r[i] != NUL && !IsLone(r, i)
    {
      if IsHigh(r[i]) {
        assert !IsLone(t, i + 1);
      } else if IsLow(r[i]) {
        assert !IsLone(t, i - 1);
      }
    }
    CleanIffWellFormed(r);
  }

  /** The scrub leaves a text alone exactly when it was well-formed already, so it is idempotent. */
  lemma {:induction false} ScrubIsIdentityIffWellFormed(t: Text)
    ensures SanitizeText(t) == t <==> WellFormed(t)
    ensures SanitizeText(SanitizeText(t)) == SanitizeText(t)
  {
    ScrubbedIsWellFormed(t);
    CleanIffWellFormed(t);
    CleanIffWellFormed(SanitizeText(t));
  }
}
