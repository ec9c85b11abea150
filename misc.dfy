/**
  The two string normalisers of `alx/misc.py`.
 */
module Misc {
  import opened Text

  /**
    `normalize`: strip, lower-case, then split on whitespace runs and
    re-join the words with single spaces.
   */
  function Normalize(s: string): string {
    Join(" ", Words(Lower(Strip(s))))
  }

  /** `spaces_to_underscores`: every `' '` becomes `'_'`, nothing else moves. */
  function SpacesToUnderscores(s: string): (r: string)
    ensures |r| == |s|
    ensures forall i :: 0 <= i < |s| ==> r[i] == (if s[i] == ' ' then '_' else s[i])
    ensures forall i :: 0 <= i < |r| ==> r[i] != ' '
  {
    ReplaceChar(s, ' ', '_');
    Replace(s, " ", "_")
  }

  /** The shape of a normalised string. */
  predicate IsNormalized(r: string) {
    && (r == [] || (!IsSpace(r[0]) && !IsSpace(r[|r| - 1])))
    && (forall i :: 0 <= i < |r| && IsSpace(r[i]) ==> r[i] == ' ')
    && (forall i :: 0 <= i < |r| - 1 && r[i] == ' ' ==> r[i + 1] != ' ')
    && NoUpper(r)
  }

  predicate AreWords(ws: seq<string>) {
    forall i :: 0 <= i < |ws| ==> ws[i] != [] && NoSpace(ws[i]) && NoUpper(ws[i])
  }

  lemma {:induction false} WordsNoUpper(s: string)
    requires NoUpper(s)
    ensures AreWords(Words(s))
    decreases |s|
  {
    if s == [] {
    } else if IsSpace(s[0]) {
      WordsNoUpper(s[1..]);
    } else {
      var n := WordLen(s);
      WordsNoUpper(s[n..]);
    }
  }

  /** Words joined by single spaces have the normalised shape. */
  lemma {:induction false} JoinedWordsAreNormalized(ws: seq<string>)
    requires AreWords(ws)
    ensures IsNormalized(Join(" ", ws))
    ensures ws != [] ==> Join(" ", ws) != []
  {
    if |ws| <= 1 {
    } else {
      var w, rest := ws[0], Join(" ", ws[1..]);
      JoinedWordsAreNormalized(ws[1..]);
      var s := w + " " + rest;
      assert Join(" ", ws) == s;
      assert forall i :: 0 <= i < |w| ==> s[i] == w[i];
      assert s[|w|] == ' ';
      assert forall i :: |w| < i < |s| ==> s[i] == rest[i - |w| - 1];
    }
  }

  lemma StripEmpty(s: string)
    requires Strip(s) == []
    ensures forall i :: 0 <= i < |s| ==> IsSpace(s[i])
  {
    var l := LStrip(s);
    assert forall i :: |s| - |l| <= i < |s| ==> s[i] == l[i - (|s| - |l|)];
  }

  /** Normalising yields a string with the normalised shape. */
  lemma NormalizeShape(s: string)
    ensures IsNormalized(Normalize(s))
  {
    var t := Lower(Strip(s));
    LowerHasNoUpper(Strip(s));
    var ws := Words(t);
    WordsNoUpper(t);
    JoinedWordsAreNormalized(ws);
    assert Normalize(s) == Join(" ", ws);
  }

  /** The output is empty exactly when the input is empty or all whitespace. */
  lemma NormalizeEmpty(s: string)
    ensures Normalize(s) == [] <==> forall i :: 0 <= i < |s| ==> IsSpace(s[i])
  {
    var t := Lower(Strip(s));
    if forall i :: 0 <= i < |s| ==> IsSpace(s[i]) {
      StripAllSpace(s);
    } else {
      if Strip(s) == [] {
        StripEmpty(s);
      }
      assert t != [] && !IsSpace(t[0]);
      LowerHasNoUpper(Strip(s));
      var ws := Words(t);
      WordsNoUpper(t);
      JoinedWordsAreNormalized(ws);
      assert Normalize(s) == Join(" ", ws);
    }
  }

  /** `normalize(normalize(s)) == normalize(s)`. */
  lemma NormalizeIdempotent(s: string)
    ensures Normalize(Normalize(s)) == Normalize(s)
  {
    var ws := Words(Lower(Strip(s)));
    var r := Join(" ", ws);
    NormalizeShape(s);
    StripUnchanged(r);
    LowerUnchanged(r);
    WordsOfJoin(ws);
  }
}
