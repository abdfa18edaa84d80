/** Email normalisation, on ASCII. The value object strips and then lowers; the
    rate limiter lowers and then strips. */
module Emails {
  predicate IsSpace(c: char) {
    c in {' ', '\t', '\n', '\r', '\U{0B}', '\U{0C}'} || '\U{1C}' <= c <= '\U{1F}'
  }

  function LowerChar(c: char): char {
    if 'A' <= c <= 'Z' then (c as int + 32) as char else c
  }

  function Lower(s: string): (r: string)
    ensures |r| == |s|
    ensures forall i | 0 <= i < |s| :: r[i] == LowerChar(s[i])
  {
    if s == [] then [] else [LowerChar(s[0])] + Lower(s[1..])
  }

  function StripLeft(s: string): string {
    if s != [] && IsSpace(s[0]) then StripLeft(s[1..]) else s
  }

  function StripRight(s: string): string {
    if s != [] && IsSpace(s[|s| - 1]) then StripRight(s[..|s| - 1]) else s
  }

  function Strip(s: string): string {
    StripRight(StripLeft(s))
  }

  /** The value of Email(raw). */
  function Normalise(raw: string): string {
    Lower(Strip(raw))
  }

  /** What check_email counts under. */
  function RateKey(raw: string): string {
    Strip(Lower(raw))
  }

  lemma {:induction false} StripLeftLower(s: string)
    ensures StripLeft(Lower(s)) == Lower(StripLeft(s))
  {
    if s != [] && IsSpace(s[0]) {
      assert Lower(s)[1..] == Lower(s[1..]);
      StripLeftLower(s[1..]);
    }
  }

  lemma LowerPrefix(s: string, n: nat)
    requires n <= |s|
    ensures Lower(s)[..n] == Lower(s[..n])
  {
  }

  lemma {:induction false} StripRightLower(s: string)
    ensures StripRight(Lower(s)) == Lower(StripRight(s))
  {
    if s != [] && IsSpace(s[|s| - 1]) {
      LowerPrefix(s, |s| - 1);
      StripRightLower(s[..|s| - 1]);
    }
  }

  /** The two orders agree, so every spelling of one address is counted together:
      two spellings share a counter exactly when they are the same Email. */
  lemma OneCounterPerEmail(raw: string, other: string)
    ensures RateKey(raw) == Normalise(raw)
    ensures RateKey(raw) == RateKey(other) <==> Normalise(raw) == Normalise(other)
  {
    StripLeftLower(raw);
    StripRightLower(StripLeft(raw));
    StripLeftLower(other);
    StripRightLower(StripLeft(other));
  }

  /** The codes 65 to 90, capital A to Z, are lowered to 97 to 122; nothing else changes. */
  lemma LetterCodes(c: char)
    ensures LowerChar(c) as int == if 65 <= c as int <= 90 then c as int + 32 else c as int
  {
  }

  /** White space is space, tab to carriage return, and the four separators. */
  lemma WhiteSpaceIs(c: char)
    ensures IsSpace(c) <==> 9 <= c as int <= 13 || 28 <= c as int <= 32
  {
  }

  lemma {:induction false} StripLeftIs(s: string) returns (n: nat)
    ensures n <= |s| && StripLeft(s) == s[n..] && (forall i | 0 <= i < n :: IsSpace(s[i]))
    ensures n < |s| ==> !IsSpace(s[n])
  {
    if s != [] && IsSpace(s[0]) {
      var m := StripLeftIs(s[1..]);
      n := m + 1;
      assert s[1..][m..] == s[n..];
      assert forall i | 0 <= i < n :: i > 0 ==> s[i] == s[1..][i - 1];
    } else {
      n := 0;
    }
  }

  lemma {:induction false} StripRightIs(s: string) returns (n: nat)
    ensures n <= |s| && StripRight(s) == s[..n] && (forall i | n <= i < |s| :: IsSpace(s[i]))
    ensures 0 < n ==> !IsSpace(s[n - 1])
  {
    if s != [] && IsSpace(s[|s| - 1]) {
      n := StripRightIs(s[..|s| - 1]);
      assert s[..|s| - 1][..n] == s[..n];
      assert forall i | n <= i < |s| - 1 :: s[i] == s[..|s| - 1][i];
    } else {
      n := |s|;
      assert s[..n] == s;
    }
  }

  /** The normal form of an address is what is left between the white space around it,
      letter by letter lowered; it neither begins nor ends with white space. */
  lemma NormalForm(raw: string) returns (from: nat, to: nat)
    ensures from <= to <= |raw| && |Normalise(raw)| == to - from
    ensures forall i | 0 <= i < |raw| && (i < from || to <= i) :: IsSpace(raw[i])
    ensures from < to ==> !IsSpace(raw[from]) && !IsSpace(raw[to - 1])
    ensures forall i | from <= i < to :: Normalise(raw)[i - from] == LowerChar(raw[i])
  {
    from := StripLeftIs(raw);
    var left := raw[from..];
    var n := StripRightIs(left);
    to := from + n;
    assert Strip(raw) == left[..n] == raw[from..to];
    forall i | to <= i < |raw| ensures IsSpace(raw[i]) {
      assert raw[i] == left[i - from];
    }
    if from < to { assert left[0] == raw[from] && left[n - 1] == raw[to - 1]; }
  }
}
