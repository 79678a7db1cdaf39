/**
 * Masking of roll and registration numbers for display
 * (student-rank-app/src/lib/utils.ts, `maskNumber`).
 *
 * `maskNumber(num, visibleDigits = 3)` keeps `str.slice(0, visibleDigits)` and
 * appends `max(0, len - visibleDigits)` asterisks. JavaScript's `slice` treats a
 * negative end as counting from the back, so the model takes `visibleDigits`
 * as an arbitrary integer and follows that rule too.
 */
module Mask {

  /** The default number of characters left visible. */
  const DefaultVisibleDigits: int := 3

  /** `n` asterisks: JavaScript's `'*'.repeat(n)`. */
  function Stars(n: nat): (r: string)
    ensures |r| == n
    ensures forall i :: 0 <= i < n ==> r[i] == '*'
  {
    if n == 0 then "" else Stars(n - 1) + "*"
  }

  /** Where `str.slice(0, end)` stops, for a string of length `len`. */
  function SliceEnd(len: nat, end: int): (k: nat)
    ensures k <= len
  {
    if end < 0 then (if len + end < 0 then 0 else len + end)
    else if end < len then end
    else len
  }

  /** `maskNumber(str, visibleDigits)` on the string form of its argument. */
  function MaskNumber(s: string, visibleDigits: int): (r: string)
    // with a non-negative count, masking keeps the length
    ensures 0 <= visibleDigits ==> |r| == |s|
    // the visible prefix is copied unchanged
    ensures 0 <= visibleDigits ==>
      forall i :: 0 <= i < |s| && i < visibleDigits ==> r[i] == s[i]
    // everything from position visibleDigits on is an asterisk
    ensures 0 <= visibleDigits ==>
      forall i :: visibleDigits <= i < |r| ==> r[i] == '*'
    // a string no longer than the visible count is left alone
    ensures |s| <= visibleDigits ==> r == s
    // a negative count drops that many characters from the visible part
    // and still appends len - visibleDigits asterisks
    ensures visibleDigits < 0 ==>
      |r| == SliceEnd(|s|, visibleDigits) + |s| - visibleDigits &&
      r[..SliceEnd(|s|, visibleDigits)] == s[..SliceEnd(|s|, visibleDigits)]
    // whatever the count, everything after the visible part is an asterisk
    ensures forall i :: SliceEnd(|s|, visibleDigits) <= i < |r| ==> r[i] == '*'
  {
    var visible := s[..SliceEnd(|s|, visibleDigits)];
    var hidden := if |s| - visibleDigits < 0 then 0 else |s| - visibleDigits;
    visible + Stars(hidden)
  }

  /** `maskNumber(str)` with the default argument. */
  function MaskNumberDefault(s: string): (r: string)
    ensures |r| == |s|
    ensures forall i :: 0 <= i < |s| && i < 3 ==> r[i] == s[i]
    ensures forall i :: 3 <= i < |r| ==> r[i] == '*'
  {
    MaskNumber(s, DefaultVisibleDigits)
  }

  /** Exactly `max(0, len - visibleDigits)` asterisks follow the visible prefix. */
  lemma MaskedSuffixIsStars(s: string, visibleDigits: nat)
    ensures visibleDigits < |s| ==>
      MaskNumber(s, visibleDigits)[visibleDigits..] == Stars(|s| - visibleDigits)
  {
    var r := MaskNumber(s, visibleDigits);
    if visibleDigits < |s| {
      assert r == s[..visibleDigits] + Stars(|s| - visibleDigits);
    }
  }

  /** Masking twice with the same non-negative count is masking once. */
  lemma MaskIdempotent(s: string, visibleDigits: nat)
    ensures MaskNumber(MaskNumber(s, visibleDigits), visibleDigits) == MaskNumber(s, visibleDigits)
  {
    var once := MaskNumber(s, visibleDigits);
    var twice := MaskNumber(once, visibleDigits);
    assert |twice| == |once|;
    forall i | 0 <= i < |once| ensures twice[i] == once[i] {
      if i >= visibleDigits {
        assert twice[i] == '*' && once[i] == '*';
      }
    }
  }

  /** With a negative count the result is longer than the input: twice its length
      when the count does not exceed the length. */
  lemma NegativeCountDoublesLength(s: string, visibleDigits: int)
    requires visibleDigits < 0 && -visibleDigits <= |s|
    ensures |MaskNumber(s, visibleDigits)| == 2 * |s|
  {
  }
}
