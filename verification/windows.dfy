/** The sliding windows `prepare_sequences` cuts from the encoded stream:
    window i is the one-hot rows of `encoded[i:i+L]`, its target
    `encoded[i+L]`, for `i in range(len(encoded) - L)`. */
module Windows {
  import opened OneHotCoding

  /** `len(range(len(encoded) - L))`: Python's range of a negative count is empty. */
  function WindowCount(encodedLength: nat, seqLength: nat): nat
  {
    if encodedLength > seqLength then encodedLength - seqLength else 0
  }

  /** The list `X_data`. */
  function Contexts(encoded: seq<nat>, seqLength: nat, vocabSize: nat): (xs: seq<seq<seq<int>>>)
    ensures |xs| == WindowCount(|encoded|, seqLength)
  {
    var n := WindowCount(|encoded|, seqLength);
    seq(n, i requires 0 <= i < n => OneHotRows(encoded[i..i + seqLength], vocabSize))
  }

  /** The list `y_data`. */
  function Targets(encoded: seq<nat>, seqLength: nat): (ys: seq<nat>)
    ensures |ys| == WindowCount(|encoded|, seqLength)
  {
    var n := WindowCount(|encoded|, seqLength);
    seq(n, i requires 0 <= i < n => encoded[i + seqLength])
  }

  /** Window i has exactly `seqLength` rows of width `vocabSize`, and decoding
      its rows by argmax and appending its target gives back the slice
      `encoded[i .. i + seqLength]` (inclusive): no token is lost or shifted. */
  lemma WindowRoundTrip(encoded: seq<nat>, seqLength: nat, vocabSize: nat, i: nat)
    requires forall k :: 0 <= k < |encoded| ==> encoded[k] < vocabSize
    requires i < WindowCount(|encoded|, seqLength)
    ensures var w := Contexts(encoded, seqLength, vocabSize)[i];
      && |w| == seqLength
      && (forall r :: 0 <= r < |w| ==> |w[r]| == vocabSize && |w[r]| > 0)
      && DecodeRows(w) + [Targets(encoded, seqLength)[i]] == encoded[i..i + seqLength + 1]
  {
    var slice := encoded[i..i + seqLength];
    assert forall k :: 0 <= k < |slice| ==> slice[k] == encoded[i + k];
    DecodeOneHotRows(slice, vocabSize);
    assert encoded[i..i + seqLength + 1] == slice + [encoded[i + seqLength]];
  }
}
