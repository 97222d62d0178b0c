/** One-hot rows (`np.eye(n)[k]`) and `np.argmax`, the two numeric
    primitives of the pipeline, on integer scores. */
module OneHotCoding {

  /** `np.eye(n)[k]`: length `n`, 1 at position `k`, 0 elsewhere. */
  function OneHot(k: nat, n: nat): (r: seq<int>)
    ensures |r| == n
  {
    seq(n, j => if j == k then 1 else 0)
  }

  /** `np.eye(n)[ks]`: one row per index of `ks`. */
  function OneHotRows(ks: seq<nat>, n: nat): (r: seq<seq<int>>)
    ensures |r| == |ks|
  {
    seq(|ks|, i requires 0 <= i < |ks| => OneHot(ks[i], n))
  }

  /** `np.argmax(s)`: the FIRST index holding the maximum. */
  function Argmax(s: seq<int>): (k: nat)
    requires |s| > 0
    ensures k < |s|
    ensures forall j :: 0 <= j < |s| ==> s[j] <= s[k]
    ensures forall j :: 0 <= j < k ==> s[j] < s[k]
  {
    if |s| == 1 then 0
    else
      var k := Argmax(s[..|s| - 1]);
      assert forall j :: 0 <= j < |s| - 1 ==> s[..|s| - 1][j] == s[j];
      if s[|s| - 1] > s[k] then |s| - 1 else k
  }

  /** The two properties of `Argmax` pin it down: any index that is a
      maximum with only smaller entries before it is the argmax. */
  lemma ArgmaxUnique(s: seq<int>, k: nat)
    requires k < |s|
    requires forall j :: 0 <= j < |s| ==> s[j] <= s[k]
    requires forall j :: 0 <= j < k ==> s[j] < s[k]
    ensures Argmax(s) == k
  {
  }

  /** Decoding a one-hot row by argmax recovers its index. */
  lemma ArgmaxOneHot(k: nat, n: nat)
    requires k < n
    ensures Argmax(OneHot(k, n)) == k
  {
    var r := OneHot(k, n);
    assert r[k] == 1;
    ArgmaxUnique(r, k);
  }

  /** `[argmax(row) for row in rows]`. */
  function DecodeRows(rows: seq<seq<int>>): (ks: seq<nat>)
    requires forall i :: 0 <= i < |rows| ==> |rows[i]| > 0
    ensures |ks| == |rows|
  {
    seq(|rows|, i requires 0 <= i < |rows| => Argmax(rows[i]))
  }

  /** Decoding one-hot rows gives back the indices they encode. */
  lemma DecodeOneHotRows(ks: seq<nat>, n: nat)
    requires forall i :: 0 <= i < |ks| ==> ks[i] < n
    ensures forall i :: 0 <= i < |ks| ==> |OneHotRows(ks, n)[i]| > 0
    ensures DecodeRows(OneHotRows(ks, n)) == ks
  {
    var rows := OneHotRows(ks, n);
    forall i | 0 <= i < |ks|
      ensures Argmax(rows[i]) == ks[i]
    {
      ArgmaxOneHot(ks[i], n);
    }
  }

  /** A one-hot row of length `n` holds a single 1 and `n - 1` zeros. */
  lemma OneHotCounts(k: nat, n: nat)
    requires k < n
    ensures multiset(OneHot(k, n))[1] == 1
    ensures multiset(OneHot(k, n))[0] == n - 1
  {
    OneHotPrefixCounts(k, n, n);
    assert OneHot(k, n)[..n] == OneHot(k, n);
  }

  lemma {:induction false} OneHotPrefixCounts(k: nat, n: nat, m: nat)
    requires m <= n
    ensures multiset(OneHot(k, n)[..m])[1] == (if k < m then 1 else 0)
    ensures multiset(OneHot(k, n)[..m])[0] == m - (if k < m then 1 else 0)
  {
    if m > 0 {
      OneHotPrefixCounts(k, n, m - 1);
      var r := OneHot(k, n);
      assert r[..m] == r[..m - 1] + [r[m - 1]];
    }
  }
}
