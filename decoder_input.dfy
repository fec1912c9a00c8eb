/**
  The decoder input of the rollout in
  notebooks/turbulence_16_yd/transformer_output.py:78-79: the encoder input
  without its first patch, followed by a copy of its last patch. Only the
  sequence axis (dim 1) matters here, so a batch element is a sequence of
  rows of any type; the Gaussian noise added at line 80 is left out.
 */
module DecoderInput {
  import opened Indexing

  /** torch.cat([enc_in[:, L:, :], enc_in[:, -L:, :]], dim=1) for L = patch_length. */
  function DecoderIn<T>(enc: seq<T>, patchLength: nat): seq<T>
  {
    Slice(enc, patchLength, |enc|) + Slice(enc, -(patchLength as int), |enc|)
  }

  /**
    For a patch no longer than the input, the decoder input has the input's
    length, its first rows are the input shifted left by one patch, and its
    last patch repeats the input's last patch.
   */
  lemma ShiftedWithLastPatch<T>(enc: seq<T>, patchLength: nat)
    requires 1 <= patchLength <= |enc|
    ensures var dec := DecoderIn(enc, patchLength);
            && |dec| == |enc|
            && dec[..|enc| - patchLength] == enc[patchLength..]
            && dec[|enc| - patchLength..] == enc[|enc| - patchLength..]
  {
    var n := |enc|;
    var dec := DecoderIn(enc, patchLength);
    assert Slice(enc, -(patchLength as int), n) == enc[n - patchLength..];
    assert dec == enc[patchLength..] + enc[n - patchLength..];
    assert dec[..n - patchLength] == enc[patchLength..];
  }

  /** Row by row: row i of the decoder input is row i + patch_length of the input, or row i itself in the last patch. */
  lemma DecoderRow<T>(enc: seq<T>, patchLength: nat, i: int)
    requires 1 <= patchLength <= |enc| && 0 <= i < |enc|
    ensures |DecoderIn(enc, patchLength)| == |enc|
    ensures DecoderIn(enc, patchLength)[i] == if i < |enc| - patchLength then enc[i + patchLength] else enc[i]
  {
    ShiftedWithLastPatch(enc, patchLength);
    var n := |enc|;
    var dec := DecoderIn(enc, patchLength);
    if i < n - patchLength {
      assert dec[i] == dec[..n - patchLength][i];
    } else {
      assert dec[i] == dec[n - patchLength..][i - (n - patchLength)];
    }
  }

  /** A patch longer than the input leaves nothing to shift: the decoder input is the input itself. */
  lemma LongPatch<T>(enc: seq<T>, patchLength: nat)
    requires patchLength > |enc|
    ensures DecoderIn(enc, patchLength) == enc
  {
    assert Slice(enc, patchLength, |enc|) == [];
    assert Slice(enc, -(patchLength as int), |enc|) == enc[0..|enc|];
  }

  /** Since -0 is 0 in Python, a patch length of 0 doubles the input instead of copying it. */
  lemma ZeroPatch<T>(enc: seq<T>)
    ensures DecoderIn(enc, 0) == enc + enc
  {
    assert Slice(enc, 0, |enc|) == enc[0..|enc|];
  }
}
