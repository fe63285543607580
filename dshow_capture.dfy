/**
 * Post-processing of a frame grabbed from a DirectShow device by the
 * Windows capture test helper: an NV12 grab is handed back as it is; any
 * other grab is a bottom-up BGR bitmap, which is turned upright and into
 * RGB channel order, in a copy of the same shape.
 */
module DShowCapture {
  import opened Bytes

  /** A height x width x channels image as nested sequences. */
  type Image = seq<seq<seq<Byte>>>

  predicate Shaped(img: Image, h: nat, w: nat, c: nat) {
    |img| == h && forall i :: 0 <= i < h ==> |img[i]| == w && forall j :: 0 <= j < w ==> |img[i][j]| == c
  }

  /** The image an array holds. */
  function Contents(a: array3<Byte>): (img: Image)
    reads a
    ensures Shaped(img, a.Length0, a.Length1, a.Length2)
    ensures forall i, j, k :: 0 <= i < a.Length0 && 0 <= j < a.Length1 && 0 <= k < a.Length2 ==>
      img[i][j][k] == a[i, j, k]
  {
    seq(a.Length0, i requires 0 <= i < a.Length0 reads a =>
      seq(a.Length1, j requires 0 <= j < a.Length1 reads a =>
        seq(a.Length2, k requires 0 <= k < a.Length2 reads a => a[i, j, k])))
  }

  /** Channel k of the result is channel SourceChannel(k) of the grab: 0 and 2 trade places. */
  function SourceChannel(k: nat): nat {
    if k == 0 then 2 else if k == 2 then 0 else k
  }

  /** Rows in reverse order, channels 0 and 2 exchanged. */
  function ToRgb(img: Image, h: nat, w: nat, c: nat): (r: Image)
    requires Shaped(img, h, w, c) && c >= 3
    ensures Shaped(r, h, w, c)
    ensures forall i, j, k :: 0 <= i < h && 0 <= j < w && 0 <= k < c ==>
      r[i][j][k] == img[h - 1 - i][j][SourceChannel(k)]
  {
    seq(h, i requires 0 <= i < h =>
      seq(w, j requires 0 <= j < w =>
        seq(c, k requires 0 <= k < c => img[h - 1 - i][j][SourceChannel(k)])))
  }

  /** Converting twice gives back the grab: the flip and the swap are both involutions. */
  lemma ToRgbInvolution(img: Image, h: nat, w: nat, c: nat)
    requires Shaped(img, h, w, c) && c >= 3
    ensures ToRgb(ToRgb(img, h, w, c), h, w, c) == img
  {
    var r := ToRgb(ToRgb(img, h, w, c), h, w, c);
    forall i | 0 <= i < h
      ensures r[i] == img[i]
    {
      forall j | 0 <= j < w
        ensures r[i][j] == img[i][j]
      {
        assert forall k :: 0 <= k < c ==> SourceChannel(SourceChannel(k)) == k;
      }
    }
  }

  /** `img[::-1]`, materialised: row i is row h-1-i of the grab. */
  method Flipped(img: array3<Byte>) returns (f: array3<Byte>)
    ensures fresh(f) && f.Length0 == img.Length0 && f.Length1 == img.Length1 && f.Length2 == img.Length2
    ensures forall i, j, k :: 0 <= i < f.Length0 && 0 <= j < f.Length1 && 0 <= k < f.Length2 ==>
      f[i, j, k] == img[img.Length0 - 1 - i, j, k]
  {
    var h, w, c := img.Length0, img.Length1, img.Length2;
    f := new Byte[h, w, c];
    for i := 0 to h
      invariant forall i', j, k :: 0 <= i' < i && 0 <= j < w && 0 <= k < c ==> f[i', j, k] == img[h - 1 - i', j, k]
    {
      for j := 0 to w
        invariant forall i', j', k :: 0 <= i' < i && 0 <= j' < w && 0 <= k < c ==> f[i', j', k] == img[h - 1 - i', j', k]
        invariant forall j', k :: 0 <= j' < j && 0 <= k < c ==> f[i, j', k] == img[h - 1 - i, j', k]
      {
        for k := 0 to c
          invariant forall i', j', k' :: 0 <= i' < i && 0 <= j' < w && 0 <= k' < c ==> f[i', j', k'] == img[h - 1 - i', j', k']
          invariant forall j', k' :: 0 <= j' < j && 0 <= k' < c ==> f[i, j', k'] == img[h - 1 - i, j', k']
          invariant forall k' :: 0 <= k' < k ==> f[i, j, k'] == img[h - 1 - i, j, k']
        {
          f[i, j, k] := img[h - 1 - i, j, k];
        }
      }
    }
  }

  /** `img.copy()`. */
  method Copy(img: array3<Byte>) returns (r: array3<Byte>)
    ensures fresh(r) && r.Length0 == img.Length0 && r.Length1 == img.Length1 && r.Length2 == img.Length2
    ensures forall i, j, k :: 0 <= i < r.Length0 && 0 <= j < r.Length1 && 0 <= k < r.Length2 ==>
      r[i, j, k] == img[i, j, k]
  {
    var h, w, c := img.Length0, img.Length1, img.Length2;
    r := new Byte[h, w, c];
    for i := 0 to h
      invariant forall i', j, k :: 0 <= i' < i && 0 <= j < w && 0 <= k < c ==> r[i', j, k] == img[i', j, k]
    {
      for j := 0 to w
        invariant forall i', j', k :: 0 <= i' < i && 0 <= j' < w && 0 <= k < c ==> r[i', j', k] == img[i', j', k]
        invariant forall j', k :: 0 <= j' < j && 0 <= k < c ==> r[i, j', k] == img[i, j', k]
      {
        for k := 0 to c
          invariant forall i', j', k' :: 0 <= i' < i && 0 <= j' < w && 0 <= k' < c ==> r[i', j', k'] == img[i', j', k']
          invariant forall j', k' :: 0 <= j' < j && 0 <= k' < c ==> r[i, j', k'] == img[i, j', k']
          invariant forall k' :: 0 <= k' < k ==> r[i, j, k'] == img[i, j, k']
        {
          r[i, j, k] := img[i, j, k];
        }
      }
    }
  }

  /** `dst[:, :, to] = src[:, :, from]`: one channel overwritten, everything else untouched. */
  method AssignChannel(dst: array3<Byte>, src: array3<Byte>, from: nat, to: nat)
    requires dst != src
    requires dst.Length0 == src.Length0 && dst.Length1 == src.Length1 && dst.Length2 == src.Length2
    requires from < src.Length2 && to < dst.Length2
    modifies dst
    ensures forall i, j, k :: 0 <= i < dst.Length0 && 0 <= j < dst.Length1 && 0 <= k < dst.Length2 ==>
      dst[i, j, k] == if k == to then src[i, j, from] else old(dst[i, j, k])
  {
    var h, w := dst.Length0, dst.Length1;
    for i := 0 to h
      invariant forall i', j, k :: 0 <= i' < h && 0 <= j < w && 0 <= k < dst.Length2 ==>
        dst[i', j, k] == if k == to && i' < i then src[i', j, from] else old(dst[i', j, k])
    {
      for j := 0 to w
        invariant forall i', j', k :: 0 <= i' < h && 0 <= j' < w && 0 <= k < dst.Length2 ==>
          dst[i', j', k] == if k == to && (i' < i || (i' == i && j' < j)) then src[i', j', from] else old(dst[i', j', k])
      {
        dst[i, j, to] := src[i, j, from];
      }
    }
  }

  /**
   * `capture`: the grab `img` as the native side returned it, and whether
   * the device delivered NV12. An NV12 grab is returned itself; otherwise
   * a fresh image of the same shape holds the grab upright and in RGB order.
   */
  method Capture(img: array3<Byte>, isNv12: bool) returns (r: array3<Byte>)
    requires !isNv12 ==> img.Length2 >= 3
    ensures isNv12 ==> r == img
    ensures !isNv12 ==> fresh(r) && r.Length0 == img.Length0 && r.Length1 == img.Length1 && r.Length2 == img.Length2
    ensures !isNv12 ==> Contents(r) == ToRgb(Contents(img), img.Length0, img.Length1, img.Length2)
  {
    if isNv12 {
      return img;
    }
    var flipped := Flipped(img);
    r := Copy(flipped);
    AssignChannel(r, flipped, 2, 0);
    AssignChannel(r, flipped, 1, 1);
    AssignChannel(r, flipped, 0, 2);
    ghost var h, w, c := img.Length0, img.Length1, img.Length2;
    forall i, j, k | 0 <= i < h && 0 <= j < w && 0 <= k < c
      ensures r[i, j, k] == img[h - 1 - i, j, SourceChannel(k)]
    {
      assert r[i, j, k] == flipped[i, j, SourceChannel(k)];
    }
    ContentsToRgb(r, img);
  }

  /** An array related pointwise to a grab as the conversion prescribes holds ToRgb of the grab. */
  lemma ContentsToRgb(r: array3<Byte>, img: array3<Byte>)
    requires img.Length2 >= 3
    requires r.Length0 == img.Length0 && r.Length1 == img.Length1 && r.Length2 == img.Length2
    requires forall i, j, k :: 0 <= i < r.Length0 && 0 <= j < r.Length1 && 0 <= k < r.Length2 ==>
      r[i, j, k] == img[img.Length0 - 1 - i, j, SourceChannel(k)]
    ensures Contents(r) == ToRgb(Contents(img), img.Length0, img.Length1, img.Length2)
  {
    var h, w, c := img.Length0, img.Length1, img.Length2;
    var got, expected := Contents(r), ToRgb(Contents(img), h, w, c);
    forall i | 0 <= i < h
      ensures got[i] == expected[i]
    {
      forall j | 0 <= j < w
        ensures got[i][j] == expected[i][j]
      {
        assert |got[i][j]| == |expected[i][j]| == c;
        forall k | 0 <= k < c
          ensures got[i][j][k] == expected[i][j][k]
        {
          assert got[i][j][k] == r[i, j, k];
          assert expected[i][j][k] == Contents(img)[h - 1 - i][j][SourceChannel(k)];
        }
      }
    }
  }
}
