/** Byte buffers of the device models and the two bulk operations the
    controllers apply to them: memset (Fill) and memcpy (Copy). */
module Memory {

  /** The bytes of `s` with the `n` bytes from offset `start` set to `v`. */
  function Filled(s: seq<bv8>, start: nat, n: nat, v: bv8): (r: seq<bv8>)
    requires start + n <= |s|
    ensures |r| == |s|
    ensures forall j :: 0 <= j < |s| ==> r[j] == if start <= j < start + n then v else s[j]
  {
    s[..start] + seq(n, _ => v) + s[start + n..]
  }

  /** The bytes of `s` with `src` copied over them from offset `at` on. */
  function Overwritten(s: seq<bv8>, at: nat, src: seq<bv8>): (r: seq<bv8>)
    requires at + |src| <= |s|
    ensures |r| == |s|
    ensures forall j :: 0 <= j < |s| ==> r[j] == if at <= j < at + |src| then src[j - at] else s[j]
  {
    s[..at] + src + s[at + |src|..]
  }

  /** Copying `a` and then `b` right after it is copying `a + b`. */
  lemma OverwrittenTwice(s: seq<bv8>, at: nat, a: seq<bv8>, b: seq<bv8>)
    requires at + |a| + |b| <= |s|
    ensures Overwritten(Overwritten(s, at, a), at + |a|, b) == Overwritten(s, at, a + b)
  {
    var l, r := Overwritten(Overwritten(s, at, a), at + |a|, b), Overwritten(s, at, a + b);
    assert forall j :: 0 <= j < |s| ==> l[j] == r[j];
  }

  /** memset(a + start, v, n) */
  method Fill(a: array<bv8>, start: nat, n: nat, v: bv8)
    requires start + n <= a.Length
    modifies a
    ensures a[..] == Filled(old(a[..]), start, n, v)
  {
    var i := 0;
    while i < n
      invariant 0 <= i <= n
      invariant forall j :: 0 <= j < a.Length ==> a[j] == if start <= j < start + i then v else old(a[j])
    {
      a[start + i] := v;
      i := i + 1;
    }
    assert forall j :: 0 <= j < a.Length ==> a[..][j] == Filled(old(a[..]), start, n, v)[j];
  }

  /** memcpy(dst + at, src, n), for buffers that do not overlap */
  method Copy(dst: array<bv8>, at: nat, src: array<bv8>, n: nat)
    requires dst != src
    requires n <= src.Length && at + n <= dst.Length
    modifies dst
    ensures dst[..] == Overwritten(old(dst[..]), at, src[..n])
  {
    var i := 0;
    while i < n
      invariant 0 <= i <= n
      invariant forall j :: 0 <= j < dst.Length ==> dst[j] == if at <= j < at + i then src[j - at] else old(dst[j])
    {
      dst[at + i] := src[i];
      i := i + 1;
    }
    assert forall j :: 0 <= j < dst.Length ==> dst[..][j] == Overwritten(old(dst[..]), at, src[..n])[j];
  }
}
