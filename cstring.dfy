/** The two <cstring> routines the core calls: memcpy and strncmp. */
module CString {
  import opened Layout

  /** memcpy(dst, src, n): the first n bytes of dst become those of src, the rest
      of dst is left alone. The two regions never overlap here (distinct channel
      buffers). */
  method Memcpy(dst: array<byte>, src: array<byte>, n: nat)
    requires n <= dst.Length && n <= src.Length
    requires dst != src
    modifies dst
    ensures dst[..] == old(src[..n]) + old(dst[n..])
  {
    forall k | 0 <= k < n {
      dst[k] := src[k];
    }
  }

  /** strncmp(a, b, n) == 0, as section 7.24.4.4 of ISO C11 defines it: the
      comparison walks at most n positions and stops after the first position
      where both strings hold the terminating NUL byte. So a difference in the
      first byte makes the strings differ, and a NUL shared there makes them
      equal whatever follows. */
  function StrnEqual(a: seq<byte>, b: seq<byte>, n: nat): (r: bool)
    requires n <= |a| && n <= |b|
    ensures n > 0 && a[0] != b[0] ==> !r
    ensures n > 0 && a[0] == b[0] == 0 ==> r
    decreases n
  {
    n == 0 || (a[0] == b[0] && (a[0] == 0 || StrnEqual(a[1..], b[1..], n - 1)))
  }

  /** No NUL byte among the first i bytes of a. */
  ghost predicate NoNulBefore(a: seq<byte>, i: nat)
    requires i <= |a|
  {
    forall j :: 0 <= j < i ==> a[j] != 0
  }

  /** Reference reading of strncmp: the strings agree at every position up to
      and including the first NUL of a, within the first n positions. */
  lemma {:induction false} StrnEqualIffAgreeToNul(a: seq<byte>, b: seq<byte>, n: nat)
    requires n <= |a| && n <= |b|
    ensures StrnEqual(a, b, n) <==> forall i :: 0 <= i < n && NoNulBefore(a, i) ==> a[i] == b[i]
    decreases n
  {
    if n > 0 {
      StrnEqualIffAgreeToNul(a[1..], b[1..], n - 1);
      if StrnEqual(a, b, n) {
        forall i | 0 <= i < n && NoNulBefore(a, i) ensures a[i] == b[i] {
          if i > 0 {
            assert NoNulBefore(a[1..], i - 1) by {
              forall j | 0 <= j < i - 1 ensures a[1..][j] != 0 { assert a[j + 1] != 0; }
            }
            assert a[0] != 0;
          }
        }
      } else {
        if a[0] == b[0] {
          assert a[0] != 0 && !StrnEqual(a[1..], b[1..], n - 1);
          var i :| 0 <= i < n - 1 && NoNulBefore(a[1..], i) && a[1..][i] != b[1..][i];
          assert NoNulBefore(a, i + 1) by {
            forall j | 0 <= j < i + 1 ensures a[j] != 0 {
              if j > 0 { assert a[1..][j - 1] != 0; }
            }
          }
          assert a[i + 1] != b[i + 1];
        } else {
          assert NoNulBefore(a, 0);
        }
      }
    }
  }

  /** Equal prefixes always compare equal. */
  lemma {:induction false} EqualPrefixesMatch(a: seq<byte>, b: seq<byte>, n: nat)
    requires n <= |a| && n <= |b| && a[..n] == b[..n]
    ensures StrnEqual(a, b, n)
    decreases n
  {
    if n > 0 {
      assert a[0] == a[..n][0] == b[..n][0] == b[0];
      assert a[1..][..n - 1] == a[..n][1..] == b[..n][1..] == b[1..][..n - 1];
      EqualPrefixesMatch(a[1..], b[1..], n - 1);
    }
  }

  /** The comparison ignores everything after a shared NUL: two messages that
      differ only past it still compare equal. */
  lemma NulEndsComparison()
    ensures var a: seq<byte>, b: seq<byte> := [0x90, 0x00, 0x7F], [0x90, 0x00, 0x00];
      a != b && StrnEqual(a, b, 3)
  {
  }
}
