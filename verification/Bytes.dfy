/** Bytes and the big-endian and little-endian integers the byte formats carry. */
module Bytes {
  import opened Arithmetic

  type byte = b: int | 0 <= b < 256

  function Pow256(n: nat): (p: nat)
    ensures p >= 1
  {
    if n == 0 then 1 else 256 * Pow256(n - 1)
  }

  /** Python's int.from_bytes(s, "big"), also on the empty and on a short slice. */
  function FromBE(s: seq<byte>): (n: nat)
    ensures n < Pow256(|s|)
  {
    if s == [] then 0 else 256 * FromBE(s[..|s| - 1]) + s[|s| - 1]
  }

  /** Python's n.to_bytes(width, "big"). */
  function ToBE(n: nat, width: nat): (s: seq<byte>)
    requires n < Pow256(width)
    ensures |s| == width
  {
    if width == 0 then [] else ToBE(n / 256, width - 1) + [n % 256]
  }

  lemma {:induction false} FromToBE(n: nat, width: nat)
    requires n < Pow256(width)
    ensures FromBE(ToBE(n, width)) == n
  {
    if width > 0 {
      var s := ToBE(n, width);
      assert s[..|s| - 1] == ToBE(n / 256, width - 1);
      FromToBE(n / 256, width - 1);
    }
  }

  lemma {:induction false} ToFromBE(s: seq<byte>)
    ensures ToBE(FromBE(s), |s|) == s
  {
    if s != [] {
      var init, last := s[..|s| - 1], s[|s| - 1];
      assert FromBE(s) == 256 * FromBE(init) + last;
      assert FromBE(s) / 256 == FromBE(init) && FromBE(s) % 256 == last;
      ToFromBE(init);
    }
  }

  /** struct.pack("<I", n) for width 4: the least significant byte first. */
  function ToLE(n: nat, width: nat): (s: seq<byte>)
    requires n < Pow256(width)
    ensures |s| == width
    decreases width
  {
    if width == 0 then [] else [n % 256] + ToLE(n / 256, width - 1)
  }

  function FromLE(s: seq<byte>): nat {
    if s == [] then 0 else s[0] + 256 * FromLE(s[1..])
  }

  lemma {:induction false} FromToLE(n: nat, width: nat)
    requires n < Pow256(width)
    ensures FromLE(ToLE(n, width)) == n
    decreases width
  {
    if width > 0 {
      FromToLE(n / 256, width - 1);
      assert ToLE(n, width)[1..] == ToLE(n / 256, width - 1);
    }
  }

  /** The bytes s stand in data from the cursor on. */
  ghost predicate At(data: seq<byte>, cursor: nat, s: seq<byte>) {
    cursor + |s| <= |data| && data[cursor..cursor + |s|] == s
  }

  lemma AtConcat(data: seq<byte>, cursor: nat, s: seq<byte>, t: seq<byte>)
    ensures At(data, cursor, s + t) <==> At(data, cursor, s) && At(data, cursor + |s|, t)
  {
    var mid, end := cursor + |s|, cursor + |s| + |t|;
    if end <= |data| {
      assert data[cursor..end] == data[cursor..mid] + data[mid..end];
      if At(data, cursor, s + t) {
        assert data[cursor..mid] == (s + t)[..|s|] == s;
        assert data[mid..end] == (s + t)[|s|..] == t;
      }
    }
  }

  /** A Python slice data[lo:hi]: an index past the end is cut back to the end without an error. */
  function Slice(data: seq<byte>, lo: nat, hi: nat): seq<byte>
    requires lo <= hi
  {
    data[Min(lo, |data|)..Min(hi, |data|)]
  }
}
