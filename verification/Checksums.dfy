/** The one's-complement Internet checksum (qubes_snitch/dns.py). */
module Checksums {
  type byte = b: int | 0 <= b < 256
  type Word = w: int | 0 <= w <= 65535

  /** Big-endian 16-bit words; an odd last byte is padded with a zero byte. */
  function WordSum(data: seq<byte>): (sum: nat) {
    if data == [] then 0
    else if |data| == 1 then data[0] * 256
    else data[0] * 256 + data[1] + WordSum(data[2..])
  }

  /** Carries folded back into the low 16 bits until none is left. */
  function Fold(total: nat): Word
    decreases total
  {
    if total >= 65536 then Fold(total % 65536 + total / 65536) else total
  }

  function Checksum(data: seq<byte>): Word {
    65535 - Fold(WordSum(data))
  }

  /** Folding computes the sum modulo 65535, with 65535 standing for a nonzero multiple. */
  lemma {:induction false} FoldIsModulo(total: nat)
    ensures Fold(total) == if total == 0 then 0 else (total - 1) % 65535 + 1
    decreases total
  {
    if total >= 65536 {
      var hi, lo := total / 65536, total % 65536;
      FoldIsModulo(lo + hi);
      assert total - 1 == (lo + hi - 1) + 65535 * hi;
      ModuloShift(lo + hi - 1, hi);
    }
  }

  lemma {:induction false} ModuloShift(n: nat, k: nat)
    ensures (n + 65535 * k) % 65535 == n % 65535
  {
  }

  /** inet_checksum */
  method InetChecksum(data: seq<byte>) returns (checksum: Word)
    ensures checksum == Checksum(data)
  {
    var padded := data;
    if |data| % 2 == 1 {
      padded := data + [0];
    }
    var total := 0;
    var i := 0;
    while i < |padded|
      invariant 0 <= i <= |padded| && i % 2 == 0 && total >= 0
      invariant total + WordSum(padded[i..]) == WordSum(padded)
    {
      var high: int, low: int := padded[i], padded[i + 1];
      total := total + high * 256 + low;
      assert padded[i..][2..] == padded[i + 2..];
      i := i + 2;
    }
    PaddingIsNeutral(data);
    while total >= 65536
      invariant total >= 0 && Fold(total) == Fold(WordSum(data))
      decreases total
    {
      total := total % 65536 + total / 65536;
    }
    checksum := 65535 - total;
  }

  lemma {:induction false} PaddingIsNeutral(data: seq<byte>)
    ensures |data| % 2 == 1 ==> WordSum(data + [0]) == WordSum(data)
  {
    if |data| > 1 {
      PaddingIsNeutral(data[2..]);
      assert (data + [0])[2..] == data[2..] + [0];
    }
  }

  function Insert(data: seq<byte>, at: nat, w: Word): seq<byte>
    requires at + 1 < |data|
  {
    data[at := w / 256][at + 1 := w % 256]
  }

  lemma {:induction false} InsertAddsWord(data: seq<byte>, at: nat, w: Word)
    requires at % 2 == 0 && at + 1 < |data|
    requires data[at] == 0 && data[at + 1] == 0
    ensures WordSum(Insert(data, at, w)) == WordSum(data) + w
  {
    if at == 0 {
      assert Insert(data, at, w)[2..] == data[2..];
    } else {
      InsertAddsWord(data[2..], at - 2, w);
      assert Insert(data, at, w)[2..] == Insert(data[2..], at - 2, w);
    }
  }

  lemma FoldSum(t: nat, w: Word)
    requires t > 0
    ensures 1 <= Fold(t) <= 65535
    ensures Fold(t + w) == (Fold(t) - 1 + w) % 65535 + 1
  {
    FoldIsModulo(t);
    FoldIsModulo(t + w);
    var q, r := (t - 1) / 65535, (t - 1) % 65535;
    assert t + w - 1 == (r + w) + 65535 * q;
    ModuloShift(r + w, q);
  }

  lemma FoldWord(w: Word)
    ensures Fold(w) == w
  {
  }

  /** Exactly which words make a buffer with a zeroed, even-aligned checksum field re-check
      to zero: the computed checksum, and the other representation of zero. */
  lemma ChecksumVerifies(data: seq<byte>, at: nat, w: Word)
    requires at % 2 == 0 && at + 1 < |data|
    requires data[at] == 0 && data[at + 1] == 0
    ensures Checksum(Insert(data, at, w)) == 0 <==>
            || w == Checksum(data)
            || (w == 65535 && Checksum(data) == 0)
  {
    InsertAddsWord(data, at, w);
    var t, t' := WordSum(data), WordSum(Insert(data, at, w));
    if t > 0 {
      FoldSum(t, w);
      ZeroCheck(Fold(t), w);
    } else {
      FoldWord(t);
      FoldWord(t');
    }
  }

  lemma ZeroCheck(f: Word, w: Word)
    requires f >= 1
    ensures (f - 1 + w) % 65535 + 1 == 65535 <==> w == 65535 - f || (w == 65535 && f == 65535)
  {
  }
}
