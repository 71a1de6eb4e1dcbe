/**
 The SCALE pieces the identity decoder reads: fixed-width little-endian integers and compact
 integers (SCALE codec, section A.2.2 of the Polkadot Protocol Specification), with encoders.
 */
module Scale {
  import opened Wrappers

  function Pow256(k: nat): (p: nat)
    ensures p > 0
  {
    if k == 0 then 1 else 256 * Pow256(k - 1)
  }

  function LeBytes(n: nat, k: nat): (b: Bytes)
    ensures |b| == k
    decreases k
  {
    if k == 0 then [] else [(n % 256) as byte] + LeBytes(n / 256, k - 1)
  }

  function LeValue(b: Bytes): nat {
    if b == [] then 0 else b[0] as nat + 256 * LeValue(b[1..])
  }

  lemma {:induction false} LeRoundTrip(n: nat, k: nat)
    requires n < Pow256(k)
    ensures LeValue(LeBytes(n, k)) == n
    decreases k
  {
    if k > 0 {
      LeRoundTrip(n / 256, k - 1);
      assert LeBytes(n, k)[1..] == LeBytes(n / 256, k - 1);
    }
  }

  /** A fixed-width integer at the cursor, and the cursor after it. */
  function TakeLe(input: Bytes, k: nat): Option<(nat, Bytes)> {
    if |input| < k then None else Some((LeValue(input[..k]), input[k..]))
  }

  lemma TakeLeDecodes(n: nat, k: nat, rest: Bytes)
    requires n < Pow256(k)
    ensures TakeLe(LeBytes(n, k) + rest, k) == Some((n, rest))
  {
    LeRoundTrip(n, k);
    var input := LeBytes(n, k) + rest;
    assert input[..k] == LeBytes(n, k) && input[k..] == rest;
  }

  /** The least value that needs `k` bytes in big-integer mode. */
  function LeastIn(k: nat): nat
    requires k >= 4
  {
    if k == 4 then 0x4000_0000 else Pow256(k - 1)
  }

  /** A compact integer of at most `width` bytes; non-minimal forms are refused. */
  function TakeCompact(input: Bytes, width: nat): Option<(nat, Bytes)> {
    if input == [] then None
    else
      var prefix := input[0] as nat;
      match prefix % 4
      case 0 => Some((prefix / 4, input[1..]))
      case 1 => InRange(TakeLe(input, 2), 0x40)
      case 2 => InRange(TakeLe(input, 4), 0x4000)
      case _ =>
        var k := prefix / 4 + 4;
        if k > width then None
        else
          var r := TakeLe(input[1..], k);
          if r.Some? && r.value.0 >= LeastIn(k) then r else None
  }

  function InRange(r: Option<(nat, Bytes)>, least: nat): Option<(nat, Bytes)> {
    if r.Some? && r.value.0 / 4 >= least then Some((r.value.0 / 4, r.value.1)) else None
  }

  /** The number of bytes of `n`, at least 4. */
  function BigWidth(n: nat, k: nat): (w: nat)
    requires k >= 4
    ensures w >= k && n < Pow256(w) && (w > k ==> n >= Pow256(w - 1))
    decreases n - Pow256(k)
  {
    if n < Pow256(k) then k else BigWidth(n, k + 1)
  }

  function EncodeCompact(n: nat): Bytes
    requires BigWidth(n, 4) <= 67
  {
    if n < 0x40 then [(n * 4) as byte]
    else if n < 0x4000 then LeBytes(n * 4 + 1, 2)
    else if n < 0x4000_0000 then LeBytes(n * 4 + 2, 4)
    else [((BigWidth(n, 4) - 4) * 4 + 3) as byte] + LeBytes(n, BigWidth(n, 4))
  }

  lemma Powers()
    ensures Pow256(1) == 0x100 && Pow256(2) == 0x1_0000 && Pow256(3) == 0x100_0000 && Pow256(4) == 0x1_0000_0000
  {
    assert Pow256(0) == 1;
    assert Pow256(1) == 0x100;
    assert Pow256(2) == 0x1_0000;
    assert Pow256(3) == 0x100_0000;
  }

  lemma SmallWidth(n: nat)
    requires n < 0x1_0000_0000
    ensures BigWidth(n, 4) == 4
  {
    Powers();
  }

  /** What the decoder does in two-byte and in four-byte mode. */
  lemma SmallModes(input: Bytes, width: nat)
    requires input != []
    ensures input[0] as nat % 4 == 0 ==> TakeCompact(input, width) == Some((input[0] as nat / 4, input[1..]))
    ensures input[0] as nat % 4 == 1 ==> TakeCompact(input, width) == InRange(TakeLe(input, 2), 0x40)
    ensures input[0] as nat % 4 == 2 ==> TakeCompact(input, width) == InRange(TakeLe(input, 4), 0x4000)
  {
  }

  lemma CompactOne(n: nat, width: nat, rest: Bytes)
    requires n < 0x40
    ensures TakeCompact([(n * 4) as byte] + rest, width) == Some((n, rest))
  {
    var input := [(n * 4) as byte] + rest;
    SmallModes(input, width);
    assert input[1..] == rest;
  }

  lemma CompactTwo(n: nat, width: nat, rest: Bytes)
    requires 0x40 <= n < 0x4000
    ensures TakeCompact(LeBytes(n * 4 + 1, 2) + rest, width) == Some((n, rest))
  {
    Powers();
    var m := n * 4 + 1;
    TakeLeDecodes(m, 2, rest);
    FirstByte(m, 2, rest);
    assert m % 4 == 1 && m / 4 == n;
    SmallModes(LeBytes(m, 2) + rest, width);
  }

  lemma CompactFour(n: nat, width: nat, rest: Bytes)
    requires 0x4000 <= n < 0x4000_0000
    ensures TakeCompact(LeBytes(n * 4 + 2, 4) + rest, width) == Some((n, rest))
  {
    Powers();
    var m := n * 4 + 2;
    TakeLeDecodes(m, 4, rest);
    FirstByte(m, 4, rest);
    assert m % 4 == 2 && m / 4 == n;
    SmallModes(LeBytes(m, 4) + rest, width);
  }

  lemma FirstByte(n: nat, k: nat, rest: Bytes)
    requires k > 0
    ensures (LeBytes(n, k) + rest)[0] as nat % 4 == n % 4
  {
    assert (LeBytes(n, k) + rest)[0] as nat == n % 256;
  }

  /** What the decoder does in big-integer mode. */
  lemma BigMode(input: Bytes, k: nat, width: nat)
    requires 4 <= k <= 16 && k <= width && input != [] && input[0] as nat == (k - 4) * 4 + 3
    ensures TakeCompact(input, width) ==
            var r := TakeLe(input[1..], k); if r.Some? && r.value.0 >= LeastIn(k) then r else None
  {
    var prefix := input[0] as nat;
    assert prefix % 4 == 3 && prefix / 4 + 4 == k;
  }

  lemma {:induction false} CompactBig(n: nat, k: nat, width: nat, rest: Bytes)
    requires 4 <= k <= width <= 16 && LeastIn(k) <= n < Pow256(k)
    ensures TakeCompact([((k - 4) * 4 + 3) as byte] + LeBytes(n, k) + rest, width) == Some((n, rest))
  {
    var input := [((k - 4) * 4 + 3) as byte] + LeBytes(n, k) + rest;
    assert input[1..] == LeBytes(n, k) + rest;
    TakeLeDecodes(n, k, rest);
    BigMode(input, k, width);
  }

  /** Decoding a compact integer gives it back, with the cursor right after it. */
  lemma {:induction false} CompactRoundTrip(n: nat, width: nat, rest: Bytes)
    requires BigWidth(n, 4) <= width <= 16
    ensures TakeCompact(EncodeCompact(n) + rest, width) == Some((n, rest))
  {
    if n < 0x40 {
      CompactOne(n, width, rest);
    } else if n < 0x4000 {
      CompactTwo(n, width, rest);
    } else if n < 0x4000_0000 {
      CompactFour(n, width, rest);
    } else {
      CompactBig(n, BigWidth(n, 4), width, rest);
    }
  }
}
