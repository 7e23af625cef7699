/** Event ids laid out like UUID version 7, section 5.7 of RFC 9562 (crates/nova-event/src/event.rs). */
module EventIds {
  import opened Digests
  import opened Numbers

  function Pow256(k: nat): nat {
    if k == 0 then 1 else 256 * Pow256(k - 1)
  }

  /** The low `k` bytes of a number, least significant first. */
  function LittleEndian(n: nat, k: nat): (bytes: Bytes)
    ensures |bytes| == k
  {
    if k == 0 then [] else [(n % 256) as byte] + LittleEndian(n / 256, k - 1)
  }

  function FromLittleEndian(bytes: Bytes): nat {
    if bytes == [] then 0 else bytes[0] as nat + 256 * FromLittleEndian(bytes[1..])
  }

  /** Most significant first. */
  function BigEndian(n: nat, k: nat): (bytes: Bytes)
    ensures |bytes| == k
  {
    if k == 0 then [] else BigEndian(n / 256, k - 1) + [(n % 256) as byte]
  }

  function FromBigEndian(bytes: Bytes): nat {
    if bytes == [] then 0 else FromBigEndian(bytes[..|bytes| - 1]) * 256 + bytes[|bytes| - 1] as nat
  }

  lemma SplitModulo(n: nat, m: nat)
    requires m > 0
    ensures 256 * m > 0
    ensures n % (256 * m) == n % 256 + 256 * ((n / 256) % m)
  {
    var q, r := (n / 256) / m, (n / 256) % m;
    var low := n % 256;
    assert n / 256 == q * m + r;
    assert n == 256 * (n / 256) + low;
    assert n == (256 * m) * q + (256 * r + low) by {
      assert 256 * (q * m + r) == (256 * m) * q + 256 * r;
    }
    assert 256 * r + low < 256 * m;
    Remainder(n, 256 * m, q, 256 * r + low);
  }

  lemma Remainder(n: nat, m: nat, q: nat, r: nat)
    requires r < m && n == m * q + r
    ensures n % m == r
  {
    var d := n / m - q;
    assert n == m * (n / m) + n % m;
    assert m * d == r - n % m;
    assert d > 0 ==> m * d >= m;
    assert d < 0 ==> m * d <= -1 * m;
  }

  lemma {:induction false} PowerIsPositive(k: nat)
    ensures Pow256(k) > 0
  {
    if k > 0 { PowerIsPositive(k - 1); }
  }

  lemma {:induction false} LittleEndianRoundTrip(n: nat, k: nat)
    ensures Pow256(k) > 0 && FromLittleEndian(LittleEndian(n, k)) == n % Pow256(k)
  {
    PowerIsPositive(k);
    if k > 0 {
      LittleEndianRoundTrip(n / 256, k - 1);
      SplitModulo(n, Pow256(k - 1));
      assert LittleEndian(n, k)[1..] == LittleEndian(n / 256, k - 1);
    }
  }

  lemma {:induction false} BigEndianRoundTrip(n: nat, k: nat)
    ensures Pow256(k) > 0 && FromBigEndian(BigEndian(n, k)) == n % Pow256(k)
  {
    PowerIsPositive(k);
    if k > 0 {
      BigEndianRoundTrip(n / 256, k - 1);
      SplitModulo(n, Pow256(k - 1));
      assert BigEndian(n, k)[..k - 1] == BigEndian(n / 256, k - 1);
    }
  }

  // ---- The ids ----

  /** `EventId::new` for one reading of the clock and one value of the global counter, both 64 bits wide. */
  function NewId(timestampMs: nat, counter: nat): (id: Bytes)
    requires timestampMs < U64 && counter < U64
    ensures |id| == 16
    ensures id[6] == 0x70 && id[8] == 0x80
    ensures id[7] as nat == (counter / 256) % 256 && id[5] as nat == timestampMs % 256
  {
    BigEndian(timestampMs, 6) + [0x70, ((counter / 256) % 256) as byte, 0x80] + LittleEndian(counter, 7)
  }

  function Timestamp(id: Bytes): nat
    requires |id| == 16
  {
    FromBigEndian(id[..6])
  }

  /** The timestamp comes back, in the 48 bits it has. */
  lemma TimestampRoundTrip(timestampMs: nat, counter: nat)
    requires timestampMs < U64 && counter < U64
    ensures Timestamp(NewId(timestampMs, counter)) == timestampMs % 0x1_0000_0000_0000
  {
    BigEndianRoundTrip(timestampMs, 6);
    assert NewId(timestampMs, counter)[..6] == BigEndian(timestampMs, 6);
    assert Pow256(6) == 0x1_0000_0000_0000;
  }

  /** Two ids are equal exactly if they agree on 48 bits of time and 56 bits of counter. */
  lemma EqualIdsIff(t1: nat, c1: nat, t2: nat, c2: nat)
    requires t1 < U64 && c1 < U64 && t2 < U64 && c2 < U64
    ensures NewId(t1, c1) == NewId(t2, c2)
            <==> t1 % 0x1_0000_0000_0000 == t2 % 0x1_0000_0000_0000
                 && c1 % 0x100_0000_0000_0000 == c2 % 0x100_0000_0000_0000
  {
    TimestampRoundTrip(t1, c1);
    TimestampRoundTrip(t2, c2);
    assert NewId(t1, c1)[..6] == BigEndian(t1, 6) && NewId(t2, c2)[..6] == BigEndian(t2, 6);
    CounterRoundTrip(t1, c1);
    CounterRoundTrip(t2, c2);
    if t1 % 0x1_0000_0000_0000 == t2 % 0x1_0000_0000_0000 && c1 % 0x100_0000_0000_0000 == c2 % 0x100_0000_0000_0000 {
      BigEndianDetermined(t1, t2, 6);
      LittleEndianDetermined(c1, c2, 7);
      SecondByte(c1, c2);
    }
  }

  lemma CounterRoundTrip(t: nat, c: nat)
    requires t < U64 && c < U64
    ensures FromLittleEndian(NewId(t, c)[9..]) == c % 0x100_0000_0000_0000
  {
    LittleEndianRoundTrip(c, 7);
    assert NewId(t, c)[9..] == LittleEndian(c, 7);
    assert Pow256(7) == 0x100_0000_0000_0000;
  }

  lemma {:induction false} BigEndianDetermined(a: nat, b: nat, k: nat)
    requires Pow256(k) > 0 && a % Pow256(k) == b % Pow256(k)
    ensures BigEndian(a, k) == BigEndian(b, k)
  {
    if k > 0 {
      PowerIsPositive(k - 1);
      SplitModulo(a, Pow256(k - 1));
      SplitModulo(b, Pow256(k - 1));
      BigEndianDetermined(a / 256, b / 256, k - 1);
    }
  }

  lemma {:induction false} LittleEndianDetermined(a: nat, b: nat, k: nat)
    requires Pow256(k) > 0 && a % Pow256(k) == b % Pow256(k)
    ensures LittleEndian(a, k) == LittleEndian(b, k)
  {
    if k > 0 {
      PowerIsPositive(k - 1);
      SplitModulo(a, Pow256(k - 1));
      SplitModulo(b, Pow256(k - 1));
      LittleEndianDetermined(a / 256, b / 256, k - 1);
    }
  }

  lemma SecondByte(a: nat, b: nat)
    requires LittleEndian(a, 7) == LittleEndian(b, 7)
    ensures (a / 256) % 256 == (b / 256) % 256
  {
    assert LittleEndian(a, 7)[1] == ((a / 256) % 256) as byte;
    assert LittleEndian(b, 7)[1] == ((b / 256) % 256) as byte;
  }
}
