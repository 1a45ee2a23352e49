/** Fixed-width big-endian numbers, as encoding/binary writes them. */
module BigEndian {
  import opened RaftTypes

  const TWO_32: nat := 0x1_0000_0000
  const TWO_64: nat := 0x1_0000_0000_0000_0000

  /** One more than the largest number that fits in w bytes. */
  function Limit(w: nat): nat {
    if w == 0 then 1 else 256 * Limit(w - 1)
  }

  function Put(n: nat, w: nat): (b: Bytes)
    requires n < Limit(w)
    ensures |b| == w && Get(b) == n
  {
    if w == 0 then [] else
      var b := Put(n / 256, w - 1) + [n % 256];
      assert b[..w - 1] == Put(n / 256, w - 1);
      b
  }

  function Get(b: Bytes): nat {
    if b == [] then 0 else 256 * Get(b[..|b| - 1]) + b[|b| - 1]
  }

  /** The bytes that come first weigh most, and one byte is itself. */
  lemma {:induction false} FirstWeighsMost(a: Bytes, b: Bytes)
    ensures Get(a + b) == Get(a) * Limit(|b|) + Get(b)
    ensures |a| == 1 ==> Get(a) == a[0]
  {
    if b == [] {
      assert a + b == a;
    } else {
      var front := b[..|b| - 1];
      assert (a + b)[..|a + b| - 1] == a + front;
      FirstWeighsMost(a, front);
      Times(Get(a), Limit(|front|), Get(front), b[|b| - 1]);
    }
  }

  lemma Times(x: nat, limit: nat, y: nat, z: nat)
    ensures 256 * (x * limit + y) + z == x * (256 * limit) + (256 * y + z)
  {
  }

  lemma {:induction false} GetBelow(b: Bytes)
    ensures Get(b) < Limit(|b|)
  {
    if b != [] { GetBelow(b[..|b| - 1]); }
  }

  /** What eight bytes hold is a uint64. */
  lemma GetFits(b: Bytes)
    requires |b| == 8
    ensures Get(b) < TWO_64
  {
    GetBelow(b);
    Limits();
  }

  lemma Limits()
    ensures Limit(4) == TWO_32 && Limit(8) == TWO_64
  {
  }

  function PutUint32(n: nat): (b: Bytes)
    requires n < TWO_32
    ensures |b| == 4 && Get(b) == n
  {
    Limits();
    Put(n, 4)
  }

  function PutUint64(n: nat): (b: Bytes)
    requires n < TWO_64
    ensures |b| == 8 && Get(b) == n
  {
    Limits();
    Put(n, 8)
  }
}
