/** Vocabulary shared by the element models: fixed-width unsigned integers with
    the C wrap-around written out, an optional value for "a packet or null",
    and the packet itself with the annotations the elements read. */
module Common {

  datatype Option<+T> = None | Some(value: T)

  const U32_LIMIT: int := 0x1_0000_0000
  const U64_LIMIT: int := 0x1_0000_0000_0000_0000

  /** uint32_t */
  type u32 = x: int | 0 <= x < 0x1_0000_0000
  /** uint64_t (counter_int_type when the platform has 64-bit integers) */
  type u64 = x: int | 0 <= x < 0x1_0000_0000_0000_0000

  /** An IPv4 address in network byte order, as IPAddress holds it. */
  type Addr = bv32

  /** `x++` on a uint32_t. */
  function Inc32(x: u32): u32 {
    (x + 1) % U32_LIMIT
  }

  /** `x--` on a uint32_t. */
  function Dec32(x: u32): u32 {
    if x == 0 then U32_LIMIT - 1 else x - 1
  }

  /** `x += y` on a uint32_t. */
  function Add32(x: u32, y: nat): u32 {
    (x + y) % U32_LIMIT
  }

  /** `x += y` on a uint64_t. */
  function Add64(x: u64, y: nat): u64 {
    (x + y) % U64_LIMIT
  }

  /** The value of `(signed) x` for a uint32_t x on a two's-complement machine. */
  function AsSigned32(x: u32): int {
    if x < 0x8000_0000 then x else x - U32_LIMIT
  }

  /** Adding one and then m is adding m + 1, under uint32_t wrap-around. */
  lemma Add32Inc(x: u32, m: nat)
    ensures Add32(Inc32(x), m) == Add32(x, m + 1)
  {
    var q := (x + 1) / U32_LIMIT;
    assert x + 1 == q * U32_LIMIT + Inc32(x);
    assert x + m + 1 == q * U32_LIMIT + (Inc32(x) + m);
  }

  /** Adding y and then z is adding y + z, under uint64_t wrap-around. */
  lemma Add64Twice(x: u64, y: nat, z: nat)
    ensures Add64(Add64(x, y), z) == Add64(x, y + z)
  {
    var q := (x + y) / U64_LIMIT;
    assert x + y == q * U64_LIMIT + Add64(x, y);
    assert x + y + z == q * U64_LIMIT + (Add64(x, y) + z);
  }

  /** A packet as the elements see it: an identity, whether a network header
      annotation is set, the IPv4 source and destination from that header,
      the length, and the timestamp annotation in microseconds. */
  datatype Packet = Packet(
    id: nat,
    hasNetworkHeader: bool,
    src: Addr,
    dst: Addr,
    length: u32,
    timestamp: int)

  /** The number of true entries of s. */
  function CountTrue(s: seq<bool>): (n: nat)
    ensures n <= |s|
  {
    if s == [] then 0 else (if s[0] then 1 else 0) + CountTrue(s[1..])
  }

  lemma {:induction false} CountTrueAppend(a: seq<bool>, b: seq<bool>)
    ensures CountTrue(a + b) == CountTrue(a) + CountTrue(b)
  {
    if a == [] {
      assert a + b == b;
    } else {
      assert (a + b)[1..] == a[1..] + b;
      CountTrueAppend(a[1..], b);
    }
  }

  /** Exactly n of the first k positions are marked by `i < n`. */
  lemma {:induction false} CountTruePrefix(k: nat, n: nat)
    requires n <= k
    ensures CountTrue(seq(k, i => i < n)) == n
  {
    if k > 0 {
      var s := seq(k, i => i < n);
      if n == k {
        assert s == seq(k - 1, i => i < n - 1) + [true];
        CountTrueAppend(seq(k - 1, i => i < n - 1), [true]);
        CountTruePrefix(k - 1, n - 1);
      } else {
        assert s == seq(k - 1, i => i < n) + [false];
        CountTrueAppend(seq(k - 1, i => i < n), [false]);
        CountTruePrefix(k - 1, n);
      }
    }
  }
}
