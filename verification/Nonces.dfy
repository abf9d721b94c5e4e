/** The counters and keys of a Shadowsocks AEAD stream, over abstract hash functions. */
module Nonces {
  import opened Wrappers

  type byte = x: int | 0 <= x < 256

  // ----- The nonce: a little-endian counter -----

  function Value(s: seq<byte>): nat {
    if s == [] then 0 else s[0] + 256 * Value(s[1..])
  }

  function Pow256(k: nat): (p: nat)
    ensures p >= 1
  {
    if k == 0 then 1 else 256 * Pow256(k - 1)
  }

  /** The bytes after one increment. */
  function Inc(s: seq<byte>): (t: seq<byte>)
    ensures |t| == |s|
  {
    if s == [] then []
    else if s[0] == 255 then [0] + Inc(s[1..])
    else [s[0] + 1] + s[1..]
  }

  /** `_ss_inc_nonce`: carry until a byte does not wrap. */
  method IncNonce(nonce: array<byte>)
    modifies nonce
    ensures nonce[..] == Inc(old(nonce[..]))
  {
    ghost var was := nonce[..];
    for i := 0 to nonce.Length
      invariant was == old(nonce[..])
      invariant forall j :: 0 <= j < i ==> was[j] == 255 && nonce[j] == 0
      invariant forall j :: i <= j < nonce.Length ==> nonce[j] == was[j]
    {
      var bumped: int := nonce[i] as int + 1;
      nonce[i] := bumped % 256;
      if nonce[i] != 0 {
        CarryStops(was, i);
        assert nonce[..] == was[..i][..0] + seq(i, j => 0) + [was[i] + 1] + was[i + 1..];
        return;
      }
    }
    CarryOut(was);
    assert nonce[..] == seq(|was|, j => 0);
  }

  lemma {:induction false} CarryStops(s: seq<byte>, i: nat)
    requires i < |s| && s[i] != 255 && forall j :: 0 <= j < i ==> s[j] == 255
    ensures Inc(s) == seq(i, j => 0) + [s[i] + 1] + s[i + 1..]
  {
    if i > 0 {
      CarryStops(s[1..], i - 1);
      assert s[1..][i..] == s[i + 1..];
      assert [0] + seq(i - 1, j => 0) == seq(i, j => 0);
    }
  }

  lemma {:induction false} CarryOut(s: seq<byte>)
    requires forall j :: 0 <= j < |s| ==> s[j] == 255
    ensures Inc(s) == seq(|s|, j => 0)
  {
    if s != [] {
      CarryOut(s[1..]);
    }
  }

  lemma {:induction false} ValueBound(s: seq<byte>)
    ensures Value(s) < Pow256(|s|)
  {
    if s != [] { ValueBound(s[1..]); }
  }

  lemma {:induction false} IncWraps(s: seq<byte>)
    ensures Value(Inc(s)) == if Value(s) + 1 == Pow256(|s|) then 0 else Value(s) + 1
  {
    if s != [] {
      IncWraps(s[1..]);
      ValueBound(s[1..]);
      if s[0] == 255 {
        assert Inc(s)[1..] == Inc(s[1..]);
      } else {
        assert Inc(s)[1..] == s[1..];
      }
    }
  }

  lemma WrapIsMod(x: nat, p: nat)
    requires 1 <= x <= p
    ensures x % p == if x == p then 0 else x
  {
  }

  /** On a buffer of `k` bytes the increment is plus one modulo 256 to the `k`. */
  lemma IncIsPlusOne(s: seq<byte>)
    ensures Value(Inc(s)) == (Value(s) + 1) % Pow256(|s|)
  {
    IncWraps(s);
    ValueBound(s);
    hide Value, Pow256, Inc;
    WrapIsMod(Value(s) + 1, Pow256(|s|));
  }

  lemma {:induction false} ValueInjective(s: seq<byte>, t: seq<byte>)
    requires |s| == |t| && Value(s) == Value(t)
    ensures s == t
  {
    if s != [] {
      assert s[0] == t[0] && Value(s[1..]) == Value(t[1..]);
      ValueInjective(s[1..], t[1..]);
    }
  }

  /** The nonce of a direction's operation number `ops`: so many increments of zero. */
  function NonceAt(size: nat, ops: nat): (s: seq<byte>)
    ensures |s| == size
  {
    if ops == 0 then seq(size, i => 0) else Inc(NonceAt(size, ops - 1))
  }

  lemma {:induction false} ZeroValue(size: nat)
    ensures Value(seq(size, i => 0)) == 0
  {
    if size > 0 {
      assert seq<byte>(size, i => 0)[1..] == seq(size - 1, i => 0);
      ZeroValue(size - 1);
    }
  }

  lemma {:induction false} NonceValue(size: nat, ops: nat)
    ensures Value(NonceAt(size, ops)) == ops % Pow256(size)
  {
    hide Value, Pow256, Inc;
    if ops == 0 {
      ZeroValue(size);
      SmallMod(0, Pow256(size));
    } else {
      NonceValue(size, ops - 1);
      IncIsPlusOne(NonceAt(size, ops - 1));
      StepMod(ops - 1, Pow256(size));
    }
  }

  lemma StepMod(a: nat, p: nat)
    requires p >= 1
    ensures (a % p + 1) % p == (a + 1) % p
  {
    var q, r := a / p, a % p;
    assert a == q * p + r;
    WrapIsMod(r + 1, p);
    if r + 1 == p {
      assert a + 1 == (q + 1) * p;
      ModOf(q + 1, 0, p);
    } else {
      ModOf(q, r + 1, p);
    }
  }

  lemma ModOf(q: nat, r: nat, p: nat)
    requires r < p
    ensures (q * p + r) % p == r
  {
    if q > 0 {
      ModOf(q - 1, r, p);
      assert q * p + r == ((q - 1) * p + r) + p;
      AddMod((q - 1) * p + r, p);
    }
  }

  lemma AddMod(a: nat, p: nat)
    requires p >= 1
    ensures (a + p) % p == a % p
  {
    var q, r := a / p, a % p;
    assert (a + p) / p == q + 1 by {
      assert a + p == (q + 1) * p + r;
      Quotient(a + p, q + 1, r, p);
    }
  }

  lemma MulAtLeast(d: int, p: nat)
    ensures d >= 1 ==> d * p >= p
    ensures d <= -1 ==> d * p <= -(p as int)
  {
  }

  lemma Quotient(a: nat, q: nat, r: nat, p: nat)
    requires p >= 1 && r < p && a == q * p + r
    ensures a / p == q
  {
    var d := a / p - q;
    assert d * p == r - a % p;
    MulAtLeast(d, p);
  }

  /** Within one direction no nonce comes twice before 256 to the size operations. */
  lemma NoncesDistinct(size: nat, i: nat, j: nat)
    requires i < j < Pow256(size)
    ensures NonceAt(size, i) != NonceAt(size, j)
  {
    NonceValue(size, i);
    NonceValue(size, j);
    SmallMod(i, Pow256(size));
    SmallMod(j, Pow256(size));
  }

  lemma SmallMod(a: nat, p: nat)
    requires a < p
    ensures a % p == a
  {
  }

  // ----- Keys: chains of hash blocks, cut to length -----

  type Bytes = seq<byte>

  /** Block `i` of a chain: each made from the one before and its number. */
  function Block(next: (Bytes, nat) -> Bytes, i: nat): Bytes {
    if i == 0 then [] else next(Block(next, i - 1), i)
  }

  /** The first `n` blocks. */
  function Blocks(next: (Bytes, nat) -> Bytes, n: nat): Bytes {
    if n == 0 then [] else Blocks(next, n - 1) + Block(next, n)
  }

  ghost predicate SizedBlocks(next: (Bytes, nat) -> Bytes, size: nat) {
    forall b, i :: |next(b, i)| == size
  }

  lemma {:induction false} BlocksLength(next: (Bytes, nat) -> Bytes, size: nat, n: nat)
    requires SizedBlocks(next, size)
    ensures |Blocks(next, n)| == n * size
  {
    if n > 0 {
      BlocksLength(next, size, n - 1);
      assert |Block(next, n)| == size;
    }
  }

  lemma {:induction false} BlocksPrefix(next: (Bytes, nat) -> Bytes, m: nat, n: nat)
    requires m <= n
    ensures Blocks(next, m) <= Blocks(next, n)
  {
    if m < n { BlocksPrefix(next, m, n - 1); }
  }

  /** How many blocks of `size` bytes it takes to reach `length`. */
  function Needed(length: nat, size: nat): (n: nat)
    requires size > 0
    ensures n * size >= length && (n > 0 ==> (n - 1) * size < length)
  {
    (length + size - 1) / size
  }

  /** The `length` first bytes of the chain. */
  function Cut(next: (Bytes, nat) -> Bytes, size: nat, length: nat): (out: Bytes)
    requires size > 0 && SizedBlocks(next, size)
    ensures |out| == length
  {
    BlocksLength(next, size, Needed(length, size));
    Blocks(next, Needed(length, size))[..length]
  }

  lemma MulAtMost(a: nat, b: nat, size: nat)
    requires a <= b
    ensures a * size <= b * size
  {
  }

  lemma NeededGrows(size: nat, short: nat, long: nat)
    requires size > 0 && short <= long
    ensures Needed(short, size) <= Needed(long, size)
  {
    var a, b := Needed(short, size), Needed(long, size);
    if a > b {
      MulAtMost(b, a - 1, size);
    }
  }

  /** Asking for more bytes does not change the first ones. */
  lemma CutPrefixStable(next: (Bytes, nat) -> Bytes, size: nat, short: nat, long: nat)
    requires size > 0 && SizedBlocks(next, size) && short <= long
    ensures Cut(next, size, short) == Cut(next, size, long)[..short]
  {
    NeededGrows(size, short, long);
    BlocksLength(next, size, Needed(short, size));
    BlocksLength(next, size, Needed(long, size));
    BlocksPrefix(next, Needed(short, size), Needed(long, size));
  }

  const SHA1_SIZE := 20
  const MD5_SIZE := 16
  const SS_SUBKEY: Bytes := [115, 115, 45, 115, 117, 98, 107, 101, 121]

  /** T(i) = HMAC(prk, T(i-1) | info | i), section 2.3 of RFC 5869; the number is one octet. */
  function ExpandNext(hmac: (Bytes, Bytes) -> Bytes, prk: Bytes): (Bytes, nat) -> Bytes {
    (block: Bytes, i: nat) => hmac(prk, block + SS_SUBKEY + [i % 256])
  }

  ghost predicate IsHmacSha1(hmac: (Bytes, Bytes) -> Bytes) {
    forall k, m :: |hmac(k, m)| == SHA1_SIZE
  }

  /**
    `_ss_subkey`: the extract and expand steps of RFC 5869 with the info "ss-subkey". `None` is
    the ValueError of a block number that no longer fits an octet.
   */
  method Subkey(hmac: (Bytes, Bytes) -> Bytes, master: Bytes, salt: Bytes, length: nat) returns (key: Option<Bytes>)
    requires IsHmacSha1(hmac)
    ensures key.None? <==> length > 255 * SHA1_SIZE
    ensures key.Some? ==> SizedBlocks(ExpandNext(hmac, hmac(salt, master)), SHA1_SIZE)
                          && key.value == Cut(ExpandNext(hmac, hmac(salt, master)), SHA1_SIZE, length)
  {
    var prk := hmac(salt, master);
    ghost var next := ExpandNext(hmac, prk);
    var out, block, counter := [], [], 1;
    BlocksLength(next, SHA1_SIZE, 0);
    while |out| < length
      invariant 1 <= counter <= 256 && |out| == (counter - 1) * SHA1_SIZE
      invariant counter > 1 ==> (counter - 2) * SHA1_SIZE < length
      invariant out == Blocks(next, counter - 1) && block == Block(next, counter - 1)
      decreases 256 - counter
    {
      if counter > 255 { return None; }
      block := hmac(prk, block + SS_SUBKEY + [counter]);
      out := out + block;
      counter := counter + 1;
    }
    assert Needed(length, SHA1_SIZE) == counter - 1;
    key := Some(out[..length]);
  }

  /** D(i) = MD5(D(i-1) | password). */
  function MasterNext(md5: Bytes -> Bytes, password: Bytes): (Bytes, nat) -> Bytes {
    (block: Bytes, i: nat) => md5(block + password)
  }

  ghost predicate IsMd5(md5: Bytes -> Bytes) {
    forall m :: |md5(m)| == MD5_SIZE
  }

  /** `_ss_master_key`. */
  method MasterKey(md5: Bytes -> Bytes, password: Bytes, length: nat) returns (key: Bytes)
    requires IsMd5(md5)
    ensures SizedBlocks(MasterNext(md5, password), MD5_SIZE)
    ensures key == Cut(MasterNext(md5, password), MD5_SIZE, length)
  {
    ghost var next := MasterNext(md5, password);
    var out, prev := [], [];
    ghost var n: nat := 0;
    while |out| < length
      invariant |out| == n * MD5_SIZE && (n > 0 ==> (n - 1) * MD5_SIZE < length)
      invariant out == Blocks(next, n) && prev == Block(next, n)
      decreases length - |out|
    {
      prev := md5(prev + password);
      out := out + prev;
      n := n + 1;
    }
    assert Needed(length, MD5_SIZE) == n;
    key := out[..length];
  }
}
