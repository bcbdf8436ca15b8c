/** A stable address for each peer key, in the shared address space
    100.64.0.0/10 of section 7 of RFC 6598. */
module SyntheticAddr {

  /** An IPv4 address and a 16-bit port, as the bits they are. */
  datatype Addr = Addr(ip: bv32, port: bv32)

  function Byte(bytes: seq<bv8>, i: nat): bv32 {
    if i < |bytes| then bytes[i] as bv32 else 0
  }

  function Pack(a: bv32, b: bv32, c: bv32, d: bv32): bv32 {
    (a << 24) | (b << 16) | (c << 8) | d
  }

  /** Chunk `c` of four bytes, big-endian, the last one padded with zeros. */
  function Word(bytes: seq<bv8>, c: nat): bv32 {
    Pack(Byte(bytes, 4 * c), Byte(bytes, 4 * c + 1), Byte(bytes, 4 * c + 2), Byte(bytes, 4 * c + 3))
  }

  function Chunks(bytes: seq<bv8>): nat {
    (|bytes| + 3) / 4
  }

  function RotateLeft7(h: bv32): bv32 {
    (h << 7) | (h >> 25)
  }

  function Words(bytes: seq<bv8>): seq<bv32> {
    seq(Chunks(bytes), c requires 0 <= c => Word(bytes, c))
  }

  /** The fold of the first `n` words, a step at a time. */
  function FoldWith<T>(step: (T, T) -> T, start: T, words: seq<T>, n: nat): T
    requires n <= |words|
  {
    if n == 0 then start else step(FoldWith(step, start, words, n - 1), words[n - 1])
  }

  function Mix(h: bv32, word: bv32): bv32 {
    RotateLeft7(h ^ word)
  }

  function Fold(words: seq<bv32>, n: nat): bv32
    requires n <= |words|
  {
    FoldWith(Mix, 0, words, n)
  }

  function Hash(bytes: seq<bv8>): bv32 {
    Fold(Words(bytes), Chunks(bytes))
  }

  /** Truncation to sixteen bits. */
  function U16(x: bv32): bv32 {
    x & 0xFFFF
  }

  function AddrOf(h: bv32): Addr {
    Addr(0x6440_0000 | (h & 0x003F_FFFF), U16(1024 + U16(h >> 22)))
  }

  method Synthesize(bytes: seq<bv8>) returns (addr: Addr)
    ensures addr == AddrOf(Hash(bytes))
  {
    var h: bv32 := 0;
    ghost var words := Words(bytes);
    for c := 0 to Chunks(bytes)
      invariant h == Fold(words, c)
    {
      h := h ^ Word(bytes, c);
      h := RotateLeft7(h);
      assert h == RotateLeft7(Fold(words, c) ^ words[c]);
    }
    addr := AddrOf(h);
  }

  /** The address is always in 100.64.0.0/10, and the port between 1024 and
      2047: neither truncation cut anything off, and the addition never wrapped. */
  lemma AddrInRange(h: bv32)
    ensures AddrOf(h).ip & 0xFFC0_0000 == 0x6440_0000 && AddrOf(h).ip & 0x003F_FFFF == h & 0x003F_FFFF
    ensures 1024 <= AddrOf(h).port <= 2047 && AddrOf(h).port == 1024 + (h >> 22)
  {
  }

  /** The pair keeps all 32 bits of the hash. */
  lemma AddrKeepsHash(h: bv32, h': bv32)
    ensures AddrOf(h) == AddrOf(h') <==> h == h'
  {
  }

  lemma PackIsBigEndian(a: bv32, b: bv32, c: bv32, d: bv32)
    requires a < 256 && b < 256 && c < 256 && d < 256
    ensures var w := Pack(a, b, c, d);
            w >> 24 == a && (w >> 16) & 0xFF == b && (w >> 8) & 0xFF == c && w & 0xFF == d
  {
  }

  ghost predicate HasAt(bytes: seq<bv8>, i: nat, x: bv32) {
    if i < |bytes| then x == bytes[i] as bv32 else x == 0
  }

  /** The bits of a word are the bytes of its chunk, the first byte on top, with zeros
      past the end. */
  lemma WordIsBigEndian(bytes: seq<bv8>, c: nat)
    ensures var w := Word(bytes, c);
            && HasAt(bytes, 4 * c, w >> 24) && HasAt(bytes, 4 * c + 1, (w >> 16) & 0xFF)
            && HasAt(bytes, 4 * c + 2, (w >> 8) & 0xFF) && HasAt(bytes, 4 * c + 3, w & 0xFF)
  {
    PackIsBigEndian(Byte(bytes, 4 * c), Byte(bytes, 4 * c + 1), Byte(bytes, 4 * c + 2), Byte(bytes, 4 * c + 3));
  }

  /** The rotation moves the top seven bits to the bottom and the others up. */
  lemma RotateMoves(h: bv32)
    ensures RotateLeft7(h) >> 7 == h & 0x01FF_FFFF && RotateLeft7(h) & 0x7F == h >> 25
  {
  }

  lemma {:induction false} FoldPrefix<T>(step: (T, T) -> T, start: T, words: seq<T>, more: seq<T>, n: nat)
    requires n <= |words|
    ensures FoldWith(step, start, words + more, n) == FoldWith(step, start, words, n)
  {
    if n > 0 {
      FoldPrefix(step, start, words, more, n - 1);
    }
  }

  /** Hashing goes chunk by chunk: each one is mixed in and the result rotated. */
  lemma HashByChunks(front: seq<bv8>, last: seq<bv8>)
    requires |front| % 4 == 0 && 0 < |last| <= 4
    ensures Hash([]) == 0 && Hash(front + last) == RotateLeft7(Hash(front) ^ Word(last, 0))
  {
    WordsAppend(front, last);
    FoldPrefix(Mix, 0, Words(front), [Word(last, 0)], Chunks(front));
  }

  lemma WordsAppend(front: seq<bv8>, last: seq<bv8>)
    requires |front| % 4 == 0 && 0 < |last| <= 4
    ensures Chunks(front + last) == Chunks(front) + 1 && Words(front + last) == Words(front) + [Word(last, 0)]
  {
    var n := Chunks(front);
    assert |front| == 4 * n;
    forall c | 0 <= c < n ensures Words(front + last)[c] == Words(front)[c] {
      SameBytes(front + last, c, front, c);
    }
    SameBytes(front + last, n, last, 0);
  }

  /** Words are the same when their bytes are. */
  lemma SameBytes(a: seq<bv8>, c: nat, b: seq<bv8>, d: nat)
    requires Byte(a, 4 * c) == Byte(b, 4 * d) && Byte(a, 4 * c + 1) == Byte(b, 4 * d + 1)
    requires Byte(a, 4 * c + 2) == Byte(b, 4 * d + 2) && Byte(a, 4 * c + 3) == Byte(b, 4 * d + 3)
    ensures Word(a, c) == Word(b, d)
  {
  }

  /** `a` and `b` have the same length and differ in chunk `c` and nowhere else. */
  ghost predicate DifferInChunk(a: seq<bv8>, b: seq<bv8>, c: nat) {
    && |a| == |b| && a != b
    && forall i: nat :: i < |a| && i / 4 != c ==> a[i] == b[i]
  }

  lemma SameWord(a: seq<bv8>, b: seq<bv8>, c: nat, d: nat)
    requires DifferInChunk(a, b, c) && d != c
    ensures Word(a, d) == Word(b, d)
  {
    assert forall i: nat :: 4 * d <= i < 4 * d + 4 ==> i / 4 == d;
    assert forall i: nat :: i / 4 == d ==> Byte(a, i) == Byte(b, i);
  }

  lemma SomeByteDiffers(a: seq<bv8>, b: seq<bv8>, c: nat) returns (i: nat)
    requires DifferInChunk(a, b, c)
    ensures c < Chunks(a) && 4 * c <= i < 4 * c + 4 && Byte(a, i) != Byte(b, i)
  {
    i :| i < |a| && a[i] != b[i];
  }

  lemma OtherWord(a: seq<bv8>, b: seq<bv8>, c: nat)
    requires DifferInChunk(a, b, c)
    ensures Word(a, c) != Word(b, c) && c < Chunks(a)
  {
    var i := SomeByteDiffers(a, b, c);
    var p, q, r, s := Byte(a, 4 * c), Byte(a, 4 * c + 1), Byte(a, 4 * c + 2), Byte(a, 4 * c + 3);
    var p', q', r', s' := Byte(b, 4 * c), Byte(b, 4 * c + 1), Byte(b, 4 * c + 2), Byte(b, 4 * c + 3);
  }

  /** A step tells apart different states, or different words. */
  ghost predicate Separates<T(!new)>(step: (T, T) -> T) {
    forall x, y, u, v :: x == y || u == v ==> (step(x, u) == step(y, v) <==> x == y && u == v)
  }

  lemma MixSeparates()
    ensures Separates(Mix)
  {
    forall x: bv32, y: bv32, u: bv32, v: bv32 | x == y || u == v ensures Mix(x, u) == Mix(y, v) <==> x == y && u == v {
    }
  }

  lemma {:induction false} FoldsDiffer<T(!new)>(step: (T, T) -> T, start: T, a: seq<T>, b: seq<T>, c: nat, n: nat)
    requires Separates(step) && n <= |a| == |b|
    requires forall i :: 0 <= i < |a| ==> (a[i] == b[i] <==> i != c)
    ensures FoldWith(step, start, a, n) == FoldWith(step, start, b, n) <==> n <= c
  {
    if n > 0 {
      FoldsDiffer(step, start, a, b, c, n - 1);
    }
  }

  lemma OneWordDiffers(a: seq<bv8>, b: seq<bv8>, c: nat)
    requires DifferInChunk(a, b, c)
    ensures Chunks(a) == Chunks(b) && c < Chunks(a)
    ensures forall d :: 0 <= d < Chunks(a) ==> (Words(a)[d] == Words(b)[d] <==> d != c)
  {
    OtherWord(a, b, c);
    forall d | 0 <= d < Chunks(a) ensures Words(a)[d] == Words(b)[d] <==> d != c {
      if d != c {
        SameWord(a, b, c, d);
      }
    }
  }

  /** Keys of equal length that differ in exactly one chunk get different
      addresses. */
  lemma OneChunkSeparates(a: seq<bv8>, b: seq<bv8>, c: nat)
    requires DifferInChunk(a, b, c)
    ensures AddrOf(Hash(a)) != AddrOf(Hash(b))
  {
    OneWordDiffers(a, b, c);
    MixSeparates();
    FoldsDiffer(Mix, 0, Words(a), Words(b), c, Chunks(a));
    AddrKeepsHash(Hash(a), Hash(b));
  }

  function Xor(a: seq<bv8>, b: seq<bv8>): seq<bv8>
    requires |a| == |b|
  {
    seq(|a|, i requires 0 <= i < |a| => a[i] ^ b[i])
  }

  lemma XorWord(a: seq<bv8>, b: seq<bv8>, c: nat)
    requires |a| == |b|
    ensures Word(Xor(a, b), c) == Word(a, c) ^ Word(b, c)
  {
  }

  lemma XorSwaps(x: bv32, y: bv32, u: bv32, v: bv32)
    ensures (x ^ y) ^ (u ^ v) == (x ^ u) ^ (y ^ v)
    ensures x ^ y == 0 <==> x == y
  {
  }

  predicate IsXor(x: bv32, y: bv32, z: bv32) {
    z == x ^ y
  }

  /** A step takes sums to sums; `sum(x, y, z)` says that `z` is the sum of `x` and
      `y`. */
  ghost predicate Linear<T(!new)>(step: (T, T) -> T, sum: (T, T, T) -> bool) {
    forall x, y, z, u, v, w {:trigger sum(step(x, u), step(y, v), step(z, w))} :: sum(x, y, z) && sum(u, v, w) ==> sum(step(x, u), step(y, v), step(z, w))
  }

  lemma {:induction false} FoldIsLinear<T(!new)>(step: (T, T) -> T, sum: (T, T, T) -> bool, start: T,
                                                 a: seq<T>, b: seq<T>, x: seq<T>, n: nat)
    requires Linear(step, sum) && sum(start, start, start) && n <= |a| == |b| == |x|
    requires forall i :: 0 <= i < |x| ==> sum(a[i], b[i], x[i])
    ensures sum(FoldWith(step, start, a, n), FoldWith(step, start, b, n), FoldWith(step, start, x, n))
  {
    if n > 0 {
      FoldIsLinear(step, sum, start, a, b, x, n - 1);
    }
  }

  lemma HashIsLinear(a: seq<bv8>, b: seq<bv8>)
    requires |a| == |b|
    ensures Hash(Xor(a, b)) == Hash(a) ^ Hash(b)
  {
    forall c | 0 <= c < Chunks(a) ensures IsXor(Words(a)[c], Words(b)[c], Words(Xor(a, b))[c]) {
      XorWord(a, b, c);
    }
    FoldIsLinear(Mix, IsXor, 0, Words(a), Words(b), Words(Xor(a, b)), Chunks(a));
  }

  lemma AddrXor(h: bv32, h': bv32, x: bv32)
    requires x == h ^ h'
    ensures AddrOf(h) == AddrOf(h') <==> x == 0
  {
    AddrKeepsHash(h, h');
    XorSwaps(h, h', 0, 0);
  }

  /** The addresses are not unique: two keys of equal length share one exactly
      when the bytes they differ by hash to zero. */
  lemma SharedAddressIff(a: seq<bv8>, b: seq<bv8>)
    requires |a| == |b|
    ensures AddrOf(Hash(a)) == AddrOf(Hash(b)) <==> Hash(Xor(a, b)) == 0
  {
    HashIsLinear(a, b);
    AddrXor(Hash(a), Hash(b), Hash(Xor(a, b)));
  }

  /** Two different 32-byte keys with one address. */
  lemma AddressesAreNotUnique()
    ensures exists a, b :: |a| == |b| == 32 && a != b && AddrOf(Hash(a)) == AddrOf(Hash(b))
  {
    var a, b := Sample(0, 0), Sample(1, 0x80);
    FoldsToZero(Words(a), 8);
    FoldsToZero(Words(b), 8);
    assert a[3] != b[3];
  }

  /** A 32-byte key with `x` and `y` as its first two words. */
  function Sample(x: bv8, y: bv8): seq<bv8> {
    [0, 0, 0, x, 0, 0, 0, y] + seq(24, i => 0)
  }

  lemma FoldsToZero(words: seq<bv32>, n: nat)
    requires 2 <= n <= |words| && words[1] == RotateLeft7(words[0])
    requires forall i :: 2 <= i < |words| ==> words[i] == 0
    ensures Fold(words, n) == 0
  {
    FirstFold(words);
    ZerosAfter(words, n);
  }

  lemma FirstFold(words: seq<bv32>)
    requires |words| >= 1
    ensures Fold(words, 1) == RotateLeft7(words[0])
  {
    FoldOne(Mix, 0, words);
  }

  lemma FoldOne<T>(step: (T, T) -> T, start: T, words: seq<T>)
    requires |words| >= 1
    ensures FoldWith(step, start, words, 1) == step(start, words[0])
  {
    assert FoldWith(step, start, words, 0) == start;
  }

  lemma {:induction false} ZerosAfter(words: seq<bv32>, n: nat)
    requires 2 <= n <= |words| && Fold(words, 2) == 0
    requires forall i :: 2 <= i < |words| ==> words[i] == 0
    ensures Fold(words, n) == 0
  {
    if n > 2 {
      ZerosAfter(words, n - 1);
    }
  }

}
