/** Vocabulary shared by the models: machine words, byte strings, little-endian
    integers and concatenation of pieces. */
module Common {

  datatype Option<+T> = None | Some(value: T)

  newtype byte = b: int | 0 <= b < 256
  type Bytes = seq<byte>

  /** A 32-byte hash, upload id or captcha id. */
  type Digest = d: Bytes | |d| == 32 witness seq(32, _ => 0)

  const TWO_TO_THE_64: int := 0x1_0000_0000_0000_0000
  type u64 = n: int | 0 <= n < TWO_TO_THE_64

  /** The value a `u64` holds after an unchecked operation: release builds
      switch overflow checks off (Cargo.toml), so arithmetic wraps. */
  function Wrap(n: int): u64 {
    n % TWO_TO_THE_64
  }

  lemma WrapIdentity(n: u64)
    ensures Wrap(n) == n
  {
  }

  function Min(a: int, b: int): int {
    if a <= b then a else b
  }

  function Max(a: int, b: int): int {
    if a >= b then a else b
  }

  predicate NoNul(b: Bytes) {
    0 !in b
  }

  // ---------- little-endian integers ----------

  function Pow256(width: nat): (r: nat)
    ensures r > 0
  {
    if width == 0 then 1 else 256 * Pow256(width - 1)
  }

  function ToLe(v: nat, width: nat): (r: Bytes)
    ensures |r| == width
  {
    if width == 0 then [] else [(v % 256) as byte] + ToLe(v / 256, width - 1)
  }

  function FromLe(b: Bytes): nat {
    if b == [] then 0 else b[0] as nat + 256 * FromLe(b[1..])
  }

  /** The digits: the least significant byte comes first. */
  lemma {:induction false} LeDigits(v: nat, width: nat, i: nat)
    requires i < width
    ensures ToLe(v, width)[i] as nat == v / Pow256(i) % 256
  {
    if i == 0 {
    } else {
      LeDigits(v / 256, width - 1, i - 1);
      DivideTwice(v, Pow256(i - 1));
    }
  }

  lemma DivideTwice(v: nat, p: nat)
    requires p > 0
    ensures v / 256 / p == v / (256 * p)
  {
    var q := v / 256 / p;
    assert q * p <= v / 256 < (q + 1) * p;
    assert 256 * (q * p) <= v;
    assert v < 256 * ((q + 1) * p);
    Quotient(v, 256 * p, q);
  }

  lemma Quotient(v: nat, d: nat, q: nat)
    requires d > 0 && q * d <= v < (q + 1) * d
    ensures v / d == q
  {
    var r := v / d;
    assert r * d <= v < (r + 1) * d;
    assert r < q ==> (r + 1) * d <= q * d;
    assert q < r ==> (q + 1) * d <= r * d;
  }

  lemma {:induction false} LeRoundTrip(v: nat, width: nat)
    requires v < Pow256(width)
    ensures FromLe(ToLe(v, width)) == v
  {
    if width == 0 {
    } else {
      LeRoundTrip(v / 256, width - 1);
      assert ToLe(v, width)[1..] == ToLe(v / 256, width - 1);
    }
  }

  lemma LowByte(low: byte, rest: nat)
    ensures (low as nat + 256 * rest) % 256 == low as nat
    ensures (low as nat + 256 * rest) / 256 == rest
  {
  }

  lemma {:induction false} LeRoundTripBytes(b: Bytes)
    ensures ToLe(FromLe(b), |b|) == b
  {
    if b == [] {
    } else {
      LeRoundTripBytes(b[1..]);
      LowByte(b[0], FromLe(b[1..]));
      assert b == [b[0]] + b[1..];
    }
  }

  lemma Pow256Widths()
    ensures Pow256(4) == 0x1_0000_0000
    ensures Pow256(8) == TWO_TO_THE_64
  {
    assert Pow256(4) == 256 * (256 * (256 * (256 * Pow256(0))));
    assert Pow256(8) == 256 * (256 * (256 * (256 * Pow256(4))));
  }

  /** A `u64` field of a frame is read back from its eight bytes. */
  lemma U64RoundTrip(v: u64)
    ensures FromLe(ToLe(v, 8)) == v
  {
    Pow256Widths();
    LeRoundTrip(v, 8);
  }

  // ---------- pieces ----------

  lemma Assoc<T>(a: seq<T>, b: seq<T>, c: seq<T>)
    ensures (a + b) + c == a + (b + c)
  {
  }

  lemma Between<T>(a: seq<T>, b: seq<T>, c: seq<T>)
    ensures (a + b + c)[|a|..|a| + |b|] == b
    ensures (a + b + c)[|a| + |b|..] == c
  {
  }

  function Concat<T>(pieces: seq<seq<T>>): seq<T> {
    if pieces == [] then [] else pieces[0] + Concat(pieces[1..])
  }

  lemma {:induction false} ConcatAppend<T>(a: seq<seq<T>>, b: seq<seq<T>>)
    ensures Concat(a + b) == Concat(a) + Concat(b)
  {
    if a == [] {
      assert a + b == b;
    } else {
      assert (a + b)[1..] == a[1..] + b;
      ConcatAppend(a[1..], b);
      Assoc(a[0], Concat(a[1..]), Concat(b));
    }
  }

  lemma ConcatSnoc<T>(a: seq<seq<T>>, last: seq<T>)
    ensures Concat(a + [last]) == Concat(a) + last
  {
    ConcatAppend(a, [last]);
    assert Concat([last]) == last + Concat<T>([]);
  }

  // ---------- places ----------

  /** Places in ascending order. */
  ghost predicate Ascending(at: seq<nat>) {
    forall i, j :: 0 <= i < j < |at| ==> at[i] < at[j]
  }

  /** `part` is what `s` holds at the places `at`, in order. */
  ghost predicate At<T>(part: seq<T>, s: seq<T>, at: seq<nat>) {
    && |part| == |at| && Ascending(at)
    && forall i :: 0 <= i < |at| ==> at[i] < |s| && part[i] == s[at[i]]
  }

  // ---------- repetition ----------

  /** `n` steps of `f`. */
  function Iterate<S>(f: S -> S, n: nat, s: S): S {
    if n == 0 then s else Iterate(f, n - 1, f(s))
  }

  lemma {:induction false} IterateAdd<S>(f: S -> S, m: nat, n: nat, s: S)
    ensures Iterate(f, m + n, s) == Iterate(f, n, Iterate(f, m, s))
  {
    if m > 0 {
      IterateAdd(f, m - 1, n, f(s));
    }
  }

  lemma {:induction false} IterateFixed<S>(f: S -> S, n: nat, s: S)
    requires f(s) == s
    ensures Iterate(f, n, s) == s
  {
    if n > 0 {
      IterateFixed(f, n - 1, s);
    }
  }

  // ---------- sequences as multisets ----------

  lemma MultisetCons<T>(x: T, s: seq<T>)
    ensures multiset([x] + s) == multiset{x} + multiset(s)
  {
  }

  lemma WithoutOne<T>(s: seq<T>, j: nat)
    requires j < |s|
    ensures multiset(s[..j] + s[j + 1..]) == multiset(s) - multiset{s[j]}
  {
    assert s == s[..j] + ([s[j]] + s[j + 1..]);
    assert multiset(s) == multiset(s[..j]) + (multiset{s[j]} + multiset(s[j + 1..]));
  }

  lemma WithoutHead<T>(s: seq<T>)
    requires s != []
    ensures multiset(s[1..]) == multiset(s) - multiset{s[0]}
    ensures multiset(s) == multiset{s[0]} + multiset(s[1..])
  {
    assert s == [s[0]] + s[1..];
  }

  /** The head of `a` occurs in `b`, and taking it out of both leaves a part. */
  lemma FindsHead<T>(a: seq<T>, b: seq<T>) returns (j: nat)
    requires a != [] && multiset(a) <= multiset(b)
    ensures j < |b| && b[j] == a[0]
    ensures multiset(a[1..]) <= multiset(b[..j] + b[j + 1..])
    ensures multiset(a) == multiset(b) ==> multiset(a[1..]) == multiset(b[..j] + b[j + 1..])
  {
    assert a[0] in multiset(a);
    assert a[0] in multiset(b);
    j :| 0 <= j < |b| && b[j] == a[0];
    WithoutOne(b, j);
    WithoutHead(a);
  }

  /** `order` lists every element of `keys` once: the order in which an
      iterator over a hash table or a sled tree visits its keys. */
  ghost predicate Enumerates<T(!new)>(order: seq<T>, keys: set<T>) {
    && (forall i, j :: 0 <= i < j < |order| ==> order[i] != order[j])
    && (forall k :: k in keys <==> k in order)
  }

}
