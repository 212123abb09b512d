/** Types shared by every module: optional values, bytes, numbered packs and the
    32-bit counters that number them. */
module Basics {

  datatype Option<+T> = None | Some(value: T)

  type Byte = b: int | 0 <= b < 256

  type Bytes = seq<Byte>

  /** A data pack: the id of its header and its payload. */
  datatype Pack = Pack(id: nat, data: Bytes)

  /** Pack ids are `u32`; both tunnels count with wrapping addition. */
  const ID_MODULUS: nat := 0x1_0000_0000

  function NextId(id: nat): (r: nat)
    ensures r < ID_MODULUS
    ensures id + 1 < ID_MODULUS ==> r == id + 1
    ensures id + 1 == 4294967296 ==> r == 0
  {
    (id + 1) % ID_MODULUS
  }

  /** The pack that the `i`-th payload (counted from 1) travels in. */
  function Numbered(payloads: seq<Bytes>, id: nat): Pack
    requires 1 <= id <= |payloads|
  {
    Pack(id, payloads[id - 1])
  }

  /** A pack is genuine when it carries the payload its id stands for. */
  predicate Genuine(payloads: seq<Bytes>, p: Pack) {
    1 <= p.id <= |payloads| && p.data == payloads[p.id - 1]
  }

  /** The first `k` payloads as packs, in order. */
  function FirstPacks(payloads: seq<Bytes>, k: nat): (r: seq<Pack>)
    requires k <= |payloads|
    ensures |r| == k
    ensures forall i :: 0 <= i < k ==> r[i] == Numbered(payloads, i + 1)
  {
    seq(k, i requires 0 <= i < k => Numbered(payloads, i + 1))
  }

  lemma FirstPacksStep(payloads: seq<Bytes>, k: nat)
    requires k < |payloads|
    ensures FirstPacks(payloads, k + 1) == FirstPacks(payloads, k) + [Numbered(payloads, k + 1)]
  {
  }

  lemma FirstPacksGrow(payloads: seq<Bytes>, more: Bytes, k: nat)
    requires k <= |payloads|
    ensures FirstPacks(payloads + [more], k) == FirstPacks(payloads, k)
  {
  }

  function Ids(packs: seq<Pack>): (r: seq<nat>)
    ensures |r| == |packs| && forall i :: 0 <= i < |r| ==> r[i] == packs[i].id
  {
    seq(|packs|, i requires 0 <= i < |packs| => packs[i].id)
  }

  /** The id `n` steps after `id`, wrapping. */
  function IdAfter(id: nat, n: nat): nat {
    if n == 0 then id else NextId(IdAfter(id, n - 1))
  }

  /** `n` consecutive ids, beginning with `id`. */
  function IdsFrom(id: nat, n: nat): (r: seq<nat>)
    ensures |r| == n
    ensures forall i :: 0 <= i < n ==> r[i] == IdAfter(id, i)
  {
    if n == 0 then [] else IdsFrom(id, n - 1) + [IdAfter(id, n - 1)]
  }

  lemma {:induction false} IdAfterNoWrap(id: nat, n: nat)
    requires id + n < ID_MODULUS
    ensures IdAfter(id, n) == id + n
  {
    if n == 0 {
    } else {
      IdAfterNoWrap(id, n - 1);
    }
  }

  lemma RemovalShrinks<K, V>(m: map<K, V>, k: K)
    requires k in m
    ensures |m - {k}| == |m| - 1
  {
    assert m.Keys == (m - {k}).Keys + {k};
    assert |m.Keys| == |m| && |(m - {k}).Keys| == |m - {k}|;
  }

  lemma InsertionGrows<K, V>(m: map<K, V>, k: K, v: V)
    ensures |m[k := v]| <= |m| + 1
  {
    assert m[k := v].Keys == m.Keys + {k};
    assert |m.Keys| == |m| && |m[k := v].Keys| == |m[k := v]|;
  }

  // ----- sequences of sequences -----

  function Flat<T>(chunks: seq<seq<T>>): seq<T> {
    if chunks == [] then [] else chunks[0] + Flat(chunks[1..])
  }

  lemma {:induction false} FlatConcat<T>(xs: seq<seq<T>>, ys: seq<seq<T>>)
    ensures Flat(xs + ys) == Flat(xs) + Flat(ys)
  {
    if xs == [] {
      assert xs + ys == ys;
    } else {
      assert (xs + ys)[1..] == xs[1..] + ys;
      FlatConcat(xs[1..], ys);
    }
  }

  lemma FlatSnoc<T>(xs: seq<seq<T>>, x: seq<T>)
    ensures Flat(xs + [x]) == Flat(xs) + x
  {
    FlatConcat(xs, [x]);
    assert Flat([x]) == x + Flat([x][1..]);
  }

  /** The payloads of packs. */
  function Payloads(packs: seq<Pack>): (r: seq<Bytes>)
    ensures |r| == |packs| && forall i :: 0 <= i < |r| ==> r[i] == packs[i].data
  {
    seq(|packs|, i requires 0 <= i < |packs| => packs[i].data)
  }

  // ----- division -----

  lemma Multiple(d: int, n: int)
    requires n >= 0
    ensures (d >= 1 ==> d * n >= n) && (d <= -1 ==> d * n <= -n)
  {
  }

  /** What division says of a sum. */
  lemma QuotientOf(a: nat, q: nat, r: nat, n: nat)
    requires a == q * n + r && r < n
    ensures a % n == r
  {
    var d := a / n - q;
    assert d * n == r - a % n;
    Multiple(d, n);
  }
}
