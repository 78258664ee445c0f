/** What the C and C++ hash maps share: 256 buckets, each holding the
    text of a key's NT hash (as a C string: empty when its first byte is
    0) and a value; the home bucket a hash selects; and the linear probe
    both `get` loops perform. The hashing itself (`crypt`) is not part of
    this model: the operations take the hash string it produced. */
module Buckets {
  import opened Base

  /** `MAX_SIZE`. */
  const MaxSize: nat := 256

  datatype Bucket = Bucket(hash: string, value: real)

  /** What `init` stores in every bucket: first hash byte 0, value 0. */
  const EmptyBucket := Bucket("", 0.0)

  /** `enum hashmap_error`. */
  datatype Status = Ok | NotFound | Full

  /** `IS_BUCKET_SET`: the hash text is not empty. */
  predicate IsSet(b: Bucket)
  {
    b.hash != ""
  }

  /** What `hash2int` asserts of a hash: the `$3$$` signature of the NT
      algorithm and 36 characters. The four characters it folds are ASCII,
      as the hexadecimal digits `crypt` writes there are. */
  predicate IsNtHash(h: string)
  {
    |h| == 36 && h[..4] == "$3$$" && forall i :: 4 <= i < 8 ==> h[i] as int < 128
  }

  /** The characters of `s` as the digits of a base-256 number, first
      character most significant. */
  function Fold(s: string): nat
  {
    if s == [] then 0 else Fold(s[..|s| - 1]) * 256 + s[|s| - 1] as int
  }

  /** The home bucket of a hash: the four characters after the signature,
      folded big-endian, modulo `MAX_SIZE`. */
  function Home(h: string): (home: nat)
    requires IsNtHash(h)
    ensures home < MaxSize
  {
    Fold(h[4..8]) % MaxSize
  }

  /** Only the last folded character decides the home bucket, and the
      fold fits a 32-bit `int`. */
  lemma HomeIsEighthCharacter(h: string)
    requires IsNtHash(h)
    ensures Home(h) == h[7] as int
    ensures Fold(h[4..8]) < 0x8000_0000
  {
    assert h[4..5][..0] == [];
    assert Fold(h[4..5]) == h[4] as int;
    assert h[4..6][..1] == h[4..5];
    assert Fold(h[4..6]) == h[4] as int * 256 + h[5] as int;
    assert h[4..7][..2] == h[4..6];
    assert Fold(h[4..7]) == (h[4] as int * 256 + h[5] as int) * 256 + h[6] as int;
    assert h[4..8][..3] == h[4..7];
    assert Fold(h[4..8]) == Fold(h[4..7]) * 256 + h[7] as int;
  }

  /** `hash2int`: folds the four characters after the signature into an
      `int`, one byte at a time, and answers it modulo `MAX_SIZE`. */
  method Hash2Int(hash: string) returns (r: nat)
    requires IsNtHash(hash)
    ensures r == Home(hash) && r == hash[7] as int
  {
    var ret := 0;
    var i := 4;
    while i < 8
      invariant 4 <= i <= 8
      invariant ret == Fold(hash[4..i])
    {
      assert hash[4..i + 1][..i - 4] == hash[4..i];
      // `ret <<= 8; ret |= c` with the low byte clear is `ret * 256 + c`.
      ret := ret * 256 + hash[i] as int;
      i := i + 1;
    }
    HomeIsEighthCharacter(hash);
    r := ret % MaxSize;
  }

  /** `GET_BUCKET(hm, home + i)`: the bucket at probe distance `i`. */
  function Slot(home: nat, i: nat): (k: nat)
    ensures k < MaxSize
  {
    (home + i) % MaxSize
  }

  /** A probe for `h` stops at an empty bucket or at one holding `h`. */
  predicate Stops(b: Bucket, h: string)
  {
    !IsSet(b) || b.hash == h
  }

  /** The probe distance, from `i` on, at which a probe for `h` from
      `home` stops, or `None` when it passes every remaining distance. */
  function StopFrom(bs: seq<Bucket>, home: nat, h: string, i: nat): (r: Option<nat>)
    requires |bs| == MaxSize
    ensures r.Some? ==> i <= r.value < MaxSize && Stops(bs[Slot(home, r.value)], h)
    decreases MaxSize - i
  {
    if i >= MaxSize then None
    else if Stops(bs[Slot(home, i)], h) then Some(i)
    else StopFrom(bs, home, h, i + 1)
  }

  /** A probe passes every bucket before the one it stops at, and every
      remaining bucket when it does not stop. */
  lemma {:induction false} StopsFirst(bs: seq<Bucket>, home: nat, h: string, i: nat)
    requires |bs| == MaxSize
    ensures var r := StopFrom(bs, home, h, i);
            (r.Some? ==> forall j :: i <= j < r.value ==> !Stops(bs[Slot(home, j)], h)) &&
            (r.None? ==> forall j :: i <= j < MaxSize ==> !Stops(bs[Slot(home, j)], h))
    decreases MaxSize - i
  {
    if i < MaxSize && !Stops(bs[Slot(home, i)], h) {
      StopsFirst(bs, home, h, i + 1);
    }
  }

  /** The probe for `h` from its home bucket. */
  function Probe(bs: seq<Bucket>, h: string): Option<nat>
    requires |bs| == MaxSize && IsNtHash(h)
  {
    StopFrom(bs, Home(h), h, 0)
  }

  /** `get`: the value of the first bucket holding `h` on the probe path,
      or `None` (the source's `NAN`) at the first empty bucket or after
      `MAX_SIZE` probes. */
  function Lookup(bs: seq<Bucket>, h: string): (r: Option<real>)
    requires |bs| == MaxSize && IsNtHash(h)
  {
    match Probe(bs, h)
    case None => None
    case Some(i) => var b := bs[Slot(Home(h), i)]; if IsSet(b) then Some(b.value) else None
  }

  /** The probe is not disturbed by a write at the bucket where it stops:
      a bucket holding `h` written there is found with its value. */
  lemma LookupFindsStored(bs: seq<Bucket>, h: string, i: nat, b: Bucket)
    requires |bs| == MaxSize && IsNtHash(h) && Probe(bs, h) == Some(i) && b.hash == h
    ensures Lookup(bs[Slot(Home(h), i) := b], h) == Some(b.value)
  {
    var home := Home(h);
    var bs' := bs[Slot(home, i) := b];
    StopsFirst(bs, home, h, 0);
    forall j | 0 <= j < i
      ensures bs'[Slot(home, j)] == bs[Slot(home, j)]
    {
      assert Slot(home, j) != Slot(home, i);
    }
    StopsAt(bs', home, h, 0, i);
  }

  /** A probe that passes distances `i` to `d - 1` and stops at `d`. */
  lemma {:induction false} StopsAt(bs: seq<Bucket>, home: nat, h: string, i: nat, d: nat)
    requires |bs| == MaxSize && i <= d < MaxSize && Stops(bs[Slot(home, d)], h)
    requires forall j :: i <= j < d ==> !Stops(bs[Slot(home, j)], h)
    ensures StopFrom(bs, home, h, i) == Some(d)
    decreases d - i
  {
    if i < d {
      StopsAt(bs, home, h, i + 1, d);
    }
  }
}
