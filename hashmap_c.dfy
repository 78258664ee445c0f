/** The C toolchain's hash map: 256 buckets addressed by the home bucket
    of a key's NT hash, with linear probing. A bucket stores the hash
    itself, so equal hashes are equal keys. The operations take the hash
    `crypt` computed for the key. */
module HashmapC {
  import opened Base
  import opened Buckets

  /** Every bucket empty. */
  function Empty(): (bs: seq<Bucket>)
    ensures |bs| == MaxSize && forall k :: 0 <= k < MaxSize ==> !IsSet(bs[k])
  {
    seq(MaxSize, _ => EmptyBucket)
  }

  /** `hashmap_set`: the probe stops at a bucket that is empty or already
      holds the hash; that bucket is given the hash and the value. A probe
      that passes all 256 buckets answers `HASHMAP_FULL` and changes
      nothing. */
  function AfterSet(bs: seq<Bucket>, h: string, v: real): (r: (Status, seq<Bucket>))
    requires |bs| == MaxSize && IsNtHash(h)
    ensures |r.1| == MaxSize && r.0 != NotFound
  {
    match Probe(bs, h)
    case None => (Full, bs)
    case Some(d) => (Ok, bs[Slot(Home(h), d) := Bucket(h, v)])
  }

  /** `hashmap_del`: the bucket holding the hash, if the probe reaches
      one, is emptied; nothing else changes. */
  function AfterDel(bs: seq<Bucket>, h: string): (r: seq<Bucket>)
    requires |bs| == MaxSize && IsNtHash(h)
    ensures |r| == MaxSize
  {
    match Probe(bs, h)
    case None => bs
    case Some(d) =>
      var k := Slot(Home(h), d);
      if IsSet(bs[k]) then bs[k := bs[k].(hash := "")] else bs
  }

  /** A successful set changes exactly one bucket, to the hash and the
      value; a full map is left as it was. */
  lemma SetChangesOneBucket(bs: seq<Bucket>, h: string, v: real)
    requires |bs| == MaxSize && IsNtHash(h)
    ensures var (status, bs') := AfterSet(bs, h, v);
            (status == Full ==> bs' == bs) &&
            (status == Ok ==> exists k :: 0 <= k < MaxSize && bs' == bs[k := Bucket(h, v)] &&
                                          (IsSet(bs[k]) ==> bs[k].hash == h))
  {
    if Probe(bs, h).Some? {
      var k := Slot(Home(h), Probe(bs, h).value);
      assert AfterSet(bs, h, v).1 == bs[k := Bucket(h, v)];
    }
  }

  /** The probe from `home` visits every bucket once. */
  lemma ProbeCovers(home: nat, k: nat)
    requires home < MaxSize && k < MaxSize
    ensures Slot(home, (k - home + MaxSize) % MaxSize) == k
  {
  }

  /** The map is full exactly when every bucket holds some other hash. */
  lemma FullExactlyWithoutRoom(bs: seq<Bucket>, h: string, v: real)
    requires |bs| == MaxSize && IsNtHash(h)
    ensures AfterSet(bs, h, v).0 == Full <==>
            forall k :: 0 <= k < MaxSize ==> IsSet(bs[k]) && bs[k].hash != h
  {
    var home := Home(h);
    StopsFirst(bs, home, h, 0);
    if Probe(bs, h).None? {
      forall k | 0 <= k < MaxSize
        ensures IsSet(bs[k]) && bs[k].hash != h
      {
        ProbeCovers(home, k);
        assert !Stops(bs[Slot(home, (k - home + MaxSize) % MaxSize)], h);
      }
    } else {
      assert Stops(bs[Slot(home, Probe(bs, h).value)], h);
    }
  }

  /** A get after a successful set answers the value just set. */
  lemma GetAfterSet(bs: seq<Bucket>, h: string, v: real)
    requires |bs| == MaxSize && IsNtHash(h) && AfterSet(bs, h, v).0 == Ok
    ensures Lookup(AfterSet(bs, h, v).1, h) == Some(v)
  {
    LookupFindsStored(bs, h, Probe(bs, h).value, Bucket(h, v));
  }

  /** Setting one key does not change what a get of another key that is
      found answers. */
  lemma SetKeepsOtherKeys(bs: seq<Bucket>, h: string, v: real, h': string)
    requires |bs| == MaxSize && IsNtHash(h) && IsNtHash(h') && h != h'
    requires Lookup(bs, h').Some?
    ensures Lookup(AfterSet(bs, h, v).1, h') == Lookup(bs, h')
  {
    var bs' := AfterSet(bs, h, v).1;
    if Probe(bs, h).Some? {
      var k := Slot(Home(h), Probe(bs, h).value);
      var home', d' := Home(h'), Probe(bs, h').value;
      StopsFirst(bs, home', h', 0);
      assert bs' == bs[k := Bucket(h, v)];
      assert k != Slot(home', d');
      forall j | 0 <= j < d'
        ensures !Stops(bs'[Slot(home', j)], h')
      {
        assert !Stops(bs[Slot(home', j)], h');
      }
      StopsAt(bs', home', h', 0, d');
    }
  }

  /** A get after a delete of the same key finds nothing. */
  lemma GetAfterDel(bs: seq<Bucket>, h: string)
    requires |bs| == MaxSize && IsNtHash(h)
    ensures Lookup(AfterDel(bs, h), h) == None
  {
    var bs' := AfterDel(bs, h);
    if Probe(bs, h).Some? && IsSet(bs[Slot(Home(h), Probe(bs, h).value)]) {
      var home, d := Home(h), Probe(bs, h).value;
      StopsFirst(bs, home, h, 0);
      forall j | 0 <= j < d
        ensures bs'[Slot(home, j)] == bs[Slot(home, j)]
      {
        assert Slot(home, j) != Slot(home, d);
      }
      StopsAt(bs', home, h, 0, d);
    }
  }

  /** Deleting never moves a bucket back into the emptied one, so a key
      that had probed past the deleted one is no longer found: with two
      keys sharing a home bucket, deleting the first hides the second. */
  lemma DelCanHideLaterKey(h1: string, h2: string)
    requires IsNtHash(h1) && IsNtHash(h2) && h1 != h2 && Home(h1) == Home(h2)
    ensures var bs := AfterSet(AfterSet(Empty(), h1, 1.0).1, h2, 2.0).1;
            Lookup(bs, h2) == Some(2.0) && Lookup(AfterDel(bs, h1), h2) == None
  {
    var home := Home(h1);
    var bs1 := AfterSet(Empty(), h1, 1.0).1;
    StopsAt(Empty(), home, h1, 0, 0);
    assert bs1 == Empty()[home := Bucket(h1, 1.0)];
    assert Slot(home, 1) != home;
    StopsAt(bs1, home, h2, 0, 1);
    var bs2 := AfterSet(bs1, h2, 2.0).1;
    GetAfterSet(bs1, h2, 2.0);
    assert bs2 == bs1[Slot(home, 1) := Bucket(h2, 2.0)];
    StopsAt(bs2, home, h1, 0, 0);
    var bs3 := AfterDel(bs2, h1);
    assert bs3 == bs2[home := Bucket("", 1.0)];
    StopsAt(bs3, home, h2, 0, 0);
  }

  class Hashmap {
    const buckets: array<Bucket>

    predicate Valid()
      reads this
    {
      buckets.Length == MaxSize
    }

    /** `hashmap_init`: every bucket empty, with value 0. */
    constructor ()
      ensures Valid() && fresh(buckets) && buckets[..] == Empty()
    {
      var a := new Bucket[MaxSize];
      for i := 0 to MaxSize
        invariant forall k :: 0 <= k < i ==> a[k] == EmptyBucket
      {
        a[i] := EmptyBucket;
      }
      buckets := a;
    }

    /** `hashmap_set`. */
    method Set(hash: string, value: real) returns (status: Status)
      requires Valid() && IsNtHash(hash)
      modifies buckets
      ensures (status, buckets[..]) == AfterSet(old(buckets[..]), hash, value)
    {
      ghost var bs := buckets[..];
      var idx := Hash2Int(hash);
      var i := 0;
      while i < MaxSize
        invariant i <= MaxSize && buckets[..] == bs
        invariant StopFrom(bs, idx, hash, i) == Probe(bs, hash)
      {
        var k := Slot(idx, i);
        var b := buckets[k];
        assert b == bs[k];
        if IsSet(b) {
          if b.hash != hash {
            i := i + 1;
            continue;
          }
        } else {
          b := b.(hash := hash);
        }
        assert b.(value := value) == Bucket(hash, value);
        buckets[k] := b.(value := value);
        assert buckets[..] == bs[k := Bucket(hash, value)];
        assert StopFrom(bs, idx, hash, i) == Some(i);
        return Ok;
      }
      return Full;
    }

    /** `hashmap_get`: `None` stands for the `NAN` it answers when the
        hash is not found. */
    method Get(hash: string) returns (value: Option<real>)
      requires Valid() && IsNtHash(hash)
      ensures value == Lookup(buckets[..], hash)
    {
      ghost var bs := buckets[..];
      var idx := Hash2Int(hash);
      for i := 0 to MaxSize
        invariant StopFrom(bs, idx, hash, i) == Probe(bs, hash)
      {
        var b := buckets[Slot(idx, i)];
        assert b == bs[Slot(idx, i)];
        if !IsSet(b) {
          return None;
        }
        if b.hash == hash {
          return Some(b.value);
        }
      }
      return None;
    }

    /** `hashmap_del`: clears the first byte of the bucket holding the
        hash, which empties it. */
    method Del(hash: string)
      requires Valid() && IsNtHash(hash)
      modifies buckets
      ensures buckets[..] == AfterDel(old(buckets[..]), hash)
    {
      ghost var bs := buckets[..];
      var idx := Hash2Int(hash);
      for i := 0 to MaxSize
        invariant buckets[..] == bs
        invariant StopFrom(bs, idx, hash, i) == Probe(bs, hash)
      {
        var k := Slot(idx, i);
        var b := buckets[k];
        assert b == bs[k];
        if !IsSet(b) {
          return;
        }
        if b.hash != hash {
          continue;
        }
        buckets[k] := b.(hash := "");
        return;
      }
    }
  }
}
