/** The C++ toolchain's hash map: the C map's buckets and probe, except
    that `set` marks a bucket it fills away from the home bucket by
    writing `p` over the first character of the stored hash, and `remove`
    was meant to move marked buckets back over the removed one. */
module HashmapCpp {
  import opened Base
  import opened Buckets
  import HashmapC

  /** The hash text `set` leaves in a bucket at probe distance `d`. */
  function Marked(h: string, d: nat): (m: string)
    requires h != ""
    ensures |m| == |h| && m[1..] == h[1..]
    ensures d == 0 ==> m == h
    ensures d != 0 ==> m[0] == 'p'
  {
    if d != 0 then ['p'] + h[1..] else h
  }

  /** `IS_BUCKET_PROBED`: the first character is the mark. */
  predicate IsProbed(b: Bucket)
  {
    b.hash != "" && b.hash[0] == 'p'
  }

  /** `hashmap::set`: as the C map's set, but the bucket filled at a
      probe distance other than 0 holds the marked hash. */
  function AfterSet(bs: seq<Bucket>, h: string, v: real): (r: (Status, seq<Bucket>))
    requires |bs| == MaxSize && IsNtHash(h)
    ensures |r.1| == MaxSize && r.0 != NotFound
  {
    match Probe(bs, h)
    case None => (Full, bs)
    case Some(d) => (Ok, bs[Slot(Home(h), d) := Bucket(Marked(h, d), v)])
  }

  /** Whether or not the bucket was marked, the status and the set of
      buckets written are those of the C map; only the stored text of a
      key placed away from its home bucket differs. */
  lemma SetAsInC(bs: seq<Bucket>, h: string, v: real)
    requires |bs| == MaxSize && IsNtHash(h)
    ensures var (status, bs') := AfterSet(bs, h, v);
            var (status', cs) := HashmapC.AfterSet(bs, h, v);
            status == status' &&
            forall k :: 0 <= k < MaxSize ==> bs'[k].value == cs[k].value && IsSet(bs'[k]) == IsSet(cs[k])
  {
  }

  /** A key whose home bucket was free or already held it is found after
      it is set. */
  lemma GetAfterSetAtHome(bs: seq<Bucket>, h: string, v: real)
    requires |bs| == MaxSize && IsNtHash(h) && Probe(bs, h) == Some(0)
    ensures AfterSet(bs, h, v).0 == Ok && Lookup(AfterSet(bs, h, v).1, h) == Some(v)
  {
    LookupFindsStored(bs, h, 0, Bucket(h, v));
  }

  /** The bucket filled away from the home bucket never holds the key's
      hash, which begins with `$`, so no probe for the key stops there
      with its value. */
  lemma MarkedBucketNeverMatches(bs: seq<Bucket>, h: string, v: real)
    requires |bs| == MaxSize && IsNtHash(h) && Probe(bs, h).Some? && Probe(bs, h).value != 0
    ensures var k := Slot(Home(h), Probe(bs, h).value);
            AfterSet(bs, h, v).1[k].hash != h && IsProbed(AfterSet(bs, h, v).1[k])
  {
    assert h[0] == h[..4][0] == '$';
  }

  /** With two keys sharing a home bucket, the second, set after the
      first, is placed one bucket on and marked, and a get of it then
      answers nothing. */
  lemma ProbedKeyIsLost(h1: string, h2: string)
    requires IsNtHash(h1) && IsNtHash(h2) && h1 != h2 && Home(h1) == Home(h2)
    ensures var bs := AfterSet(AfterSet(HashmapC.Empty(), h1, 1.0).1, h2, 2.0);
            bs.0 == Ok && Lookup(bs.1, h2) == None
  {
    var home := Home(h1);
    var bs0 := HashmapC.Empty();
    StopsAt(bs0, home, h1, 0, 0);
    var bs1 := AfterSet(bs0, h1, 1.0).1;
    assert bs1 == bs0[home := Bucket(h1, 1.0)];
    assert Slot(home, 1) != home && Slot(home, 2) != home && Slot(home, 2) != Slot(home, 1);
    StopsAt(bs1, home, h2, 0, 1);
    var bs2 := AfterSet(bs1, h2, 2.0).1;
    assert bs2 == bs1[Slot(home, 1) := Bucket(Marked(h2, 1), 2.0)];
    assert h2[0] == h2[..4][0] == '$';
    assert !IsSet(bs2[Slot(home, 2)]);
    StopsAt(bs2, home, h2, 0, 2);
  }

  class Hashmap {
    const buckets: array<Bucket>

    predicate Valid()
      reads this
    {
      buckets.Length == MaxSize
    }

    /** `hashmap::init`: every bucket empty, with value 0. */
    constructor ()
      ensures Valid() && fresh(buckets) && buckets[..] == HashmapC.Empty()
    {
      var a := new Bucket[MaxSize];
      for i := 0 to MaxSize
        invariant forall k :: 0 <= k < i ==> a[k] == EmptyBucket
      {
        a[i] := EmptyBucket;
      }
      buckets := a;
    }

    /** `hashmap::set`. */
    method Set(hash: string, value: real) returns (status: Status)
      requires Valid() && IsNtHash(hash)
      modifies buckets
      ensures (status, buckets[..]) == AfterSet(old(buckets[..]), hash, value)
    {
      ghost var bs := buckets[..];
      var idx := Hash2Int(hash);
      var i := 0;
      while i < MaxSize
        invariant i <= MaxSize && buckets[..] == bs
        invariant StopFrom(bs, idx, hash, i) == Probe(bs, hash)
      {
        var k := Slot(idx, i);
        var b := buckets[k];
        assert b == bs[k];
        if IsSet(b) {
          if b.hash != hash {
            i := i + 1;
            continue;
          }
        } else {
          b := b.(hash := hash);
        }
        if i != 0 {
          b := b.(hash := ['p'] + b.hash[1..]);
        }
        assert b.(value := value) == Bucket(Marked(hash, i), value);
        buckets[k] := b.(value := value);
        assert buckets[..] == bs[k := Bucket(Marked(hash, i), value)];
        assert StopFrom(bs, idx, hash, i) == Some(i);
        return Ok;
      }
      return Full;
    }

    /** `hashmap::get`: `None` stands for `NAN`. */
    method Get(hash: string) returns (value: Option<real>)
      requires Valid() && IsNtHash(hash)
      ensures value == Lookup(buckets[..], hash)
    {
      ghost var bs := buckets[..];
      var idx := Hash2Int(hash);
      for i := 0 to MaxSize
        invariant StopFrom(bs, idx, hash, i) == Probe(bs, hash)
      {
        var b := buckets[Slot(idx, i)];
        assert b == bs[Slot(idx, i)];
        if !IsSet(b) {
          return None;
        }
        if b.hash == hash {
          return Some(b.value);
        }
      }
      return None;
    }

    /** `hashmap::remove`. Its loop that moves marked buckets back tests
        `IS_BUCKET_PROBED`, which looks at the bucket being removed rather
        than at the next one; that bucket holds the key's hash, which
        begins with `$`, so nothing is moved and the bucket is emptied,
        exactly as the C map's delete does. */
    method Remove(hash: string)
      requires Valid() && IsNtHash(hash)
      modifies buckets
      ensures buckets[..] == HashmapC.AfterDel(old(buckets[..]), hash)
    {
      ghost var bs := buckets[..];
      var idx := Hash2Int(hash);
      for i := 0 to MaxSize
        invariant buckets[..] == bs
        invariant StopFrom(bs, idx, hash, i) == Probe(bs, hash)
      {
        var k := Slot(idx, i);
        var b := buckets[k];
        assert b == bs[k];
        if !IsSet(b) {
          return;
        }
        if b.hash != hash {
          continue;
        }
        assert hash[0] == hash[..4][0] == '$';
        if IsProbed(b) {
          assert false;
        }
        buckets[k] := b.(hash := "");
        return;
      }
    }
  }
}
