/** Copying a lexeme span `[start, end)` of the source buffer into a
    NUL-terminated character array. */
module Substring {

  /** The fixed size of the shared buffer of `sbstr2str`. */
  const BufferSize: nat := 1024

  /** Index of the first NUL in `t`, or `|t|` when there is none. */
  function FirstNul(t: seq<char>): (p: nat)
    ensures p <= |t|
    ensures forall j :: 0 <= j < p ==> t[j] != '\0'
    ensures p < |t| ==> t[p] == '\0'
  {
    if t == [] || t[0] == '\0' then 0 else 1 + FirstNul(t[1..])
  }

  /** What `strncpy` writes for the source characters `t`: each one up to
      the first NUL, and NULs from there on. */
  function Padded(t: seq<char>): (r: seq<char>)
    ensures |r| == |t|
    ensures forall k :: 0 <= k < |t| ==> r[k] == if k < FirstNul(t) then t[k] else '\0'
  {
    var p := FirstNul(t);
    t[..p] + seq(|t| - p, _ => '\0')
  }

  /** The `end - start + 1` characters `sbstrcpy` writes: the padded
      source characters and a terminator. */
  function CopyOf(src: seq<char>, start: nat, end: nat): (r: seq<char>)
    requires start <= end <= |src|
    ensures |r| == end - start + 1 && r[end - start] == '\0'
  {
    Padded(src[start..end]) + ['\0']
  }

  /** The text a C reader of the copy sees: the span up to its first NUL. */
  function Text(src: seq<char>, start: nat, end: nat): (r: seq<char>)
    requires start <= end <= |src|
    ensures |r| <= end - start && r == src[start..start + |r|]
    ensures '\0' !in r
    ensures |r| < end - start ==> src[start + |r|] == '\0'
    decreases end - start
  {
    if start == end || src[start] == '\0' then [] else [src[start]] + Text(src, start + 1, end)
  }

  /** `sbstrcpy`: writes the copy of the span into `to[0 .. end - start]`
      and leaves the rest of `to` alone. */
  method Copy(src: seq<char>, start: nat, end: nat, to: array<char>)
    requires start <= end <= |src|
    requires to.Length > end - start
    modifies to
    ensures to[..end - start + 1] == CopyOf(src, start, end)
    ensures to[end - start + 1..] == old(to[end - start + 1..])
  {
    ghost var t := src[start..end];
    ghost var want := CopyOf(src, start, end);
    ghost var p := FirstNul(t);
    var n := end - start;
    var i := 0;
    // strncpy: the characters up to the first NUL ...
    while i < n && src[start + i] != '\0'
      invariant 0 <= i <= p
      invariant forall k :: 0 <= k < i ==> to[k] == want[k]
      invariant to[n + 1..] == old(to[n + 1..])
    {
      assert t[i] == src[start + i];
      to[i] := src[start + i];
      i := i + 1;
    }
    // ... then NUL padding up to n characters
    assert i < n ==> t[i] == src[start + i];
    while i < n
      invariant p <= i <= n
      invariant forall k :: 0 <= k < i ==> to[k] == want[k]
      invariant to[n + 1..] == old(to[n + 1..])
    {
      to[i] := '\0';
      i := i + 1;
    }
    to[n] := '\0';
  }

  /** The shared static buffer of `sbstr2str`: every successful call
      writes into the same array, so it overwrites the previous result. */
  class SharedBuffer {
    const buffer: array<char>

    ghost predicate Valid()
    {
      buffer.Length == BufferSize
    }

    constructor ()
      ensures Valid() && fresh(buffer)
    {
      buffer := new char[BufferSize];
    }

    /** `sbstr2str`: answers NULL (`false`) exactly when the span is longer
        than 1024 characters, and otherwise copies the span into the
        shared buffer. A span of exactly 1024 characters passes the length
        check but its terminator lands at index 1024, one past the buffer;
        that length is excluded here. */
    method FromSubstring(src: seq<char>, start: nat, end: nat) returns (ok: bool)
      requires Valid()
      requires start <= end <= |src|
      requires end - start != BufferSize
      modifies buffer
      ensures ok <==> end - start <= BufferSize
      ensures ok ==> buffer[..end - start + 1] == CopyOf(src, start, end)
      ensures ok ==> buffer[end - start + 1..] == old(buffer[end - start + 1..])
      ensures !ok ==> buffer[..] == old(buffer[..])
    {
      if end - start + 1 > BufferSize + 1 {
        return false;
      }
      Copy(src, start, end, buffer);
      return true;
    }

    /** The same copy with the length check the buffer needs: NULL exactly
        when the span and its terminator do not fit. */
    method FromSubstringChecked(src: seq<char>, start: nat, end: nat) returns (ok: bool)
      requires Valid()
      requires start <= end <= |src|
      modifies buffer
      ensures ok <==> end - start < BufferSize
      ensures ok ==> buffer[..end - start + 1] == CopyOf(src, start, end)
      ensures !ok ==> buffer[..] == old(buffer[..])
    {
      if end - start + 1 > BufferSize {
        return false;
      }
      Copy(src, start, end, buffer);
      return true;
    }
  }

  /** The length check of `sbstr2str` as written: the span length plus
      one for the terminator may be at most 1025. */
  predicate LengthCheckPasses(length: nat)
  {
    !(length + 1 > BufferSize + 1)
  }

  /** A 1024-character span passes the check although its copy needs
      1025 characters, one more than the buffer holds. */
  lemma LengthCheckOffByOne(src: seq<char>, start: nat)
    requires start + BufferSize <= |src|
    ensures LengthCheckPasses(BufferSize)
    ensures |CopyOf(src, start, start + BufferSize)| == BufferSize + 1
    ensures forall n: nat :: LengthCheckPasses(n) && n != BufferSize ==> n + 1 <= BufferSize
  {
  }

  /** A copy of a span free of NULs is the span followed by a terminator. */
  lemma CopyOfPlainText(src: seq<char>, start: nat, end: nat)
    requires start <= end <= |src|
    requires forall j :: start <= j < end ==> src[j] != '\0'
    ensures CopyOf(src, start, end) == src[start..end] + ['\0']
    ensures Text(src, start, end) == src[start..end]
  {
    var t := src[start..end];
    assert forall j :: 0 <= j < |t| ==> t[j] == src[start + j];
    assert FirstNul(t) == |t|;
    assert Padded(t) == t;
    TextOfPlainText(src, start, end);
  }

  lemma {:induction false} TextOfPlainText(src: seq<char>, start: nat, end: nat)
    requires start <= end <= |src|
    requires forall j :: start <= j < end ==> src[j] != '\0'
    ensures Text(src, start, end) == src[start..end]
    decreases end - start
  {
    if start < end {
      TextOfPlainText(src, start + 1, end);
      assert src[start..end] == [src[start]] + src[start + 1..end];
    }
  }
}
