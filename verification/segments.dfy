/** Byte segments: the model of a ReadOnlySequence<byte> held by a pipe
    reader, and of the copy ColocConnection.ReadAsync makes from it. */
module Segments {

  type byte = b: int | 0 <= b < 0x100

  function Min(a: nat, b: nat): (m: nat) {
    if a <= b then a else b
  }

  /** The bytes of a segmented buffer, in segment order. */
  function Flatten(segs: seq<seq<byte>>): (bytes: seq<byte>)
    decreases |segs|
  {
    if |segs| == 0 then [] else Flatten(segs[..|segs| - 1]) + segs[|segs| - 1]
  }

  lemma {:induction false} FlattenCons(segs: seq<seq<byte>>)
    requires |segs| > 0
    ensures Flatten(segs) == segs[0] + Flatten(segs[1..])
    decreases |segs|
  {
    if |segs| > 1 {
      var init := segs[..|segs| - 1];
      FlattenCons(init);
      assert init[1..] == segs[1..][..|segs[1..]| - 1];
    } else {
      assert segs[1..] == [];
    }
  }

  lemma {:induction false} FlattenAppend(a: seq<seq<byte>>, b: seq<seq<byte>>)
    ensures Flatten(a + b) == Flatten(a) + Flatten(b)
    decreases |b|
  {
    if |b| == 0 {
      assert a + b == a;
    } else {
      var b' := b[..|b| - 1];
      assert (a + b)[..|a + b| - 1] == a + b';
      FlattenAppend(a, b');
    }
  }

  /** The bytes of the first i segments are a prefix of all the bytes. */
  lemma {:induction false} FlattenPrefix(segs: seq<seq<byte>>, i: nat)
    requires i <= |segs|
    ensures Flatten(segs[..i]) <= Flatten(segs)
  {
    FlattenAppend(segs[..i], segs[i..]);
    assert segs[..i] + segs[i..] == segs;
  }

  lemma FlattenSnoc(segs: seq<seq<byte>>, i: nat)
    requires i < |segs|
    ensures Flatten(segs[..i + 1]) == Flatten(segs[..i]) + segs[i]
  {
    assert segs[..i + 1][..i] == segs[..i];
  }

  /** One iteration of the copy loop: while the buffer still has room,
      everything before is copied, so copying the next segment into the
      room left keeps the copy a prefix of the bytes seen so far. */
  lemma CopyStep(prefix: seq<byte>, seg: seq<byte>, data: seq<byte>, bufLen: nat)
    requires |data| == Min(|prefix|, bufLen) && data == prefix[..|data|]
    requires |data| < bufLen || |prefix| == 0
    ensures var copied := CopySegmentToMemory(seg, bufLen - |data|);
            && |data| + |copied| == Min(|prefix + seg|, bufLen)
            && data + copied == (prefix + seg)[..|data| + |copied|]
  {
    assert data == prefix;
    var copied := CopySegmentToMemory(seg, bufLen - |data|);
    assert (prefix + seg)[..|data| + |copied|] == prefix + seg[..|copied|];
  }

  /** CopySegmentToMemory: copies as much of the segment as fits. */
  function CopySegmentToMemory(source: seq<byte>, room: nat): (copied: seq<byte>)
    ensures |copied| == Min(|source|, room)
    ensures copied == source[..|copied|]
  {
    if |source| > room then source[..room] else source
  }

  /** The copy loop of ReadAsync: a single segment is copied directly,
      otherwise each segment is copied into the rest of the buffer until it
      is full. Copies exactly min(available, buffer length) bytes, taken as
      a prefix of the segmented buffer. */
  method CopyToBuffer(segs: seq<seq<byte>>, bufLen: nat) returns (read: nat, data: seq<byte>)
    ensures read == |data| == Min(|Flatten(segs)|, bufLen)
    ensures data == Flatten(segs)[..read]
  {
    if |segs| <= 1 {
      // an empty ReadOnlySequence is a single (empty) segment
      var first := if |segs| == 0 then [] else segs[0];
      assert Flatten(segs) == first by {
        if |segs| == 1 { assert segs[..0] == []; }
      }
      data := CopySegmentToMemory(first, bufLen);
      read := |data|;
      return;
    }
    read := 0;
    data := [];
    var i := 0;
    ghost var seen: seq<byte> := [];
    while i < |segs|
      invariant 0 <= i <= |segs|
      invariant seen == Flatten(segs[..i])
      invariant read == |data| == Min(|seen|, bufLen)
      invariant data == seen[..read]
      invariant i > 0 ==> read < bufLen
    {
      var copied := CopySegmentToMemory(segs[i], bufLen - read);
      FlattenSnoc(segs, i);
      CopyStep(seen, segs[i], data, bufLen);
      seen := seen + segs[i];
      data := data + copied;
      read := read + |copied|;
      i := i + 1;
      if read == bufLen {
        break;
      }
    }
    FlattenPrefix(segs, i);
    assert segs[..|segs|] == segs;
    CopyDone(seen, Flatten(segs), data, bufLen);
  }

  /** The copy loop stops with a prefix of everything: either it saw every
      segment, or the buffer is full. */
  lemma CopyDone(seen: seq<byte>, all: seq<byte>, data: seq<byte>, bufLen: nat)
    requires seen <= all
    requires |data| == Min(|seen|, bufLen) && data == seen[..|data|]
    requires |data| == bufLen || seen == all
    ensures |data| == Min(|all|, bufLen) && data == all[..|data|]
  {
  }

  /** AdvanceTo(GetPosition(n)): consumes the first n bytes. */
  function Advance(segs: seq<seq<byte>>, n: nat): (r: seq<seq<byte>>)
    requires n <= |Flatten(segs)|
    ensures Flatten(r) == Flatten(segs)[n..]
    decreases |segs|
  {
    if n == 0 then segs
    else
      FlattenCons(segs);
      if n >= |segs[0]| then Advance(segs[1..], n - |segs[0]|)
      else
        var r := [segs[0][n..]] + segs[1..];
        FlattenCons(r);
        assert r[1..] == segs[1..];
        r
  }
}
