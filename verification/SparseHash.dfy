/** SHA256File: hashing a sparse file through its hole map feeds the digest exactly the file's content. */
module SparseHash {
  import opened Common

  type Byte = b: int | 0 <= b < 256

  /** One lseek call: a position, ENXIO (no data up to the end), or any other error. */
  datatype Seek = At(pos: nat) | Enxio | Error

  /** The answers of SEEK_DATA and SEEK_HOLE; the n-th call may answer differently from an earlier one. */
  datatype Lseek = Lseek(data: (nat, nat) -> Seek, hole: (nat, nat) -> Seek)

  ghost predicate AllZero(content: seq<Byte>, from: nat, to: nat) {
    forall i | from <= i < to && i < |content| :: content[i] == 0
  }

  /**
   A sound hole map: SEEK_DATA skips only zeros, ENXIO means only zeros follow, and SEEK_HOLE, asked
   where SEEK_DATA pointed, answers with a position behind it. Any call may fail instead.
   */
  ghost predicate Sound(lseek: Lseek, content: seq<Byte>) {
    forall n: nat, offset: nat :: offset < |content| ==>
      && (lseek.data(n, offset).At? ==>
            && offset <= lseek.data(n, offset).pos < |content|
            && AllZero(content, offset, lseek.data(n, offset).pos)
            && EndsBehind(lseek, lseek.data(n, offset).pos, |content|))
      && (lseek.data(n, offset).Enxio? ==> AllZero(content, offset, |content|))
  }

  ghost predicate EndsBehind(lseek: Lseek, start: nat, size: nat) {
    forall m: nat :: lseek.hole(m, start).At? ==> start < lseek.hole(m, start).pos <= size
  }

  // ---------------------------------------------------------------- the maps a kernel gives

  /** The first position at or after offset whose byte is, or is not, in a hole; the size if there is none. */
  function Next(holes: seq<bool>, offset: nat, hole: bool): (r: nat)
    requires offset <= |holes|
    ensures offset <= r <= |holes| && (r < |holes| ==> holes[r] == hole)
    ensures forall i | offset <= i < r :: holes[i] != hole
    decreases |holes| - offset
  {
    if offset == |holes| || holes[offset] == hole then offset else Next(holes, offset + 1, hole)
  }

  /** SEEK_DATA on a file whose bytes marked true lie in holes: inside data it answers the offset itself. */
  function SeekData(holes: seq<bool>, fails: nat -> bool, n: nat, offset: nat): Seek {
    if fails(n) then Error
    else if offset >= |holes| || Next(holes, offset, false) == |holes| then Enxio
    else At(Next(holes, offset, false))
  }

  /** SEEK_HOLE: inside a hole it answers the offset itself, behind the last data the end of the file. */
  function SeekHole(holes: seq<bool>, fails: nat -> bool, n: nat, offset: nat): Seek {
    if fails(n) then Error
    else if offset >= |holes| then Enxio
    else At(Next(holes, offset, true))
  }

  /** lseek(2) on such a file; the n-th call may fail. */
  function Kernel(holes: seq<bool>, fails: nat -> bool): Lseek {
    Lseek((n: nat, offset: nat) => SeekData(holes, fails, n, offset),
          (n: nat, offset: nat) => SeekHole(holes, fails, n, offset))
  }

  /** Every hole map a kernel can give is sound: all that is asked of a file is that its holes read as zeros. */
  lemma KernelIsSound(content: seq<Byte>, holes: seq<bool>, fails: nat -> bool)
    requires |holes| == |content| && forall i :: 0 <= i < |content| && holes[i] ==> content[i] == 0
    ensures Sound(Kernel(holes, fails), content)
  {
    var lseek := Kernel(holes, fails);
    forall n: nat, offset: nat | offset < |content|
      ensures lseek.data(n, offset) == SeekData(holes, fails, n, offset)
      ensures lseek.data(n, offset).At? ==> EndsBehind(lseek, lseek.data(n, offset).pos, |content|)
    {
      if lseek.data(n, offset).At? {
        var start := lseek.data(n, offset).pos;
        forall m: nat | lseek.hole(m, start).At? ensures start < lseek.hole(m, start).pos <= |content| {
          assert lseek.hole(m, start) == SeekHole(holes, fails, m, start) && !holes[start];
        }
      }
    }
  }

  /** Every seek answers, and as the holes are: the file does not change and its filesystem maps holes. */
  ghost predicate Reports(lseek: Lseek, holes: seq<bool>) {
    forall n: nat, offset: nat :: offset < |holes| ==>
      && lseek.data(n, offset) == (var next := Next(holes, offset, false); if next == |holes| then Enxio else At(next))
      && lseek.hole(n, offset) == At(Next(holes, offset, true))
  }

  lemma KernelReports(holes: seq<bool>, fails: nat -> bool)
    requires forall n :: !fails(n)
    ensures Reports(Kernel(holes, fails), holes)
  {
    var lseek := Kernel(holes, fails);
    forall n: nat, offset: nat | offset < |holes|
      ensures lseek.data(n, offset) == SeekData(holes, fails, n, offset)
      ensures lseek.hole(n, offset) == SeekHole(holes, fails, n, offset)
    {}
  }

  /** How many bytes lie outside the holes. */
  function DataBytes(holes: seq<bool>): nat {
    if holes == [] then 0 else DataBytes(holes[..|holes| - 1]) + if holes[|holes| - 1] then 0 else 1
  }

  /** A stretch that is all hole adds nothing, one that is all data its length. */
  lemma {:induction false} DataBytesOn(holes: seq<bool>, from: nat, end: nat, hole: bool)
    requires from <= end <= |holes| && forall i | from <= i < end :: holes[i] == hole
    ensures DataBytes(holes[..end]) == DataBytes(holes[..from]) + if hole then 0 else end - from
    decreases end
  {
    if from < end {
      DataBytesOn(holes, from, end - 1, hole);
      assert holes[..end][..end - 1] == holes[..end - 1];
    }
  }

  /** One round of a walk by extents: the holes before the data, then the data up to the next hole. */
  lemma OneExtent(lseek: Lseek, holes: seq<bool>, n: nat, offset: nat)
    requires Reports(lseek, holes) && offset < |holes|
    ensures var start := lseek.data(n, offset);
            && !start.Error?
            && (start.Enxio? ==> DataBytes(holes) == DataBytes(holes[..offset]))
            && (start.At? ==>
                  var end := lseek.hole(n + 1, start.pos);
                  end.At? && DataBytes(holes[..end.pos]) == DataBytes(holes[..offset]) + (end.pos - start.pos))
  {
    var next := Next(holes, offset, false);
    DataBytesOn(holes, offset, next, true);
    assert holes[..|holes|] == holes;
    if next < |holes| { DataBytesOn(holes, next, Next(holes, next, true), false); }
  }

  lemma {:induction false} DataBytesGrow(holes: seq<bool>, k: nat)
    requires k <= |holes|
    ensures DataBytes(holes[..k]) <= DataBytes(holes)
  {
    if k == |holes| {
      assert holes[..k] == holes;
    } else {
      DataBytesGrow(holes[..|holes| - 1], k);
      assert holes[..|holes| - 1][..k] == holes[..k];
    }
  }

  /** The digest object, identified with the bytes written to it. */
  class Sha256 {
    var fed: seq<Byte>

    constructor ()
      ensures fed == []
    {
      fed := [];
    }

    method Write(chunk: seq<Byte>)
      modifies this
      ensures fed == old(fed) + chunk
    {
      fed := fed + chunk;
    }
  }

  function Zeros(n: nat): (z: seq<Byte>)
    ensures |z| == n
  {
    seq(n, _ => 0)
  }

  method FeedZeros(digest: Sha256, count: nat, chunk: seq<Byte>)
    requires 0 < |chunk| && chunk == Zeros(|chunk|)
    modifies digest
    ensures digest.fed == old(digest.fed) + Zeros(count)
  {
    var n := count;
    while n > 0
      invariant 0 <= n <= count && digest.fed == old(digest.fed) + Zeros(count - n)
    {
      var k := |chunk|;
      if n < k { k := n; }
      digest.Write(chunk[..k]);
      n := n - k;
      assert Zeros(count - n) == Zeros(count - n - k) + chunk[..k];
    }
  }

  /** How many bytes of the content are not zero. */
  function NonZero(content: seq<Byte>): nat {
    if content == [] then 0 else NonZero(content[..|content| - 1]) + if content[|content| - 1] != 0 then 1 else 0
  }

  lemma {:induction false} NonZeroAppend(a: seq<Byte>, b: seq<Byte>)
    ensures NonZero(a + b) == NonZero(a) + NonZero(b) && NonZero(b) <= |b|
  {
    if b == [] {
      assert a + b == a;
    } else {
      NonZeroAppend(a, b[..|b| - 1]);
      assert (a + b)[..|a + b| - 1] == a + b[..|b| - 1];
    }
  }

  lemma {:induction false} NonZeroOfZeros(a: seq<Byte>)
    requires AllZero(a, 0, |a|)
    ensures NonZero(a) == 0
  {
    if a != [] { NonZeroOfZeros(a[..|a| - 1]); }
  }

  /** Zeros up to the data, then at most as many other bytes as the data is long. */
  lemma NonZeroExtent(content: seq<Byte>, offset: nat, start: nat, end: nat)
    requires offset <= start <= end <= |content| && AllZero(content, offset, start)
    ensures NonZero(content[..end]) <= NonZero(content[..offset]) + (end - start)
  {
    assert content[..end] == content[..offset] + content[offset..start] + content[start..end];
    NonZeroOfZeros(content[offset..start]);
    NonZeroAppend(content[..offset], content[offset..start]);
    NonZeroAppend(content[..offset] + content[offset..start], content[start..end]);
  }

  /**
   scanSparse: the data bytes it counts bound the non-zero bytes of the file from above, unless it stopped
   early because the file is already dense, and never exceed the file. Where the seeks tell the holes, the
   count decides whether the file is dense as the holes do.
   */
  method ScanSparse(content: seq<Byte>, lseek: Lseek, ghost holes: seq<bool>) returns (dataBytes: nat, ok: bool)
    requires Sound(lseek, content) && |holes| == |content|
    ensures dataBytes <= |content|
    ensures Reports(lseek, holes) ==> ok && (dataBytes * 2 >= |content| <==> DataBytes(holes) * 2 >= |content|)
    ensures ok && dataBytes * 2 < |content| ==> NonZero(content) <= dataBytes
  {
    var offset, n := 0, 0;
    dataBytes := 0;
    while offset < |content|
      invariant 0 <= offset <= |content| && dataBytes <= offset
      invariant NonZero(content[..offset]) <= dataBytes
      invariant Reports(lseek, holes) ==> dataBytes == DataBytes(holes[..offset]) && dataBytes * 2 <= |content|
    {
      if Reports(lseek, holes) { OneExtent(lseek, holes, n, offset); }
      var start := lseek.data(n, offset);
      n := n + 1;
      if start.Enxio? {
        assert content == content[..offset] + content[offset..];
        NonZeroOfZeros(content[offset..]);
        NonZeroAppend(content[..offset], content[offset..]);
        return dataBytes, true;
      }
      if !start.At? { return dataBytes, false; }
      var hole := lseek.hole(n, start.pos);
      n := n + 1;
      var end := if hole.At? then hole.pos else |content|;
      NonZeroExtent(content, offset, start.pos, end);
      dataBytes := dataBytes + (end - start.pos);
      if dataBytes * 2 >= |content| {
        DataBytesGrow(holes, end);
        return dataBytes, true;
      }
      offset := end;
    }
    assert content[..offset] == content && holes[..offset] == holes;
    return dataBytes, true;
  }

  /** A plain read of the whole file into a digest; reads may fail unless `ioOk`. `bytesRead` counts the bytes read. */
  method HashAll(content: seq<Byte>, digest: Sha256, ioOk: bool) returns (ok: bool, bytesRead: nat)
    modifies digest
    ensures ioOk ==> ok
    ensures ok ==> digest.fed == old(digest.fed) + content && bytesRead == |content|
  {
    ok, bytesRead := *, 0;
    ok := ok || ioOk;
    if ok {
      digest.Write(content);
      bytesRead := |content|;
    }
  }

  /**
   The extent walk of the sparse path. A failing SEEK_DATA restarts with a fresh digest and a full read; where
   the seeks tell the holes, exactly the bytes outside them are read.
   */
  method HashExtents(content: seq<Byte>, lseek: Lseek, scanned: nat, ioOk: bool, ghost holes: seq<bool>)
    returns (digest: Sha256, ok: bool, bytesRead: nat)
    requires Sound(lseek, content) && |holes| == |content|
    ensures ioOk ==> ok
    ensures ok ==> digest.fed == content
    ensures ok && Reports(lseek, holes) ==> bytesRead == DataBytes(holes)
  {
    digest := new Sha256();
    var zeros := Zeros(256 * 1024);
    var consumed, n := 0, scanned;
    bytesRead := 0;
    while consumed < |content|
      invariant 0 <= consumed <= |content|
      invariant digest.fed == content[..consumed] && fresh(digest)
      invariant Reports(lseek, holes) ==> bytesRead == DataBytes(holes[..consumed])
    {
      if Reports(lseek, holes) { OneExtent(lseek, holes, n, consumed); }
      var start := lseek.data(n, consumed);
      n := n + 1;
      if start.Enxio? {
        FeedZeros(digest, |content| - consumed, zeros);
        assert content == content[..consumed] + Zeros(|content| - consumed);
        return digest, true, bytesRead;
      }
      if !start.At? {
        digest := new Sha256();
        ok, bytesRead := HashAll(content, digest, ioOk);
        return;
      }
      if start.pos > consumed {
        FeedZeros(digest, start.pos - consumed, zeros);
      }
      assert content[..start.pos] == content[..consumed] + Zeros(start.pos - consumed);
      var hole := lseek.hole(n, start.pos);
      n := n + 1;
      var end := if hole.At? then hole.pos else |content|;
      ok := *;                                        // seek back and copy the extent
      ok := ok || ioOk;
      if !ok { return; }
      digest.Write(content[start.pos..end]);
      bytesRead := bytesRead + (end - start.pos);
      assert content[..end] == content[..start.pos] + content[start.pos..end];
      consumed := end;
    }
    assert content[..consumed] == content && holes[..consumed] == holes;
    ok := true;
  }

  /**
   SHA256File: whichever path is taken and wherever the seeks fail, a returned digest is the digest of
   the whole content, as a plain full read would give it; and one is returned unless a read fails. Holes are
   not read: where the seeks tell them, a file that is less than half data costs exactly its data.
   */
  method SHA256File(content: seq<Byte>, lseek: Lseek, ioOk: bool, ghost holes: seq<bool>)
    returns (digest: Option<seq<Byte>>, bytesRead: nat)
    requires Sound(lseek, content) && |holes| == |content|
    ensures ioOk ==> digest.Some?
    ensures digest.Some? ==> digest.value == content
    ensures digest.Some? && Reports(lseek, holes) ==>
              bytesRead == if DataBytes(holes) * 2 < |content| then DataBytes(holes) else |content|
  {
    var dataBytes, scanned := ScanSparse(content, lseek, holes);
    var d, ok;
    if !scanned || dataBytes * 2 >= |content| {
      d := new Sha256();
      ok, bytesRead := HashAll(content, d, ioOk);
    } else {
      d, ok, bytesRead := HashExtents(content, lseek, 2 * |content|, ioOk, holes);
    }
    digest := if ok then Some(d.fed) else None;
  }
}
