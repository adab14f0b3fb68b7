/** packRootfs and its layer squash: meaning, base prefix, bound and blob availability of the published chain. */
module LayerSquash {
  import opened Common

  datatype Digest = Digest(hex: string)
  datatype Descriptor = Descriptor(digest: Digest, size: nat)

  /** The blocks a layer writes. */
  type Layer = map<nat, nat>
  /** A digest identifies its content. */
  type Contents = Digest -> Layer

  // ---------------------------------------------------------------- meaning of a chain

  /** Reading a block through a chain: the topmost layer that has it wins. */
  function Read(chain: seq<Descriptor>, contents: Contents, block: nat): Option<nat> {
    if chain == [] then None
    else
      var top := contents(chain[|chain| - 1].digest);
      if block in top then Some(top[block]) else Read(chain[..|chain| - 1], contents, block)
  }

  /** What overlaybd-merge writes: the stack flattened bottom-up. */
  function Flatten(chain: seq<Descriptor>, contents: Contents): Layer {
    if chain == [] then map[]
    else Flatten(chain[..|chain| - 1], contents) + contents(chain[|chain| - 1].digest)
  }

  lemma {:induction false} ReadStacked(bottom: seq<Descriptor>, tail: seq<Descriptor>, contents: Contents, block: nat)
    ensures Read(bottom + tail, contents, block) ==
            if block in Flatten(tail, contents) then Some(Flatten(tail, contents)[block]) else Read(bottom, contents, block)
  {
    if tail == [] {
      assert bottom + tail == bottom;
    } else {
      ReadStacked(bottom, tail[..|tail| - 1], contents, block);
      assert (bottom + tail)[..|bottom + tail| - 1] == bottom + tail[..|tail| - 1];
    }
  }

  ghost predicate SameMeaning(a: seq<Descriptor>, b: seq<Descriptor>, contents: Contents) {
    forall block :: Read(a, contents, block) == Read(b, contents, block)
  }

  /** Replacing a tail by its merge preserves every read. */
  lemma MergePreservesReads(bottom: seq<Descriptor>, tail: seq<Descriptor>, merged: Descriptor, contents: Contents)
    requires contents(merged.digest) == Flatten(tail, contents)
    ensures SameMeaning(bottom + [merged], bottom + tail, contents)
  {
    forall block ensures Read(bottom + [merged], contents, block) == Read(bottom + tail, contents, block) {
      ReadStacked(bottom, tail, contents, block);
      assert (bottom + [merged])[..|bottom|] == bottom;
    }
  }

  function Digests(chain: seq<Descriptor>): set<Digest> {
    set i | 0 <= i < |chain| :: chain[i].digest
  }

  // ---------------------------------------------------------------- the blob store

  /** The staged artifact layout: local blobs, and the digests recorded in remote-sources.json. */
  class Layout {
    var blobs: set<Digest>
    const sources: set<Digest>

    constructor (blobs: set<Digest>, sources: set<Digest>)
      ensures this.blobs == blobs && this.sources == sources
    {
      this.blobs, this.sources := blobs, sources;
    }

    /** pushLocalBlob finds the blob locally, or inherits it from its recorded remote source. */
    predicate Obtainable(d: Digest)
      reads this
    {
      d in blobs || d in sources
    }

    ghost predicate AllObtainable(chain: seq<Descriptor>)
      reads this
    {
      forall i | 0 <= i < |chain| :: Obtainable(chain[i].digest)
    }

    /** ensureLocalBlob: present already, fetched and verified, or an error. */
    method EnsureLocalBlob(d: Descriptor, ioOk: bool) returns (ok: bool)
      modifies this
      ensures blobs == old(blobs) || blobs == old(blobs) + {d.digest}
      ensures ok ==> d.digest in blobs
      ensures ioOk || d.digest in old(blobs) ==> ok
    {
      if d.digest in blobs { return true; }
      ok := *;
      ok := ok || ioOk;
      if ok { blobs := blobs + {d.digest}; }
    }

    /**
     removeSquashedBlobs: only blobs of the tail go, and none that the surviving chain names; if no removal
     fails, all others of the tail are gone.
     */
    method RemoveSquashedBlobs(tail: seq<Descriptor>, bottom: seq<Descriptor>, merged: Descriptor, ioOk: bool)
      modifies this
      ensures blobs <= old(blobs)
      ensures old(blobs) - Digests(tail) <= blobs
      ensures old(blobs) * (Digests(bottom) + {merged.digest}) <= blobs
      ensures ioOk ==> blobs == old(blobs) - (Digests(tail) - Digests(bottom) - {merged.digest})
    {
      var keep := {merged.digest};
      for i := 0 to |bottom|
        invariant keep == {merged.digest} + Digests(bottom[..i])
      {
        keep := keep + {bottom[i].digest};
        assert Digests(bottom[..i + 1]) == Digests(bottom[..i]) + {bottom[i].digest};
      }
      assert bottom[..|bottom|] == bottom;
      for i := 0 to |tail|
        invariant blobs <= old(blobs) && keep * old(blobs) <= blobs && old(blobs) - Digests(tail) <= blobs
        invariant ioOk ==> blobs !! Digests(tail[..i]) - keep
      {
        assert Digests(tail[..i + 1]) == Digests(tail[..i]) + {tail[i].digest};
        if tail[i].digest !in keep {
          var removed := *;               // a failed removal is only a warning
          if removed || ioOk { blobs := blobs - {tail[i].digest}; }
        }
      }
      assert tail[..|tail|] == tail;
    }
  }

  // ---------------------------------------------------------------- the squash

  /** Every layer has a digest: what a tool that flattens a stack and never fails needs to name its result. */
  ghost predicate Addressed(contents: Contents, describe: Layer -> Descriptor) {
    forall layer :: contents(describe(layer).digest) == layer
  }

  /** A merge keeps the base and at least one layer at the bottom, so no chain gets shorter than this. */
  function Floor(base: nat): nat { if base == 0 then 2 else base + 1 }

  /** The length after one merge of up to `squash` layers: as short as that allows. */
  function NextLength(n: nat, squash: nat, base: nat): nat
    requires squash >= 2
  {
    if n <= Floor(base) then n else if n < squash + Floor(base) then Floor(base) else n + 1 - squash
  }

  /** The length published: merges go on until the chain is below the bound or cannot get shorter. */
  function FinalLength(n: nat, squash: nat, base: nat, maxLayers: nat): nat
    requires squash >= 2
    decreases n
  {
    if n < maxLayers || n <= Floor(base) then n else FinalLength(NextLength(n, squash, base), squash, base, maxLayers)
  }

  /** With the default bounds a full chain over a template of one layer is published with nine layers. */
  lemma DefaultLength()
    ensures FinalLength(24, 16, 1, 24) == 9
  {
    assert NextLength(24, 16, 1) == 9;
  }

  /** How many of the newest layers one merge takes. */
  function TailCount(n: nat, squash: nat, base: nat): int {
    var t := if squash > n - 1 then n - 1 else squash;
    if base > 0 && t > n - base then n - base else t
  }

  /** overlaybd-merge of local blobs and installCommittedLayer: the new blob holds the flattened tail, or nothing was produced. */
  method Merge(layout: Layout, tail: seq<Descriptor>, contents: Contents, describe: Layer -> Descriptor, ioOk: bool)
    returns (ok: bool, desc: Descriptor)
    requires Digests(tail) <= layout.blobs && (ioOk ==> Addressed(contents, describe))
    modifies layout
    ensures ioOk ==> ok
    ensures layout.blobs == if ok then old(layout.blobs) + {desc.digest} else old(layout.blobs)
    ensures ok ==> contents(desc.digest) == Flatten(tail, contents)
  {
    ok, desc := *, *;
    if ioOk { ok, desc := true, describe(Flatten(tail, contents)); }
    ok := ok && contents(desc.digest) == Flatten(tail, contents);
    if ok { layout.blobs := layout.blobs + {desc.digest}; }
  }

  /** Every layer of the tail is made local, or the squash stops there. */
  method FetchTail(layout: Layout, tail: seq<Descriptor>, ioOk: bool) returns (ok: bool)
    modifies layout
    ensures old(layout.blobs) <= layout.blobs <= old(layout.blobs) + Digests(tail) && (ok ==> Digests(tail) <= layout.blobs)
    ensures ioOk ==> ok
  {
    for i := 0 to |tail|
      invariant old(layout.blobs) <= layout.blobs <= old(layout.blobs) + Digests(tail) && Digests(tail[..i]) <= layout.blobs
    {
      ok := layout.EnsureLocalBlob(tail[i], ioOk);
      if !ok { return; }
      assert Digests(tail[..i + 1]) == Digests(tail[..i]) + {tail[i].digest};
    }
    assert tail[..|tail|] == tail;
    ok := true;
  }

  /** Of the layers of the old chain only those the new one names are left as blobs; only blobs of the two were added. */
  ghost predicate Tidied(before: set<Digest>, after: set<Digest>, chain: seq<Descriptor>, chain': seq<Descriptor>) {
    after <= before + Digests(chain) + Digests(chain') && after * Digests(chain) <= Digests(chain')
  }

  lemma DigestsOf(a: seq<Descriptor>, b: seq<Descriptor>)
    ensures Digests(a + b) == Digests(a) + Digests(b)
  {
    assert forall i | 0 <= i < |b| :: (a + b)[|a| + i] == b[i];
    assert forall i | 0 <= i < |a| :: (a + b)[i] == a[i];
  }

  /** The tail is fetched, merged, and its blobs removed; until the merge stands nothing is removed. */
  method MergeTail(layout: Layout, bottom: seq<Descriptor>, tail: seq<Descriptor>, contents: Contents,
                   describe: Layer -> Descriptor, ioOk: bool)
    returns (ok: bool, desc: Descriptor)
    requires ioOk ==> Addressed(contents, describe)
    requires layout.AllObtainable(bottom + tail)
    modifies layout
    ensures ioOk ==> ok && Tidied(old(layout.blobs), layout.blobs, bottom + tail, bottom + [desc])
    ensures ok ==> contents(desc.digest) == Flatten(tail, contents)
    ensures layout.AllObtainable(if ok then bottom + [desc] else bottom + tail)
  {
    DigestsOf(bottom, tail);
    desc := *;
    ok := FetchTail(layout, tail, ioOk);
    if !ok { return; }
    ok, desc := Merge(layout, tail, contents, describe, ioOk);
    if !ok { return; }
    layout.RemoveSquashedBlobs(tail, bottom, desc, ioOk);
    DigestsOf(bottom, [desc]);
    assert Digests([desc]) == {desc.digest} by { assert [desc][0] == desc; }
    forall i | 0 <= i < |bottom| ensures layout.Obtainable(bottom[i].digest) {
      assert (bottom + tail)[i] == bottom[i] && bottom[i].digest in Digests(bottom);
    }
  }

  /**
   squashOnce on the working chain chain[..n]. append(bottom, desc) stores into the chain's own backing
   array. The result reads the same, keeps the base and stays obtainable. The merge takes `squash` layers, or
   all it may take without touching the base or the bottom layer; if none of two or more fits, nothing changes.
   Without a failure no blob of a merged layer stays unless the result still names it.
   */
  method SquashOnce(layout: Layout, chain: array<Descriptor>, n: nat, base: nat, squash: nat, contents: Contents,
                    describe: Layer -> Descriptor, ioOk: bool)
    returns (ok: bool, m: nat)
    requires 1 <= n <= chain.Length && base <= n
    requires ioOk ==> Addressed(contents, describe)
    requires layout.AllObtainable(chain[..n])
    modifies layout, chain
    ensures m <= n && (!ok || m == n ==> chain[..] == old(chain[..]))
    ensures ok && m < n ==> n - m + 1 <= squash && (n - m + 1 == squash || m == 2 || (base > 0 && m == base + 1))
    ensures ok && squash >= 2 ==> m == NextLength(n, squash, base)
    ensures ok && squash < 2 ==> m == n
    ensures ioOk ==> ok
    ensures ok && m < n ==> base < m && chain[..m - 1] == old(chain[..m - 1])
    ensures ok ==> SameMeaning(chain[..m], old(chain[..n]), contents)
    ensures layout.AllObtainable(if ok then chain[..m] else chain[..n])
    ensures ioOk ==> Tidied(old(layout.blobs), layout.blobs, old(chain[..n]), chain[..m])
  {
    var t := TailCount(n, squash, base);
    m := n;
    if t < 2 { return true, n; }
    var bottom, tail := chain[..n - t], chain[n - t..n];
    assert chain[..n] == bottom + tail;
    var desc;
    ok, desc := MergeTail(layout, bottom, tail, contents, describe, ioOk);
    if !ok { return; }
    chain[n - t] := desc;
    m := n - t + 1;
    assert chain[..m] == bottom + [desc];
    MergePreservesReads(bottom, tail, desc, contents);
  }

  function Max(a: int, b: int): int {
    if a > b then a else b
  }

  /** The published chain is short enough, or no merge above the base can shorten it. */
  predicate Bounded(length: nat, base: nat, maxLayers: nat) {
    length < maxLayers || (base > 0 && length <= base + 1)
  }

  /**
   squashRootfsTail: squashes until the chain is below the bound; the first failure is an optimization
   miss that publishes what there is. `missed` reports it.
   */
  method SquashRootfsTail(layout: Layout, chain: array<Descriptor>, n: nat, base: nat, maxLayers: nat, squash: nat,
                          contents: Contents, describe: Layer -> Descriptor, ioOk: bool)
    returns (m: nat, missed: bool)
    requires 2 <= squash < maxLayers
    requires 1 <= n <= chain.Length && base < n
    requires ioOk ==> Addressed(contents, describe)
    requires layout.AllObtainable(chain[..n])
    modifies layout, chain
    ensures base < m <= n
    ensures chain[..base] == old(chain[..base])
    ensures SameMeaning(chain[..m], old(chain[..n]), contents)
    ensures layout.AllObtainable(chain[..m])
    ensures !missed ==> Bounded(m, base, maxLayers) && m == FinalLength(n, squash, base, maxLayers)
    ensures ioOk ==> !missed && layout.blobs * Digests(old(chain[..n])) <= Digests(chain[..m])
    ensures n < maxLayers ==> m == n && chain[..n] == old(chain[..n])
  {
    m := n;
    while m >= maxLayers
      invariant base < m <= n
      invariant chain[..base] == old(chain[..base])
      invariant SameMeaning(chain[..m], old(chain[..n]), contents)
      invariant layout.AllObtainable(chain[..m])
      invariant FinalLength(m, squash, base, maxLayers) == FinalLength(n, squash, base, maxLayers)
      invariant n < maxLayers ==> m == n && chain[..n] == old(chain[..n])
      invariant ioOk ==> layout.blobs * Digests(old(chain[..n])) <= Digests(chain[..m])
      decreases m
    {
      ghost var before := chain[..];
      var ok, next := SquashOnce(layout, chain, m, base, squash, contents, describe, ioOk);
      if !ok {
        assert chain[..m] == before[..m];
        return m, true;
      }
      if next == m { return m, false; }
      assert chain[..base] == chain[..next - 1][..base] == before[..next - 1][..base];
      m := next;
    }
    return m, false;
  }

  /**
   packRootfs for a captured upper: the committed upper goes on top of the inherited lowers, then the
   tail is squashed. The working chain has its own backing array, so the captured lowers never change
   although the squash appends in place. The result reads like lowers plus upper, keeps the base, and
   can be pushed completely.
   */
  method PackRootfs(layout: Layout, lowers: array<Descriptor>, base: nat, root: Descriptor, maxLayers: nat, squash: nat,
                    contents: Contents, describe: Layer -> Descriptor, ioOk: bool)
    returns (chain: array<Descriptor>, m: nat, missed: bool)
    requires 2 <= squash < maxLayers
    requires 0 < lowers.Length && base <= lowers.Length
    requires Digests(lowers[..]) <= layout.sources && root.digest in layout.blobs
    requires ioOk ==> Addressed(contents, describe)
    modifies layout
    ensures fresh(chain) && m <= chain.Length
    ensures SameMeaning(chain[..m], lowers[..] + [root], contents)
    ensures Generation(lowers[..], chain[..m], base, maxLayers, missed)
    ensures !missed ==> m == FinalLength(lowers.Length + 1, squash, base, maxLayers)
    ensures ioOk ==> !missed && layout.blobs * (Digests(lowers[..]) + {root.digest}) <= Digests(chain[..m])
    ensures layout.AllObtainable(chain[..m])
  {
    var n := lowers.Length + 1;
    chain := new Descriptor[n](i => root);
    for i := 0 to lowers.Length
      invariant layout.blobs == old(layout.blobs)
      invariant chain[..i] == lowers[..i] && chain[lowers.Length] == root
    {
      chain[i] := lowers[i];
    }
    ghost var captured := lowers[..];
    assert chain[..n] == captured + [root];
    DigestsOf(captured, [root]);
    assert Digests([root]) == {root.digest} by { assert [root][0] == root; }
    forall i | 0 <= i < n ensures layout.Obtainable((captured + [root])[i].digest) {
      if i < |captured| { assert captured[i].digest in Digests(captured); }
    }
    assert chain[..base] == captured[..base];
    m, missed := SquashRootfsTail(layout, chain, n, base, maxLayers, squash, contents, describe, ioOk);
    assert chain[..m][..base] == chain[..base];
  }

  // ---------------------------------------------------------------- checkpoint generations

  /** One checkpoint generation: the next chain is what PackRootfs publishes on top of this one. */
  predicate Generation(chain: seq<Descriptor>, next: seq<Descriptor>, base: nat, maxLayers: nat, missed: bool)
    requires base <= |chain|
  {
    && base < |next| <= |chain| + 1
    && next[..base] == chain[..base]
    && (!missed ==> Bounded(|next|, base, maxLayers))
  }

  ghost predicate Lineage(chains: seq<seq<Descriptor>>, missed: seq<bool>, base: nat, maxLayers: nat) {
    && |chains| == |missed| + 1
    && (forall i | 0 <= i < |chains| :: base <= |chains[i]|)
    && forall i | 0 <= i < |missed| :: Generation(chains[i], chains[i + 1], base, maxLayers, missed[i])
  }

  /** Missed squashes at the end of a lineage. */
  function TrailingMisses(missed: seq<bool>): nat {
    if missed == [] || !missed[|missed| - 1] then 0 else 1 + TrailingMisses(missed[..|missed| - 1])
  }

  /**
   However many generations a lineage has, every chain starts with the template base, and its length
   exceeds the bound by no more than the squashes missed since the last success.
   */
  lemma {:induction false} LineageKeepsBaseAndBound(chains: seq<seq<Descriptor>>, missed: seq<bool>, base: nat, maxLayers: nat)
    requires Lineage(chains, missed, base, maxLayers)
    ensures chains[|missed|][..base] == chains[0][..base]
    ensures |chains[|missed|]| <= Max(Max(maxLayers - 1, base + 1), |chains[0]|) + TrailingMisses(missed)
    ensures missed != [] && !missed[|missed| - 1] ==> |chains[|missed|]| <= Max(maxLayers - 1, base + 1)
  {
    if missed != [] {
      var k := |missed| - 1;
      assert Generation(chains[k], chains[k + 1], base, maxLayers, missed[k]);
      LineageKeepsBaseAndBound(chains[..k + 1], missed[..k], base, maxLayers);
    }
  }
}
