/** Publishing, resolving and deleting the rootfs/snapfiles pair of a template in an OCI repository. */
module TemplatePair {
  import opened Common

  // ---------------------------------------------------------------- manifests

  type Blob = nat

  /** A manifest stands for its own digest: equal manifests, equal digests, and the reverse. */
  datatype Manifest = Manifest(annotations: map<string, string>, config: Blob, layers: seq<Blob>)

  const TEMPLATE_ID := "io.fast-sandbox.template.id"
  const SANDBOX_UID := "io.fast-sandbox.sandbox.uid"
  const NAMESPACE := "io.fast-sandbox.sandbox.namespace"
  const CHECKPOINT_ID := "io.fast-sandbox.checkpoint.id"

  function Blobs(m: Manifest): set<Blob> {
    {m.config} + set b <- m.layers
  }

  /** The pair a manifest says it belongs to; a missing annotation reads as the empty string. */
  function PairOf(m: Manifest): string {
    if TEMPLATE_ID in m.annotations then m.annotations[TEMPLATE_ID] else ""
  }

  /** Drops inherited owner annotations, then sets the new ones. */
  function Annotate(m: Manifest, annotations: map<string, string>): Manifest {
    m.(annotations := (m.annotations - {SANDBOX_UID, NAMESPACE, CHECKPOINT_ID}) + annotations)
  }

  datatype Half = Rootfs | Snapfiles

  datatype Tag = Tag(id: string, half: Half)

  function TagName(t: Tag): string {
    t.id + match t.half { case Rootfs => "_rootfs" case Snapfiles => "_snapfiles" }
  }

  /** Distinct ids and halves never share a tag name. */
  lemma TagNamesAreDistinct(a: Tag, b: Tag)
    ensures TagName(a) == TagName(b) <==> a == b
  {
    var s, t := TagName(a), TagName(b);
    assert s[|s| - 2] == if a.half.Rootfs? then 'f' else 'e';
    assert t[|t| - 2] == if b.half.Rootfs? then 'f' else 'e';
    assert a.id == s[..|a.id|] && b.id == t[..|b.id|];
  }

  // ---------------------------------------------------------------- what a Push is given

  datatype Owner = NoOwner | Checkpoint(uid: string, namespace: string)

  /** The exported images, the target id and the owner read from the metadata. */
  datatype Input = Input(id: string, rootfs: Manifest, snapfiles: Manifest, owner: Owner)

  predicate TagStart(c: char) {
    'a' <= c <= 'z' || 'A' <= c <= 'Z' || '0' <= c <= '9' || c == '_'
  }

  predicate ValidPairId(id: string) {
    && 1 <= |id| <= 128 - |"_snapfiles"|
    && TagStart(id[0])
    && forall c <- id :: TagStart(c) || c == '.' || c == '-'
  }

  /** A tag of the OCI distribution specification. */
  predicate ValidTag(tag: string) {
    && 1 <= |tag| <= 128 && TagStart(tag[0])
    && forall i | 0 < i < |tag| :: TagStart(tag[i]) || tag[i] == '.' || tag[i] == '-'
  }

  /** An id is valid exactly when both tags made of it are. */
  lemma ValidPairIdIff(id: string)
    ensures ValidPairId(id) <==> id != "" && forall half :: ValidTag(TagName(Tag(id, half)))
  {
    var s := TagName(Tag(id, Snapfiles));
    assert s == id + "_snapfiles" && TagName(Tag(id, Rootfs)) == id + "_rootfs";
    if ValidTag(s) && id != "" {
      assert s[0] == id[0];
      forall c <- id ensures TagStart(c) || c == '.' || c == '-' {
        var i :| 0 <= i < |id| && id[i] == c;
        assert s[i] == c;
      }
    }
  }

  /** The characters strings.TrimSpace removes: the Unicode White_Space property. */
  predicate Space(c: char) {
    var p := c as int;
    || 9 <= p <= 13 || p == 0x20 || p == 0x85 || p == 0xA0 || p == 0x1680
    || 0x2000 <= p <= 0x200A || p == 0x2028 || p == 0x2029 || p == 0x202F || p == 0x205F || p == 0x3000
  }

  predicate Blank(s: string) {
    forall c <- s :: Space(c)
  }

  predicate Acceptable(p: Input) {
    && ValidPairId(p.id)
    && (p.owner.Checkpoint? ==> !Blank(p.owner.uid) && !Blank(p.owner.namespace))
  }

  function PairAnnotations(p: Input): map<string, string> {
    match p.owner
    case NoOwner => map[TEMPLATE_ID := p.id]
    case Checkpoint(uid, namespace) =>
      map[TEMPLATE_ID := p.id, SANDBOX_UID := uid, NAMESPACE := namespace, CHECKPOINT_ID := p.id]
  }

  function Image(p: Input, half: Half): Manifest {
    match half
    case Rootfs => Annotate(p.rootfs, map[TEMPLATE_ID := p.id])
    case Snapfiles => Annotate(p.snapfiles, PairAnnotations(p))
  }

  lemma AnnotationKeys()
    ensures TEMPLATE_ID !in {SANDBOX_UID, NAMESPACE, CHECKPOINT_ID}
    ensures SANDBOX_UID != NAMESPACE && SANDBOX_UID != CHECKPOINT_ID && NAMESPACE != CHECKPOINT_ID
  {
    assert TEMPLATE_ID[16] == 't' && CHECKPOINT_ID[16] == 'c' && SANDBOX_UID[16] == 's' && NAMESPACE[16] == 's';
    assert SANDBOX_UID[24] == 'u' && NAMESPACE[24] == 'n';
  }

  /** The same config, the same layers in the same order, and every annotation that names neither pair nor owner. */
  ghost predicate SameContent(published: Manifest, given: Manifest) {
    && published.config == given.config && published.layers == given.layers
    && forall key | key !in {TEMPLATE_ID, SANDBOX_UID, NAMESPACE, CHECKPOINT_ID} ::
         (key in published.annotations <==> key in given.annotations)
         && (key in given.annotations ==> published.annotations[key] == given.annotations[key])
  }

  lemma SameBlobs(published: Manifest, given: Manifest)
    requires SameContent(published, given)
    ensures Blobs(published) == Blobs(given)
  {}

  /** Both images name the pair; the owner read back from the snapfiles is the given one, with nothing inherited; all else is kept. */
  lemma ImagesNameTheirPair(p: Input)
    ensures PairOf(Image(p, Rootfs)) == PairOf(Image(p, Snapfiles)) == p.id
    ensures var a := Image(p, Snapfiles).annotations;
            match p.owner
            case NoOwner => SANDBOX_UID !in a && NAMESPACE !in a && CHECKPOINT_ID !in a
            case Checkpoint(uid, namespace) =>
              && SANDBOX_UID in a && a[SANDBOX_UID] == uid
              && NAMESPACE in a && a[NAMESPACE] == namespace
              && CHECKPOINT_ID in a && a[CHECKPOINT_ID] == p.id
    ensures SameContent(Image(p, Rootfs), p.rootfs) && SameContent(Image(p, Snapfiles), p.snapfiles)
  {
    AnnotationKeys();
  }

  /** Pairs of different ids have different manifests even when every layer is the same. */
  lemma PairsShareNoManifest(p: Input, q: Input, g: Half, h: Half)
    ensures Image(p, g) == Image(q, h) ==> p.id == q.id
  {
    ImagesNameTheirPair(p);
    ImagesNameTheirPair(q);
  }

  // ---------------------------------------------------------------- the state and what must hold of it

  /** Some Push was given exactly the two manifests standing under the tags. */
  ghost predicate OnePush(inputs: set<Input>, id: string, rootfs: Manifest, snapfiles: Manifest) {
    exists p <- inputs :: p.id == id && Image(p, Rootfs) == rootfs && Image(p, Snapfiles) == snapfiles
  }

  lemma OnePushGrows(before: set<Input>, after: set<Input>)
    requires before <= after
    ensures forall id, r, s :: OnePush(before, id, r, s) ==> OnePush(after, id, r, s)
  {
  }

  /** If both halves stand, they come from one Push. */
  ghost predicate Paired(tags: map<Tag, Manifest>, inputs: set<Input>, id: string) {
    Tag(id, Rootfs) in tags && Tag(id, Snapfiles) in tags ==>
      OnePush(inputs, id, tags[Tag(id, Rootfs)], tags[Tag(id, Snapfiles)])
  }

  /** The snapfiles tag is the publication point: it stands only over a rootfs tag. */
  ghost predicate Published(tags: map<Tag, Manifest>, id: string) {
    Tag(id, Snapfiles) in tags ==> Tag(id, Rootfs) in tags
  }

  /**
   * What a caller can look up before a Push of p: the rootfs tag stands, or the snapfiles tag does not,
   * or it is already the very snapfiles of p.
   */
  predicate SafeToPush(tags: map<Tag, Manifest>, p: Input) {
    || Tag(p.id, Rootfs) in tags
    || Tag(p.id, Snapfiles) !in tags
    || tags[Tag(p.id, Snapfiles)] == Image(p, Snapfiles)
  }

  /**
   * What a Push of p does to the tags, wherever it stops: it moves none, adds only images of p, and adds the
   * snapfiles only over the rootfs of p.
   */
  ghost predicate PushedOver(before: map<Tag, Manifest>, after: map<Tag, Manifest>, p: Input) {
    && (forall t <- before :: t in after && after[t] == before[t])
    && (forall t <- after :: t !in before ==> t.id == p.id && after[t] == Image(p, t.half))
    && (Tag(p.id, Snapfiles) in after && Tag(p.id, Snapfiles) !in before ==>
          Tag(p.id, Rootfs) in after && after[Tag(p.id, Rootfs)] == Image(p, Rootfs))
  }

  /** After any Push from a safe state, an unmixed pair is unmixed; pairs of other ids stay as they are. */
  lemma SafePushKeepsPair(before: map<Tag, Manifest>, after: map<Tag, Manifest>, inputs: set<Input>, p: Input)
    requires PushedOver(before, after, p)
    ensures SafeToPush(before, p) && Paired(before, inputs, p.id) ==> Paired(after, inputs + {p}, p.id)
    ensures forall id :: id != p.id && Paired(before, inputs, id) ==> Paired(after, inputs + {p}, id)
  {
    OnePushGrows(inputs, inputs + {p});
    var root, snap := Tag(p.id, Rootfs), Tag(p.id, Snapfiles);
    assert p in inputs + {p};
    assert OnePush(inputs + {p}, p.id, Image(p, Rootfs), Image(p, Snapfiles));
    forall id | id != p.id && Paired(before, inputs, id) ensures Paired(after, inputs + {p}, id) {
      assert Tag(id, Rootfs) in after <==> Tag(id, Rootfs) in before;
      assert Tag(id, Snapfiles) in after <==> Tag(id, Snapfiles) in before;
    }
  }

  /** A standing snapfiles tag was put there by some Push of the history. */
  ghost predicate Accounted(tags: map<Tag, Manifest>, inputs: set<Input>, id: string) {
    Tag(id, Snapfiles) in tags ==> exists q <- inputs :: q.id == id && Image(q, Snapfiles) == tags[Tag(id, Snapfiles)]
  }

  /** The Push keeps the pair of its id unmixed, whatever Pushes led to the tags before it. */
  ghost predicate KeepsPair(before: map<Tag, Manifest>, after: map<Tag, Manifest>, p: Input) {
    forall inputs :: Paired(before, inputs, p.id) && Accounted(before, inputs, p.id) ==> Paired(after, inputs + {p}, p.id)
  }

  /** A Push with the snapfiles of q and another rootfs than p's: as good a history for the standing tag as q. */
  lemma AnotherRootfs(q: Input, p: Input) returns (other: Input)
    ensures other.id == q.id && Image(other, Snapfiles) == Image(q, Snapfiles) && Image(other, Rootfs) != Image(p, Rootfs)
  {
    other := q.(rootfs := p.rootfs.(config := p.rootfs.config + 1));
  }

  /**
   * A Push whose rootfs stands afterwards keeps the pair unmixed, whatever led to the tags, exactly when it was
   * safe to push.
   */
  lemma PushKeepsPairIff(before: map<Tag, Manifest>, after: map<Tag, Manifest>, inputs: set<Input>, p: Input)
    requires PushedOver(before, after, p) && Tag(p.id, Rootfs) in after && Accounted(before, inputs, p.id)
    ensures KeepsPair(before, after, p) <==> SafeToPush(before, p)
  {
    if SafeToPush(before, p) {
      forall inputs | Paired(before, inputs, p.id) ensures Paired(after, inputs + {p}, p.id) {
        SafePushKeepsPair(before, after, inputs, p);
      }
    } else {
      var q :| q in inputs && q.id == p.id && Image(q, Snapfiles) == before[Tag(p.id, Snapfiles)];
      UnsafePushMixes(before, after, p, q);
    }
  }

  lemma UnsafePushMixes(before: map<Tag, Manifest>, after: map<Tag, Manifest>, p: Input, q: Input)
    requires PushedOver(before, after, p) && Tag(p.id, Rootfs) in after && !SafeToPush(before, p)
    requires q.id == p.id && Image(q, Snapfiles) == before[Tag(p.id, Snapfiles)]
    ensures !KeepsPair(before, after, p)
  {
    var other := AnotherRootfs(q, p);
    assert Paired(before, {other}, p.id) && Accounted(before, {other}, p.id);
    assert !OnePush({other} + {p}, p.id, Image(p, Rootfs), before[Tag(p.id, Snapfiles)]);
    assert !Paired(after, {other} + {p}, p.id);
  }

  /** Every blob is at hand, and no half of other content stands. */
  ghost predicate Pushable(tags: map<Tag, Manifest>, p: Input, blobs: set<Blob>) {
    && Blobs(p.rootfs) + Blobs(p.snapfiles) <= blobs
    && (Tag(p.id, Rootfs) in tags ==> tags[Tag(p.id, Rootfs)] == Image(p, Rootfs))
    && (Tag(p.id, Snapfiles) in tags ==> tags[Tag(p.id, Snapfiles)] == Image(p, Snapfiles))
  }

  datatype Outcome = Done | Refused | Failed

  /** A repository. Every request may fail, and a failed write may have landed. */
  class Repository {
    var tags: map<Tag, Manifest>
    var manifests: set<Manifest>
    var blobs: set<Blob>
    /** Every input some Push has been started with. */
    ghost var inputs: set<Input>

    /** Tags point to stored manifests, and every stored manifest has all its blobs: what a registry sees to. */
    ghost predicate Stored()
      reads this
    {
      (forall t <- tags :: tags[t] in manifests) && (forall m <- manifests :: Blobs(m) <= blobs)
    }

    /** Tags point to manifests of their own pair: what Push sees to, as long as nobody else writes tags. */
    ghost predicate Labelled()
      reads this
    {
      forall t <- tags :: PairOf(tags[t]) == t.id
    }

    ghost predicate Valid()
      reads this
    {
      Stored() && Labelled()
    }

    ghost predicate AllPaired()
      reads this
    {
      forall id :: Paired(tags, inputs, id)
    }

    ghost predicate AllPublished()
      reads this
    {
      forall id :: Published(tags, id)
    }

    /** pushLocalBlob: a local file is uploaded unless present; a missing one is inherited from its source. */
    method PushBlob(b: Blob, local: set<Blob>, sources: set<Blob>, ioOk: bool) returns (ok: bool)
      modifies this`blobs
      ensures blobs == old(blobs) || blobs == old(blobs) + {b}
      ensures ok ==> b in blobs && b in local + sources
      ensures ioOk ==> (ok <==> b in local + sources)
    {
      if b !in local && b !in sources { return false; }
      var unread, unsent, lost := *, *, *;
      if unread && !ioOk { return false; }  // unreadable, digest or size mismatch, or the existence query failed
      if b in blobs { return true; }
      if unsent && !ioOk { return false; }  // the upload or mount did not land
      blobs := blobs + {b};
      return !lost || ioOk;
    }

    /** pushImmutableManifest: a standing tag is never moved. */
    method PushManifest(t: Tag, m: Manifest, ioOk: bool) returns (r: Outcome)
      requires Valid() && Blobs(m) <= blobs && PairOf(m) == t.id
      modifies this`tags, this`manifests
      ensures Valid()
      ensures tags == old(tags) || (t !in old(tags) && tags == old(tags)[t := m])
      ensures old(manifests) <= manifests <= old(manifests) + {m}
      ensures r.Done? ==> t in tags && tags[t] == m
      ensures r.Refused? ==> t in old(tags) && old(tags)[t] != m && tags == old(tags)
      ensures ioOk ==> r == if t in old(tags) && old(tags)[t] != m then Refused else Done
    {
      var unresolved, unsent, lost := *, *, *;
      if unresolved && !ioOk { return Failed; }
      if t in tags {
        return if tags[t] != m then Refused else Done;
      }
      if unsent && !ioOk { return Failed; }
      tags, manifests := tags[t := m], manifests + {m};
      if lost && !ioOk { return Failed; }  // the reply, or the check after it
      return if tags[t] != m then Refused else Done;
    }

    /** pushLocalImage: every blob first, then the manifest under its tag. */
    method PushImage(t: Tag, m: Manifest, local: set<Blob>, sources: set<Blob>, ioOk: bool) returns (r: Outcome)
      requires Valid() && PairOf(m) == t.id
      modifies this`tags, this`manifests, this`blobs
      ensures Valid() && old(blobs) <= blobs && old(manifests) <= manifests
      ensures tags == old(tags) || (t !in old(tags) && tags == old(tags)[t := m])
      ensures r.Done? ==> t in tags && tags[t] == m && Blobs(m) <= blobs * (local + sources)
      ensures r.Refused? ==> t in old(tags) && old(tags)[t] != m
      ensures ioOk ==> (r.Done? <==> Blobs(m) <= local + sources && (t in old(tags) ==> old(tags)[t] == m))
    {
      var descriptors := [m.config] + m.layers;
      for i := 0 to |descriptors|
        invariant Valid() && old(blobs) <= blobs && tags == old(tags) && manifests == old(manifests)
        invariant forall k :: 0 <= k < i ==> descriptors[k] in blobs && descriptors[k] in local + sources
      {
        var ok := PushBlob(descriptors[i], local, sources, ioOk);
        if !ok {
          assert descriptors[i] in Blobs(m) by { if i > 0 { assert descriptors[i] == m.layers[i - 1]; } }
          return Failed;
        }
      }
      assert Blobs(m) <= blobs * (local + sources) by {
        forall b <- Blobs(m) ensures b in descriptors {
          if b != m.config { assert b in m.layers; }
        }
      }
      r := PushManifest(t, m, ioOk);
    }

    /** The two images of a Push, rootfs first, stopping at the first failure. */
    method PushImages(p: Input, local: set<Blob>, sources: set<Blob>, ioOk: bool) returns (r: Outcome)
      requires Valid()
      modifies this`tags, this`manifests, this`blobs
      ensures Valid() && old(blobs) <= blobs && old(manifests) <= manifests
      ensures forall t <- old(tags) :: t in tags && tags[t] == old(tags)[t]
      ensures forall t <- tags :: t !in old(tags) ==> t.id == p.id && tags[t] == Image(p, t.half)
      ensures Tag(p.id, Snapfiles) in tags && Tag(p.id, Snapfiles) !in old(tags) ==>
                Tag(p.id, Rootfs) in tags && tags[Tag(p.id, Rootfs)] == Image(p, Rootfs)
      ensures r.Done? ==>
                && Tag(p.id, Rootfs) in tags && tags[Tag(p.id, Rootfs)] == Image(p, Rootfs)
                && Tag(p.id, Snapfiles) in tags && tags[Tag(p.id, Snapfiles)] == Image(p, Snapfiles)
                && Blobs(p.rootfs) + Blobs(p.snapfiles) <= blobs * (local + sources)
      ensures r.Refused? ==> exists h :: Tag(p.id, h) in old(tags) && tags[Tag(p.id, h)] != Image(p, h)
      ensures ioOk ==> (r.Done? <==> Pushable(old(tags), p, local + sources))
    {
      ImagesNameTheirPair(p);
      SameBlobs(Image(p, Rootfs), p.rootfs);
      SameBlobs(Image(p, Snapfiles), p.snapfiles);
      r := PushImage(Tag(p.id, Rootfs), Image(p, Rootfs), local, sources, ioOk);
      if !r.Done? { return; }
      r := PushImage(Tag(p.id, Snapfiles), Image(p, Snapfiles), local, sources, ioOk);
    }

    /**
     * Push: the rootfs image, then the snapfiles image, stopping at the first failure.
     * However it ends, no standing tag has moved and nothing of another pair has changed.
     * Once its rootfs stands, it keeps the pair unmixed whatever came before exactly when it was safe to push.
     * What it publishes has the content given. If no request fails, it succeeds exactly when the input is
     * acceptable, every blob is at hand, and no half of other content stands.
     */
    method Push(p: Input, local: set<Blob>, sources: set<Blob>, ioOk: bool) returns (r: Outcome)
      requires Valid()
      modifies this
      ensures Valid() && old(blobs) <= blobs && old(manifests) <= manifests && inputs == old(inputs) + {p}
      ensures forall t <- old(tags) :: t in tags && tags[t] == old(tags)[t]
      ensures forall t <- tags :: t !in old(tags) ==> t.id == p.id && tags[t] == Image(p, t.half)
      ensures r.Done? ==>
                && Tag(p.id, Rootfs) in tags && tags[Tag(p.id, Rootfs)] == Image(p, Rootfs)
                && Tag(p.id, Snapfiles) in tags && tags[Tag(p.id, Snapfiles)] == Image(p, Snapfiles)
                && Blobs(p.rootfs) + Blobs(p.snapfiles) <= blobs * (local + sources)
      ensures r.Done? ==>
                && SameContent(tags[Tag(p.id, Rootfs)], p.rootfs) && SameContent(tags[Tag(p.id, Snapfiles)], p.snapfiles)
      ensures ioOk ==> (r.Done? <==> Acceptable(p) && Pushable(old(tags), p, local + sources))
      ensures r.Refused? ==> !Acceptable(p) || exists h :: Tag(p.id, h) in old(tags) && tags[Tag(p.id, h)] != Image(p, h)
      ensures old(Published(tags, p.id)) ==> Published(tags, p.id)
      ensures old(Paired(tags, inputs, p.id)) && SafeToPush(old(tags), p) ==> Paired(tags, inputs, p.id)
      ensures old(Accounted(tags, inputs, p.id)) ==> Accounted(tags, inputs, p.id)
      ensures Tag(p.id, Rootfs) in tags && old(Accounted(tags, inputs, p.id)) ==>
                (KeepsPair(old(tags), tags, p) <==> SafeToPush(old(tags), p))
      ensures forall id :: id != p.id && old(Paired(tags, inputs, id)) ==> Paired(tags, inputs, id)
    {
      inputs := inputs + {p};
      r := Refused;
      if Acceptable(p) { r := PushImages(p, local, sources, ioOk); }
      ImagesNameTheirPair(p);
      SafePushKeepsPair(old(tags), tags, old(inputs), p);
      if Tag(p.id, Rootfs) in tags && old(Accounted(tags, inputs, p.id)) {
        PushKeepsPairIff(old(tags), tags, old(inputs), p);
      }
    }

    /** What DeletePair checks before its first deletion. */
    ghost predicate Deletable(id: string, snapfiles: Manifest)
      reads this
    {
      && (Tag(id, Rootfs) in tags ==> PairOf(tags[Tag(id, Rootfs)]) == id)
      && (snapfiles in manifests ==> PairOf(snapfiles) == id)
    }

    /** Deleting by digest drops the manifest and every tag on it, and nothing else. */
    method DeleteManifest(m: Manifest, ioOk: bool) returns (ok: bool)
      requires Stored()
      modifies this`tags, this`manifests
      ensures Stored()
      ensures manifests == old(manifests) || manifests == old(manifests) - {m}
      ensures tags == map t | t in old(tags) && old(tags)[t] in manifests :: old(tags)[t]
      ensures ok ==> m !in manifests
      ensures ioOk ==> ok
    {
      var failed, lost := *, *;
      if failed && !ioOk { return false; }
      if m in manifests {
        manifests := manifests - {m};
        tags := map t | t in tags && tags[t] != m :: tags[t];
      }                                        // not found counts as done
      return !lost || ioOk;
    }

    /**
     * DeletePair, given the immutable reference of the snapfiles and the pair id.
     * Whatever other clients tagged, only manifests that name this pair go, the publication point last, and
     * never a blob; a refusal touches nothing, and after a failure the same call is still allowed and is done
     * once every request succeeds.
     */
    method DeletePair(snapfiles: Manifest, id: string, ioOk: bool) returns (r: Outcome)
      requires Stored()
      modifies this`tags, this`manifests
      ensures Stored() && (old(Labelled()) ==> Labelled()) && manifests <= old(manifests)
      ensures tags == map t | t in old(tags) && old(tags)[t] in manifests :: old(tags)[t]
      ensures forall m <- old(manifests) - manifests :: PairOf(m) == id
      ensures forall t <- old(tags) :: PairOf(old(tags)[t]) != id || (old(Labelled()) && t.id != id) ==> t in tags
      ensures r.Refused? ==> tags == old(tags) && manifests == old(manifests)
      ensures ValidPairId(id) && old(Deletable(id, snapfiles)) ==> !r.Refused? && Deletable(id, snapfiles)
      ensures ioOk ==> r == if ValidPairId(id) && old(Deletable(id, snapfiles)) then Done else Refused
      ensures !(ValidPairId(id) && old(Deletable(id, snapfiles))) ==> !r.Done? && tags == old(tags) && manifests == old(manifests)
      ensures r.Done? ==> Tag(id, Rootfs) !in tags && snapfiles !in manifests
      ensures snapfiles in old(manifests) - manifests ==> Tag(id, Rootfs) !in tags
    {
      if !ValidPairId(id) { return Refused; }
      var targets: seq<Manifest> := [];
      var unresolved, unread := *, *;
      if unresolved && !ioOk { return Failed; }
      if Tag(id, Rootfs) in tags {
        if PairOf(tags[Tag(id, Rootfs)]) != id { return Refused; }
        targets := targets + [tags[Tag(id, Rootfs)]];
      }
      if unread && !ioOk { return Failed; }
      if snapfiles in manifests {
        if PairOf(snapfiles) != id { return Refused; }
        targets := targets + [snapfiles];
      }
      assert Tag(id, Rootfs) in tags ==> |targets| > 0 && targets[0] == tags[Tag(id, Rootfs)];
      assert snapfiles in manifests ==> |targets| > 0 && targets[|targets| - 1] == snapfiles;
      ghost var tried;
      r, tried := DeleteAll(targets, ioOk);
      assert forall m <- old(manifests) - manifests :: m in targets;
    }

    /** Deletes in order until the first failure; what went is exactly a part of what was asked. */
    method DeleteAll(targets: seq<Manifest>, ioOk: bool) returns (r: Outcome, ghost tried: nat)
      requires Stored()
      modifies this`tags, this`manifests
      ensures Stored() && manifests <= old(manifests) && !r.Refused? && (ioOk ==> r.Done?)
      ensures tried <= |targets| && forall m <- old(manifests) - manifests :: m in targets[..tried]
      ensures forall i :: 0 <= i < tried - 1 ==> targets[i] !in manifests
      ensures tags == map t | t in old(tags) && old(tags)[t] in manifests :: old(tags)[t]
      ensures r.Done? ==> forall m <- targets :: m !in manifests
    {
      tried := 0;
      for i := 0 to |targets|
        invariant Stored() && manifests <= old(manifests)
        invariant tried == i
        invariant forall k :: 0 <= k < i ==> targets[k] !in manifests
        invariant forall m <- old(manifests) - manifests :: m in targets[..i]
        invariant tags == map t | t in old(tags) && old(tags)[t] in manifests :: old(tags)[t]
      {
        tried := i + 1;
        var ok := DeleteManifest(targets[i], ioOk);
        assert targets[..i + 1] == targets[..i] + [targets[i]];
        if !ok { r := Failed; return; }
      }
      r := Done;
    }
  }

  // ---------------------------------------------------------------- resolving

  /**
   * How a template is referred to: by the digest of a manifest, by a name that is some tag's name,
   * or by any other name.
   */
  datatype Reference = ByDigest(manifest: Manifest) | ByTag(tag: Tag) | ByName(name: string)

  datatype Envelope = Envelope(rootfs: Manifest, snapfiles: Manifest, owner: Owner)

  datatype Resolution = Resolved(envelope: Envelope) | NotFound | Malformed

  function Annotation(m: Manifest, key: string): string {
    if key in m.annotations then m.annotations[key] else ""
  }

  function Lookup(tags: map<Tag, Manifest>, t: Tag): Option<Manifest> {
    if t in tags then Some(tags[t]) else None
  }

  /** The manifest a reference names; a name that is no tag stands for its snapfiles tag. */
  function Described(tags: map<Tag, Manifest>, manifests: set<Manifest>, ref: Reference): Option<Manifest> {
    match ref
    case ByDigest(m) => if m in manifests then Some(m) else None
    case ByTag(t) => if t in tags then Some(tags[t]) else Lookup(tags, Tag(TagName(t), Snapfiles))
    case ByName(name) => Lookup(tags, Tag(name, Snapfiles))
  }

  /** resolvePair: the pair id and the owner come from the annotations, the rootfs from the pair's tag. */
  function ResolvePair(tags: map<Tag, Manifest>, m: Manifest): Resolution {
    var id := PairOf(m);
    var uid, namespace, checkpoint := Annotation(m, SANDBOX_UID), Annotation(m, NAMESPACE), Annotation(m, CHECKPOINT_ID);
    var owned := uid != "" || namespace != "" || checkpoint != "";
    if !ValidPairId(id) then Malformed
    else if owned && (Blank(uid) || Blank(namespace) || checkpoint != id) then Malformed
    else if Tag(id, Rootfs) !in tags then NotFound
    else Resolved(Envelope(tags[Tag(id, Rootfs)], m, if owned then Checkpoint(uid, namespace) else NoOwner))
  }

  function ResolveFrom(tags: map<Tag, Manifest>, manifests: set<Manifest>, ref: Reference): Resolution {
    match Described(tags, manifests, ref) case None => NotFound case Some(m) => ResolvePair(tags, m)
  }

  /** What a finished Push of p is found under: its digest, its snapfiles tag, its bare id. */
  predicate NamesPush(ref: Reference, p: Input) {
    ref in {ByDigest(Image(p, Snapfiles)), ByTag(Tag(p.id, Snapfiles)), ByName(p.id)}
  }

  /** Publishing and resolving is a round trip: both images and the owner come back, under every name of the pair. */
  lemma ResolvesToPush(tags: map<Tag, Manifest>, manifests: set<Manifest>, p: Input, ref: Reference)
    requires Acceptable(p) && NamesPush(ref, p) && Image(p, Snapfiles) in manifests
    requires forall half :: Tag(p.id, half) in tags && tags[Tag(p.id, half)] == Image(p, half)
    ensures ResolveFrom(tags, manifests, ref) == Resolved(Envelope(Image(p, Rootfs), Image(p, Snapfiles), p.owner))
  {
    ImagesNameTheirPair(p);
    assert Described(tags, manifests, ref) == Some(Image(p, Snapfiles));
  }

  /** A resolved owner is whole: none exactly when no owner annotation says anything, else named and of this pair. */
  lemma ResolvedOwnerIsWhole(tags: map<Tag, Manifest>, m: Manifest)
    ensures var r := ResolvePair(tags, m);
            r.Resolved? ==>
              && r.envelope.snapfiles == m && PairOf(m) != ""
              && Tag(PairOf(m), Rootfs) in tags && r.envelope.rootfs == tags[Tag(PairOf(m), Rootfs)]
              && (r.envelope.owner.NoOwner? <==> forall key <- [SANDBOX_UID, NAMESPACE, CHECKPOINT_ID] :: Annotation(m, key) == "")
              && (r.envelope.owner.Checkpoint? ==>
                    && !Blank(r.envelope.owner.uid) && r.envelope.owner.uid == Annotation(m, SANDBOX_UID)
                    && !Blank(r.envelope.owner.namespace) && r.envelope.owner.namespace == Annotation(m, NAMESPACE)
                    && Annotation(m, CHECKPOINT_ID) == PairOf(m))
  {
    var keys := [SANDBOX_UID, NAMESPACE, CHECKPOINT_ID];
    assert keys[0] in keys && keys[1] in keys && keys[2] in keys;
  }

  /** Whatever a name of a pair resolves to in an unmixed repository was given to one Push. */
  lemma ResolvesToOnePush(repo: Repository, id: string, ref: Reference)
    requires repo.Valid() && Paired(repo.tags, repo.inputs, id) && ref in {ByTag(Tag(id, Snapfiles)), ByName(id)}
    requires ref.ByTag? ==> Tag(id, Snapfiles) in repo.tags
    ensures var r := ResolveFrom(repo.tags, repo.manifests, ref);
            r.Resolved? ==> OnePush(repo.inputs, id, r.envelope.rootfs, r.envelope.snapfiles)
  {}

  // ---------------------------------------------------------------- whole histories

  /**
   * Any number of Pushes, each cut off anywhere and retried or not, by writers that do not race:
   * a tag once published never moves, and a standing snapfiles tag stands over the rootfs of its own Push.
   */
  method PushHistory(repo: Repository, pushes: seq<Input>, local: seq<set<Blob>>, sources: seq<set<Blob>>)
    requires repo.Valid() && repo.AllPaired() && repo.AllPublished()
    requires |local| == |sources| == |pushes|
    modifies repo
    ensures repo.Valid() && repo.AllPaired() && repo.AllPublished()
    ensures forall t <- old(repo.tags) :: t in repo.tags && repo.tags[t] == old(repo.tags[t])
    ensures repo.inputs <= old(repo.inputs) + set p <- pushes
  {
    for i := 0 to |pushes|
      invariant repo.Valid() && repo.AllPaired() && repo.AllPublished()
      invariant forall t <- old(repo.tags) :: t in repo.tags && repo.tags[t] == old(repo.tags[t])
      invariant repo.inputs <= old(repo.inputs) + set p <- pushes
    {
      assert Published(repo.tags, pushes[i].id) && Paired(repo.tags, repo.inputs, pushes[i].id);
      ghost var before := repo.tags;
      var ioOk := *;
      var _ := repo.Push(pushes[i], local[i], sources[i], ioOk);
      PublishedElsewhere(before, repo.tags, pushes[i].id);
    }
  }

  lemma PublishedElsewhere(before: map<Tag, Manifest>, after: map<Tag, Manifest>, id: string)
    requires forall i :: Published(before, i)
    requires forall t <- before :: t in after
    requires forall t <- after :: t !in before ==> t.id == id
    requires Published(after, id)
    ensures forall i :: Published(after, i)
  {
    forall i ensures Published(after, i) {
      assert Published(before, i);
      if i != id { assert Tag(i, Snapfiles) in after ==> Tag(i, Snapfiles) in before; }
    }
  }

  lemma FewerTagsStayPaired(before: map<Tag, Manifest>, after: map<Tag, Manifest>, inputs: set<Input>)
    requires forall i :: Paired(before, inputs, i)
    requires forall t <- after :: t in before && after[t] == before[t]
    ensures forall i :: Paired(after, inputs, i)
  {
    forall i ensures Paired(after, inputs, i) {
      assert Paired(before, inputs, i);
    }
  }

  datatype Request =
    | Publish(input: Input, local: set<Blob>, sources: set<Blob>)
    | Remove(snapfiles: Manifest, id: string)

  /**
   * Pushes and deletions in any order, each cut off anywhere, where a writer looks before a Push
   * whether it is safe: no two halves of different Pushes ever stand together.
   */
  method MixedHistory(repo: Repository, requests: seq<Request>)
    requires repo.Valid() && repo.AllPaired()
    modifies repo
    ensures repo.Valid() && repo.AllPaired()
  {
    for i := 0 to |requests|
      invariant repo.Valid() && repo.AllPaired()
    {
      match requests[i]
      case Publish(p, local, sources) =>
        assert Paired(repo.tags, repo.inputs, p.id);
        if SafeToPush(repo.tags, p) {
          var ioOk := *;
          var _ := repo.Push(p, local, sources, ioOk);
        }
      case Remove(snapfiles, id) =>
        ghost var before := repo.tags;
        var ioOk := *;
        var _ := repo.DeletePair(snapfiles, id, ioOk);
        FewerTagsStayPaired(before, repo.tags, repo.inputs);
    }
  }

  /** Deleting one pair again and again, each time cut off anywhere, is done at the first try nothing goes wrong in. */
  method DeleteUntilDone(repo: Repository, snapfiles: Manifest, id: string, failures: nat) returns (r: Outcome)
    requires repo.Stored() && ValidPairId(id) && repo.Deletable(id, snapfiles)
    modifies repo
    ensures repo.Stored() && r.Done? && Tag(id, Rootfs) !in repo.tags && snapfiles !in repo.manifests
    ensures forall t <- old(repo.tags) :: PairOf(old(repo.tags)[t]) != id || (old(repo.Labelled()) && t.id != id) ==>
              t in repo.tags && repo.tags[t] == old(repo.tags)[t]
    ensures repo.blobs == old(repo.blobs)
  {
    for i := 0 to failures
      invariant repo.Stored() && (old(repo.Labelled()) ==> repo.Labelled())
      invariant repo.Deletable(id, snapfiles) && repo.blobs == old(repo.blobs)
      invariant forall t <- old(repo.tags) :: PairOf(old(repo.tags)[t]) != id || (old(repo.Labelled()) && t.id != id) ==>
                  t in repo.tags && repo.tags[t] == old(repo.tags)[t]
    {
      r := repo.DeletePair(snapfiles, id, false);
    }
    r := repo.DeletePair(snapfiles, id, true);
  }

  /** A deletion cut off after the rootfs, then a Push of other content under the same id: the halves are mixed. */
  lemma PushOverHalfDeletedPair(p: Input, q: Input)
    requires p.id == q.id && Image(p, Rootfs) != Image(q, Rootfs) && Image(p, Snapfiles) != Image(q, Snapfiles)
    ensures var published := map[Tag(p.id, Rootfs) := Image(p, Rootfs), Tag(p.id, Snapfiles) := Image(p, Snapfiles)];
            var halfDeleted := published - {Tag(p.id, Rootfs)};
            var pushed := halfDeleted[Tag(q.id, Rootfs) := Image(q, Rootfs)];
            && Paired(published, {p}, p.id)
            && !SafeToPush(halfDeleted, q) && PushedOver(halfDeleted, pushed, q)
            && !Paired(pushed, {p, q}, p.id)
  {
    assert p in {p};
  }
}
