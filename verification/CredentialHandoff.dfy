/** Handing the credentials of a sandbox's images to overlaybd through its shared credential file. */
module CredentialHandoff {
  import opened Common
  import opened CredentialMatch

  // ---------------------------------------------------------------- entries and credentials

  /** The base64 `auth` field: base64 is a bijection on the texts it encodes. */
  datatype Token = NoToken | Encoded(text: string) | Malformed

  datatype AuthEntry = AuthEntry(username: string, password: string, token: Token, identityToken: string)

  datatype Credential = Credential(username: string, password: string)

  const ANONYMOUS := Credential("", "")

  datatype Decoding = Decoded(credential: Credential) | Undecodable

  /** The position of the first colon at or after i, or the length. */
  function Colon(s: string, i: nat): (r: nat)
    requires i <= |s|
    ensures i <= r <= |s|
    decreases |s| - i
  {
    if i == |s| || s[i] == ':' then i else Colon(s, i + 1)
  }

  function BasicCredential(username: string, password: string, identityToken: string): Decoding {
    if username == "" && password == "" && identityToken != "" then Undecodable
    else Decoded(Credential(username, password))
  }

  /** authEntry.credential: the explicit pair, else the token cut at its first colon. */
  function CredentialOf(e: AuthEntry): Decoding {
    if e.username != "" || e.password != "" then Decoded(Credential(e.username, e.password))
    else match e.token
    case NoToken => BasicCredential("", "", e.identityToken)
    case Malformed => Undecodable
    case Encoded(text) =>
      var i := Colon(text, 0);
      if i == |text| then Undecodable else BasicCredential(text[..i], text[i + 1..], e.identityToken)
  }

  /** The entry written for a credential. */
  function HandoffEntry(c: Credential): AuthEntry {
    AuthEntry("", "", Encoded(c.username + ":" + c.password), "")
  }

  lemma {:induction false} ColonIs(s: string, i: nat, at: nat)
    requires i <= at < |s| && s[at] == ':'
    ensures Colon(s, i) <= at
    ensures Colon(s, i) == at <==> forall k :: i <= k < at ==> s[k] != ':'
    decreases at - i
  {
    if i < at && s[i] != ':' { ColonIs(s, i + 1, at); }
  }

  /** Reading the handed-over entry gives the credential back exactly when its user name has no colon. */
  lemma HandoffRoundTripIff(c: Credential)
    ensures CredentialOf(HandoffEntry(c)).Decoded?
    ensures CredentialOf(HandoffEntry(c)) == Decoded(c) <==> ':' !in c.username
  {
    var text := c.username + ":" + c.password;
    var at := |c.username|;
    assert forall k :: 0 <= k < at ==> text[k] == c.username[k];
    ColonIs(text, 0, at);
    var i := Colon(text, 0);
    assert |text[..i]| == i;
    assert text[..at] == c.username && text[at + 1..] == c.password;
  }

  // ---------------------------------------------------------------- choosing

  type Auths = map<string, AuthEntry>

  predicate Explicit(e: AuthEntry) { e.username != "" || e.password != "" }

  /**
   * What makes an entry usable: an explicit pair; or a well-formed token with a colon; or no token at all. An
   * identity token cannot stand in for an empty user name and password.
   */
  predicate Usable(e: AuthEntry) {
    || Explicit(e)
    || (e.token.Encoded? && ':' in e.token.text && (e.token.text == ":" ==> e.identityToken == ""))
    || (e.token.NoToken? && e.identityToken == "")
  }

  /** The credential a usable entry stands for: its pair, or its token read as `user:password`, or none. */
  predicate Means(e: AuthEntry, c: Credential) {
    if Explicit(e) then c == Credential(e.username, e.password)
    else if e.token.Encoded? then ':' !in c.username && c.username + ":" + c.password == e.token.text
    else c == ANONYMOUS
  }

  /** The text overlaybd is given for a usable entry. */
  function TokenText(e: AuthEntry): string {
    if Explicit(e) then e.username + ":" + e.password
    else if e.token.Encoded? then e.token.text
    else ":"
  }

  lemma {:induction false} ColonFound(s: string, i: nat)
    requires i <= |s|
    ensures ':' !in s[i..Colon(s, i)]
    ensures Colon(s, i) < |s| ==> s[Colon(s, i)] == ':'
    ensures Colon(s, i) == |s| <==> ':' !in s[i..]
    decreases |s| - i
  {
    if i < |s| && s[i] != ':' {
      ColonFound(s, i + 1);
      assert s[i..] == [s[i]] + s[i + 1..];
      assert s[i..Colon(s, i)] == [s[i]] + s[i + 1..Colon(s, i)];
    }
  }

  /** authEntry.credential reads exactly the usable entries, and as what they stand for. */
  lemma CredentialOfMeans(e: AuthEntry)
    ensures CredentialOf(e).Decoded? <==> Usable(e)
    ensures CredentialOf(e).Decoded? ==> Means(e, CredentialOf(e).credential)
  {
    if !Explicit(e) && e.token.Encoded? {
      var text := e.token.text;
      var i := Colon(text, 0);
      ColonFound(text, 0);
      assert text[0..] == text && text[0..i] == text[..i];
      if i < |text| {
        assert text == text[..i] + ":" + text[i + 1..];
        assert text == ":" <==> text[..i] == "" && text[i + 1..] == "";
      }
    }
  }

  lemma MeansText(e: AuthEntry, c: Credential)
    requires Means(e, c)
    ensures HandoffEntry(c) == AuthEntry("", "", Encoded(TokenText(e)), "")
  {
    assert "" + ":" + "" == ":";
  }

  /** The credential of a longest serving key, or the anonymous one where none serves. */
  ghost predicate Chosen(config: Auths, full: string, c: Credential) {
    || (exists key <- config :: Longest(config.Keys, key, full) && Usable(config[key]) && Means(config[key], c))
    || (NoneServes(config.Keys, full) && c == ANONYMOUS)
  }

  /** Some longest serving key has an entry that cannot be used. */
  ghost predicate Unusable(config: Auths, full: string) {
    exists key <- config :: Longest(config.Keys, key, full) && !Usable(config[key])
  }

  method CredentialFor(config: Auths, ref: Reference) returns (r: Decoding)
    requires '/' !in ref.registry
    ensures r.Decoded? ==> Chosen(config, FullName(ref), r.credential)
    ensures r.Undecodable? ==> Unusable(config, FullName(ref))
  {
    var best := BestKey(config.Keys, ref);
    BestKeyIsLongest(config.Keys, ref, best);
    if best == "" { return Decoded(ANONYMOUS); }
    r := CredentialOf(config[best]);
    CredentialOfMeans(config[best]);
    assert best in config && Longest(config.Keys, best, FullName(ref));
  }

  /**
   * The entry overlaybd must be given for an image: the token text of a longest serving key's entry,
   * or the anonymous one where no key serves.
   */
  ghost predicate HandedOver(config: Auths, full: string, e: AuthEntry) {
    || (exists key <- config ::
          Longest(config.Keys, key, full) && Usable(config[key]) && e == AuthEntry("", "", Encoded(TokenText(config[key])), ""))
    || (NoneServes(config.Keys, full) && e == AuthEntry("", "", Encoded(":"), ""))
  }

  /** One entry per image, under its full name; it fails only over an entry that cannot be used. */
  method OverlaybdCredentials(config: Auths, images: seq<Reference>) returns (ok: bool, handoff: Auths)
    requires forall i :: 0 <= i < |images| ==> '/' !in images[i].registry
    ensures ok ==> forall i :: 0 <= i < |images| ==> FullName(images[i]) in handoff
    ensures ok ==> forall key <- handoff :: HandedOver(config, key, handoff[key])
    ensures ok ==> forall key <- handoff :: exists i :: 0 <= i < |images| && key == FullName(images[i])
    ensures !ok ==> exists i :: 0 <= i < |images| && Unusable(config, FullName(images[i]))
  {
    handoff := map[];
    for n := 0 to |images|
      invariant forall i :: 0 <= i < n ==> FullName(images[i]) in handoff
      invariant forall key <- handoff :: HandedOver(config, key, handoff[key])
      invariant forall key <- handoff :: exists i :: 0 <= i < n && key == FullName(images[i])
    {
      var r := CredentialFor(config, images[n]);
      if r.Undecodable? { return false, handoff; }
      ChosenIsHandedOver(config, FullName(images[n]), r.credential);
      handoff := handoff[FullName(images[n]) := HandoffEntry(r.credential)];
    }
    ok := true;
  }

  lemma ChosenIsHandedOver(config: Auths, full: string, c: Credential)
    requires Chosen(config, full, c)
    ensures HandedOver(config, full, HandoffEntry(c))
  {
    if NoneServes(config.Keys, full) && c == ANONYMOUS {
      assert "" + ":" + "" == ":";
    } else {
      var key :| key in config && Longest(config.Keys, key, full) && Usable(config[key]) && Means(config[key], c);
      MeansText(config[key], c);
    }
  }

  // ---------------------------------------------------------------- the file

  /** Go's string comparison. */
  predicate Less(a: string, b: string)
    decreases |a|
  {
    b != "" && (a == "" || a[0] < b[0] || (a[0] == b[0] && Less(a[1..], b[1..])))
  }

  lemma {:induction false} LessIsTotal(a: string, b: string)
    ensures if a == b then !Less(a, b) else Less(a, b) != Less(b, a)
    decreases |a|
  {
    if a != "" && b != "" && a[0] == b[0] {
      LessIsTotal(a[1..], b[1..]);
      assert a == [a[0]] + a[1..] && b == [b[0]] + b[1..];
    }
  }

  lemma {:induction false} LessIsTransitive(a: string, b: string, c: string)
    requires Less(a, b) && Less(b, c)
    ensures Less(a, c)
    decreases |a|
  {
    if a != "" && a[0] == b[0] == c[0] { LessIsTransitive(a[1..], b[1..], c[1..]); }
  }

  /** The comparison of marshalCredentials: longer keys first, keys of one length alphabetically. */
  predicate Before(a: string, b: string) {
    if |a| != |b| then |a| > |b| else Less(a, b)
  }

  lemma BeforeIsTotal(a: string, b: string)
    ensures if a == b then !Before(a, b) else Before(a, b) != Before(b, a)
  {
    LessIsTotal(a, b);
  }

  lemma BeforeIsTransitive(a: string, b: string, c: string)
    requires Before(a, b) && Before(b, c)
    ensures Before(a, c)
  {
    if |a| == |b| == |c| { LessIsTransitive(a, b, c); }
  }

  function KeysOf(order: seq<string>): set<string> {
    set k <- order
  }

  ghost predicate Sorted(order: seq<string>) {
    forall i, j :: 0 <= i < j < |order| ==> Before(order[i], order[j])
  }

  ghost predicate First(key: string, keys: set<string>) {
    key in keys && forall k <- keys :: k == key || Before(key, k)
  }

  lemma {:induction false} HasFirst(keys: set<string>) returns (key: string)
    requires keys != {}
    ensures First(key, keys)
    decreases |keys|
  {
    var some :| some in keys;
    var rest := keys - {some};
    assert keys == rest + {some};
    key := some;
    if rest != {} {
      var least := HasFirst(rest);
      BeforeIsTotal(least, some);
      if Before(least, some) { key := least; }
      forall k <- keys ensures k == key || Before(key, k) {
        if k in rest && k != least && key == some { BeforeIsTransitive(some, least, k); }
      }
    }
  }

  /** Every written key comes before every key still to be written. */
  ghost predicate Precedes(order: seq<string>, left: set<string>) {
    forall i, k | 0 <= i < |order| && k in left :: Before(order[i], k)
  }

  lemma AppendFirst(order: seq<string>, left: set<string>, key: string)
    requires Sorted(order) && Precedes(order, left) && First(key, left)
    ensures Sorted(order + [key]) && Precedes(order + [key], left - {key})
    ensures KeysOf(order + [key]) == KeysOf(order) + {key}
  {}

  /** The key order of marshalCredentials: every key once, longest first, keys of one length alphabetically. */
  method FileOrder(keys: set<string>) returns (order: seq<string>)
    ensures Sorted(order) && KeysOf(order) == keys
  {
    order := [];
    var left := keys;
    while left != {}
      invariant left <= keys && KeysOf(order) == keys - left
      invariant Sorted(order) && Precedes(order, left)
    {
      ghost var first := HasFirst(left);
      var key :| key in left && forall k <- left :: k == key || Before(key, k);
      AppendFirst(order, left, key);
      order := order + [key];
      left := left - {key};
    }
  }

  /** The file is a function of its entries: two sorted lists of the same keys are the same list. */
  lemma {:induction false} OrderIsUnique(a: seq<string>, b: seq<string>)
    requires Sorted(a) && Sorted(b) && KeysOf(a) == KeysOf(b)
    ensures a == b
    decreases |a|
  {
    if a == [] || b == [] {
      if a != [] { HeadInSet(a); }
      if b != [] { HeadInSet(b); }
    } else {
      SameHead(a, b);
      TailSet(a);
      TailSet(b);
      OrderIsUnique(a[1..], b[1..]);
      assert a == [a[0]] + a[1..] && b == [b[0]] + b[1..];
    }
  }

  lemma HeadInSet(a: seq<string>)
    requires a != []
    ensures a[0] in KeysOf(a)
  {
    assert a[0] in a;
  }

  lemma SameHead(a: seq<string>, b: seq<string>)
    requires Sorted(a) && Sorted(b) && KeysOf(a) == KeysOf(b) && a != [] && b != []
    ensures a[0] == b[0]
  {
    HeadInSet(a);
    HeadInSet(b);
    assert a[0] in b && b[0] in a;
    BeforeIsTotal(a[0], b[0]);
  }

  lemma TailSet(a: seq<string>)
    requires Sorted(a) && a != []
    ensures KeysOf(a[1..]) == KeysOf(a) - {a[0]}
  {
    assert a == [a[0]] + a[1..];
    forall k <- a[1..] ensures k != a[0] { BeforeIsTotal(a[0], k); }
  }

  /** How overlaybd tests a key against an image. */
  predicate UrlMatch(key: string, host: string, full: string) {
    key == host || key == full || HasPrefix(full, key + "/")
  }

  /** overlaybd walks the keys in file order and stops at the first match. */
  function FirstMatch(order: seq<string>, host: string, full: string): Option<string> {
    if order == [] then None
    else if UrlMatch(order[0], host, full) then Some(order[0])
    else FirstMatch(order[1..], host, full)
  }

  /** Longest first, an image's own key is met before any other key that matches it. */
  lemma {:induction false} OwnKeyIsFirst(order: seq<string>, host: string, full: string)
    requires Sorted(order) && full in order && |host| < |full|
    ensures FirstMatch(order, host, full) == Some(full)
    decreases |order|
  {
    var i :| 0 <= i < |order| && order[i] == full;
    assert |order[0]| >= |full|;
    if order[0] != full {
      assert !HasPrefix(full, order[0] + "/");
      assert order[1..][i - 1] == full;
      OwnKeyIsFirst(order[1..], host, full);
    }
  }

  function UsedEntry(order: seq<string>, auths: Auths, ref: Reference): Option<AuthEntry> {
    var key := FirstMatch(order, CanonicalRegistryHost(ref.registry), FullName(ref));
    if key.Some? && key.value in auths then Some(auths[key.value]) else None
  }

  lemma OwnEntryIsUsed(order: seq<string>, auths: Auths, ref: Reference)
    requires Sorted(order) && KeysOf(order) == auths.Keys && FullName(ref) in auths
    ensures UsedEntry(order, auths, ref) == Some(auths[FullName(ref)])
  {
    assert FullName(ref) in KeysOf(order);
    OwnKeyIsFirst(order, CanonicalRegistryHost(ref.registry), FullName(ref));
  }

  class CredentialFile {
    var auths: Auths
    /** The keys in the order the file lists them. */
    var order: seq<string>

    /** The entry overlaybd uses for an image. */
    function Used(ref: Reference): Option<AuthEntry>
      reads this
    {
      UsedEntry(order, auths, ref)
    }

    /**
     * mergeCredentials. Success installs every incoming entry and keeps every other one;
     * failure leaves the file alone. With conflicts rejected, no entry ever changes its value.
     */
    method Merge(incoming: Auths, rejectConflicts: bool, ioOk: bool) returns (ok: bool)
      modifies this
      ensures !ok || incoming == map[] ==> auths == old(auths) && order == old(order)
      ensures ok && incoming != map[] ==>
                auths == old(auths) + incoming && Sorted(order) && KeysOf(order) == auths.Keys
      ensures ok && rejectConflicts ==> forall k <- incoming :: k in old(auths) ==> old(auths)[k] == incoming[k]
      ensures ioOk ==>
                (ok <==> (rejectConflicts ==> forall k <- incoming :: k in old(auths) ==> old(auths)[k] == incoming[k]))
    {
      if incoming == map[] { return true; }
      var unread, uncommitted := *, *;
      if unread && !ioOk { return false; }  // locking or reading failed
      var merged, left := auths, incoming.Keys;
      while left != {}
        invariant left <= incoming.Keys
        invariant merged.Keys == auths.Keys + (incoming.Keys - left)
        invariant forall k <- merged :: merged[k] == if k in incoming && k !in left then incoming[k] else old(auths)[k]
        invariant auths == old(auths) && order == old(order)
        invariant rejectConflicts ==> forall k <- incoming.Keys - left :: k in old(auths) ==> old(auths)[k] == incoming[k]
      {
        var key :| key in left;
        if key in merged && rejectConflicts && merged[key] != incoming[key] { return false; }
        merged := merged[key := incoming[key]];
        left := left - {key};
      }
      if uncommitted && !ioOk { return false; }  // the temporary file was not committed
      var sorted := FileOrder(merged.Keys);
      auths, order := merged, sorted;
      ok := true;
    }
  }

  /**
   * The handoff of create: afterwards, for every image and whatever the file held before, the entry overlaybd
   * uses is the one written for the image, with the user name and password of a longest matching key. If no file
   * operation fails and conflicts are not rejected, only an entry that cannot be used makes it fail.
   */
  method Handoff(file: CredentialFile, config: Auths, images: seq<Reference>, rejectConflicts: bool, ioOk: bool)
    returns (ok: bool)
    requires forall i :: 0 <= i < |images| ==> '/' !in images[i].registry
    modifies file
    ensures ok ==> forall i :: 0 <= i < |images| ==>
              file.Used(images[i]).Some? && HandedOver(config, FullName(images[i]), file.Used(images[i]).value)
    ensures forall k <- old(file.auths) ::
              k in file.auths && (file.auths[k] == old(file.auths)[k] || (!rejectConflicts && HandedOver(config, k, file.auths[k])))
    ensures !ok ==> file.auths == old(file.auths) && file.order == old(file.order)
    ensures ioOk && !rejectConflicts && !ok ==> exists i :: 0 <= i < |images| && Unusable(config, FullName(images[i]))
  {
    var handoff;
    ok, handoff := OverlaybdCredentials(config, images);
    if !ok { return; }
    ok := file.Merge(handoff, rejectConflicts, ioOk);
    if !ok { return; }
    forall i | 0 <= i < |images|
      ensures file.Used(images[i]) == Some(handoff[FullName(images[i])])
    {
      OwnEntryIsUsed(file.order, file.auths, images[i]);
    }
  }
}
