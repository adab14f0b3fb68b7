/** credentialFor: which entry of a docker config serves an image. */
module CredentialMatch {
  import opened Common

  // ---------------------------------------------------------------- strings

  function TrimSuffix(s: string, c: char): string {
    if s != "" && s[|s| - 1] == c then s[..|s| - 1] else s
  }

  /** What follows the first "://" at or after position i, or the whole string. */
  function AfterScheme(s: string, i: nat): string
    decreases |s| - i
  {
    if i + 3 > |s| then s
    else if s[i] == ':' && s[i + 1] == '/' && s[i + 2] == '/' then s[i + 3..]
    else AfterScheme(s, i + 1)
  }

  /** The position of the first slash at or after i, or the length. */
  function Slash(s: string, i: nat): (r: nat)
    requires i <= |s|
    ensures i <= r <= |s| && (r < |s| ==> s[r] == '/')
    decreases |s| - i
  {
    if i == |s| || s[i] == '/' then i else Slash(s, i + 1)
  }

  lemma {:induction false} NoneBefore(s: string, i: nat)
    requires i <= |s|
    ensures forall k :: i <= k < Slash(s, i) ==> s[k] != '/'
    ensures i == 0 ==> '/' !in s[..Slash(s, 0)]
    decreases |s| - i
  {
    if i < |s| && s[i] != '/' { NoneBefore(s, i + 1); }
  }

  /** strings.Cut at the first slash. */
  function Cut(s: string): (r: (string, string))
    ensures '/' !in r.0
  {
    var i := Slash(s, 0);
    NoneBefore(s, 0);
    (s[..i], if i < |s| then s[i + 1..] else "")
  }

  predicate HasPrefix(s: string, prefix: string) { prefix <= s }

  /** The components of a slash-separated path. */
  function Components(s: string): seq<string> { Split(s, '/') }

  lemma {:induction false} SingleComponent(s: string)
    requires '/' !in s
    ensures Components(s) == [s]
    decreases |s|
  {
    if s != "" {
      SingleComponent(s[1..]);
      assert [s[0]] + s[1..] == s;
    }
  }

  lemma {:induction false} ConsComponent(head: string, tail: string)
    requires '/' !in head
    ensures Components(head + "/" + tail) == [head] + Components(tail)
    decreases |head|
  {
    var s := head + "/" + tail;
    if head == "" {
      assert s[1..] == tail;
    } else {
      ConsComponent(head[1..], tail);
      assert s[1..] == head[1..] + "/" + tail;
      assert [head[0]] + head[1..] == head;
    }
  }

  lemma PrefixCons<T>(x: T, xs: seq<T>, y: T, ys: seq<T>)
    ensures [x] + xs <= [y] + ys <==> x == y && xs <= ys
  {
    if [x] + xs <= [y] + ys {
      assert ([x] + xs)[0] == ([y] + ys)[0];
      assert forall k :: 0 <= k < |xs| ==> xs[k] == ([x] + xs)[k + 1] == ([y] + ys)[k + 1] == ys[k];
    }
  }

  /** Putting one character before the first component of both changes nothing. */
  lemma PrefixPush(c: char, xs: seq<string>, ys: seq<string>)
    requires xs != [] && ys != []
    ensures [[c] + xs[0]] + xs[1..] <= [[c] + ys[0]] + ys[1..] <==> xs <= ys
  {
    PrefixCons([c] + xs[0], xs[1..], [c] + ys[0], ys[1..]);
    PrefixCons(xs[0], xs[1..], ys[0], ys[1..]);
    assert [xs[0]] + xs[1..] == xs && [ys[0]] + ys[1..] == ys;
    assert [c] + xs[0] == [c] + ys[0] <==> xs[0] == ys[0] by {
      assert ([c] + xs[0])[1..] == xs[0] && ([c] + ys[0])[1..] == ys[0];
    }
  }

  lemma HeadOf(s: string)
    requires s != ""
    ensures if s[0] == '/' then Components(s)[0] == "" else Components(s)[0] != "" && Components(s)[0][0] == s[0]
  {}

  lemma TailPrefix(a: string, b: string)
    requires a != "" && b != ""
    ensures HasPrefix(b + "/", a + "/") <==> a[0] == b[0] && HasPrefix(b[1..] + "/", a[1..] + "/")
  {
    PrefixCons(a[0], a[1..] + "/", b[0], b[1..] + "/");
    assert a + "/" == [a[0]] + (a[1..] + "/") && b + "/" == [b[0]] + (b[1..] + "/");
  }

  /** Followed by a slash, one path starts with the other exactly when its components do. */
  lemma {:induction false} PathPrefixIff(a: string, b: string)
    ensures HasPrefix(b + "/", a + "/") <==> Components(a) <= Components(b)
    decreases |a|
  {
    if a == "" {
      EmptyPrefix(b);
    } else if b == "" {
      HeadOf(a);
      assert a[0] == '/' ==> |Components(a)| > 1;
    } else {
      TailPrefix(a, b);
      if a[0] != b[0] {
        HeadOf(a);
        HeadOf(b);
        assert Components(a)[0] != Components(b)[0];
      } else {
        PathPrefixIff(a[1..], b[1..]);
        PushBoth(a, b);
      }
    }
  }

  lemma EmptyPrefix(b: string)
    ensures HasPrefix(b + "/", "/") <==> [""] <= Components(b)
  {
    if b != "" { HeadOf(b); }
    assert (b + "/")[0] == if b == "" then '/' else b[0];
    assert [""] <= Components(b) <==> Components(b)[0] == "";
  }

  lemma PushBoth(a: string, b: string)
    requires a != "" && b != "" && a[0] == b[0]
    ensures Components(a) <= Components(b) <==> Components(a[1..]) <= Components(b[1..])
  {
    var xs, ys := Components(a[1..]), Components(b[1..]);
    if a[0] == '/' { PrefixCons("", xs, "", ys); } else { PrefixPush(a[0], xs, ys); }
  }

  // ---------------------------------------------------------------- keys and references

  /** A parsed image reference: a registry host without slashes, and a repository. */
  datatype Reference = Reference(registry: string, repository: string)

  function CanonicalRegistryHost(host: string): string {
    if host in ["docker.io", "index.docker.io", "registry.hub.docker.com", "registry-1.docker.io"]
    then "registry-1.docker.io" else host
  }

  lemma CanonicalHostHasNoSlash(host: string)
    requires '/' !in host
    ensures '/' !in CanonicalRegistryHost(host)
    ensures CanonicalRegistryHost(CanonicalRegistryHost(host)) == CanonicalRegistryHost(host)
  {}

  /** `<canonical host>/<repository>`: what a key must be a path prefix of. */
  function FullName(ref: Reference): string {
    CanonicalRegistryHost(ref.registry) + "/" + ref.repository
  }

  function NormalizeAuthKey(key: string): string {
    AfterScheme(TrimSuffix(key, '/'), 0)
  }

  function KeyHost(key: string): string {
    CanonicalRegistryHost(Cut(NormalizeAuthKey(key)).0)
  }

  function KeyRepo(key: string): string {
    var repo := TrimSuffix(Cut(NormalizeAuthKey(key)).1, '/');
    if repo == "v1" || repo == "v2" then "" else repo
  }

  /** The path a docker config key stands for. */
  function Target(key: string): string {
    if KeyRepo(key) == "" then KeyHost(key) else KeyHost(key) + "/" + KeyRepo(key)
  }

  // ---------------------------------------------------------------- what a key stands for

  /** No "://" anywhere at or after position i. */
  ghost predicate NoScheme(s: string, i: nat) {
    forall k :: i <= k && k + 3 <= |s| ==> !(s[k] == ':' && s[k + 1] == '/' && s[k + 2] == '/')
  }

  lemma {:induction false} NothingToStrip(s: string, i: nat)
    requires NoScheme(s, i)
    ensures AfterScheme(s, i) == s
    decreases |s| - i
  {
    if i + 3 <= |s| { NothingToStrip(s, i + 1); }
  }

  lemma {:induction false} SchemeIsStripped(scheme: string, rest: string, i: nat)
    requires ':' !in scheme && i <= |scheme|
    ensures AfterScheme(scheme + "://" + rest, i) == rest
    decreases |scheme| - i
  {
    var s := scheme + "://" + rest;
    if i < |scheme| {
      assert s[i] == scheme[i] && scheme[i] in scheme;
      SchemeIsStripped(scheme, rest, i + 1);
    } else {
      assert s[i] == ':' && s[i + 1] == '/' && s[i + 2] == '/' && s[i + 3..] == rest;
    }
  }

  lemma {:induction false} SlashAt(s: string, i: nat, at: nat)
    requires i <= at <= |s| && (forall k :: i <= k < at ==> s[k] != '/') && (at < |s| ==> s[at] == '/')
    ensures Slash(s, i) == at
    decreases at - i
  {
    if i < at { SlashAt(s, i + 1, at); }
  }

  /** A host and, unless it is empty, a path. */
  function Located(host: string, path: string): string {
    if path == "" then host else host + "/" + path
  }

  ghost predicate PlainPath(path: string) {
    path != "" ==> path[0] != '/' && path[|path| - 1] != '/'
  }

  lemma CutIs(host: string, path: string)
    requires host != "" && '/' !in host && PlainPath(path)
    ensures Cut(Located(host, path)) == (host, path)
  {
    var s := Located(host, path);
    assert forall k :: 0 <= k < |host| ==> s[k] == host[k];
    SlashAt(s, 0, |host|);
    assert s[..|host|] == host;
    if path != "" { assert s[|host| + 1..] == path; }
  }

  function KeyText(scheme: Option<string>, body: string, slash: bool): string {
    (if scheme.Some? then scheme.value + "://" + body else body) + (if slash then "/" else "")
  }

  lemma NormalizedIs(scheme: Option<string>, body: string, slash: bool)
    requires body != "" && body[|body| - 1] != '/'
    requires if scheme.Some? then ':' !in scheme.value else NoScheme(body, 0)
    ensures NormalizeAuthKey(KeyText(scheme, body, slash)) == body
  {
    var front := if scheme.Some? then scheme.value + "://" + body else body;
    assert front[|front| - 1] == body[|body| - 1];
    assert TrimSuffix(KeyText(scheme, body, slash), '/') == front;
    if scheme.Some? { SchemeIsStripped(scheme.value, body, 0); } else { NothingToStrip(body, 0); }
  }

  /**
   * The path a docker config key stands for, by its parts: an optional scheme, a host, a path, an optional last
   * slash. The scheme and the slash do not count, `v1` and `v2` are no path, and the host is canonical.
   */
  lemma TargetIs(scheme: Option<string>, host: string, path: string, slash: bool)
    requires host != "" && '/' !in host && PlainPath(path)
    requires if scheme.Some? then ':' !in scheme.value else NoScheme(Located(host, path), 0)
    ensures Target(KeyText(scheme, Located(host, path), slash)) ==
            Located(CanonicalRegistryHost(host), if path == "v1" || path == "v2" then "" else path)
  {
    assert host[|host| - 1] in host;
    NormalizedIs(scheme, Located(host, path), slash);
    CutIs(host, path);
    assert TrimSuffix(path, '/') == path;
  }

  /** The key docker login writes for Docker Hub, https://index.docker.io/v1/, stands for the registry itself. */
  lemma DockerHubLogin(scheme: string, host: string, path: string)
    requires scheme == "https" && host == "index.docker.io" && path == "v1"
    ensures Target(KeyText(Some(scheme), Located(host, path), true)) == "registry-1.docker.io"
  {
    TargetIs(Some(scheme), host, path, true);
  }

  /** A bare host stands for itself, and exactly the four spellings of Docker Hub for its registry. */
  lemma BareHostKey(host: string)
    requires host != "" && '/' !in host
    ensures Target(host) == CanonicalRegistryHost(host)
    ensures Target(host) == "registry-1.docker.io" <==>
            host in ["docker.io", "index.docker.io", "registry.hub.docker.com", "registry-1.docker.io"]
  {
    TargetIs(None, host, "", false);
    assert KeyText(None, Located(host, ""), false) == host;
  }

  /** The switch of credentialFor: the matched path, or None for `continue`. */
  function Match(key: string, ref: Reference): Option<string> {
    var host, full := CanonicalRegistryHost(ref.registry), FullName(ref);
    var named := KeyHost(key) + "/" + KeyRepo(key);
    if KeyRepo(key) == "" && KeyHost(key) == host then Some(KeyHost(key))
    else if KeyRepo(key) != "" && (full == named || HasPrefix(full + "/", named + "/")) then Some(named)
    else None
  }

  /** Component by component, the key's path leads to the image. */
  predicate Serves(key: string, full: string) {
    Components(Target(key)) <= Components(full)
  }

  /** The string tests of the source are exactly the component test. */
  lemma MatchIffServes(key: string, ref: Reference)
    requires '/' !in ref.registry
    ensures Match(key, ref) == if Serves(key, FullName(ref)) then Some(Target(key)) else None
  {
    var host := CanonicalRegistryHost(ref.registry);
    CanonicalHostHasNoSlash(ref.registry);
    CanonicalHostHasNoSlash(Cut(NormalizeAuthKey(key)).0);
    if KeyRepo(key) == "" {
      SingleComponent(KeyHost(key));
      ConsComponent(host, ref.repository);
      PrefixCons(KeyHost(key), [], host, Components(ref.repository));
      assert [KeyHost(key)] + [] == [KeyHost(key)];
    } else {
      PathPrefixIff(Target(key), FullName(ref));
    }
  }

  // ---------------------------------------------------------------- the search

  /** The key serves the image with a path no serving key beats in length. */
  ghost predicate Longest(keys: set<string>, key: string, full: string) {
    && key in keys && Serves(key, full) && Target(key) != ""
    && forall k <- keys :: Serves(k, full) ==> |Target(k)| <= |Target(key)|
  }

  /** No key with a non-empty path serves the image. */
  ghost predicate NoneServes(keys: set<string>, full: string) {
    forall k <- keys :: Serves(k, full) ==> Target(k) == ""
  }

  /** An empty key stands for the empty path. */
  lemma EmptyKey()
    ensures Target("") == ""
  {
    assert NormalizeAuthKey("") == "";
    assert Cut("") == ("", "");
  }

  /** How much of the image's path a key covers; 0 when it does not match. */
  function Covered(key: string, ref: Reference): nat {
    match Match(key, ref) case None => 0 case Some(m) => |m|
  }

  /** The loop of credentialFor over the map, in any order: some key that covers most, or none if none covers any. */
  method BestKey(keys: set<string>, ref: Reference) returns (best: string)
    ensures best == "" || best in keys
    ensures forall k <- keys :: Covered(k, ref) <= if best == "" then 0 else Covered(best, ref)
    ensures best != "" ==> Covered(best, ref) > 0
  {
    var left, bestLength := keys, 0;
    best := "";
    while left != {}
      invariant left <= keys
      invariant forall k <- keys - left :: Covered(k, ref) <= bestLength
      invariant if best == "" then bestLength == 0 else best in keys && Covered(best, ref) == bestLength > 0
    {
      var key :| key in left;
      left := left - {key};
      assert key == "" ==> Covered(key, ref) == 0 by { EmptyKey(); }
      var m := Match(key, ref);
      if m.None? { continue; }
      if |m.value| > bestLength { best, bestLength := key, |m.value|; }
    }
  }

  lemma CoveredIs(key: string, ref: Reference)
    requires '/' !in ref.registry
    ensures Covered(key, ref) == if Serves(key, FullName(ref)) then |Target(key)| else 0
  {
    MatchIffServes(key, ref);
  }

  /** What the loop finds, said with path components. */
  lemma BestKeyIsLongest(keys: set<string>, ref: Reference, best: string)
    requires '/' !in ref.registry
    requires best == "" || (best in keys && Covered(best, ref) > 0)
    requires forall k <- keys :: Covered(k, ref) <= if best == "" then 0 else Covered(best, ref)
    ensures if best == "" then NoneServes(keys, FullName(ref)) else Longest(keys, best, FullName(ref))
  {
    CoveredIs(best, ref);
    forall k <- keys ensures Covered(k, ref) == if Serves(k, FullName(ref)) then |Target(k)| else 0 {
      CoveredIs(k, ref);
    }
  }
}
