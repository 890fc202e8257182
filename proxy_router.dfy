/** The proxy's `Router`: backends ordered by path-prefix length, longest
    first, a first-match search over them with a fall-back to the default
    backend, and the prefix stripping applied before forwarding. */
module ProxyRouter {
  import opened Base
  import opened Text
  import opened ODict
  import opened Sorting
  import opened ProxyConfig

  type Entry = (string, BackendConfig)

  function PrefixLength(e: Entry): int
  {
    |e.1.pathPrefix|
  }

  /** Some configured backend's prefix starts `path`. */
  predicate AnyMatch(backends: Dict<string, BackendConfig>, path: string)
  {
    exists e :: e in backends && StartsWith(path, e.1.pathPrefix)
  }

  /** In a search order sorted longest prefix first, the first entry whose
      prefix starts `path` has the longest matching prefix of all. */
  lemma FirstMatchLongest(order: seq<Entry>, all: seq<Entry>, i: nat, path: string)
    requires SortedDesc(order, PrefixLength) && multiset(order) == multiset(all)
    requires i < |order| && forall j :: 0 <= j < i ==> !StartsWith(path, order[j].1.pathPrefix)
    ensures order[i] in all
    ensures forall f :: f in all && StartsWith(path, f.1.pathPrefix) ==> |f.1.pathPrefix| <= |order[i].1.pathPrefix|
  {
    assert order[i] in multiset(order);
    forall f | f in all && StartsWith(path, f.1.pathPrefix)
      ensures |f.1.pathPrefix| <= |order[i].1.pathPrefix|
    {
      assert f in multiset(order);
      var j :| 0 <= j < |order| && order[j] == f;
      assert PrefixLength(order[i]) >= PrefixLength(order[j]);
    }
  }

  /** When no entry of the search order matches, no configured backend does. */
  lemma NoneMatch(order: seq<Entry>, all: seq<Entry>, path: string)
    requires multiset(order) == multiset(all)
    requires forall j :: 0 <= j < |order| ==> !StartsWith(path, order[j].1.pathPrefix)
    ensures !AnyMatch(all, path)
  {
    forall f | f in all ensures !StartsWith(path, f.1.pathPrefix) {
      assert f in multiset(order);
      var j :| 0 <= j < |order| && order[j] == f;
    }
  }

  class Router {
    const config: Config
    /** `sorted(config.backends.items(), key=len(prefix), reverse=True)` */
    const backends: seq<Entry> := SortDesc(config.backends, PrefixLength)

    /** `Router.__init__`: the search order holds every configured backend
        once, longest prefix first. */
    constructor(config: Config)
      ensures this.config == config
      ensures SortedDesc(backends, PrefixLength)
      ensures multiset(backends) == multiset(config.backends)
    {
      this.config := config;
      new;
      SortDescCorrect(config.backends, PrefixLength);
    }

    /** `Router.route(path)`: when some prefix matches, the configured
        backend with the longest matching prefix (the first such in the
        search order); otherwise the default backend's id and its entry, if
        any; otherwise nothing. */
    method Route(path: string) returns (bid: Option<string>, backend: Option<BackendConfig>)
      ensures AnyMatch(config.backends, path) ==>
        bid.Some? && backend.Some? && (bid.value, backend.value) in config.backends &&
        StartsWith(path, backend.value.pathPrefix) &&
        (forall e :: e in config.backends && StartsWith(path, e.1.pathPrefix) ==>
           |e.1.pathPrefix| <= |backend.value.pathPrefix|)
      ensures AnyMatch(config.backends, path) ==>
        exists i :: 0 <= i < |backends| && backends[i] == (bid.value, backend.value) &&
          forall j :: 0 <= j < i ==> !StartsWith(path, backends[j].1.pathPrefix)
      ensures !AnyMatch(config.backends, path) && config.defaultBackend != "" ==>
        bid == Some(config.defaultBackend) && backend == Get(config.backends, config.defaultBackend)
      ensures !AnyMatch(config.backends, path) && config.defaultBackend == "" ==>
        bid.None? && backend.None?
    {
      SortDescCorrect(config.backends, PrefixLength);
      var i := 0;
      while i < |backends|
        invariant 0 <= i <= |backends|
        invariant forall j :: 0 <= j < i ==> !StartsWith(path, backends[j].1.pathPrefix)
      {
        var e := backends[i];
        if StartsWith(path, e.1.pathPrefix) {
          FirstMatchLongest(backends, config.backends, i, path);
          return Some(e.0), Some(e.1);
        }
        i := i + 1;
      }
      NoneMatch(backends, config.backends, path);
      if config.defaultBackend != "" {
        return Some(config.defaultBackend), Get(config.backends, config.defaultBackend);
      }
      return None, None;
    }

    /** `Router.transform_path(path, backend)` */
    function TransformPath(path: string, backend: BackendConfig): string
    {
      if backend.stripPrefix then
        var rest := Slice(path, |backend.pathPrefix|, |path|);
        var p := if StartsWith(rest, "/") then rest else "/" + rest;
        if p == "" then "/" else p
      else if path == "" then "/" else path
    }

    /** The forwarded path is never empty; with stripping on it is absolute. */
    lemma TransformPathNonEmpty(path: string, backend: BackendConfig)
      ensures TransformPath(path, backend) != ""
      ensures backend.stripPrefix ==> TransformPath(path, backend)[0] == '/'
      ensures !backend.stripPrefix ==> TransformPath(path, backend) == (if path == "" then "/" else path)
    {
    }

    /** With stripping on, the forwarded path is what follows the first
        `|prefix|` characters, made absolute. The prefix is not checked: a
        path reaching the default backend without it still loses that many
        characters. When the prefix is present, prefix and remainder rebuild
        the request path. */
    lemma TransformPathStrips(path: string, backend: BackendConfig)
      requires backend.stripPrefix && |backend.pathPrefix| <= |path|
      ensures var rest := path[|backend.pathPrefix|..];
        TransformPath(path, backend) == (if StartsWith(rest, "/") then rest else "/" + rest) &&
        (StartsWith(path, backend.pathPrefix) ==> path == backend.pathPrefix + rest)
    {
      SliceWithin(path, |backend.pathPrefix|, |path|);
    }

    /** A path shorter than the prefix is forwarded as `/`. */
    lemma TransformPathShort(path: string, backend: BackendConfig)
      requires backend.stripPrefix && |path| < |backend.pathPrefix|
      ensures TransformPath(path, backend) == "/"
    {
    }
  }
}
