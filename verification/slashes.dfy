/** Stripping of leading and trailing `/` characters, as PHP's `trim($s, '/')`
    does it: first every leading slash is dropped, then every trailing one. */
module Slashes {

  /** True iff every character of `s` is a slash. */
  predicate AllSlashes(s: string) {
    forall k :: 0 <= k < |s| ==> s[k] == '/'
  }

  /** True iff `s` neither begins nor ends with a slash. */
  predicate NoEdgeSlash(s: string) {
    |s| == 0 || (s[0] != '/' && s[|s| - 1] != '/')
  }

  /** `r` is `s` with its outer slashes removed and nothing else changed:
      `s` is some run of slashes, then `r`, then another run of slashes,
      and `r` itself has no slash at either end. */
  ghost predicate IsTrimOf(s: string, r: string) {
    && NoEdgeSlash(r)
    && exists i :: 0 <= i <= |s| - |r| && s[i..i + |r|] == r && AllSlashes(s[..i]) && AllSlashes(s[i + |r|..])
  }

  /** Drops every leading slash. */
  function TrimLeft(s: string): (r: string)
    ensures |r| <= |s|
    ensures r == s[|s| - |r|..]
    ensures AllSlashes(s[..|s| - |r|])
    ensures r == [] || r[0] != '/'
    decreases |s|
  {
    if |s| > 0 && s[0] == '/' then
      var r := TrimLeft(s[1..]);
      assert s[..|s| - |r|] == [s[0]] + s[1..][..|s| - 1 - |r|];
      r
    else
      s
  }

  /** Drops every trailing slash. */
  function TrimRight(s: string): (r: string)
    ensures |r| <= |s|
    ensures r == s[..|r|]
    ensures AllSlashes(s[|r|..])
    ensures r == [] || r[|r| - 1] != '/'
    decreases |s|
  {
    if |s| > 0 && s[|s| - 1] == '/' then
      var r := TrimRight(s[..|s| - 1]);
      assert s[|r|..] == s[..|s| - 1][|r|..] + [s[|s| - 1]];
      r
    else
      s
  }

  /** `trim($s, '/')`. */
  function TrimSlashes(s: string): (r: string)
    ensures |r| <= |s|
    ensures NoEdgeSlash(r)
  {
    TrimRight(TrimLeft(s))
  }

  /** `TrimSlashes` removes the outer slashes and changes nothing else. */
  lemma TrimSlashesIsTrimOf(s: string)
    ensures IsTrimOf(s, TrimSlashes(s))
  {
    var l := TrimLeft(s);
    var r := TrimRight(l);
    var i := |s| - |l|;
    assert l == s[i..];
    assert s[i..i + |r|] == l[..|r|] == r;
    assert s[i + |r|..] == l[|r|..];
    assert 0 <= i <= |s| - |r| && s[i..i + |r|] == r && AllSlashes(s[..i]) && AllSlashes(s[i + |r|..]);
  }

  /** Dropping the leading slashes of a run of slashes followed by a text
      that does not start with a slash leaves exactly that text. */
  lemma {:induction false} TrimLeftSkips(p: string, t: string)
    requires AllSlashes(p)
    requires t == [] || t[0] != '/'
    ensures TrimLeft(p + t) == t
    decreases |p|
  {
    if p != [] {
      assert (p + t)[1..] == p[1..] + t;
      TrimLeftSkips(p[1..], t);
    } else {
      assert p + t == t;
    }
  }

  /** Dropping the trailing slashes of a text that does not end with a slash
      followed by a run of slashes leaves exactly that text. */
  lemma {:induction false} TrimRightSkips(t: string, q: string)
    requires AllSlashes(q)
    requires t == [] || t[|t| - 1] != '/'
    ensures TrimRight(t + q) == t
    decreases |q|
  {
    if q != [] {
      assert (t + q)[..|t + q| - 1] == t + q[..|q| - 1];
      TrimRightSkips(t, q[..|q| - 1]);
    } else {
      assert t + q == t;
    }
  }

  /** Whatever surrounds a slash-free-edged text with runs of slashes,
      trimming gives that text back. */
  lemma TrimUnique(p: string, m: string, q: string)
    requires AllSlashes(p) && AllSlashes(q)
    requires NoEdgeSlash(m)
    ensures TrimSlashes(p + m + q) == m
  {
    if m == [] {
      assert p + m + q == (p + q) + [];
      TrimLeftSkips(p + q, []);
    } else {
      assert p + m + q == p + (m + q);
      TrimLeftSkips(p, m + q);
      TrimRightSkips(m, q);
    }
  }

  /** `IsTrimOf` is an independent description of `TrimSlashes`: the one
      text it admits for `s` is `TrimSlashes(s)`. */
  lemma TrimSlashesCharacterized(s: string, r: string)
    ensures IsTrimOf(s, r) <==> r == TrimSlashes(s)
  {
    if IsTrimOf(s, r) {
      var i :| 0 <= i <= |s| - |r| && s[i..i + |r|] == r && AllSlashes(s[..i]) && AllSlashes(s[i + |r|..]);
      assert s == s[..i] + r + s[i + |r|..];
      TrimUnique(s[..i], r, s[i + |r|..]);
    }
    if r == TrimSlashes(s) {
      TrimSlashesIsTrimOf(s);
    }
  }

  /** Trimming a trimmed text changes nothing. */
  lemma TrimSlashesIdempotent(s: string)
    ensures TrimSlashes(TrimSlashes(s)) == TrimSlashes(s)
  {
    var r := TrimSlashes(s);
    assert [] + r + [] == r;
    TrimUnique([], r, []);
  }

  /** A single leading slash is dropped. */
  lemma TrimOneLeadingSlash(m: string)
    requires NoEdgeSlash(m)
    ensures TrimSlashes("/" + m) == m
  {
    assert "/" + m == "/" + m + "";
    TrimUnique("/", m, "");
  }

  /** `/img/a.jpg/` resolves to `img/a.jpg`. */
  lemma TrimExample()
    ensures TrimSlashes("/img/a.jpg/") == "img/a.jpg"
  {
    assert "/img/a.jpg/" == "/" + "img/a.jpg" + "/";
    TrimUnique("/", "img/a.jpg", "/");
  }
}
