/** Path handling in the adapter: the public URL built by `saveRaw` and `save`
    (index.js:71-78, index.js:130-137) and the trailing-separator strip in `read`
    (index.js:230). The host's path functions and Ghost's URL helpers are not part
    of this model; they enter as fields of `Host`. */
module Paths {
  import opened Wrappers

  /** The host conventions and external helpers the adapter calls. */
  datatype Host = Host(
    sep: char,                            // path.sep: '/' on POSIX, '\\' on Windows
    join: (string, string) -> string,     // path.join
    dirname: string -> string,            // path.dirname
    relative: (string, string) -> string, // path.relative
    urlJoin: seq<string> -> string,       // urlUtils.urlJoin
    subdir: string,                       // urlUtils.getSubdir()
    staticImagePrefix: string)            // urlUtils.STATIC_IMAGE_URL_PREFIX

  /** Replace every occurrence of `from` by `to` (a global, single-character
      regular-expression replace). The adapter builds its pattern as a backslash
      followed by `path.sep`, which matches the separator literally because Node.js
      only ever uses '/' or '\\' there; `Host.sep` is meant as one of those two. */
  function Substitute(s: string, from: char, to: char): (r: string)
    ensures |r| == |s|
    ensures forall i :: 0 <= i < |s| && s[i] != from ==> r[i] == s[i]
    ensures forall i :: 0 <= i < |s| && s[i] == from ==> r[i] == to
    ensures from != to ==> from !in r
  {
    if s == [] then []
    else [if s[0] == from then to else s[0]] + Substitute(s[1..], from, to)
  }

  /** Substituting a second time changes nothing. */
  lemma SubstituteIdempotent(s: string, from: char, to: char)
    ensures Substitute(Substitute(s, from, to), from, to) == Substitute(s, from, to)
  {
  }

  /** Split a host path at every occurrence of `sep`: one segment more than there
      are separators, none of them containing `sep`. */
  function Segments(s: string, sep: char): (parts: seq<string>)
    ensures |parts| >= 1
    ensures forall k :: 0 <= k < |parts| ==> sep !in parts[k]
  {
    if s == [] then [[]]
    else
      var rest := Segments(s[1..], sep);
      if s[0] == sep then [[]] + rest
      else [[s[0]] + rest[0]] + rest[1..]
  }

  /** Glue segments together with `glue` between consecutive ones. */
  function JoinSegments(parts: seq<string>, glue: char): string
    requires |parts| >= 1
  {
    if |parts| == 1 then parts[0]
    else parts[0] + [glue] + JoinSegments(parts[1..], glue)
  }

  /** Splitting at `sep` and re-joining with `glue` is the same as replacing every
      `sep` by `glue`: the string replace is a segment-by-segment conversion. */
  lemma {:induction false} JoinSegmentsIsSubstitute(s: string, sep: char, glue: char)
    ensures JoinSegments(Segments(s, sep), glue) == Substitute(s, sep, glue)
  {
    if s != [] {
      var rest := Segments(s[1..], sep);
      JoinSegmentsIsSubstitute(s[1..], sep, glue);
      if s[0] == sep {
        assert ([[]] + rest)[1..] == rest;
      } else if |rest| > 1 {
        var parts := [[s[0]] + rest[0]] + rest[1..];
        assert parts[1..] == rest[1..];
        assert JoinSegments(rest, glue) == rest[0] + [glue] + JoinSegments(rest[1..], glue);
      }
    }
  }

  /** A string without `sep` is a single segment. */
  lemma {:induction false} SegmentsOfPlain(a: string, sep: char)
    requires sep !in a
    ensures Segments(a, sep) == [a]
  {
    if a != [] {
      SegmentsOfPlain(a[1..], sep);
      assert [a[0]] + a[1..] == a;
    }
  }

  /** A separator ends the first segment; the rest is split on its own. */
  lemma {:induction false} SegmentsAfterSeparator(a: string, sep: char, b: string)
    requires sep !in a
    ensures Segments(a + [sep] + b, sep) == [a] + Segments(b, sep)
  {
    if a == [] {
      assert a + [sep] + b == [sep] + b;
      assert ([sep] + b)[1..] == b;
    } else {
      var s := a + [sep] + b;
      assert s[1..] == a[1..] + [sep] + b;
      SegmentsAfterSeparator(a[1..], sep, b);
      assert [a[0]] + a[1..] == a;
    }
  }

  /** Joining separator-free segments with `sep` and splitting again gives the
      segments back. */
  lemma {:induction false} SplitJoinRoundTrip(parts: seq<string>, sep: char)
    requires |parts| >= 1
    requires forall k :: 0 <= k < |parts| ==> sep !in parts[k]
    ensures Segments(JoinSegments(parts, sep), sep) == parts
  {
    if |parts| == 1 {
      SegmentsOfPlain(parts[0], sep);
    } else {
      SplitJoinRoundTrip(parts[1..], sep);
      SegmentsAfterSeparator(parts[0], sep, JoinSegments(parts[1..], sep));
      assert [parts[0]] + parts[1..] == parts;
    }
  }

  /** Splitting a path and joining it back with the same separator restores it. */
  lemma JoinSplitRoundTrip(s: string, sep: char)
    ensures JoinSegments(Segments(s, sep), sep) == s
  {
  }

  /** The URL `saveRaw` and `save` resolve to for a storage-relative path: urlJoin of
      "/", the subdirectory, the static image prefix and the path, with every host
      separator then turned into '/'. */
  function PublicUrl(host: Host, rel: string): (url: string)
    ensures var joined := host.urlJoin(["/", host.subdir, host.staticImagePrefix, rel]);
      && |url| == |joined|
      && url == JoinSegments(Segments(joined, host.sep), '/')
      && (host.sep != '/' ==> host.sep !in url)
      && forall i :: 0 <= i < |url| && joined[i] != host.sep ==> url[i] == joined[i]
    ensures Substitute(url, host.sep, '/') == url
  {
    var joined := host.urlJoin(["/", host.subdir, host.staticImagePrefix, rel]);
    JoinSegmentsIsSubstitute(joined, host.sep, '/');
    SubstituteIdempotent(joined, host.sep, '/');
    Substitute(joined, host.sep, '/')
  }

  predicate IsSeparator(c: char)
  {
    c == '/' || c == '\\'
  }

  predicate EndsWithSeparator(s: string)
  {
    |s| > 0 && IsSeparator(s[|s| - 1])
  }

  /** `(options.path || "").replace(/\/$|\\$/, "")`: an absent path is "", and a single
      final '/' or '\' is dropped. */
  function StripTrailingSeparator(path: Option<string>): (r: string)
    ensures path.None? ==> r == ""
    ensures var s := if path.Some? then path.value else "";
      && r <= s
      && |s| - 1 <= |r|
      && (|r| < |s| <==> EndsWithSeparator(s))
  {
    var s := if path.Some? then path.value else "";
    if EndsWithSeparator(s) then s[..|s| - 1] else s
  }

  /** Appending one separator to a path that has none at its end is undone by the
      strip; a second one is not. */
  lemma StripUndoesOneSeparator(p: string, c: char)
    requires IsSeparator(c)
    requires !EndsWithSeparator(p)
    ensures StripTrailingSeparator(Some(p + [c])) == p
    ensures StripTrailingSeparator(Some(p)) == p
    ensures StripTrailingSeparator(Some(p + [c, c])) == p + [c]
  {
  }
}
