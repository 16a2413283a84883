/** File-path functions with the semantics of Node's `path` module (POSIX flavour) and Python's
    `os.path.join`. */
module Paths {
  import opened Text

  /** Drops every '/' at the end of `p`. */
  function StripTrailingSlashes(p: string): (r: string)
    ensures |r| <= |p| && r == p[..|r|]
    ensures r != [] ==> r[|r| - 1] != '/'
    ensures forall i :: |r| <= i < |p| ==> p[i] == '/'
  {
    if p != [] && p[|p| - 1] == '/' then StripTrailingSlashes(p[..|p| - 1]) else p
  }

  /** Node's `path.basename(p)`: the last non-empty segment, trailing slashes ignored. */
  function Basename(p: string): (r: string)
    ensures forall i :: 0 <= i < |r| ==> r[i] != '/'
    ensures var q := StripTrailingSlashes(p);
      |r| <= |q| && r == q[|q| - |r|..] && (|r| < |q| ==> q[|q| - |r| - 1] == '/')
  {
    var q := StripTrailingSlashes(p);
    q[LastIndexOf(q, '/') + 1..]
  }

  /** Splits `s` at every '/', keeping empty segments: "a//b" gives ["a", "", "b"]. */
  function Split(s: string): (r: seq<string>)
    ensures |r| >= 1
    decreases |s|
  {
    var k := FirstIndexOf(s, '/');
    if k < 0 then [s] else [s[..k]] + Split(s[k + 1..])
  }

  /** One step of Node's `normalizeString`: "" and "." are dropped, ".." removes the segment before it
      (or is kept, above a relative root). */
  function PushSegment(stack: seq<string>, seg: string, aboveRoot: bool): seq<string> {
    if seg == "" || seg == "." then stack
    else if seg == ".." then
      if |stack| > 0 && stack[|stack| - 1] != ".." then stack[..|stack| - 1]
      else if aboveRoot then stack + [".."]
      else stack
    else stack + [seg]
  }

  function Resolve(segs: seq<string>, stack: seq<string>, aboveRoot: bool): seq<string>
    decreases |segs|
  {
    if segs == [] then stack else Resolve(segs[1..], PushSegment(stack, segs[0], aboveRoot), aboveRoot)
  }

  /** The segments joined with '/'. */
  function JoinSegments(segs: seq<string>): string
    decreases |segs|
  {
    if segs == [] then "" else if |segs| == 1 then segs[0] else segs[0] + "/" + JoinSegments(segs[1..])
  }

  /** Node's `path.normalize(p)`: never empty, and absolute exactly when `p` is. */
  function Normalize(p: string): (r: string)
    ensures r != []
    ensures p != [] && p[0] == '/' ==> r[0] == '/'
  {
    if p == [] then "."
    else
      var absolute := p[0] == '/';
      var trailing := p[|p| - 1] == '/';
      var body := JoinSegments(Resolve(Split(p), [], !absolute));
      if body == [] then (if absolute then "/" else if trailing then "./" else ".")
      else (if absolute then "/" else "") + body + (if trailing then "/" else "")
  }

  /** Node's `path.join(a, b)`: the non-empty arguments joined with '/', then normalised; "." when both are
      empty, and absolute when `a` is. */
  function NodeJoin(a: string, b: string): (r: string)
    ensures r != []
    ensures a == [] && b == [] ==> r == "."
    ensures a != [] && a[0] == '/' ==> r[0] == '/'
    ensures a == [] && b != [] && b[0] == '/' ==> r[0] == '/'
  {
    var joined := if a == [] then b else if b == [] then a else a + "/" + b;
    if joined == [] then "." else Normalize(joined)
  }

  /** The extension of a base name: from its last '.' on, or "" when no '.' follows the first
      character, or the name is "..". */
  function ExtOf(base: string): (r: string)
    ensures r == [] <==> base == ".." || forall i :: 0 < i < |base| ==> base[i] != '.'
    ensures r != [] ==> 0 < |base| - |r| && r == base[|base| - |r|..] && r[0] == '.'
                        && forall i :: 0 < i < |r| ==> r[i] != '.'
  {
    var dot := LastIndexOf(base, '.');
    if dot <= 0 || base == ".." then [] else base[dot..]
  }

  /** A base name without its extension. */
  function NameOf(base: string): (r: string)
    ensures r + ExtOf(base) == base
  {
    var dot := LastIndexOf(base, '.');
    if dot <= 0 || base == ".." then base
    else
      assert base[..dot] + base[dot..] == base;
      base[..dot]
  }

  /** Node's `path.extname(p)`: the extension of the base name. */
  function Extname(p: string): (r: string)
    ensures var base := Basename(p);
      r == [] <==> base == ".." || forall i :: 0 < i < |base| ==> base[i] != '.'
    ensures var base := Basename(p);
      r != [] ==> 0 < |base| - |r| && r == base[|base| - |r|..] && r[0] == '.'
                  && forall i :: 0 < i < |r| ==> r[i] != '.'
  {
    ExtOf(Basename(p))
  }

  /** The `name` part of Node's `path.parse(p)`: the base name without its extension. A leading dot
      does not start an extension (".bashrc"), and ".." has none, except in "/..": there `parse` stops
      its scan before the root slash and takes the second dot for an extension, leaving the name ".". */
  function ParseName(p: string): (r: string)
    ensures StartsWith(Basename(p), r)
    ensures StripTrailingSlashes(p) == "/.." ==> r == "."
    ensures StripTrailingSlashes(p) != "/.." ==> r + Extname(p) == Basename(p)
  {
    if StripTrailingSlashes(p) == "/.." then
      BasenameOfRootDotDot(p);
      "."
    else
      NameOf(Basename(p))
  }

  /** The base name of "/..", with or without trailing slashes, is "..". */
  lemma BasenameOfRootDotDot(p: string)
    requires StripTrailingSlashes(p) == "/.."
    ensures Basename(p) == ".."
  {
    var q := StripTrailingSlashes(p);
    assert q[0] == '/' && q[1] == '.' && q[2] == '.';
    assert LastIndexOf(q, '/') == 0;
  }

  /** Python's `os.path.join(a, b)` (POSIX): an absolute `b` replaces `a`; a '/' is inserted only
      when `a` is non-empty and does not already end with one. */
  function PyJoin(a: string, b: string): (r: string)
    ensures EndsWith(r, b)
    ensures StartsWith(b, "/") ==> r == b
    ensures !StartsWith(b, "/") ==>
              StartsWith(r, a) && |r| == |a| + |b| + (if a == [] || EndsWith(a, "/") then 0 else 1)
    ensures !StartsWith(b, "/") && a != [] && !EndsWith(a, "/") ==> r[|a|] == '/'
  {
    if StartsWith(b, "/") then b
    else if a == [] || EndsWith(a, "/") then a + b
    else a + "/" + b
  }
}
