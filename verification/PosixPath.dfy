/** PurePosixPath as the bundle code uses it, and the two notions of "inside a root" it mixes. */
module PosixPath {

  /** s.split("/") */
  function Split(s: string): (parts: seq<string>)
    ensures |parts| >= 1
    ensures forall i :: 0 <= i < |parts| ==> '/' !in parts[i]
  {
    if s == [] then [""]
    else
      var rest := Split(s[1..]);
      if s[0] == '/' then [""] + rest else [[s[0]] + rest[0]] + rest[1..]
  }

  /** "/".join(parts) */
  function Join(parts: seq<string>): string {
    if parts == [] then ""
    else if |parts| == 1 then parts[0]
    else parts[0] + "/" + Join(parts[1..])
  }

  /** The components PurePosixPath keeps: empty ones and "." are dropped. */
  function Kept(parts: seq<string>): (r: seq<string>)
    ensures forall i :: 0 <= i < |r| ==> r[i] != "" && r[i] != "." && r[i] in parts
  {
    if parts == [] then []
    else (if parts[0] == "" || parts[0] == "." then [] else [parts[0]]) + Kept(parts[1..])
  }

  /** path.parts, without the root of an absolute path. */
  function Parts(s: string): seq<string> {
    Kept(Split(s))
  }

  predicate IsAbsolute(s: string) {
    s != [] && s[0] == '/'
  }

  function Root(s: string): string {
    if |s| >= 2 && s[..2] == "//" && (|s| == 2 || s[2] != '/') then "//"
    else if IsAbsolute(s) then "/" else ""
  }

  /** PurePosixPath(s).as_posix() */
  function AsPosix(s: string): string {
    if Root(s) == "" && Parts(s) == [] then "." else Root(s) + Join(Parts(s))
  }

  /** left in right.parents, for relative paths. */
  predicate IsParent(left: string, right: string) {
    Parts(left) < Parts(right)
  }

  /** _paths_overlap, for relative paths. */
  predicate PathsOverlap(left: string, right: string) {
    Parts(left) == Parts(right) || IsParent(left, right) || IsParent(right, left)
  }

  /** path == root or path.startswith(root + "/") */
  predicate Under(root: string, path: string) {
    path == root || root + "/" <= path
  }

  /** Every directory above a path. */
  function Ancestors(path: string): set<string> {
    set i | 0 <= i < |path| && path[i] == '/' :: path[..i]
  }

  /** A relative path that is its own as_posix() and names something. */
  predicate Canonical(s: string) {
    s != "" && !IsAbsolute(s) && AsPosix(s) == s && Parts(s) != []
  }

  lemma {:induction false} JoinSplit(s: string)
    ensures Join(Split(s)) == s
  {
    if s != [] {
      JoinSplit(s[1..]);
      assert s == [s[0]] + s[1..];
      var rest := Split(s[1..]);
      if s[0] == '/' {
        assert Split(s)[1..] == rest;
      } else {
        assert Split(s)[1..] == rest[1..];
      }
    }
  }

  /** One character more in front: a new component, or a longer first one. */
  function Prepend(c: char, parts: seq<string>): seq<string>
    requires parts != []
  {
    if c == '/' then [""] + parts else [[c] + parts[0]] + parts[1..]
  }

  lemma SplitStep(s: string)
    requires s != []
    ensures Split(s) == Prepend(s[0], Split(s[1..]))
  {
  }

  lemma PrependAppend(c: char, a: seq<string>, b: seq<string>)
    requires a != []
    ensures Prepend(c, a + b) == Prepend(c, a) + b
  {
    assert (a + b)[0] == a[0] && (a + b)[1..] == a[1..] + b;
  }

  lemma {:induction false} SplitAppend(s: string, t: string)
    ensures Split(s + "/" + t) == Split(s) + Split(t)
  {
    var whole := s + "/" + t;
    SplitStep(whole);
    if s == [] {
      assert whole[1..] == t;
    } else {
      SplitAppend(s[1..], t);
      SplitStep(s);
      assert whole[1..] == s[1..] + "/" + t && whole[0] == s[0];
      PrependAppend(s[0], Split(s[1..]), Split(t));
      hide Split;
      hide Prepend;
    }
  }

  lemma {:induction false} SplitPlain(s: string)
    requires '/' !in s
    ensures Split(s) == [s]
  {
    if s != [] {
      SplitPlain(s[1..]);
      assert s == [s[0]] + s[1..];
    }
  }

  lemma {:induction false} SplitJoin(parts: seq<string>)
    requires parts != [] && forall i :: 0 <= i < |parts| ==> '/' !in parts[i]
    ensures Split(Join(parts)) == parts
  {
    SplitPlain(parts[0]);
    if |parts| > 1 {
      SplitJoin(parts[1..]);
      SplitAppend(parts[0], Join(parts[1..]));
      assert parts == [parts[0]] + parts[1..];
    } else {
      assert parts == [parts[0]];
    }
  }

  lemma {:induction false} JoinAppend(a: seq<string>, b: seq<string>)
    requires a != [] && b != []
    ensures Join(a + b) == Join(a) + "/" + Join(b)
  {
    if |a| == 1 {
      assert (a + b)[1..] == b;
    } else {
      JoinAppend(a[1..], b);
      assert (a + b)[1..] == a[1..] + b;
    }
  }

  lemma {:induction false} KeptAll(parts: seq<string>)
    requires forall i :: 0 <= i < |parts| ==> parts[i] != "" && parts[i] != "."
    ensures Kept(parts) == parts
  {
    if parts != [] {
      KeptAll(parts[1..]);
      assert parts == [parts[0]] + parts[1..];
    }
  }

  /** No empty component, no ".". */
  predicate Proper(parts: seq<string>) {
    forall i :: 0 <= i < |parts| ==> parts[i] != "" && parts[i] != "."
  }

  lemma CanonicalIsJoined(s: string)
    requires Canonical(s)
    ensures Parts(s) == Split(s) && Proper(Split(s))
  {
    assert Proper(Parts(s));
    hide Kept;
    hide Split;
    hide Join;
    assert Root(s) == "";
    assert Join(Parts(s)) == s;
    SplitJoin(Parts(s));
  }

  lemma ProperComponentsAreCanonical(s: string)
    requires Proper(Split(s))
    ensures Canonical(s)
  {
    assert Split(s)[0] != "";
    assert s != "" && s[0] != '/';
    KeptAll(Split(s));
    JoinSplit(s);
    hide Split;
    hide Join;
    hide Kept;
  }

  /** A canonical path is exactly the join of proper components: no empty one, no ".". */
  lemma CanonicalComponents(s: string)
    ensures Canonical(s) <==> Proper(Split(s))
    ensures Canonical(s) ==> Parts(s) == Split(s)
  {
    hide Canonical;
    hide Split;
    hide Proper;
    if Canonical(s) {
      CanonicalIsJoined(s);
    }
    if Proper(Split(s)) {
      ProperComponentsAreCanonical(s);
    }
  }

  lemma UnderSplits(root: string, path: string)
    requires Under(root, path)
    ensures Split(root) <= Split(path)
  {
    if root != path {
      var t := path[|root| + 1..];
      assert path == root + "/" + t;
      SplitAppend(root, t);
    }
  }

  lemma SplitPrefixUnder(root: string, path: string)
    requires Split(root) <= Split(path)
    ensures Under(root, path)
  {
    JoinSplit(root);
    JoinSplit(path);
    var rest := Split(path)[|Split(root)|..];
    assert Split(path) == Split(root) + rest;
    if rest == [] {
      assert Split(path) == Split(root);
    } else {
      JoinAppend(Split(root), rest);
      assert path == root + "/" + Join(rest);
    }
  }

  /** Component-wise containment is string-prefix containment at a "/" boundary. */
  lemma UnderIsComponentPrefix(root: string, path: string)
    requires Canonical(root) && Canonical(path)
    ensures Under(root, path) <==> Parts(root) <= Parts(path)
  {
    CanonicalComponents(root);
    CanonicalComponents(path);
    if Under(root, path) {
      UnderSplits(root, path);
    }
    if Parts(root) <= Parts(path) {
      SplitPrefixUnder(root, path);
    }
  }

  /** _paths_overlap answers exactly whether one root lies under the other. */
  lemma OverlapIsMutualUnder(left: string, right: string)
    requires Canonical(left) && Canonical(right)
    ensures PathsOverlap(left, right) <==> Under(left, right) || Under(right, left)
  {
    UnderIsComponentPrefix(left, right);
    UnderIsComponentPrefix(right, left);
  }

  /** Two roots over one file are nested, so non-overlapping roots never share a file. */
  lemma SharedPathMeansOverlap(left: string, right: string, path: string)
    requires Canonical(left) && Canonical(right)
    requires Under(left, path) && Under(right, path)
    ensures PathsOverlap(left, right)
  {
    OverlapIsMutualUnder(left, right);
    var l, r, p := left + "/", right + "/", path + "/";
    assert l <= p && r <= p;
    if |left| == |right| {
      assert left == p[..|left|] == right;
    } else if |left| < |right| {
      assert l == p[..|l|] && right == p[..|right|];
      assert l <= right;
    } else {
      assert r == p[..|r|] && left == p[..|left|];
      assert r <= left;
    }
  }

  /** A "/"-boundary prefix of a canonical path is canonical: matching one file normalises the root. */
  lemma RootOfCanonicalIsCanonical(root: string, path: string)
    requires Canonical(path) && Under(root, path)
    ensures Canonical(root)
  {
    hide Canonical;
    hide Split;
    CanonicalComponents(path);
    CanonicalComponents(root);
    UnderSplits(root, path);
    assert forall i :: 0 <= i < |Split(root)| ==> Split(root)[i] == Split(path)[i];
  }
}
