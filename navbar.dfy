/** The top bar's string functions: a user's initials and the breadcrumbs of
    the current path. */
module Navbar {
  import Seqs
  import opened Text

  predicate NonEmpty(s: string) {
    s != []
  }

  function Min(a: int, b: int): int {
    if a <= b then a else b
  }

  /** `words.map(n => n[0]).join("")`: the first character of each word; an
      empty word has none and contributes nothing. */
  function Heads(words: seq<string>): (r: string)
    ensures |r| == |Seqs.Filter(NonEmpty, words)|
    ensures forall k :: 0 <= k < |r| ==>
      Seqs.Filter(NonEmpty, words)[k] != [] && r[k] == Seqs.Filter(NonEmpty, words)[k][0]
  {
    if words == [] then []
    else (if words[0] == [] then [] else [words[0][0]]) + Heads(words[1..])
  }

  /** `getInitials`: the upper-cased first letters of the space-separated
      words, in order, keeping at most two. */
  function Initials(name: string): (r: string)
    ensures var words := Seqs.Filter(NonEmpty, Split(name, ' '));
      |r| == Min(2, |words|) &&
      forall k :: 0 <= k < |r| ==> words[k] != [] && r[k] == Upper(words[k][0])
    ensures forall k :: 0 <= k < |r| ==> r[k] != ' '
  {
    var u := UpperAll(Heads(Split(name, ' ')));
    var r := if |u| <= 2 then u else u[..2];
    assert forall k :: 0 <= k < |r| ==> r[k] != ' ' by {
      var words := Seqs.Filter(NonEmpty, Split(name, ' '));
      forall k | 0 <= k < |r| ensures r[k] != ' ' {
        assert words[k] in words;
        assert words[k][0] in words[k];
      }
    }
    r
  }

  /** One breadcrumb. */
  datatype Crumb = Crumb(title: string, href: string)

  /** The path's non-empty segments, as `split("/").filter(Boolean)`. */
  function Segments(path: string): (segs: seq<string>)
    ensures forall k :: 0 <= k < |segs| ==> segs[k] != [] && '/' !in segs[k]
  {
    var parts := Split(path, '/');
    var segs := Seqs.Filter(NonEmpty, parts);
    assert forall k :: 0 <= k < |segs| ==> segs[k] != [] && '/' !in segs[k] by {
      forall k | 0 <= k < |segs| ensures segs[k] != [] && '/' !in segs[k] {
        assert segs[k] in segs;
        var j :| 0 <= j < |parts| && parts[j] == segs[k];
      }
    }
    segs
  }

  /** A segment with its first character upper-cased and the rest kept. */
  function Capitalize(s: string): string {
    if s == [] then [] else [Upper(s[0])] + s[1..]
  }

  /** The link of the crumb for the first `n` segments. */
  function HrefOf(segs: seq<string>, n: nat): string
    requires 1 <= n <= |segs|
  {
    "/" + Join(segs[..n], '/')
  }

  /** `getBreadcrumbs`: "Home" for a path without segments, otherwise one
      crumb per segment. */
  function Breadcrumbs(path: string): (crumbs: seq<Crumb>)
    ensures |crumbs| >= 1
    ensures Segments(path) == [] ==> crumbs == [Crumb("Home", "/")]
    ensures Segments(path) != [] ==> |crumbs| == |Segments(path)|
  {
    var segs := Segments(path);
    if segs == [] then [Crumb("Home", "/")]
    else seq(|segs|, i requires 0 <= i < |segs| => Crumb(Capitalize(segs[i]), HrefOf(segs, i + 1)))
  }

  /** Crumb `i` carries segment `i`, capitalised, and links to the path up to
      that segment. */
  lemma CrumbContents(path: string, i: int)
    requires 0 <= i < |Segments(path)|
    ensures Breadcrumbs(path)[i].title == Capitalize(Segments(path)[i])
    ensures Breadcrumbs(path)[i].href == "/" + Join(Segments(path)[..i + 1], '/')
    ensures Breadcrumbs(path)[i].title != [] &&
      Breadcrumbs(path)[i].title[1..] == Segments(path)[i][1..]
  {
  }

  /** Each crumb's link extends the previous one by a slash and the next
      segment. */
  lemma HrefExtends(segs: seq<string>, n: nat)
    requires 1 <= n < |segs|
    ensures HrefOf(segs, n + 1) == HrefOf(segs, n) + "/" + segs[n]
  {
    assert segs[..n + 1] == segs[..n] + [segs[n]];
    JoinSnoc(segs[..n], segs[n], '/');
  }

  /** Each crumb's link is a proper prefix of every later one, so the links
      are pairwise distinct (they are the list's keys). */
  lemma {:induction false} HrefPrefixes(segs: seq<string>, i: nat, j: nat)
    requires 1 <= i < j <= |segs|
    ensures StartsWith(HrefOf(segs, j), HrefOf(segs, i))
    ensures |HrefOf(segs, i)| < |HrefOf(segs, j)|
  {
    HrefExtends(segs, j - 1);
    if i < j - 1 {
      HrefPrefixes(segs, i, j - 1);
    }
    var prev := HrefOf(segs, j - 1);
    assert HrefOf(segs, j)[..|prev|] == prev;
    assert StartsWith(HrefOf(segs, j), prev);
  }

  /** Only the last crumb is the current page; the others are links. */
  predicate IsCurrentPage(crumbs: seq<Crumb>, index: int) {
    index == |crumbs| - 1
  }

  /** The last crumb is the current page and no other is; every earlier
      crumb links to a strictly shorter path, so none of them links to the
      page shown. */
  lemma ExactlyOneCurrentPage(path: string)
    ensures IsCurrentPage(Breadcrumbs(path), |Breadcrumbs(path)| - 1)
    ensures forall i :: 0 <= i < |Breadcrumbs(path)| - 1 ==>
      !IsCurrentPage(Breadcrumbs(path), i) &&
      |Breadcrumbs(path)[i].href| < |Breadcrumbs(path)[|Breadcrumbs(path)| - 1].href|
  {
    var crumbs := Breadcrumbs(path);
    var segs := Segments(path);
    forall i | 0 <= i < |crumbs| - 1
      ensures |crumbs[i].href| < |crumbs[|crumbs| - 1].href|
    {
      HrefPrefixes(segs, i + 1, |segs|);
    }
  }

  /** The path written canonically from its segments: a slash before each. */
  function PathOf(segs: seq<string>): string {
    "/" + Join(segs, '/')
  }

  /** A canonical path gives back its segments. */
  lemma {:induction false} SegmentsOfPath(segs: seq<string>)
    requires segs != []
    requires forall k :: 0 <= k < |segs| ==> segs[k] != [] && '/' !in segs[k]
    ensures Segments(PathOf(segs)) == segs
  {
    var joined := Join(segs, '/');
    assert PathOf(segs) == [] + ['/'] + joined;
    SplitAround([], joined, '/');
    SplitJoin(segs, '/');
    var parts := Split(PathOf(segs), '/');
    assert parts == [[]] + segs;
    Seqs.FilterAppend(NonEmpty, [[]], segs);
    assert Seqs.Filter(NonEmpty, [[]]) == [];
    Seqs.FilterKeepsAll(NonEmpty, segs);
  }

  /** On a canonical path the last crumb, the current page, links to the
      path itself. */
  lemma LastCrumbIsPage(segs: seq<string>)
    requires segs != []
    requires forall k :: 0 <= k < |segs| ==> segs[k] != [] && '/' !in segs[k]
    ensures |Breadcrumbs(PathOf(segs))| == |segs|
    ensures Breadcrumbs(PathOf(segs))[|segs| - 1].href == PathOf(segs)
  {
    SegmentsOfPath(segs);
    assert segs[..|segs|] == segs;
  }
}
