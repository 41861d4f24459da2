/**
 * Hierarchical scenario names. On Unix-like systems, `filepath.Join` on
 * segments that are plain (non-empty, without a separator, not "." or "..")
 * puts one "/" between consecutive segments and changes nothing else; `Join` is that behaviour.
 * `Split` is its inverse and is what the name-uniqueness proofs use.
 */
module Paths {

  const Separator: char := '/'

  /** A path segment on which `filepath.Join` does no cleaning. */
  predicate PlainSegment(s: string) {
    |s| > 0 && Separator !in s && s != "." && s != ".."
  }

  /** The segments joined with one separator between consecutive segments. */
  function Join(segments: seq<string>): string
  {
    if |segments| == 0 then ""
    else if |segments| == 1 then segments[0]
    else segments[0] + [Separator] + Join(segments[1..])
  }

  /** Position of the first occurrence of `c` in `s`. */
  function IndexOf(s: string, c: char): (i: nat)
    requires c in s
    ensures i < |s| && s[i] == c && c !in s[..i]
  {
    if s[0] == c then 0 else 1 + IndexOf(s[1..], c)
  }

  /** The pieces of `path` between its separators, left to right. */
  function Split(path: string): (parts: seq<string>)
    decreases |path|
  {
    if Separator !in path then [path]
    else
      var i := IndexOf(path, Separator);
      [path[..i]] + Split(path[i + 1..])
  }

  /** Splitting a joined name gives back its segments. */
  lemma {:induction false} SplitJoin(segments: seq<string>)
    requires |segments| >= 1
    requires forall k :: 0 <= k < |segments| ==> Separator !in segments[k]
    ensures Split(Join(segments)) == segments
  {
    if |segments| >= 2 {
      var head, rest := segments[0], Join(segments[1..]);
      var path := Join(segments);
      assert path == head + [Separator] + rest;
      assert path[|head|] == Separator;
      var i := IndexOf(path, Separator);
      assert i == |head| by {
        assert forall j :: 0 <= j < |head| ==> path[j] == head[j];
      }
      assert path[..i] == head;
      assert path[i + 1..] == rest;
      SplitJoin(segments[1..]);
      assert segments == [head] + segments[1..];
    }
  }

  /** Joining the pieces of a path gives back the path. */
  lemma {:induction false} JoinSplit(path: string)
    ensures Join(Split(path)) == path
    decreases |path|
  {
    if Separator in path {
      var i := IndexOf(path, Separator);
      JoinSplit(path[i + 1..]);
      var parts := Split(path);
      assert parts[0] == path[..i] && parts[1..] == Split(path[i + 1..]);
      assert path == path[..i] + [Separator] + path[i + 1..];
    }
  }

  /** Two names joined from separator-free segments are equal only if their segments are. */
  lemma JoinInjective(xs: seq<string>, ys: seq<string>)
    requires |xs| >= 1 && |ys| >= 1
    requires forall k :: 0 <= k < |xs| ==> Separator !in xs[k]
    requires forall k :: 0 <= k < |ys| ==> Separator !in ys[k]
    ensures Join(xs) == Join(ys) <==> xs == ys
  {
    SplitJoin(xs);
    SplitJoin(ys);
  }

  /** A two-segment name in full. */
  lemma JoinTwo(a: string, b: string)
    ensures Join([a, b]) == a + "/" + b
  {
    assert [a, b][1..] == [b];
    assert "/" == [Separator];
  }

  /** A three-segment name in full. */
  lemma JoinThree(a: string, b: string, c: string)
    ensures Join([a, b, c]) == a + "/" + b + "/" + c
  {
    assert [a, b, c][1..] == [b, c];
    assert [b, c][1..] == [c];
    assert Join([b, c]) == b + [Separator] + c;
    assert "/" == [Separator];
  }

  /** Joining a joined name with one more segment is joining all the segments. */
  lemma {:induction false} JoinAppend(segments: seq<string>, last: string)
    requires |segments| >= 1
    ensures Join([Join(segments), last]) == Join(segments + [last])
  {
    if |segments| >= 2 {
      JoinAppend(segments[1..], last);
      assert (segments + [last])[1..] == segments[1..] + [last];
    }
  }
}
