/**
  String helpers the generators are built from: Ruby's `Array#join`, its
  inverse (cutting a string at every occurrence of one character), and
  `Array#flatten` on a list of line blocks.
*/
module Text {

  /** `xs.join(sep)`: the elements in order with `sep` between consecutive ones. */
  function Join(xs: seq<string>, sep: string): string
  {
    if |xs| == 0 then ""
    else if |xs| == 1 then xs[0]
    else xs[0] + sep + Join(xs[1..], sep)
  }

  /** Cuts `s` at every `c`; the pieces, joined back with `c`, give `s`. */
  function Split(s: string, c: char): (pieces: seq<string>)
    ensures |pieces| >= 1
    ensures forall i :: 0 <= i < |pieces| ==> c !in pieces[i]
    ensures Join(pieces, [c]) == s
  {
    if |s| == 0 then [""]
    else
      var rest := Split(s[1..], c);
      assert s == [s[0]] + s[1..];
      if s[0] == c then
        assert ([""] + rest)[1..] == rest;
        [""] + rest
      else
        var pieces := [[s[0]] + rest[0]] + rest[1..];
        assert pieces[1..] == rest[1..];
        pieces
  }

  /** `blocks.flatten` for a list of line blocks: the blocks laid end to end. */
  function Flatten(blocks: seq<seq<string>>): seq<string>
  {
    if |blocks| == 0 then [] else blocks[0] + Flatten(blocks[1..])
  }

  /** The character `c` occurs in none of `xs`. */
  predicate AllFree(xs: seq<string>, c: char)
  {
    forall i :: 0 <= i < |xs| ==> c !in xs[i]
  }

  /** A string without `c` is a single piece. */
  lemma {:induction false} SplitWithout(s: string, c: char)
    requires c !in s
    ensures Split(s, c) == [s]
  {
    if |s| > 0 {
      SplitWithout(s[1..], c);
      assert [s[0]] + s[1..] == s;
    }
  }

  /** A piece without `c`, followed by `c`, is cut off as the first piece. */
  lemma {:induction false} SplitAfter(p: string, t: string, c: char)
    requires c !in p
    ensures Split(p + [c] + t, c) == [p] + Split(t, c)
  {
    if |p| == 0 {
      assert p + [c] + t == [c] + t;
      assert ([c] + t)[1..] == t;
    } else {
      SplitAfter(p[1..], t, c);
      assert (p + [c] + t)[1..] == p[1..] + [c] + t;
      assert [p[0]] + p[1..] == p;
    }
  }

  /** Joining with `c` and cutting at `c` gives back the list, when no element holds `c`. */
  lemma {:induction false} SplitJoin(xs: seq<string>, c: char)
    requires |xs| >= 1
    requires AllFree(xs, c)
    ensures Split(Join(xs, [c]), c) == xs
  {
    if |xs| == 1 {
      SplitWithout(xs[0], c);
    } else {
      SplitJoin(xs[1..], c);
      SplitAfter(xs[0], Join(xs[1..], [c]), c);
      assert [xs[0]] + xs[1..] == xs;
    }
  }

  /** A character that is in no element and not in the separator is not in the join. */
  lemma {:induction false} JoinFree(xs: seq<string>, sep: string, c: char)
    requires AllFree(xs, c) && c !in sep
    ensures c !in Join(xs, sep)
  {
    if |xs| > 1 {
      JoinFree(xs[1..], sep, c);
    }
  }

  /** The join of a list whose first element is not empty is not empty. */
  lemma JoinNonEmpty(xs: seq<string>, sep: string)
    requires |xs| >= 1 && xs[0] != ""
    ensures |Join(xs, sep)| >= |xs[0]| > 0
  {
  }

  /** A string ending in `c` has an empty last piece. */
  lemma {:induction false} SplitTrailing(s: string, c: char)
    requires |s| >= 1 && s[|s| - 1] == c
    ensures Split(s, c)[|Split(s, c)| - 1] == ""
  {
    if |s| > 1 {
      SplitTrailing(s[1..], c);
    }
  }

  /** Prefixing the first element of a list prefixes its join. */
  lemma JoinPrefixFirst(p: string, x: string, rest: seq<string>, sep: string)
    ensures Join([p + x] + rest, sep) == p + Join([x] + rest, sep)
  {
    if |rest| > 0 {
      assert ([p + x] + rest)[1..] == rest;
      assert ([x] + rest)[1..] == rest;
    }
  }

  /** Laying out `n` blocks of `k` lines each gives `k * n` lines. */
  lemma {:induction false} FlattenLength(blocks: seq<seq<string>>, k: nat)
    requires forall i :: 0 <= i < |blocks| ==> |blocks[i]| == k
    ensures |Flatten(blocks)| == k * |blocks|
  {
    if |blocks| > 0 {
      FlattenLength(blocks[1..], k);
    }
  }

  /** Line `j` of block `i` sits at position `k * i + j` of the layout. */
  lemma {:induction false} FlattenAt(blocks: seq<seq<string>>, k: nat, i: nat, j: nat)
    requires forall b :: 0 <= b < |blocks| ==> |blocks[b]| == k
    requires i < |blocks| && j < k
    ensures k * i + j < |Flatten(blocks)|
    ensures Flatten(blocks)[k * i + j] == blocks[i][j]
  {
    FlattenLength(blocks, k);
    if i > 0 {
      FlattenAt(blocks[1..], k, i - 1, j);
      assert k * i + j == k + (k * (i - 1) + j);
    }
  }

  /** No block holding `c` means no line of the layout holds it. */
  lemma {:induction false} FlattenFree(blocks: seq<seq<string>>, c: char)
    requires forall i :: 0 <= i < |blocks| ==> AllFree(blocks[i], c)
    ensures AllFree(Flatten(blocks), c)
  {
    if |blocks| > 0 {
      FlattenFree(blocks[1..], c);
    }
  }

  /** The lines of `xs` are all non-empty. */
  predicate NoneEmpty(xs: seq<string>)
  {
    forall i :: 0 <= i < |xs| ==> xs[i] != ""
  }

  /** No block with an empty line means no empty line in the layout. */
  lemma {:induction false} FlattenNoneEmpty(blocks: seq<seq<string>>)
    requires forall i :: 0 <= i < |blocks| ==> NoneEmpty(blocks[i])
    ensures NoneEmpty(Flatten(blocks))
  {
    if |blocks| > 0 {
      FlattenNoneEmpty(blocks[1..]);
    }
  }
}
