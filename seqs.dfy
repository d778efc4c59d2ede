/** Sequence helpers shared by the byte and string renderers: in-order
    concatenation of blocks and joining with a separator. */
module Seqs {

  /** The blocks concatenated in order (built from the back, as a loop that
      appends block after block would build it). */
  function Flatten<T>(blocks: seq<seq<T>>): seq<T>
  {
    if blocks == [] then [] else Flatten(blocks[..|blocks| - 1]) + blocks[|blocks| - 1]
  }

  /** Sum of the lengths of the blocks. */
  function TotalLength<T>(blocks: seq<seq<T>>): nat
  {
    if blocks == [] then 0 else TotalLength(blocks[..|blocks| - 1]) + |blocks[|blocks| - 1]|
  }

  /** `s` ends with `suffix`. */
  predicate EndsWith<T(==)>(s: seq<T>, suffix: seq<T>)
  {
    |suffix| <= |s| && s[|s| - |suffix|..] == suffix
  }

  /** Taking one element more appends that element. */
  lemma TakeSnoc<T>(s: seq<T>, i: nat)
    requires i < |s|
    ensures s[..i + 1] == s[..i] + [s[i]]
  {
  }

  /** The first part of a concatenation is its prefix of that length. */
  lemma TakeAppend<T>(a: seq<T>, b: seq<T>)
    ensures (a + b)[..|a|] == a
  {
  }

  /** A sequence is what comes before element `i`, that element, and what
      comes after it. */
  lemma SplitAround<T>(s: seq<T>, i: nat)
    requires i < |s|
    ensures s == s[..i + 1] + s[i + 1..]
    ensures s[..i + 1] == s[..i] + [s[i]]
  {
  }

  /** The two ways of writing the slices around element `i` agree. */
  lemma SliceForms<T>(s: seq<T>, i: nat)
    requires i < |s|
    ensures s[..i] == s[0..i] && s[i + 1..] == s[i + 1..|s|]
  {
  }

  /** Concatenation is associative. */
  lemma AppendAssoc<T>(a: seq<T>, b: seq<T>, c: seq<T>)
    ensures (a + b) + c == a + (b + c)
  {
  }

  /** Appending one block to the list appends it to the concatenation. */
  lemma FlattenSnoc<T>(blocks: seq<seq<T>>, b: seq<T>)
    ensures Flatten(blocks + [b]) == Flatten(blocks) + b
  {
    TakeAppend(blocks, [b]);
  }

  /** Concatenation distributes over appending lists of blocks. */
  lemma {:induction false} FlattenAppend<T>(a: seq<seq<T>>, b: seq<seq<T>>)
    ensures Flatten(a + b) == Flatten(a) + Flatten(b)
    decreases |b|
  {
    if b == [] {
      assert a + b == a;
    } else {
      var init := b[..|b| - 1];
      var last := b[|b| - 1];
      assert b == init + [last];
      assert a + b == (a + init) + [last];
      FlattenSnoc(a + init, last);
      FlattenAppend(a, init);
      FlattenSnoc(init, last);
    }
  }

  /** The length of the concatenation is the sum of the block lengths. */
  lemma {:induction false} FlattenLength<T>(blocks: seq<seq<T>>)
    ensures |Flatten(blocks)| == TotalLength(blocks)
    decreases |blocks|
  {
    if blocks != [] {
      FlattenLength(blocks[..|blocks| - 1]);
    }
  }

  /** Block `i` sits in the concatenation between everything before it and
      everything after it: each block contributes exactly itself, in order. */
  lemma FlattenAt<T>(blocks: seq<seq<T>>, i: nat)
    requires i < |blocks|
    ensures Flatten(blocks) == Flatten(blocks[..i]) + blocks[i] + Flatten(blocks[i + 1..])
  {
    SplitAround(blocks, i);
    FlattenAppend(blocks[..i + 1], blocks[i + 1..]);
    FlattenSnoc(blocks[..i], blocks[i]);
  }

  /** `f` applied to every element, in order. */
  function Map<A, B>(f: A -> B, xs: seq<A>): seq<B>
  {
    seq(|xs|, i requires 0 <= i < |xs| => f(xs[i]))
  }

  /** Mapping distributes over concatenation. */
  lemma MapAppend<A, B>(f: A -> B, a: seq<A>, b: seq<A>)
    ensures Map(f, a + b) == Map(f, a) + Map(f, b)
  {
  }

  /** Mapping a single element. */
  lemma MapOne<A, B>(f: A -> B, x: A)
    ensures Map(f, [x]) == [f(x)]
  {
  }

  /** `xs` joined with `sep` between consecutive elements; the empty list
      joins to the empty sequence. */
  function Join<T>(xs: seq<seq<T>>, sep: seq<T>): seq<T>
  {
    if |xs| == 0 then []
    else if |xs| == 1 then xs[0]
    else Join(xs[..|xs| - 1], sep) + sep + xs[|xs| - 1]
  }

  /** A joined list has one separator fewer than it has elements. */
  lemma {:induction false} JoinLength<T>(xs: seq<seq<T>>, sep: seq<T>)
    requires |xs| > 0
    ensures |Join(xs, sep)| == TotalLength(xs) + (|xs| - 1) * |sep|
    decreases |xs|
  {
    if |xs| > 1 {
      JoinLength(xs[..|xs| - 1], sep);
    } else {
      assert xs[..0] == [];
    }
  }

  /** The first element opens the joined sequence. */
  lemma {:induction false} JoinHead<T>(xs: seq<seq<T>>, sep: seq<T>)
    requires |xs| > 0
    ensures xs[0] <= Join(xs, sep)
    decreases |xs|
  {
    if |xs| > 1 {
      JoinHead(xs[..|xs| - 1], sep);
    }
  }
}
