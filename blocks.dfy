/** Block splitting (`split_exam_blocks`): a document holding several concatenated
    exams is cut at the start of every candidate header line. */
module Blocks {
  import opened Text

  /** Header start offsets as a left-to-right scan of the text reports them:
      ascending and inside the text. */
  predicate ValidStarts(text: string, starts: seq<nat>) {
    && (forall i :: 0 <= i < |starts| ==> starts[i] < |text|)
    && (forall i, j :: 0 <= i < j < |starts| ==> starts[i] < starts[j])
  }

  /** Where block `i` ends: at the next header, or at the end of the text. */
  function BlockEnd(text: string, starts: seq<nat>, i: nat): (e: nat)
    requires ValidStarts(text, starts) && i < |starts|
    ensures starts[i] < e <= |text|
  {
    if i + 1 < |starts| then starts[i + 1] else |text|
  }

  /** The untrimmed text of block `i`. */
  function RawBlock(text: string, starts: seq<nat>, i: nat): string
    requires ValidStarts(text, starts) && i < |starts|
  {
    text[starts[i]..BlockEnd(text, starts, i)]
  }

  /** The stripped text of every block, one per header. */
  function Stripped(text: string, starts: seq<nat>): (bs: seq<string>)
    requires ValidStarts(text, starts)
    ensures |bs| == |starts|
  {
    seq(|starts|, i requires 0 <= i < |starts| => Strip(RawBlock(text, starts, i)))
  }

  /** The non-empty strings of `bs`, in order. */
  function NonBlank(bs: seq<string>): seq<string> {
    if bs == [] then []
    else
      var b := bs[|bs| - 1];
      NonBlank(bs[..|bs| - 1]) + (if b != [] then [b] else [])
  }

  /** The positions of the strings `NonBlank` keeps. */
  function NonBlankIndices(bs: seq<string>): seq<nat> {
    if bs == [] then []
    else NonBlankIndices(bs[..|bs| - 1]) + (if bs[|bs| - 1] != [] then [|bs| - 1] else [])
  }

  /** What `split_exam_blocks` returns; never empty. */
  function SplitSpec(text: string, starts: seq<nat>): (blocks: seq<string>)
    requires ValidStarts(text, starts)
    ensures |blocks| > 0
  {
    if starts == [] then [text]
    else
      var kept := NonBlank(Stripped(text, starts));
      if kept == [] then [text] else kept
  }

  /** The kept strings are, in order, exactly the non-empty ones: string k is the
      one at position `NonBlankIndices[k]`, the positions ascend, and every position
      left out holds an empty string. */
  lemma NonBlankShape(bs: seq<string>)
    ensures |NonBlank(bs)| == |NonBlankIndices(bs)|
    ensures forall k :: 0 <= k < |NonBlankIndices(bs)| ==>
              NonBlankIndices(bs)[k] < |bs| && NonBlank(bs)[k] == bs[NonBlankIndices(bs)[k]] && NonBlank(bs)[k] != []
    ensures forall k1, k2 :: 0 <= k1 < k2 < |NonBlankIndices(bs)| ==> NonBlankIndices(bs)[k1] < NonBlankIndices(bs)[k2]
    ensures forall i :: 0 <= i < |bs| && i !in NonBlankIndices(bs) ==> bs[i] == []
  {
    NonBlankContents(bs);
    NonBlankAscend(bs);
    NonBlankOmits(bs);
  }

  lemma {:induction false} NonBlankContents(bs: seq<string>)
    ensures |NonBlank(bs)| == |NonBlankIndices(bs)|
    ensures forall k :: 0 <= k < |NonBlankIndices(bs)| ==>
              NonBlankIndices(bs)[k] < |bs| && NonBlank(bs)[k] == bs[NonBlankIndices(bs)[k]] && NonBlank(bs)[k] != []
  {
    if bs != [] {
      var init := bs[..|bs| - 1];
      NonBlankContents(init);
      forall k | 0 <= k < |NonBlankIndices(init)| ensures init[NonBlankIndices(init)[k]] == bs[NonBlankIndices(init)[k]] {
      }
    }
  }

  lemma {:induction false} NonBlankAscend(bs: seq<string>)
    ensures forall k :: 0 <= k < |NonBlankIndices(bs)| ==> NonBlankIndices(bs)[k] < |bs|
    ensures forall k1, k2 :: 0 <= k1 < k2 < |NonBlankIndices(bs)| ==> NonBlankIndices(bs)[k1] < NonBlankIndices(bs)[k2]
  {
    if bs != [] {
      NonBlankAscend(bs[..|bs| - 1]);
    }
  }

  lemma {:induction false} NonBlankOmits(bs: seq<string>)
    ensures forall i :: 0 <= i < |bs| && i !in NonBlankIndices(bs) ==> bs[i] == []
  {
    if bs != [] {
      var init := bs[..|bs| - 1];
      NonBlankOmits(init);
      forall i | 0 <= i < |init| && i !in NonBlankIndices(bs) ensures bs[i] == [] {
        assert init[i] == bs[i];
      }
    }
  }

  /** With no empty string, every string is kept. */
  lemma {:induction false} NonBlankAll(bs: seq<string>)
    requires forall i :: 0 <= i < |bs| ==> bs[i] != []
    ensures NonBlank(bs) == bs
  {
    if bs != [] {
      var init := bs[..|bs| - 1];
      NonBlankAll(init);
      assert bs == init + [bs[|bs| - 1]];
    }
  }

  /** The kept blocks in text order: block k is the stripped text from header
      `NonBlankIndices[k]` to the next header, the headers ascend, and every header
      left out starts an all-blank block. */
  lemma KeptShape(text: string, starts: seq<nat>)
    requires ValidStarts(text, starts)
    ensures var bs := Stripped(text, starts);
      && |NonBlank(bs)| == |NonBlankIndices(bs)|
      && (forall k :: 0 <= k < |NonBlankIndices(bs)| ==>
            NonBlankIndices(bs)[k] < |starts| &&
            NonBlank(bs)[k] == Strip(RawBlock(text, starts, NonBlankIndices(bs)[k])) && NonBlank(bs)[k] != [])
      && (forall k1, k2 :: 0 <= k1 < k2 < |NonBlankIndices(bs)| ==> NonBlankIndices(bs)[k1] < NonBlankIndices(bs)[k2])
      && (forall i :: 0 <= i < |starts| && i !in NonBlankIndices(bs) ==> Strip(RawBlock(text, starts, i)) == [])
  {
    NonBlankShape(Stripped(text, starts));
  }

  /** Fallback and shape of the split: no header gives the whole text as one block;
      otherwise, unless every block is blank, the result is the kept blocks, each
      non-empty and without surrounding whitespace. */
  lemma SplitShape(text: string, starts: seq<nat>)
    requires ValidStarts(text, starts)
    ensures starts == [] ==> SplitSpec(text, starts) == [text]
    ensures starts != [] && NonBlank(Stripped(text, starts)) != [] ==>
              SplitSpec(text, starts) == NonBlank(Stripped(text, starts)) &&
              forall k :: 0 <= k < |SplitSpec(text, starts)| ==>
                SplitSpec(text, starts)[k] != [] &&
                !IsSpace(SplitSpec(text, starts)[k][0]) &&
                !IsSpace(SplitSpec(text, starts)[k][|SplitSpec(text, starts)[k]| - 1])
    ensures starts != [] && NonBlank(Stripped(text, starts)) == [] ==> SplitSpec(text, starts) == [text]
  {
    if starts != [] {
      var bs := Stripped(text, starts);
      NonBlankContents(bs);
      forall k | 0 <= k < |NonBlank(bs)|
        ensures NonBlank(bs)[k] != [] && !IsSpace(NonBlank(bs)[k][0]) && !IsSpace(NonBlank(bs)[k][|NonBlank(bs)[k]| - 1])
      {
        StripSpec(RawBlock(text, starts, NonBlankIndices(bs)[k]));
      }
    }
  }

  /** When no block is blank, every header starts its own block. */
  lemma EveryHeaderABlock(text: string, starts: seq<nat>)
    requires ValidStarts(text, starts) && starts != []
    requires forall i :: 0 <= i < |starts| ==> Strip(RawBlock(text, starts, i)) != []
    ensures |SplitSpec(text, starts)| == |starts|
    ensures forall i :: 0 <= i < |starts| ==> SplitSpec(text, starts)[i] == Strip(RawBlock(text, starts, i))
  {
    NonBlankAll(Stripped(text, starts));
  }

  /** `split_exam_blocks`, given the header start offsets. */
  method SplitExamBlocks(text: string, starts: seq<nat>) returns (blocks: seq<string>)
    requires ValidStarts(text, starts)
    ensures blocks == SplitSpec(text, starts)
    ensures |blocks| > 0
    ensures starts == [] ==> blocks == [text]
  {
    if starts == [] {
      return [text];
    }
    ghost var bs := Stripped(text, starts);
    blocks := [];
    for i := 0 to |starts|
      invariant blocks == NonBlank(bs[..i])
    {
      var end := if i + 1 < |starts| then starts[i + 1] else |text|;
      var block := Strip(text[starts[i]..end]);
      assert bs[..i + 1][..i] == bs[..i];
      if block != [] {
        blocks := blocks + [block];
      }
    }
    assert bs[..|starts|] == bs;
    if blocks == [] {
      blocks := [text];
    }
  }
}
