/** Disk blocks as bytes, and the little-endian words the kernel keeps inside them. */
module Blocks {
  import opened Words

  const BSIZE: nat := 512
  const WORDS: nat := 128

  type Block = b: seq<byte> | |b| == BSIZE witness seq(BSIZE, _ => 0)
  type Disk = seq<Block>

  const ZERO_BLOCK: Block := seq(BSIZE, _ => 0)

  function Word(b: Block, i: nat): word
    requires i < WORDS
  {
    UnLe(b, 4 * i)
  }

  function SetWord(b: Block, i: nat, w: word): Block
    requires i < WORDS
  {
    b[4 * i := w % 256][4 * i + 1 := w / 256 % 256][4 * i + 2 := w / 65536 % 256][4 * i + 3 := w / 16777216]
  }

  /** Storing a word is read back at its own index and nowhere else. */
  lemma WordOfSetWord(b: Block, i: nat, w: word, j: nat)
    requires i < WORDS && j < WORDS
    ensures Word(SetWord(b, i, w), j) == if i == j then w else Word(b, j)
  {
    SplitWord(w);
  }

  /** The block filled with zeros. */
  function Zeroed(b: Block): Block {
    seq(|b|, _ => 0)
  }
}
