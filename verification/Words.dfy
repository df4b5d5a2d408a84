/** Bytes, 32-bit words and their little-endian layout. */
module Words {

  type byte = x: int | 0 <= x < 256
  type word = x: int | 0 <= x < 0x1_0000_0000

  datatype Option<+T> = None | Some(value: T)

  const TWO32: int := 0x1_0000_0000
  const TWO31: int := 0x8000_0000

  /** The four bytes of a word, least significant first. */
  function Le(w: word): (r: seq<byte>)
    ensures |r| == 4
  {
    [w % 256, w / 256 % 256, w / 65536 % 256, w / 16777216]
  }

  /** The word whose little-endian bytes start at offset i. */
  function UnLe(s: seq<byte>, i: nat): word
    requires i + 4 <= |s|
  {
    var b0: int, b1: int, b2: int, b3: int := s[i], s[i + 1], s[i + 2], s[i + 3];
    b0 + 256 * b1 + 65536 * b2 + 16777216 * b3
  }

  lemma SplitWord(w: word)
    ensures w % 256 + 256 * (w / 256 % 256) + 65536 * (w / 65536 % 256) + 16777216 * (w / 16777216) == w
  {
    assert w / 65536 == w / 256 / 256;
    assert w / 16777216 == w / 65536 / 256;
  }

  lemma UnLeOfLe(s: seq<byte>, i: nat, w: word)
    requires i + 4 <= |s| && s[i..i + 4] == Le(w)
    ensures UnLe(s, i) == w
  {
    SplitWord(w);
    assert s[i] == s[i..i + 4][0] && s[i + 1] == s[i..i + 4][1];
    assert s[i + 2] == s[i..i + 4][2] && s[i + 3] == s[i..i + 4][3];
  }
}
