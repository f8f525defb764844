/** 32-bit words: bit patterns as numbers, with sums and differences that wrap around. */
module Words {

  const Modulus: nat := 0x1_0000_0000

  type Word = w: nat | w < 0x1_0000_0000

  function AddWords(a: Word, b: Word): (r: Word)
    ensures r == a + b || r == a + b - Modulus
  {
    if a + b < Modulus then a + b else a + b - Modulus
  }

  function SubWords(a: Word, b: Word): (r: Word)
    ensures AddWords(r, b) == a
  {
    if b <= a then a - b else a + Modulus - b
  }

  lemma AddAssociates(a: Word, b: Word, c: Word)
    ensures AddWords(AddWords(a, b), c) == AddWords(a, AddWords(b, c))
  {
  }

  lemma AddCommutes(a: Word, b: Word)
    ensures AddWords(a, b) == AddWords(b, a)
  {
  }
}
