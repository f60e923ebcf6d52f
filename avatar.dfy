/** The member avatar's background colour: a string hash of the name picks one of
    eight colours. JavaScript's `<<` works on 32-bit integers, so the shift is
    written out as the 32-bit wrap-around it performs; the rest of the arithmetic is
    on exact integers, as the engine's doubles are for any name of realistic length. */
module Avatar {

  const Colors: seq<string> := [
    "bg-blue-600", "bg-green-600", "bg-purple-600", "bg-pink-600",
    "bg-indigo-600", "bg-orange-600", "bg-red-600", "bg-teal-600"]

  /** ECMAScript ToInt32 on an integer: the value congruent to `x` modulo 2^32 in
      [-2^31, 2^31). */
  function ToInt32(x: int): (r: int)
    ensures -0x8000_0000 <= r < 0x8000_0000
    ensures (x - r) % 0x1_0000_0000 == 0
  {
    var m := x % 0x1_0000_0000;
    var r := if m >= 0x8000_0000 then m - 0x1_0000_0000 else m;
    assert x == 0x1_0000_0000 * (x / 0x1_0000_0000) + m;
    assert x - r == 0x1_0000_0000 * (x / 0x1_0000_0000) || x - r == 0x1_0000_0000 * (x / 0x1_0000_0000 + 1);
    r
  }

  /** One round of the loop: `charCode + ((hash << 5) - hash)`. Up to multiples of
      2^32 it is `31 * hash + charCode`. */
  function HashStep(hash: int, c: char): (r: int)
    ensures (r - (31 * hash + c as int)) % 0x1_0000_0000 == 0
  {
    StepCongruent(hash, hash, ToInt32(hash * 32), c as int);
    c as int + (ToInt32(hash * 32) - hash)
  }

  /** The hash of a name and its partner below: the polynomial string hash with base
      31, without any wrap-around. */
  function PolyHash(name: string): int {
    if name == [] then 0 else 31 * PolyHash(name[..|name| - 1]) + name[|name| - 1] as int
  }

  /** The hash after the whole name, one character after the other. Up to multiples
      of 2^32 it is the base-31 polynomial hash of the name. */
  function HashOf(name: string): (r: int)
    ensures (r - PolyHash(name)) % 0x1_0000_0000 == 0
  {
    if name == [] then 0
    else
      var init := name[..|name| - 1];
      var c := name[|name| - 1];
      var h := HashOf(init);
      StepCongruent(h, PolyHash(init), ToInt32(h * 32), c as int);
      HashStep(h, c)
  }

  /** One round keeps the two hashes congruent: if `h` and `p` agree modulo 2^32 and
      `t` is `32 * h` reduced modulo 2^32, then `c + (t - h)` and `31 * p + c` agree. */
  lemma StepCongruent(h: int, p: int, t: int, c: int)
    requires (h - p) % 0x1_0000_0000 == 0
    requires (h * 32 - t) % 0x1_0000_0000 == 0
    ensures ((c + (t - h)) - (31 * p + c)) % 0x1_0000_0000 == 0
  {
    var q := (h - p) / 0x1_0000_0000;
    var k := (h * 32 - t) / 0x1_0000_0000;
    DivisibleWitness(h - p);
    DivisibleWitness(h * 32 - t);
    assert (c + (t - h)) - (31 * p + c) == 0x1_0000_0000 * (31 * q - k);
    MultipleDivisible(31 * q - k);
  }

  lemma DivisibleWitness(a: int)
    requires a % 0x1_0000_0000 == 0
    ensures a == 0x1_0000_0000 * (a / 0x1_0000_0000)
  {
  }

  lemma MultipleDivisible(w: int)
    ensures (0x1_0000_0000 * w) % 0x1_0000_0000 == 0
  {
  }

  /** `Math.abs(hash) % colors.length`. */
  function ColorIndex(name: string): (i: int)
    ensures 0 <= i < |Colors|
  {
    var h := HashOf(name);
    (if h < 0 then -h else h) % |Colors|
  }

  /** The colour depends only on the sign of the hash and the polynomial hash modulo 8. */
  lemma ColorIndexFromPolynomial(name: string)
    ensures var p := PolyHash(name);
      ColorIndex(name) == if HashOf(name) < 0 then (-p) % 8 else p % 8
  {
    var h, p := HashOf(name), PolyHash(name);
    var q := (h - p) / 0x1_0000_0000;
    assert |Colors| == 8;
    assert h == p + 8 * (0x2000_0000 * q);
    ModEight(p, 0x2000_0000 * q);
    ModEight(-p, -0x2000_0000 * q);
  }

  lemma ModEight(a: int, m: int)
    ensures (a + 8 * m) % 8 == a % 8
  {
    var r := a % 8;
    assert a == 8 * (a / 8) + r;
    assert a + 8 * m == 8 * (a / 8 + m) + r;
  }

  /** The empty name hashes to 0 and gets the first colour. */
  lemma EmptyNameIsBlue()
    ensures HashOf("") == 0 && Colors[ColorIndex("")] == "bg-blue-600"
  {
  }

  /** A one-letter name hashes to its character code. */
  lemma OneLetterHash(c: char)
    ensures HashOf([c]) == c as int
  {
    assert [c][..0] == [];
  }

  /** `getAvatarColor`: the loop over the name's characters, then the lookup. */
  method GetAvatarColor(name: string) returns (color: string)
    ensures color == Colors[ColorIndex(name)]
    ensures color in Colors
  {
    var hash := 0;
    for i := 0 to |name|
      invariant hash == HashOf(name[..i])
    {
      assert name[..i + 1][..i] == name[..i];
      hash := name[i] as int + (ToInt32(hash * 32) - hash);
    }
    assert name[..|name|] == name;
    var index := (if hash < 0 then -hash else hash) % |Colors|;
    color := Colors[index];
  }
}
