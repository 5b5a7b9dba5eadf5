/** The secure random source of the generator, as an explicit oracle.

    `crypto.getRandomValues` fills a one-element `Uint32Array`; here every
    such fill reads the next value of an arbitrary, infinite stream of
    32-bit words. Every property of the generator is stated for all
    streams, so it holds whatever values the platform produces. */
module SecureRandom {

  const UINT32_BOUND: int := 0x1_0000_0000

  /** One element of a `Uint32Array`. */
  type Uint32 = x: int | 0 <= x < UINT32_BOUND

  /** The random source: the stream of words and the position of the
      next unread word. */
  datatype Rng = Rng(stream: nat -> Uint32, pos: nat)
  {
    /** The source after one more word has been read. */
    function Advance(): (g: Rng)
      ensures g.stream == stream && g.pos == pos + 1
    {
      Rng(stream, pos + 1)
    }
  }

  /** `getSecureRandomNumber(max)`: one word reduced modulo `max`. Every
      caller passes the length of a non-empty string. */
  function RandomNumber(g: Rng, max: nat): (r: (nat, Rng))
    requires max > 0
    ensures r.0 < max
    ensures r.1.stream == g.stream && r.1.pos == g.pos + 1
  {
    (g.stream(g.pos) % max, g.Advance())
  }

  /** `getRandomChar(str)`: the character of `alphabet` at a random index. */
  function RandomChar(alphabet: string, g: Rng): (r: (char, Rng))
    requires |alphabet| > 0
    ensures r.0 in alphabet
    ensures r.1.stream == g.stream && r.1.pos == g.pos + 1
  {
    var (i, g') := RandomNumber(g, |alphabet|);
    (alphabet[i], g')
  }

  /** Whatever `alphabet` is, every one of its characters is drawn by some
      stream: the oracle does not narrow the alphabet. */
  lemma EveryCharacterReachable(alphabet: string, i: nat)
    requires i < |alphabet| && i < UINT32_BOUND
    ensures RandomChar(alphabet, Rng(_ => i, 0)).0 == alphabet[i]
  {
    var g := Rng(_ => i, 0);
    assert g.stream(g.pos) == i;
    assert i % |alphabet| == i;
  }
}
