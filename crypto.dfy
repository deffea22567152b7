/**
  Constants of src/constants.ts, the cryptographic primitives of src/session.ts
  (`hash`, `hmac`, `bogus_prng`) kept abstract, and the deterministic decoy
  generator `random_string_bogus` over the int32 stream of a seeded generator.
*/
module Crypto {
  import opened Hex

  const HASH_LENGTH: nat := 64           // bytes
  const NONCE_LENGTH: nat := 64          // bytes
  const PASSWORD_ITERATIONS: nat := 131072
  const CHALLENGE_EXPIRATION: nat := 120000   // 2 minutes, in milliseconds
  const SESSION_EXPIRATION: nat := 900000     // 15 minutes, in milliseconds

  /** A SHA-512 digest in hex: HASH_LENGTH bytes as lower-case hex digits. */
  type Digest = s: string | |s| == 2 * HASH_LENGTH && IsLowerHex(s)
    witness seq(2 * HASH_LENGTH, _ => '0')

  /** The output of `random_string(NONCE_LENGTH)`: NONCE_LENGTH random bytes in hex. */
  type Nonce = s: string | |s| == 2 * NONCE_LENGTH && IsLowerHex(s)
    witness seq(2 * NONCE_LENGTH, _ => '0')

  /** A result of seedrandom's `int32()`. */
  type Int32 = x: int | -0x8000_0000 <= x < 0x8000_0000

  /**
    What `random_iterations_bogus` can return: PASSWORD_ITERATIONS scaled by
    1 + 0.05 * (u - 0.5) for a uniform u in [0, 1), then rounded.
  */
  type JitteredIterations = n: int | 127795 <= n <= 134349
    witness PASSWORD_ITERATIONS

  /**
    The primitives the protocol uses without looking inside them, and the two
    server secrets of the credentials file.
      hash(message, salt)  SHA-512 of message ‖ salt, in hex
      hmac(secret, message) HMAC-SHA-512, in hex
      stream(seed, k)       the k-th `int32()` of `seedrandom(seed)`
      jitter(seed, k)       `random_iterations_bogus` on `seedrandom(seed)` after k draws
  */
  datatype Config = Config(
    hash: (string, string) -> Digest,
    hmac: (string, string) -> Digest,
    stream: (string, nat) -> Int32,
    jitter: (string, nat) -> JitteredIterations,
    serverHashSalt: string,
    clientHashSalt: string)

  /** `Database.EMPTY_HASH`: the fingerprint of the empty e-mail address, owned by the sentinel user. */
  function EmptyHash(cfg: Config): Digest {
    cfg.hash("", cfg.clientHashSalt)
  }

  /** `bogus_prng(seed)` is `seedrandom(BogusSeed(cfg, seed))`. */
  function BogusSeed(cfg: Config, seed: string): Digest {
    cfg.hash(seed, cfg.serverHashSalt)
  }

  /**
    The bytes `random_string_bogus` draws: `int32() & 0xff` for each of n draws
    from position `start` (the low eight bits of a two's complement int32 are
    its remainder modulo 256).
  */
  function BogusBytes(stream: (string, nat) -> Int32, seed: string, start: nat, n: nat): (r: seq<byte>)
    ensures |r| == n
  {
    seq(n, i requires 0 <= i < n => stream(seed, start + i) % 256)
  }

  /** The hex string `random_string_bogus` returns for those bytes. */
  function DecoyHex(cfg: Config, seed: string, start: nat, n: nat): string {
    BytesToHex(BogusBytes(cfg.stream, seed, start, n))
  }

  /** A decoy has the shape of a real random value: 2n lower-case hex digits. */
  lemma DecoyShape(cfg: Config, seed: string, start: nat, n: nat)
    ensures |DecoyHex(cfg, seed, start, n)| == 2 * n
    ensures IsLowerHex(DecoyHex(cfg, seed, start, n))
    ensures n > 0 ==> HexRex(DecoyHex(cfg, seed, start, n))
  {
  }

  /** Two consecutive draws of n and m bytes read the stream as one draw of n + m bytes. */
  lemma BogusBytesConsecutive(stream: (string, nat) -> Int32, seed: string, start: nat, n: nat, m: nat)
    ensures BogusBytes(stream, seed, start, n) + BogusBytes(stream, seed, start + n, m)
         == BogusBytes(stream, seed, start, n + m)
  {
    var a, b := BogusBytes(stream, seed, start, n), BogusBytes(stream, seed, start + n, m);
    var c := BogusBytes(stream, seed, start, n + m);
    forall i | 0 <= i < n + m
      ensures (a + b)[i] == c[i]
    {
      if i >= n {
        assert (a + b)[i] == b[i - n] == stream(seed, start + n + (i - n)) % 256;
      }
    }
  }

  /**
    A seedrandom generator: a seed and the number of outputs drawn so far.
    Every draw is determined by the seed and the position.
  */
  class Prng {
    const cfg: Config
    const seed: string
    var pos: nat

    /** `seedrandom(seed)`. */
    constructor (cfg: Config, seed: string)
      ensures this.cfg == cfg && this.seed == seed && pos == 0
    {
      this.cfg := cfg;
      this.seed := seed;
      pos := 0;
    }

    /** `int32()`: the next output of the stream. */
    method Int32() returns (x: Int32)
      modifies this
      ensures x == cfg.stream(seed, old(pos))
      ensures pos == old(pos) + 1
    {
      x := cfg.stream(seed, pos);
      pos := pos + 1;
    }
  }

  /** `bogus_prng(seed)`: a generator seeded with the hash of `seed` under the server salt. */
  method BogusPrng(cfg: Config, seed: string) returns (p: Prng)
    ensures fresh(p)
    ensures p.cfg == cfg && p.seed == BogusSeed(cfg, seed) && p.pos == 0
  {
    p := new Prng(cfg, BogusSeed(cfg, seed));
  }

  /** `random_string_bogus(src, bytes)`: fills a buffer from the stream, returns it in hex. */
  method RandomStringBogus(src: Prng, bytes: nat) returns (s: string)
    modifies src
    ensures src.pos == old(src.pos) + bytes
    ensures s == DecoyHex(src.cfg, src.seed, old(src.pos), bytes)
  {
    var buf := new byte[bytes];
    for i := 0 to buf.Length
      invariant src.pos == old(src.pos) + i
      invariant forall k :: 0 <= k < i ==> buf[k] == BogusBytes(src.cfg.stream, src.seed, old(src.pos), bytes)[k]
    {
      var x := src.Int32();
      buf[i] := x % 256;
    }
    assert buf[..] == BogusBytes(src.cfg.stream, src.seed, old(src.pos), bytes);
    s := BytesToHex(buf[..]);
  }

  /** `random_iterations_bogus(src, PASSWORD_ITERATIONS)`: the jittered count, one draw. */
  method RandomIterationsBogus(src: Prng) returns (n: JitteredIterations)
    modifies src
    ensures n == src.cfg.jitter(src.seed, old(src.pos))
    ensures src.pos == old(src.pos) + 1
  {
    n := src.cfg.jitter(src.seed, src.pos);
    src.pos := src.pos + 1;
  }
}
