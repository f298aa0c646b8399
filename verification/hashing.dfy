/** The form of the cache keys: `createHash('sha256')…digest('hex')` gives
    the 32 bytes of a SHA-256 digest as 64 lower-case hexadecimal digits.
    The hash itself is a parameter of the services. */
module Hashing {

  predicate IsHexDigit(c: char) {
    '0' <= c <= '9' || 'a' <= c <= 'f'
  }

  predicate IsHexDigest(s: string) {
    |s| == 64 && forall k :: 0 <= k < |s| ==> IsHexDigit(s[k])
  }

  /** A SHA-256 digest in hexadecimal. */
  type Digest = s: string | IsHexDigest(s)
    witness seq(64, _ => '0')
}
