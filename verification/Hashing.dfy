/**
 SHA-256 as the system uses it: an arbitrary function from text to 64 lower-case hex characters.

 Nothing is assumed about collisions.  Results about hashed content say instead: the contents are
 equal, or two different texts, both taken from the finite set of texts the two computations
 actually hashed, have the same hash.
 */
module Hashing {

  predicate IsHexChar(c: char) {
    '0' <= c <= '9' || 'a' <= c <= 'f'
  }

  predicate IsHexDigest(d: string) {
    |d| == 64 && forall i :: 0 <= i < |d| ==> IsHexChar(d[i])
  }

  ghost predicate IsSha(h: string -> string) {
    forall x :: IsHexDigest(h(x))
  }

  function ZeroDigest(): (d: string)
    ensures IsHexDigest(d)
  {
    seq(64, _ => '0')
  }

  type Sha256 = h: string -> string | IsSha(h) ghost witness (_: string) => ZeroDigest()

  /** Two different texts, one from each set, with the same hash. */
  ghost predicate Collides(H: Sha256, xs: set<string>, ys: set<string>) {
    exists x, y :: x in xs && y in ys && x != y && H(x) == H(y)
  }

  lemma CollidesMonotone(H: Sha256, xs: set<string>, ys: set<string>, xs': set<string>, ys': set<string>)
    requires Collides(H, xs, ys) && xs <= xs' && ys <= ys'
    ensures Collides(H, xs', ys')
  {
    var x, y :| x in xs && y in ys && x != y && H(x) == H(y);
    assert x in xs' && y in ys';
  }

  /** One link of a hash chain: the previous digest, then the canonical text of the next part. */
  function ChainStep(H: Sha256, prev: string, canon: string): (d: string)
    ensures IsHexDigest(d)
  {
    H(prev + canon)
  }

  /** Equal links come from equal parts, or from a collision on the two linked texts. */
  lemma StepBinds(H: Sha256, p: string, x: string, q: string, y: string)
    requires ChainStep(H, p, x) == ChainStep(H, q, y) && |p| == |q|
    ensures (p == q && x == y) || Collides(H, {p + x}, {q + y})
  {
    if p + x == q + y {
      assert p == (p + x)[..|p|] && x == (p + x)[|p|..];
      assert q == (q + y)[..|q|] && y == (q + y)[|q|..];
    } else {
      assert p + x in {p + x} && q + y in {q + y};
    }
  }
}
