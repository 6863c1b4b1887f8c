/**
 Secret keys as scalars in byte form, and the tweak that blinds a key inside a payment preimage.

 The scalar library is not part of this repository. Its scalars are taken modulo the order of a
 group, and written as a fixed number of bytes, most significant first. Both are parameters here, so
 that every result holds for 32-byte keys in particular.
 */
module SecretKeys {
  import opened Basics

  /** The order of the group, and the number of bytes in a key. */
  datatype Group = Group(order: nat, keyLength: nat)

  function Power256(len: nat): (p: nat)
    ensures p > 0
  {
    if len == 0 then 1 else 256 * Power256(len - 1)
  }

  function ScalarFromBytes(b: Bytes): (x: nat)
  {
    if b == [] then 0 else ScalarFromBytes(b[..|b| - 1]) * 256 + b[|b| - 1] as int
  }

  function BigEndian(x: nat, len: nat): (b: Bytes)
    ensures |b| == len
  {
    if len == 0 then [] else BigEndian(x / 256, len - 1) + [(x % 256) as Byte]
  }

  function ScalarToBytes(g: Group, x: nat): (b: Bytes)
  {
    BigEndian(x, g.keyLength)
  }

  /** A group whose scalars fit in a key. */
  ghost predicate IsGroup(g: Group) {
    0 < g.order <= Power256(g.keyLength)
  }

  /** A key in canonical form: of the right length, and holding a scalar below the group order. */
  ghost predicate IsKey(g: Group, key: Bytes) {
    |key| == g.keyLength && ScalarFromBytes(key) < g.order
  }

  /** The scalar an integer stands for. */
  function Reduce(x: int, order: nat): (r: nat)
    requires order > 0
    ensures r < order
  {
    x % order
  }

  function AddTweak(g: Group, n: Bytes, tweak: Bytes): (r: Bytes)
    requires g.order > 0
  {
    ScalarToBytes(g, Reduce(ScalarFromBytes(n) + ScalarFromBytes(tweak), g.order))
  }

  function SubtractTweak(g: Group, n: Bytes, tweak: Bytes): (r: Bytes)
    requires g.order > 0
  {
    ScalarToBytes(g, Reduce(ScalarFromBytes(n) - ScalarFromBytes(tweak), g.order))
  }

  // ----- Byte form -----
  lemma {:induction false} BytesOfScalar(x: nat, len: nat)
    requires x < Power256(len)
    ensures ScalarFromBytes(BigEndian(x, len)) == x
  {
    if len > 0 {
      BytesOfScalar(x / 256, len - 1);
      var b := BigEndian(x, len);
      assert b[..|b| - 1] == BigEndian(x / 256, len - 1);
    }
  }

  lemma {:induction false} ScalarOfBytes(b: Bytes)
    ensures ScalarFromBytes(b) < Power256(|b|)
    ensures BigEndian(ScalarFromBytes(b), |b|) == b
  {
    if b != [] {
      var front, last := b[..|b| - 1], b[|b| - 1] as int;
      ScalarOfBytes(front);
      var x := ScalarFromBytes(front);
      assert (x * 256 + last) / 256 == x && (x * 256 + last) % 256 == last;
      assert b == front + [b[|b| - 1]];
    }
  }

  /** Canonical keys are exactly the byte strings the library writes for scalars below the order. */
  lemma CanonicalForm(g: Group, x: nat)
    requires IsGroup(g) && x < g.order
    ensures IsKey(g, ScalarToBytes(g, x)) && ScalarFromBytes(ScalarToBytes(g, x)) == x
  {
    BytesOfScalar(x, g.keyLength);
  }

  lemma KeysAreScalars(g: Group, k: Bytes, k': Bytes)
    requires IsKey(g, k) && IsKey(g, k')
    ensures k == k' <==> ScalarFromBytes(k) == ScalarFromBytes(k')
  {
    ScalarOfBytes(k);
    ScalarOfBytes(k');
  }

  // ----- Modular facts -----
  /** `x mod n` is the only residue that differs from `x` by a multiple of `n`. */
  lemma ModUnique(x: int, q: int, r: int, n: nat)
    requires 0 <= r < n && x == q * n + r
    ensures x % n == r
  {
    var d := x / n - q;
    assert d * n == r - x % n;
    MultipleSize(d, n);
  }

  lemma MultipleSize(d: int, n: nat)
    ensures d >= 1 ==> d * n >= n
    ensures d <= -1 ==> d * n <= -(n as int)
  {
  }

  lemma ModShift(x: int, k: int, n: nat)
    requires n > 0
    ensures (x + k * n) % n == x % n
  {
    ModUnique(x + k * n, x / n + k, x % n, n);
  }

  lemma SubtractAfterAdd(a: int, t: int, t': int, n: nat)
    requires n > 0
    ensures ((a + t) % n - t') % n == (a + t - t') % n
  {
    ModShift((a + t) % n - t', (a + t) / n, n);
  }

  lemma SameResidue(a: int, b: int, n: nat)
    requires n > 0
    ensures a % n == b % n <==> (a - b) % n == 0
  {
    if a % n == b % n {
      ModUnique(a - b, a / n - b / n, 0, n);
    }
    if (a - b) % n == 0 {
      ModUnique(a, (a - b) / n + b / n, b % n, n);
    }
  }

  lemma ShiftedResidue(k: nat, t: int, t': int, n: nat)
    requires k < n
    ensures (k + t - t') % n == k <==> t % n == t' % n
  {
    SameResidue(t, t', n);
    SameResidue(k + t - t', k, n);
    assert k + t - t' - k == t - t';
    assert k % n == k by { ModUnique(k, 0, k, n); }
  }

  // ----- The tweak -----
  /** Both operations yield canonical keys, whatever bytes they are given. */
  lemma TweakScalars(g: Group, n: Bytes, tweak: Bytes)
    requires IsGroup(g)
    ensures IsKey(g, AddTweak(g, n, tweak)) && IsKey(g, SubtractTweak(g, n, tweak))
    ensures ScalarFromBytes(AddTweak(g, n, tweak)) == Reduce(ScalarFromBytes(n) + ScalarFromBytes(tweak), g.order)
    ensures ScalarFromBytes(SubtractTweak(g, n, tweak)) == Reduce(ScalarFromBytes(n) - ScalarFromBytes(tweak), g.order)
  {
    CanonicalForm(g, Reduce(ScalarFromBytes(n) + ScalarFromBytes(tweak), g.order));
    CanonicalForm(g, Reduce(ScalarFromBytes(n) - ScalarFromBytes(tweak), g.order));
  }

  /** Subtracting any tweak from a tweaked key leaves the key shifted by the difference of the tweaks. */
  lemma TweakDifference(g: Group, key: Bytes, tweak: Bytes, tweak': Bytes) returns (back: Bytes)
    requires IsGroup(g)
    ensures back == SubtractTweak(g, AddTweak(g, key, tweak), tweak') && IsKey(g, back)
    ensures ScalarFromBytes(back)
         == Reduce(ScalarFromBytes(key) + ScalarFromBytes(tweak) - ScalarFromBytes(tweak'), g.order)
  {
    var blinded := AddTweak(g, key, tweak);
    TweakScalars(g, key, tweak);
    TweakScalars(g, blinded, tweak');
    back := SubtractTweak(g, blinded, tweak');
    SubtractAfterAdd(ScalarFromBytes(key), ScalarFromBytes(tweak), ScalarFromBytes(tweak'), g.order);
  }

  lemma TweakShift(g: Group, key: Bytes, tweak: Bytes, tweak': Bytes) returns (back: Bytes)
    requires IsGroup(g) && IsKey(g, key)
    ensures back == SubtractTweak(g, AddTweak(g, key, tweak), tweak') && IsKey(g, back)
    ensures ScalarFromBytes(back) == ScalarFromBytes(key)
       <==> Reduce(ScalarFromBytes(tweak), g.order) == Reduce(ScalarFromBytes(tweak'), g.order)
  {
    back := TweakDifference(g, key, tweak, tweak');
    ShiftedResidue(ScalarFromBytes(key), ScalarFromBytes(tweak), ScalarFromBytes(tweak'), g.order);
  }

  /**
   The round trip the sale rests on. The same 32 bytes come back exactly when the key was canonical:
   a key whose scalar reaches the group order is reduced on the way.
   */
  lemma TweakRoundTrip(g: Group, key: Bytes, tweak: Bytes)
    requires IsGroup(g) && |key| == g.keyLength
    ensures SubtractTweak(g, AddTweak(g, key, tweak), tweak) == key <==> IsKey(g, key)
  {
    var back := TweakDifference(g, key, tweak, tweak);
    if IsKey(g, key) {
      back := TweakShift(g, key, tweak, tweak);
      KeysAreScalars(g, back, key);
    }
  }

  /**
   The failing case is real. Whenever the order itself can be written in full width, those bytes are a key that
   does not come back: they are reduced to the key of the zero scalar.
   */
  lemma OrderDoesNotSurvive(g: Group, tweak: Bytes)
    requires IsGroup(g) && g.order < Power256(g.keyLength)
    ensures var key := BigEndian(g.order, g.keyLength);
            && |key| == g.keyLength && ScalarFromBytes(key) == g.order
            && ScalarFromBytes(SubtractTweak(g, AddTweak(g, key, tweak), tweak)) == 0
            && SubtractTweak(g, AddTweak(g, key, tweak), tweak) != key
  {
    var key := BigEndian(g.order, g.keyLength);
    BytesOfScalar(g.order, g.keyLength);
    TweakRoundTrip(g, key, tweak);
    var back := TweakDifference(g, key, tweak, tweak);
    assert Reduce(g.order, g.order) == 0;
  }

  /** With another nonce the buyer recovers the key if and only if the nonces agree modulo the order. */
  lemma WrongTweak(g: Group, key: Bytes, tweak: Bytes, tweak': Bytes)
    requires IsGroup(g) && IsKey(g, key)
    ensures SubtractTweak(g, AddTweak(g, key, tweak), tweak') == key
       <==> Reduce(ScalarFromBytes(tweak), g.order) == Reduce(ScalarFromBytes(tweak'), g.order)
  {
    var back := TweakShift(g, key, tweak, tweak');
    KeysAreScalars(g, back, key);
  }

  /** Blinding hides nothing twice: under one nonce, two canonical keys give the same preimage only if they are equal. */
  lemma TweakInjective(g: Group, key: Bytes, key': Bytes, tweak: Bytes)
    requires IsGroup(g) && IsKey(g, key) && IsKey(g, key')
    requires AddTweak(g, key, tweak) == AddTweak(g, key', tweak)
    ensures key == key'
  {
    TweakRoundTrip(g, key, tweak);
    TweakRoundTrip(g, key', tweak);
  }
}
