/** Types shared by every part of the model. */
module Basics {

  newtype Byte = x: int | 0 <= x < 256

  type Bytes = seq<Byte>

  /** A 32-byte identifier: the hash of a squeak, or of a payment preimage. */
  type Hash = Bytes

  datatype Option<+T> = None | Some(value: T)

  /** The outcome of a call that can raise: what it returns, or the fact that it raised. */
  datatype Outcome<+T> = Returned(value: T) | Raised

  datatype Network = IPV4 | IPV6 | TORV2 | TORV3 | I2P | CJDNS

  datatype PeerAddress = PeerAddress(network: Network, host: string, port: int)

  datatype LightningAddress = LightningAddress(host: string, port: int)

  ghost predicate NoRepeats(hashes: seq<Hash>) {
    forall i, j :: 0 <= i < j < |hashes| ==> hashes[i] != hashes[j]
  }

  lemma SubsetSize<T>(a: set<T>, b: set<T>)
    requires a <= b
    ensures |a| <= |b| && (|a| == |b| <==> a == b)
  {
    assert b == a + (b - a);
    assert |b| == |a| + |b - a|;
  }

  lemma {:induction false} BoundedSetSize(ns: set<nat>, bound: nat)
    requires forall n :: n in ns ==> n < bound
    ensures |ns| <= bound
  {
    if bound > 0 {
      BoundedSetSize(ns - {bound - 1}, bound - 1);
      assert ns - {bound - 1} + (ns * {bound - 1}) == ns;
    } else {
      assert ns == {};
    }
  }
}
