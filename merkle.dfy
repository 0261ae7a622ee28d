/** Authenticated structures of o1js (`MerkleMap`, `MerkleTree`) and their witnesses.

    A root is a binding commitment to the leaves of its structure, so two roots are
    equal exactly when the leaves are. The model takes that as its definition: a root
    IS the leaves it commits to. A witness is the authentication path to one leaf; the
    path depends on every leaf except the one it leads to, so it is represented by the
    leaves it was computed from together with its position. Hashing itself is not
    modelled. */
module Merkle {
  import opened Fields

  /** The leaves of a `MerkleMap`: a key that is absent holds leaf 0, and no zero leaf
      is stored, so equal leaves are equal values. */
  type MapRoot = m: map<Field, Field> | forall k :: k in m ==> m[k] != 0 witness map[]

  /** `new MerkleMap().getRoot()`: every leaf is 0. */
  const EMPTY_MAP_ROOT: MapRoot := map[]

  /** The leaf a map holds at `key`. */
  function Get(m: MapRoot, key: Field): Field {
    if key in m then m[key] else 0
  }

  /** The map with the leaf at `key` replaced by `value`. */
  function Set(m: MapRoot, key: Field, value: Field): (r: MapRoot)
    ensures Get(r, key) == value
    ensures forall k :: k != key ==> Get(r, k) == Get(m, k)
  {
    if value == 0 then m - {key} else m[key := value]
  }

  /** Two maps that hold the same leaf at every key are the same map: the root is binding. */
  lemma {:induction false} MapRootExtensionality(a: MapRoot, b: MapRoot)
    requires forall k :: Get(a, k) == Get(b, k)
    ensures a == b
  {
    forall k | k in a ensures k in b && a[k] == b[k] {
      assert Get(a, k) == Get(b, k);
    }
    forall k | k in b ensures k in a {
      assert Get(a, k) == Get(b, k);
    }
  }

  /** A `MerkleMapWitness`: the path to `key`, given by the leaves it was computed from. */
  datatype MapWitness = MapWitness(key: Field, leaves: MapRoot)

  /** `witness.computeRootAndKey(value)`: the root the path yields with `value` at its
      leaf, and the key the path leads to. */
  function ComputeRootAndKey(w: MapWitness, value: Field): (MapRoot, Field) {
    (Set(w.leaves, w.key, value), w.key)
  }

  /** The check `witness.computeRootAndKey(value)[0] == root`: the witness shows that
      `root` holds `value` at the witness's key. */
  predicate Proves(w: MapWitness, root: MapRoot, value: Field) {
    ComputeRootAndKey(w, value).0 == root
  }

  /** A witness passes the check exactly when the committed map holds `value` at its key
      and the witness agrees with the committed map on every other key. */
  lemma {:induction false} ProvesIff(w: MapWitness, root: MapRoot, value: Field)
    ensures Proves(w, root, value) <==>
      Get(root, w.key) == value && forall k :: k != w.key ==> Get(w.leaves, k) == Get(root, k)
  {
    var computed := ComputeRootAndKey(w, value).0;
    if Get(root, w.key) == value && forall k :: k != w.key ==> Get(w.leaves, k) == Get(root, k) {
      MapRootExtensionality(computed, root);
    }
  }

  /** Once a witness passes the check for one leaf value, the root it computes for another
      value is the committed map with that one leaf replaced: nothing else changes. */
  lemma {:induction false} ProvesThenUpdate(w: MapWitness, root: MapRoot, value: Field, newValue: Field)
    requires Proves(w, root, value)
    ensures ComputeRootAndKey(w, newValue).0 == Set(root, w.key, newValue)
  {
    ProvesIff(w, root, value);
    MapRootExtensionality(ComputeRootAndKey(w, newValue).0, Set(root, w.key, newValue));
  }

  /** The witness a client computes from an up-to-date copy of the map (`map.getWitness(key)`). */
  function WitnessFor(m: MapRoot, key: Field): MapWitness {
    MapWitness(key, m)
  }

  /** An up-to-date witness proves exactly the leaf the map holds. */
  lemma {:induction false} WitnessForProves(m: MapRoot, key: Field, value: Field)
    ensures Proves(WitnessFor(m, key), m, value) <==> Get(m, key) == value
  {
    ProvesIff(WitnessFor(m, key), m, value);
  }

  /** A `MerkleWitness` of a `MerkleTree`: the path to leaf `index`, given by the leaves it
      was computed from. */
  datatype TreeWitness = TreeWitness(index: nat, leaves: seq<Field>)

  /** `witness.calculateRoot(value)`: the leaves with `value` at the witness's index. */
  function CalculateRoot(w: TreeWitness, value: Field): (r: seq<Field>)
    requires w.index < |w.leaves|
    ensures |r| == |w.leaves| && r[w.index] == value
    ensures forall i :: 0 <= i < |r| && i != w.index ==> r[i] == w.leaves[i]
  {
    w.leaves[w.index := value]
  }

  /** `witness.calculateIndex()`: the index of the leaf the path leads to. */
  function CalculateIndex(w: TreeWitness): nat {
    w.index
  }

  /** A tree witness passes the check `calculateRoot(value) == root` exactly when the
      committed tree holds `value` at its index and the witness agrees elsewhere; the
      root it then computes for another value replaces that one leaf. */
  lemma {:induction false} TreeProvesIff(w: TreeWitness, root: seq<Field>, value: Field, newValue: Field)
    requires w.index < |w.leaves|
    ensures CalculateRoot(w, value) == root <==>
      |root| == |w.leaves| && root[w.index] == value &&
      forall i :: 0 <= i < |root| && i != w.index ==> root[i] == w.leaves[i]
    ensures CalculateRoot(w, value) == root ==> CalculateRoot(w, newValue) == root[w.index := newValue]
  {
    var computed := CalculateRoot(w, value);
    if |root| == |w.leaves| && root[w.index] == value &&
       forall i :: 0 <= i < |root| && i != w.index ==> root[i] == w.leaves[i] {
      assert forall i :: 0 <= i < |root| ==> computed[i] == root[i];
    }
    if computed == root {
      var updated := CalculateRoot(w, newValue);
      assert forall i :: 0 <= i < |root| ==> updated[i] == root[w.index := newValue][i];
    }
  }
}
