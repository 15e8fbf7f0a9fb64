/** The generated `Index` and `NewIndex` metamethods: an ordered list of
    match arms, each comparing the presented key with one field's key, and a
    final arm that reports an unknown key. */
module Dispatch {

  /** A key presented by a script: a string (compared by its bytes) or an integer. */
  datatype Key = Str(s: string) | Int(n: int)

  /** One match arm: on `key`, access the field at index `field`. */
  datatype Arm = Arm(key: Key, field: nat)

  datatype Outcome = Hit(field: nat) | UnknownKey(key: Key)

  /** The `match key { ...arms..., _ => unknown key }` the expansion emits. */
  function Lookup(arms: seq<Arm>, k: Key): (r: Outcome)
    ensures r.UnknownKey? ==> r.key == k
    ensures r == UnknownKey(k) <==> forall p :: 0 <= p < |arms| ==> arms[p].key != k
    ensures r.Hit? ==> exists p :: 0 <= p < |arms| && arms[p] == Arm(k, r.field)
                                   && forall q :: 0 <= q < p ==> arms[q].key != k
  {
    if |arms| == 0 then UnknownKey(k)
    else if arms[0].key == k then Hit(arms[0].field)
    else
      var r := Lookup(arms[1..], k);
      assert forall p :: 1 <= p < |arms| ==> arms[p] == arms[1..][p - 1];
      r
  }

  /** Arms listed in strictly increasing field order, as they are emitted. */
  predicate Ascending(arms: seq<Arm>) {
    forall p, q :: 0 <= p < q < |arms| ==> arms[p].field < arms[q].field
  }

  /** On arms in field order, a key reaches the field with the smallest
      index among those whose arm carries that key. */
  lemma LookupLeastField(arms: seq<Arm>, k: Key, i: nat)
    requires Ascending(arms)
    ensures Lookup(arms, k) == Hit(i)
        <==> Arm(k, i) in arms && forall a :: a in arms && a.key == k ==> i <= a.field
  {
  }

  /** When the arms are in field order and are exactly the pairs a relation
      `exposed` holds for, a key reaches field `i` exactly when `i` is
      exposed under it and no earlier field is. */
  lemma LookupFirstMatch(arms: seq<Arm>, exposed: (nat, Key) -> bool, k: Key, i: nat)
    requires Ascending(arms)
    requires forall a :: a in arms <==> exposed(a.field, a.key)
    ensures Lookup(arms, k) == Hit(i) <==> exposed(i, k) && forall j: nat :: j < i ==> !exposed(j, k)
  {
    LookupLeastField(arms, k, i);
    assert Arm(k, i) in arms <==> exposed(i, k);
    if forall j: nat :: j < i ==> !exposed(j, k) {
      forall a | a in arms && a.key == k ensures i <= a.field {
        assert exposed(a.field, k);
      }
    }
    if forall a :: a in arms && a.key == k ==> i <= a.field {
      forall j: nat | j < i ensures !exposed(j, k) {
        assert exposed(j, k) ==> Arm(k, j) in arms;
      }
    }
  }
}
