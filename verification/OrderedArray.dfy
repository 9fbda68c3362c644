/** The ordered pointer array of src/utils/ordered_array.c, shifted in place. */
module OrderedArray {

  /** Items ordered by a key that is read through the item, as compare does. */
  class OrderedArray {
    const slots: array<nat>
    var size: nat

    ghost predicate Valid()
      reads this
    {
      size <= slots.Length
    }

    ghost function Items(): seq<nat>
      reads this, slots
      requires Valid()
    {
      slots[..size]
    }

    constructor (max: nat)
      ensures Valid() && Items() == [] && slots.Length == max && fresh(slots)
    {
      slots := new nat[max];
      size := 0;
    }

    /** Make room at position i: items i.. move up by one. */
    method ShiftUp(i: nat)
      requires Valid() && i <= size < slots.Length
      modifies slots
      ensures forall k :: 0 <= k < i ==> slots[k] == old(slots[k])
      ensures forall k :: i < k <= size ==> slots[k] == old(slots[k - 1])
    {
      var j := size;
      while j > i
        invariant i <= j <= size
        invariant forall k :: 0 <= k <= j && k < size ==> slots[k] == old(slots[k])
        invariant forall k :: j < k <= size ==> slots[k] == old(slots[k - 1])
      {
        slots[j] := slots[j - 1];
        j := j - 1;
      }
    }

    /** The scan of ordered_array_insert: past every item whose key is at most that of `item`. */
    method Position(item: nat, key: nat ~> nat, ghost keys: seq<nat>) returns (i: nat)
      requires Valid() && |keys| == size && key.requires(item)
      requires forall i :: 0 <= i < size ==> key.requires(slots[i]) && key(slots[i]) == keys[i]
      ensures i <= size && (forall k :: 0 <= k < i ==> keys[k] <= key(item)) && (i < size ==> keys[i] > key(item))
    {
      i := 0;
      while i < size && key(slots[i]) <= key(item)
        invariant i <= size
        invariant forall k :: 0 <= k < i ==> keys[k] <= key(item)
      {
        i := i + 1;
      }
    }

    /** `key` may read memory, but not this array; `keys` are its values for the items. */
    method Insert(item: nat, key: nat ~> nat, ghost keys: seq<nat>) returns (ok: bool, ghost p: nat)
      requires Valid() && |keys| == size && key.requires(item)
      requires forall i :: 0 <= i < size ==> key.requires(slots[i]) && key(slots[i]) == keys[i]
      modifies this`size, slots
      ensures Valid() && ok == (old(size) < slots.Length)
      ensures !ok ==> Items() == old(Items())
      ensures ok ==> p <= old(size) && Items() == old(Items())[..p] + [item] + old(Items())[p..]
      ensures ok ==> forall k :: 0 <= k < p ==> keys[k] <= old(key(item))
      ensures ok && p < old(size) ==> keys[p] > old(key(item))
    {
      if size >= slots.Length {
        return false, 0;
      }
      ghost var was := Items();
      var i := Position(item, key, keys);
      ShiftUp(i);
      slots[i] := item;
      size := size + 1;
      assert Items() == was[..i] + [item] + was[i..];
      ok, p := true, i;
    }

    method Get(i: nat) returns (item: nat)
      requires Valid() && i < size
      ensures item == Items()[i]
    {
      item := slots[i];
    }

    method Remove(i: nat)
      requires Valid()
      modifies this`size, slots
      ensures Valid()
      ensures Items() == if i < old(size) then old(Items())[..i] + old(Items())[i + 1..] else old(Items())
    {
      if i >= size {
        return;
      }
      ghost var was := Items();
      var k := i;
      while k < size - 1
        modifies slots
        invariant i <= k <= size - 1
        invariant forall j :: 0 <= j < i ==> slots[j] == was[j]
        invariant forall j :: i <= j < k ==> slots[j] == was[j + 1]
        invariant forall j :: k <= j < size ==> slots[j] == was[j]
      {
        slots[k] := slots[k + 1];
        k := k + 1;
      }
      size := size - 1;
    }

    /** Removes the first occurrence; the order of the items plays no part. */
    method RemoveElement(item: nat) returns (found: bool, ghost p: nat)
      requires Valid()
      modifies this`size, slots
      ensures Valid() && found == (item in old(Items()))
      ensures found ==> p < old(size) && old(Items())[p] == item && item !in old(Items())[..p]
      ensures Items() == if found then old(Items())[..p] + old(Items())[p + 1..] else old(Items())
    {
      var i := 0;
      while i < size && slots[i] != item
        invariant i <= size
        invariant forall k :: 0 <= k < i ==> slots[k] != item
      {
        i := i + 1;
      }
      found, p := i < size, i;
      if found {
        assert old(Items())[i] == item;
        Remove(i);
      }
    }
  }
}
