/** Resources (Project2/resource.c): a named, capacity-bounded counter, the
    binding of a resource to a per-cycle quantity, and the growable array of
    resource pointers that the manager owns. */
module Resources {

  /** A stock such as fuel or oxygen. The systems change `amount` in place. */
  class Resource {
    var name: string
    var amount: int
    var maxCapacity: int

    /** The resource invariant: the amount lies within [0, maxCapacity]. */
    predicate Valid()
      reads this
    {
      0 <= amount <= maxCapacity
    }

    /** resource_create: stores the arguments as given. It does not check them,
        so the invariant holds exactly when the caller passes an amount within
        [0, maxCapacity]. */
    constructor (name: string, amount: int, maxCapacity: int)
      ensures this.name == name && this.amount == amount && this.maxCapacity == maxCapacity
      ensures Valid() <==> 0 <= amount <= maxCapacity
    {
      this.name := name;
      this.amount := amount;
      this.maxCapacity := maxCapacity;
    }
  }

  /** resource_amount_init: "how much of which resource" a system consumes or
      produces per cycle. The resource is borrowed and may be absent (NULL). */
  datatype ResourceAmount = ResourceAmount(resource: Resource?, amount: int)

  /** The size to which a full pointer buffer grows: double, or 1 from 0. */
  function GrownCapacity(capacity: nat): (c: nat)
    ensures c > capacity
    ensures capacity == 0 ==> c == 1
    ensures capacity > 0 ==> c == 2 * capacity
  {
    if capacity == 0 then 1 else capacity * 2
  }

  /** The manager's growable array of resource pointers. `resources` is NULL
      when the initial allocation failed (capacity 0) or after Clean
      (capacity 1). */
  class ResourceArray {
    var resources: array?<Resource?>
    var size: nat
    var capacity: nat

    ghost predicate Valid()
      reads this
    {
      && size <= capacity
      && (resources == null ==> size == 0)
      && (resources != null ==> resources.Length == capacity)
    }

    /** The pointers stored so far, in insertion order. */
    ghost function Elements(): seq<Resource?>
      reads this, resources
      requires Valid()
    {
      if resources == null then [] else resources[..size]
    }

    /** resource_array_init: empty, capacity 1; when the allocation fails
        (`allocOk` is false) the buffer stays NULL and the capacity is 0. */
    constructor (allocOk: bool)
      ensures Valid() && Elements() == [] && size == 0
      ensures capacity == (if allocOk then 1 else 0)
      ensures allocOk ==> resources != null && fresh(resources)
      ensures !allocOk ==> resources == null
    {
      size := 0;
      capacity := 1;
      if allocOk {
        resources := new Resource?[1];
      } else {
        resources := null;
        capacity := 0;
      }
    }

    /** resource_array_add: a NULL resource changes nothing; otherwise, when the
        buffer is full, it is copied into a fresh buffer of GrownCapacity (a
        failed allocation changes nothing), and the resource is appended at
        index `size`. The buffer must exist unless the capacity is 0: after
        Clean the pointer is NULL with capacity 1, and the source would write
        through it. */
    method Add(resource: Resource?, allocOk: bool)
      requires Valid()
      requires resources != null || capacity == 0
      modifies this, resources
      ensures Valid()
      ensures resource == null || (old(size) >= old(capacity) && !allocOk) ==>
        size == old(size) && capacity == old(capacity) && Elements() == old(Elements())
      ensures resource != null && (old(size) < old(capacity) || allocOk) ==>
        && Elements() == old(Elements()) + [resource]
        && size == old(size) + 1
        && capacity == (if old(size) >= old(capacity) then GrownCapacity(old(capacity)) else old(capacity))
      ensures old(size) >= old(capacity) && resources != old(resources) ==> fresh(resources)
    {
      if resource == null {
        return;
      }
      if size >= capacity {
        var newCapacity := GrownCapacity(capacity);
        if !allocOk {
          return;
        }
        var grown := new Resource?[newCapacity];
        for i := 0 to size
          invariant forall j :: 0 <= j < i ==> grown[j] == resources[j]
          modifies grown
        {
          grown[i] := resources[i];
        }
        resources := grown;
        capacity := newCapacity;
      }
      resources[size] := resource;
      size := size + 1;
    }

    /** resource_array_clean: with a buffer, leaves it NULL with size 0 and
        capacity 1; with none, changes nothing. */
    method Clean()
      requires Valid()
      modifies this
      ensures Valid() && Elements() == []
      ensures old(resources) == null ==> unchanged(this)
      ensures old(resources) != null ==> resources == null && size == 0 && capacity == 1
    {
      if resources == null {
        return;
      }
      resources := null;
      size := 0;
      capacity := 1;
    }
  }
}
