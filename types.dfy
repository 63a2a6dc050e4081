/** The built-in type registry of `types.c`: a hash table from type names
    to their sizes. */
module Types {
  import opened Common
  import opened HashProbing
  import opened HashTab

  /** `type_info_t`: a type's size in bytes. */
  datatype TypeInfo = TypeInfo(numBytes: nat)

  /** The global `g_types`. */
  class Registry {
    /** `null` stands for the zeroed table before `types_init`. */
    var table: HashTable?<TypeInfo>

    ghost predicate Valid()
      reads this, table, if table != null then {table.entries} else {}
    {
      table != null && table.Valid()
    }

    /** The zero-initialised global. */
    constructor ()
      ensures table == null
    {
      table := null;
    }

    /** `types_init`: a fresh table (whatever was registered before is
        dropped) holding exactly `u8` of 1 byte and `u64` of 8 bytes. */
    method Init()
      modifies this
      ensures Valid() && fresh(table) && fresh(table.entries)
      ensures table.contents == map["u8" := TypeInfo(1), "u64" := TypeInfo(8)]
      ensures table.count == 2 && table.capacity == InitialCapacity
    {
      var t := new HashTable<TypeInfo>.Create();
      ResizeDueExact(0, 16);
      t.Put("u8", TypeInfo(1));
      assert t.contents == map["u8" := TypeInfo(1)] && t.count == 1 && t.capacity == 16;
      ResizeDueExact(1, 16);
      assert "u64" !in t.contents;
      t.Put("u64", TypeInfo(8));
      table := t;
    }
  }
}
