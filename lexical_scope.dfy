/** The variable scope of `lexical_scope.c`: a hash table from identifiers
    to their types. */
module LexicalScope {
  import opened Common
  import opened HashProbing
  import opened HashTab
  import opened Types

  /** The global `g_lscope`. */
  class Scope {
    /** `null` stands for the zeroed table before `lscope_init`. */
    var table: HashTable?<TypeInfo>

    ghost predicate Valid()
      reads this, table, if table != null then {table.entries} else {}
    {
      table != null && table.Valid()
    }

    /** The zero-initialised global. */
    constructor ()
      ensures table == null
    {
      table := null;
    }

    /** `lscope_init`: a fresh, empty table; earlier bindings are gone. */
    method Init()
      modifies this
      ensures Valid() && fresh(table) && fresh(table.entries)
      ensures table.contents == map[]
    {
      table := new HashTable<TypeInfo>.Create();
    }

    /** `lscope_add`: bind `id` to `t`, silently replacing an earlier
        binding of the same name; every other binding is kept. The empty
        identifier is never found again. */
    method Add(id: seq<char>, t: TypeInfo)
      requires Valid()
      requires !ResizeDue(table.count, table.capacity) || table.capacity <= 0x4000_0000
      modifies table, table.entries
      ensures Valid() && table == old(table)
      ensures id != [] ==> table.contents == old(table.contents)[id := t]
      ensures id == [] ==> table.contents == old(table.contents)
    {
      table.Put(id, t);
    }

    /** `lscope_get`: the type bound to `id`, or `None` (NULL). */
    method Get(id: seq<char>) returns (r: Option<TypeInfo>)
      requires Valid()
      ensures r == if id in table.contents then Some(table.contents[id]) else None
    {
      r := table.Get(id);
    }
  }
}
