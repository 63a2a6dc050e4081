/** The stack-frame allocator of `stack_frame.c`: a bump allocator that
    gives each declared variable the frame offset reached so far, over a
    fixed table of 100 items searched linearly by name. */
module FrameLayout {
  import opened Common

  /** One entry of the item table: a variable's name and frame offset. */
  datatype Item = Item(name: seq<char>, offset: nat)

  /** One call of `sframe_add_variable`: a name and its size in bytes. */
  datatype Decl = Decl(name: seq<char>, numBytes: nat)

  /** `MAX_SFRAME_ITEMS`. */
  const MaxItems: nat := 100

  /** The bytes the declarations `decls` take together. */
  function FrameSize(decls: seq<Decl>): nat
  {
    if decls == [] then 0 else FrameSize(decls[..|decls| - 1]) + decls[|decls| - 1].numBytes
  }

  /** The items the allocator records for `decls`, in declaration order:
      each at the total size of the declarations before it. */
  function Layout(decls: seq<Decl>): (items: seq<Item>)
    ensures |items| == |decls|
  {
    if decls == [] then []
    else
      var before := decls[..|decls| - 1];
      Layout(before) + [Item(decls[|decls| - 1].name, FrameSize(before))]
  }

  /** The `i`-th item is named by the `i`-th declaration and sits at the
      size of the declarations before it. */
  lemma {:induction false} LayoutAt(decls: seq<Decl>, i: nat)
    requires i < |decls|
    ensures Layout(decls)[i] == Item(decls[i].name, FrameSize(decls[..i]))
    decreases |decls|
  {
    var before := decls[..|decls| - 1];
    if i < |decls| - 1 {
      LayoutAt(before, i);
      assert before[..i] == decls[..i];
    } else {
      assert before == decls[..i];
    }
  }

  /** Declaring more never shrinks the frame: a later declaration starts at
      or after the end of an earlier one. */
  lemma {:induction false} FrameSizeGrows(decls: seq<Decl>, i: nat, j: nat)
    requires i < j <= |decls|
    ensures FrameSize(decls[..i]) + decls[i].numBytes <= FrameSize(decls[..j])
    decreases j - i
  {
    if j == i + 1 {
      assert decls[..j][..i] == decls[..i];
    } else {
      FrameSizeGrows(decls, i, j - 1);
      assert decls[..j][..j - 1] == decls[..j - 1];
    }
  }

  /** The byte ranges `[offset, offset + numBytes)` of two different items
      do not overlap: an earlier item ends where or before a later one
      starts. */
  lemma ItemsDisjoint(decls: seq<Decl>, i: nat, j: nat)
    requires i < j < |decls|
    ensures Layout(decls)[i].offset + decls[i].numBytes <= Layout(decls)[j].offset
  {
    LayoutAt(decls, i);
    LayoutAt(decls, j);
    FrameSizeGrows(decls, i, j);
  }

  /** The items tile the frame in declaration order: the first starts at 0,
      each next one where the previous ends, and the last ends at the frame
      size. */
  lemma ItemsTile(decls: seq<Decl>)
    ensures |decls| > 0 ==> Layout(decls)[0].offset == 0
    ensures forall i | 0 <= i < |decls| - 1 ::
      Layout(decls)[i + 1].offset == Layout(decls)[i].offset + decls[i].numBytes
    ensures |decls| > 0 ==>
      Layout(decls)[|decls| - 1].offset + decls[|decls| - 1].numBytes == FrameSize(decls)
  {
    if |decls| > 0 {
      LayoutAt(decls, 0);
      LayoutAt(decls, |decls| - 1);
      assert decls[..|decls|] == decls;
    }
    forall i | 0 <= i < |decls| - 1
      ensures Layout(decls)[i + 1].offset == Layout(decls)[i].offset + decls[i].numBytes
    {
      LayoutAt(decls, i);
      LayoutAt(decls, i + 1);
      assert decls[..i + 1][..i] == decls[..i];
    }
  }

  /** The offset `sframe_get_variable_offset` finds: that of the earliest
      item with the name, or `None` (a fatal error) when there is none. */
  function FirstOffset(items: seq<Item>, name: seq<char>): (r: Option<nat>)
    ensures r.None? <==> forall i | 0 <= i < |items| :: items[i].name != name
    ensures r.Some? ==> exists i | 0 <= i < |items| ::
      items[i].name == name && r.value == items[i].offset
      && forall j | 0 <= j < i :: items[j].name != name
  {
    if items == [] then None
    else if items[0].name == name then Some(items[0].offset)
    else
      var r := FirstOffset(items[1..], name);
      assert forall i | 1 <= i < |items| :: items[i] == items[1..][i - 1];
      r
  }

  /** A repeated declaration is accepted but unreachable: once a name is
      declared, declaring it again (or anything else) does not change the
      offset found for it. */
  lemma {:induction false} FirstOffsetKept(items: seq<Item>, more: Item, name: seq<char>)
    requires FirstOffset(items, name).Some?
    ensures FirstOffset(items + [more], name) == FirstOffset(items, name)
  {
    if items[0].name != name {
      assert (items + [more])[1..] == items[1..] + [more];
      FirstOffsetKept(items[1..], more, name);
    }
  }

  /** Appending a declaration extends the layout by one item. */
  lemma LayoutAppend(decls: seq<Decl>, d: Decl)
    ensures Layout(decls + [d]) == Layout(decls) + [Item(d.name, FrameSize(decls))]
    ensures FrameSize(decls + [d]) == FrameSize(decls) + d.numBytes
  {
    assert (decls + [d])[..|decls|] == decls;
  }
}

/** The allocator object (`g_sframe`). */
module StackFrame {
  import opened Common
  import opened FrameLayout

  class Frame {
    var items: array<Item>
    var numItems: nat
    var currentOffset: nat
    /** The declarations since the last `sframe_init`. */
    ghost var decls: seq<Decl>

    /** The first `numItems` items are the layout of the declarations, and
        the offset reached is their total size. */
    ghost predicate Valid()
      reads this, items
    {
      && items.Length == MaxItems
      && numItems == |decls| <= MaxItems
      && items[..numItems] == Layout(decls)
      && currentOffset == FrameSize(decls)
    }

    /** The zero-initialised static `g_sframe`. */
    constructor ()
      ensures Valid() && decls == [] && fresh(items)
    {
      items := new Item[MaxItems](_ => Item([], 0));
      numItems := 0;
      currentOffset := 0;
      decls := [];
    }

    /** `sframe_init`: forget every declaration; the item table itself is
        left as it is. */
    method Init()
      requires items.Length == MaxItems
      modifies this
      ensures Valid() && decls == [] && items == old(items)
      ensures numItems == 0 && currentOffset == 0
    {
      numItems := 0;
      currentOffset := 0;
      decls := [];
    }

    /** `sframe_add_variable`: a fatal error (`false`, nothing changed) when
        the table is full; otherwise record the name at the current offset
        and advance the offset by the size. A name already declared is
        accepted again. */
    method AddVariable(name: seq<char>, numBytes: nat) returns (ok: bool)
      requires Valid()
      modifies this, items
      ensures Valid() && items == old(items)
      ensures ok <==> old(numItems) < MaxItems
      ensures ok ==> decls == old(decls) + [Decl(name, numBytes)]
      ensures ok ==> numItems == old(numItems) + 1
      ensures ok ==> currentOffset == old(currentOffset) + numBytes
      ensures ok ==> items[old(numItems)] == Item(name, old(currentOffset))
      ensures !ok ==> decls == old(decls) && items[..] == old(items[..])
    {
      if numItems >= MaxItems {
        return false;
      }
      LayoutAppend(decls, Decl(name, numBytes));
      items[numItems] := Item(name, currentOffset);
      decls := decls + [Decl(name, numBytes)];
      numItems := numItems + 1;
      currentOffset := currentOffset + numBytes;
      return true;
    }

    /** `sframe_get_variable_offset`: scan from the first item and return
        the offset of the first with the name; `None` (a fatal error) when
        no item has it. */
    method GetVariableOffset(name: seq<char>) returns (r: Option<nat>)
      requires Valid()
      ensures r == FirstOffset(Layout(decls), name)
    {
      ghost var es := items[..numItems];
      for i := 0 to numItems
        invariant forall j | 0 <= j < i :: es[j].name != name
      {
        if items[i].name == name {
          assert es == es[..i] + es[i..];
          FirstSkip(es, i, name);
          return Some(items[i].offset);
        }
      }
      return None;
    }

    /** `sframe_get_size`: the bytes taken by every declaration. */
    function Size(): (r: nat)
      requires Valid()
      reads this, items
      ensures r == FrameSize(decls)
      ensures forall i | 0 <= i < numItems :: items[i].offset <= r
    {
      ItemsBelowSize(decls);
      currentOffset
    }
  }

  /** Items that do not carry the name can be skipped in the search. */
  lemma {:induction false} FirstSkip(es: seq<Item>, i: nat, name: seq<char>)
    requires i < |es| && es[i].name == name
    requires forall j | 0 <= j < i :: es[j].name != name
    ensures FirstOffset(es, name) == Some(es[i].offset)
  {
    if i > 0 {
      FirstSkip(es[1..], i - 1, name);
    }
  }

  /** Every item starts within the frame. */
  lemma ItemsBelowSize(decls: seq<Decl>)
    ensures forall i | 0 <= i < |decls| :: Layout(decls)[i].offset <= FrameSize(decls)
  {
    forall i | 0 <= i < |decls|
      ensures Layout(decls)[i].offset <= FrameSize(decls)
    {
      LayoutAt(decls, i);
      FrameSizeGrows(decls, i, |decls|);
      assert decls[..|decls|] == decls;
    }
  }
}
