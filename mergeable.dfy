/**
 * The Mergeable wrapper kinds, whose `merge` flag is a settable property
 * (InertiaCore/Props/DeferProp.cs, InertiaCore/Props/MergeProp.cs, InertiaCore/Utils/Mergeable.cs).
 * The wrapped value and the group are readonly; `Snapshot()` is the PropValue the prop pipeline sees.
 */
module Mergeable {
  import opened Props

  class DeferProp {
    const value: Value
    const group: string
    var merge: bool

    /** All three constructors: wrap the value or delegate and remember the group; `merge` starts false. */
    constructor (value: Value, group: string)
      ensures this.value == value && Group() == group && !ShouldMerge()
      ensures Snapshot().SuppressOnFirstLoad() && Snapshot().IsInvokable()
    {
      this.value := value;
      this.group := group;
      merge := false;
    }

    function Group(): string {
      group
    }

    /** Mergeable.ShouldMerge: the current flag. */
    function ShouldMerge(): bool
      reads this
    {
      merge
    }

    function Snapshot(): (p: PropValue)
      reads this
      ensures p.kind == Defer(Group()) && p.inner == value && p.merge == ShouldMerge()
    {
      PropValue(Defer(group), value, merge)
    }

    /** Sets `merge` and returns the same object; nothing else changes, so a second call changes nothing. */
    method Merge() returns (self: DeferProp)
      modifies this
      ensures self == this && ShouldMerge()
      ensures Snapshot() == old(Snapshot()).(merge := true)
    {
      merge := true;
      self := this;
    }
  }

  class MergeProp {
    const value: Value
    var merge: bool

    /** All three constructors set `merge` to true. */
    constructor (value: Value)
      ensures this.value == value && ShouldMerge()
      ensures !Snapshot().SuppressOnFirstLoad() && Snapshot().IsInvokable()
    {
      this.value := value;
      merge := true;
    }

    /** Mergeable.ShouldMerge: the current flag. */
    function ShouldMerge(): bool
      reads this
    {
      merge
    }

    function Snapshot(): (p: PropValue)
      reads this
      ensures p.kind.Merge? && p.inner == value && p.merge == ShouldMerge()
    {
      PropValue(PropKind.Merge, value, merge)
    }

    /** The interface's default Merge(): sets `merge` and returns the same object. */
    method Merge() returns (self: MergeProp)
      modifies this
      ensures self == this && ShouldMerge()
      ensures Snapshot() == old(Snapshot()).(merge := true)
    {
      merge := true;
      self := this;
    }
  }

  /** Calling Merge() twice leaves the prop as one call does. */
  method MergeTwice(d: DeferProp)
    modifies d
    ensures d.Snapshot() == old(d.Snapshot()).(merge := true)
  {
    var once := d.Merge();
    ghost var afterOnce := d.Snapshot();
    var twice := d.Merge();
    assert once == twice;
    assert d.Snapshot() == afterOnce;
  }
}
