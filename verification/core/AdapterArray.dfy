/** The fixed array of adapters in LocApiBase. */
module AdapterArray {

  /** mEvtMask is the set of the bits of the mask. */
  class LocAdapterBase {
    var mEvtMask: set<nat>

    constructor (mask: set<nat>)
      ensures mEvtMask == mask
    {
      mEvtMask := mask;
    }
  }

  datatype Call = LocOpenMsg | Close

  /** The adapters stand at the front of the array, each once. */
  ghost predicate Packed(s: seq<LocAdapterBase?>) {
    && (forall i, j :: 0 <= i < j < |s| && s[j] != null ==> s[i] != null)
    && (forall i, j :: 0 <= i < j < |s| && s[j] != null ==> s[i] != s[j])
  }

  ghost function Members(s: seq<LocAdapterBase?>): set<LocAdapterBase> { set a: LocAdapterBase | a in s }

  /** The last adapter is moved into gap. */
  function MoveLast(s: seq<LocAdapterBase?>, gap: nat, last: nat): seq<LocAdapterBase?>
    requires gap <= last < |s|
  {
    s[gap := s[last]][last := null]
  }

  ghost predicate IsLast(s: seq<LocAdapterBase?>, last: nat) {
    last < |s| && s[last] != null && (last + 1 == |s| || s[last + 1] == null)
  }

  ghost predicate Removed(s: seq<LocAdapterBase?>, s': seq<LocAdapterBase?>, adapter: LocAdapterBase) {
    Packed(s') && Members(s') == Members(s) - {adapter}
  }

  lemma AddKeepsPacked(s: seq<LocAdapterBase?>, i: nat, adapter: LocAdapterBase)
    requires Packed(s) && adapter !in s && i < |s| && s[i] == null
    requires forall k :: 0 <= k < i ==> s[k] != null
    ensures Packed(s[i := adapter]) && Members(s[i := adapter]) == Members(s) + {adapter}
  {
    var s' := s[i := adapter];
    assert s'[i] == adapter;
    forall a | a in Members(s) ensures a in s' {
      var k :| 0 <= k < |s| && s[k] == a;
      assert s'[k] == a;
    }
  }

  /** Moving the last adapter into the gap loses the one that stood there, and no other. */
  lemma MoveLastKeepsOthers(s: seq<LocAdapterBase?>, gap: nat, last: nat)
    requires Packed(s) && gap <= last && IsLast(s, last)
    ensures Packed(MoveLast(s, gap, last))
    ensures s[gap] != null && Members(MoveLast(s, gap, last)) == Members(s) - {s[gap]}
    ensures Members(MoveLast(s, gap, last)) == {} <==> last == 0
  {
    var s' := MoveLast(s, gap, last);
    forall a | a in Members(s) && a != s[gap] ensures a in s' {
      var k :| 0 <= k < |s| && s[k] == a;
      assert k <= last;
      assert s'[if k == last then gap else k] == a;
    }
    if last > 0 { assert s'[0] in Members(s'); }
  }

  class LocApiBase {
    const mLocAdapters: array<LocAdapterBase?>    // of MAX_ADAPTERS
    const mExcludedMask: set<nat>
    var calls: seq<Call>

    ghost predicate Valid()
      reads this, mLocAdapters
    {
      Packed(mLocAdapters[..])
    }

    constructor (capacity: nat, excludedMask: set<nat>)
      ensures Valid() && fresh(mLocAdapters) && mLocAdapters.Length == capacity
      ensures Members(mLocAdapters[..]) == {} && mExcludedMask == excludedMask && calls == []
    {
      mLocAdapters := new LocAdapterBase?[capacity](_ => null);
      mExcludedMask := excludedMask;
      calls := [];
    }

    method AddAdapter(adapter: LocAdapterBase?)
      requires Valid()
      modifies mLocAdapters, `calls
      ensures Valid()
      ensures var added := adapter != null && adapter !in old(mLocAdapters[..]) && null in old(mLocAdapters[..]);
        && Members(mLocAdapters[..]) == Members(old(mLocAdapters[..])) + (if added then {adapter} else {})
        && calls == old(calls) + (if added then [LocOpenMsg] else [])
      ensures forall k :: 0 <= k < mLocAdapters.Length && old(mLocAdapters[k]) != null ==>
        mLocAdapters[k] == old(mLocAdapters[k])
    {
      ghost var s := mLocAdapters[..];
      var i := 0;
      while i < mLocAdapters.Length && mLocAdapters[i] != adapter
        invariant 0 <= i <= mLocAdapters.Length && mLocAdapters[..] == s && calls == old(calls)
        invariant forall k :: 0 <= k < i ==> s[k] != null && s[k] != adapter
      {
        if mLocAdapters[i] == null {
          AddKeepsPacked(s, i, adapter);
          mLocAdapters[i] := adapter;
          assert mLocAdapters[..] == s[i := adapter];
          calls := calls + [LocOpenMsg];
          return;
        }
        i := i + 1;
      }
    }

    method RemoveAdapter(adapter: LocAdapterBase?)
      requires Valid()
      modifies mLocAdapters, `calls
      ensures Valid()
      ensures Members(mLocAdapters[..]) == Members(old(mLocAdapters[..])) - {adapter}
      ensures calls == old(calls) +
        if adapter == null || adapter !in old(mLocAdapters[..]) then []
        else if Members(mLocAdapters[..]) == {} then [Close]
        else [LocOpenMsg]
    {
      ghost var s := mLocAdapters[..];
      ghost var removed := false;
      var i := 0;
      while i < mLocAdapters.Length && mLocAdapters[i] != null
        invariant 0 <= i <= mLocAdapters.Length && mLocAdapters.Length == |s|
        invariant !removed ==> mLocAdapters[..] == s && calls == old(calls)
        invariant !removed ==> forall k :: 0 <= k < i ==> s[k] != null && s[k] != adapter
        invariant removed ==> i == |s| || mLocAdapters[i] == null
        invariant removed ==> adapter != null && adapter in s && Removed(s, mLocAdapters[..], adapter)
        invariant removed ==> calls == old(calls) + if Members(mLocAdapters[..]) == {} then [Close] else [LocOpenMsg]
      {
        if mLocAdapters[i] == adapter {
          mLocAdapters[i] := null;
          var j := i;
          i := i + 1;
          while i < mLocAdapters.Length && mLocAdapters[i] != null
            invariant j < i <= |s| && s[i - 1] != null && mLocAdapters[..] == s[j := null]
          {
            i := i + 1;
          }
          i := i - 1;
          mLocAdapters[j] := mLocAdapters[i];
          mLocAdapters[i] := null;
          assert mLocAdapters[..] == MoveLast(s, j, i);
          MoveLastKeepsOthers(s, j, i);
          removed := true;
          if i == 0 {
            calls := calls + [Close];
          } else {
            calls := calls + [LocOpenMsg];
          }
        }
        i := i + 1;
      }
    }

    /** The events that some adapter wants and that are not excluded. */
    method GetEvtMask() returns (mask: set<nat>)
      requires Valid()
      ensures forall e :: e in mask <==>
        e !in mExcludedMask && exists a :: a in Members(mLocAdapters[..]) && e in a.mEvtMask
    {
      mask := {};
      var i := 0;
      while i < mLocAdapters.Length && mLocAdapters[i] != null
        invariant 0 <= i <= mLocAdapters.Length
        invariant forall k :: 0 <= k < i ==> mLocAdapters[k] != null
        invariant forall e :: e in mask <==> exists a :: a in Members(mLocAdapters[..i]) && e in a.mEvtMask
      {
        mask := mask + mLocAdapters[i].mEvtMask;
        i := i + 1;
      }
      mask := mask - mExcludedMask;
    }
  }
}
