/** The caller-owned storage a lookup captures parameters into.

    The slice of the source is its backing array `slots` and its length `count`; the
    array's length is the slice's capacity.  A pooled Ctx keeps this object between
    requests, so every slot past the length must be zero whatever happened before. */
module CaptureStore {
  import opened Options
  import opened Routes

  class Params {
    var slots: array<Capture>
    var count: nat
    /** The greatest length this storage ever had. */
    ghost var peak: nat

    ghost predicate Valid()
      reads this, slots
    {
      && count <= slots.Length
      && count <= peak
      && forall i :: count <= i < slots.Length ==> slots[i] == NO_CAPTURE
    }

    function Contents(): (cs: seq<Capture>)
      requires count <= slots.Length
      reads this, slots
      ensures |cs| == count
    {
      slots[..count]
    }

    constructor (capacity: nat)
      ensures Valid() && fresh(slots) && slots.Length == capacity
      ensures Contents() == [] && peak == 0
    {
      slots := new Capture[capacity](_ => NO_CAPTURE);
      count := 0;
      peak := 0;
    }

    /** Append one capture, growing the storage only when it is full. */
    method Add(key: string, value: string)
      requires Valid()
      modifies this, slots
      ensures Valid()
      ensures Contents() == old(Contents()) + [Capture(key, value)]
      ensures old(count) < old(slots.Length) ==> slots == old(slots)
      ensures old(count) == old(slots.Length) ==> fresh(slots)
      ensures peak == if old(peak) < count then count else old(peak)
    {
      if count == slots.Length {
        var wider := new Capture[2 * slots.Length + 1](_ => NO_CAPTURE);
        forall i | 0 <= i < count {
          wider[i] := slots[i];
        }
        slots := wider;
      }
      slots[count] := Capture(key, value);
      count := count + 1;
      if peak < count {
        peak := count;
      }
    }

    /** Roll capture back to n entries, zeroing what is discarded. */
    method Truncate(n: nat)
      requires Valid() && n <= count
      modifies this`count, slots
      ensures Valid()
      ensures Contents() == old(Contents()[..n])
    {
      var i := n;
      while i < count
        invariant n <= i <= count == old(count)
        invariant forall j :: n <= j < i ==> slots[j] == NO_CAPTURE
        invariant forall j :: 0 <= j < n || i <= j < slots.Length ==> slots[j] == old(slots[j])
      {
        slots[i] := NO_CAPTURE;
        i := i + 1;
      }
      count := n;
    }

    method Reset()
      requires Valid()
      modifies this`count, slots
      ensures Valid() && Contents() == []
      ensures forall i :: 0 <= i < slots.Length ==> slots[i] == NO_CAPTURE
    {
      Truncate(0);
    }

    /** Replace the first capture of this name, or append one. */
    method Set(key: string, value: string)
      requires Valid()
      modifies this, slots
      ensures Valid()
      ensures Contents() == Put(old(Contents()), key, value)
    {
      var i := 0;
      while i < count
        invariant 0 <= i <= count
        invariant forall j :: 0 <= j < i ==> slots[j].key != key
      {
        if slots[i].key == key {
          PutAt(Contents(), key, value, i);
          slots[i] := Capture(key, value);
          return;
        }
        i := i + 1;
      }
      PutAt(Contents(), key, value, count);
      Add(key, value);
    }

    /** The value of the first capture of this name. */
    method Get(key: string) returns (value: Option<string>)
      requires Valid()
      ensures value == Find(Contents(), key)
    {
      var i := 0;
      while i < count
        invariant 0 <= i <= count
        invariant Find(Contents(), key) == Find(Contents()[i..], key)
      {
        assert Contents()[i..][1..] == Contents()[i + 1..];
        if slots[i].key == key {
          return Some(slots[i].value);
        }
        i := i + 1;
      }
      return None;
    }
  }

  function Find(cs: seq<Capture>, key: string): Option<string> {
    if cs == [] then None
    else if cs[0].key == key then Some(cs[0].value)
    else Find(cs[1..], key)
  }

  function Put(cs: seq<Capture>, key: string, value: string): seq<Capture> {
    if cs == [] then [Capture(key, value)]
    else if cs[0].key == key then [Capture(key, value)] + cs[1..]
    else [cs[0]] + Put(cs[1..], key, value)
  }

  lemma {:induction false} PutAt(cs: seq<Capture>, key: string, value: string, i: nat)
    requires i <= |cs|
    requires forall j :: 0 <= j < i ==> cs[j].key != key
    requires i < |cs| ==> cs[i].key == key
    ensures Put(cs, key, value) == if i < |cs| then cs[i := Capture(key, value)] else cs + [Capture(key, value)]
  {
    if i > 0 {
      PutAt(cs[1..], key, value, i - 1);
    }
  }

  /** Setting a name makes Get return it and leaves every other name alone. */
  lemma {:induction false} SetThenGet(cs: seq<Capture>, key: string, value: string, other: string)
    ensures Find(Put(cs, key, value), other) == if other == key then Some(value) else Find(cs, other)
  {
    if cs != [] {
      var rest := Put(cs[1..], key, value);
      SetThenGet(cs[1..], key, value, other);
      assert ([cs[0]] + rest)[1..] == rest;
      assert ([Capture(key, value)] + cs[1..])[1..] == cs[1..];
    }
  }
}
