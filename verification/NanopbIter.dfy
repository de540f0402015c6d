/**
 nanopb's field iterator.
*/
module NanopbIter {
  import opened NanopbMessage

  /** pb_field_iter_t: goes round the descriptor, counting the required fields before the one it is at. */
  class FieldIter {
    const fields: seq<Field>
    var pos: nat
    var requiredFieldIndex: nat

    ghost predicate Valid()
      reads this
    {
      && pos <= |fields| && (fields != [] ==> pos < |fields|)
      && requiredFieldIndex == RequiredBefore(fields, pos)
    }

    /** pb_field_iter_begin; it is at the terminator only if there are no fields. */
    constructor (fields: seq<Field>)
      ensures Valid() && this.fields == fields && pos == 0
    {
      this.fields := fields;
      pos, requiredFieldIndex := 0, 0;
    }

    /** pb_field_iter_next: false when it has wrapped to the beginning. */
    method Next() returns (more: bool)
      requires Valid()
      modifies this
      ensures Valid()
      ensures more <==> old(pos) + 1 < |fields|
      ensures pos == if more then old(pos) + 1 else 0
    {
      if fields == [] {
        return false;
      }
      var prev := fields[pos];
      pos := pos + 1;
      if pos == |fields| {
        pos, requiredFieldIndex := 0, 0;
        return false;
      }
      if prev.rule.Required? {
        requiredFieldIndex := requiredFieldIndex + 1;
      }
      return true;
    }

    /** The tag the descriptor has where the iterator is; the terminator has tag 0. */
    function TagHere(): nat
      requires pos <= |fields|
      reads this
    {
      if pos == |fields| then 0 else fields[pos].tag
    }

    /** pb_field_iter_find: from where it is, all the way round. */
    method FindTag(tag: nat) returns (found: bool)
      requires Valid()
      modifies this
      ensures Valid()
      ensures found ==> TagHere() == tag
      ensures !found ==> pos == old(pos) && forall i :: 0 <= i < |fields| ==> fields[i].tag != tag
      ensures fields == [] ==> (found <==> tag == 0)
    {
      var start := pos;
      ghost var wrapped := false;
      while true
        invariant Valid()
        invariant !wrapped ==> start <= pos && forall i :: start <= i < pos ==> fields[i].tag != tag
        invariant wrapped ==> pos < start && forall i :: (0 <= i < pos || start <= i < |fields|) ==>
                    fields[i].tag != tag
        decreases if wrapped then start - pos else |fields| - pos + start + 1
      {
        if TagHere() == tag {
          return true;
        }
        var more := Next();
        if !more {
          wrapped := true;
        }
        if pos == start {
          return false;
        }
      }
    }
  }
}
