/**
 * The domain table and the write handler of the control file (das.c).
 *
 * The table `ds` has one slot per domain id. A slot is empty (NULL) or holds
 * a record with a member buffer and a count `size` of the members in use.
 * Writes to the control file register a domain with members ('R') or delete
 * it ('D').
 */
module Das {
  import opened Wrappers
  import opened Command

  /** Size of the kernel-side copy of a write (das.h:2). */
  const PROC_BUF_SIZE: nat := 128
  const DOMAIN_HASH_SIZE: nat := 6
  /** `2 << DOMAIN_HASH_SIZE` (das.h:5). */
  const DOMAIN_MAX_CNT: nat := ((2 as bv32) << DOMAIN_HASH_SIZE) as nat
  /** Linux's "invalid argument" error number. */
  const EINVAL: int := 22

  /**
   * A domain record as das.c uses it: `members` is the record's whole member
   * buffer and `size` counts the entries in use.
   */
  datatype Domain = Domain(size: nat, members: seq<int>)
  {
    predicate Valid() {
      size <= |members|
    }

    /** The members registered so far, in the order they were added. */
    function Members(): seq<int>
      requires Valid()
    {
      members[..size]
    }

    /** What `kzalloc` gives `add_domain`: a zeroed record of `cap` slots. */
    static function Fresh(cap: nat): (d: Domain)
      ensures d.Valid() && |d.members| == cap
      ensures d.Members() == []
      ensures forall i :: 0 <= i < cap ==> d.members[i] == 0
    {
      Domain(0, seq(cap, _ => 0))
    }

    /** One `add_member`: `mid` goes into the first unused slot. */
    function Push(mid: int): (e: Domain)
      requires Valid() && size < |members|
      ensures e.Valid() && |e.members| == |members|
      ensures e.size == size + 1
      ensures e.Members() == Members() + [mid]
      ensures e.members[e.size..] == members[e.size..]
    {
      Domain(size + 1, members[size := mid])
    }

    /** `add_member` for each id of `mids` in turn. */
    function PushAll(mids: seq<int>): (e: Domain)
      requires Valid() && size + |mids| <= |members|
      ensures e.Valid() && |e.members| == |members|
      ensures e.size == size + |mids|
      ensures e.Members() == Members() + mids
    {
      if mids == [] then this
      else
        var init := mids[..|mids| - 1];
        assert init + [mids[|mids| - 1]] == mids;
        PushAll(init).Push(mids[|mids| - 1])
    }

    /** Registering `a` and then `b` leaves the same record, unused buffer
        included, as registering `a + b` at once. */
    lemma {:induction false} PushAllConcat(a: seq<int>, b: seq<int>)
      requires Valid() && size + |a| + |b| <= |members|
      ensures PushAll(a).PushAll(b) == PushAll(a + b)
    {
      if b != [] {
        var init := b[..|b| - 1];
        assert (a + b)[..|a + b| - 1] == a + init;
        assert (a + b)[|a + b| - 1] == b[|b| - 1];
        PushAllConcat(a, init);
      } else {
        assert a + b == a;
      }
    }
  }

  /** The domain table `ds`, with every record sized for `capacity` members. */
  class DomainTable {
    /** MAX_DOMAIN_CAP: the member capacity of a record. */
    const capacity: nat
    /** The slots, indexed by domain id; its length is MAX_DOMAIN_COUNT. */
    const ds: array<Option<Domain>>

    ghost predicate Valid()
      reads ds
    {
      forall d :: 0 <= d < ds.Length ==> SlotValid(ds[d])
    }

    predicate SlotValid(slot: Option<Domain>) {
      slot.Some? ==> slot.value.Valid() && |slot.value.members| == capacity
    }

    /** True when a write for domain `did` with members `mids` fits its
        record: `add_member` writes past the record otherwise. */
    ghost predicate Fits(action: char, did: int, mids: seq<int>)
      reads ds
    {
      action == 'R' && 0 <= did < ds.Length ==>
        (if ds[did].Some? then ds[did].value.size else 0) + |mids| <= capacity
    }

    /** The table at module start: every slot empty. */
    constructor (maxCount: nat, capacity: nat)
      ensures Valid() && fresh(ds)
      ensures ds.Length == maxCount && this.capacity == capacity
      ensures forall d :: 0 <= d < maxCount ==> ds[d] == None
    {
      this.capacity := capacity;
      ds := new Option<Domain>[maxCount](_ => None);
    }

    /** `has_domain`: is slot `did` occupied? */
    method HasDomain(did: int) returns (present: bool)
      requires 0 <= did < ds.Length
      ensures present <==> ds[did] != None
    {
      present := ds[did].Some?;
    }

    /** `add_domain`: a fresh empty record in slot `did`, replacing whatever
        was there (there is no duplicate check). */
    method AddDomain(did: int) returns (r: int)
      requires Valid() && 0 <= did < ds.Length
      modifies ds
      ensures Valid() && r == 0
      ensures ds[..] == old(ds[..])[did := Some(Domain.Fresh(capacity))]
      ensures ds[did].value.Members() == []
    {
      ds[did] := Some(Domain.Fresh(capacity));
      r := 0;
    }

    /** `remove_domain`: slot `did` becomes empty; freeing an empty slot is
        harmless. */
    method RemoveDomain(did: int) returns (r: int)
      requires Valid() && 0 <= did < ds.Length
      modifies ds
      ensures Valid() && r == 0
      ensures ds[..] == old(ds[..])[did := None]
    {
      ds[did] := None;
      r := 0;
    }

    /** `add_member`: `mid` is written at position `size` of domain `did`,
        and the new size is returned. */
    method AddMember(did: int, mid: int) returns (r: int)
      requires Valid() && 0 <= did < ds.Length
      requires ds[did].Some? && ds[did].value.size < capacity
      modifies ds
      ensures Valid()
      ensures ds[..] == old(ds[..])[did := Some(old(ds[did].value).Push(mid))]
      ensures ds[did].value.members[old(ds[did].value.size)] == mid
      ensures ds[did].value.Members() == old(ds[did].value.Members()) + [mid]
      ensures r == ds[did].value.size == old(ds[did].value.size) + 1
    {
      var d := ds[did].value;
      ds[did] := Some(d.Push(mid));
      r := d.size + 1;
    }

    /** `remove_member` is a stub: it changes nothing and returns 0. */
    method RemoveMember(did: int, mid: int) returns (r: int)
      ensures r == 0
    {
      r := 0;
    }

    /** The member loop of an 'R' request (das.c:86-88 as intended): one
        `add_member` per id of `mids`, in order. */
    method AddMembers(did: int, mids: seq<int>)
      requires Valid() && 0 <= did < ds.Length
      requires ds[did].Some? && ds[did].value.size + |mids| <= capacity
      modifies ds
      ensures Valid()
      ensures ds[..] == old(ds[..])[did := Some(old(ds[did].value).PushAll(mids))]
    {
      ghost var start := ds[did].value;
      for i := 0 to |mids|
        invariant Valid()
        invariant ds[..] == old(ds[..])[did := ds[did]]
        invariant ds[did] == Some(start.PushAll(mids[..i]))
      {
        assert mids[..i + 1][..i] == mids[..i];
        var _ := AddMember(did, mids[i]);
      }
      assert mids[..|mids|] == mids;
    }

    /**
     * The decision part of `das_write` on an already-scanned request: reject
     * an id outside the table, then 'R' creates the domain if it is absent
     * and appends `mids` in order, 'D' deletes the domain, and any other
     * action is rejected. `ok` is false exactly for the rejections, which
     * leave the table as it was.
     */
    method Dispatch(action: char, did: int, mids: seq<int>) returns (ok: bool)
      requires Valid() && Fits(action, did, mids)
      modifies ds
      ensures Valid()
      ensures ok <==> 0 <= did < ds.Length && (action == 'R' || action == 'D')
      ensures !ok ==> ds[..] == old(ds[..])
      ensures ok && action == 'R' ==>
        ds[..] == old(ds[..])[did := Some(
          (if old(ds[did]).Some? then old(ds[did]).value else Domain.Fresh(capacity)).PushAll(mids))]
      ensures ok && action == 'R' ==>
        ds[did].Some? &&
        ds[did].value.Members() == (if old(ds[did]).Some? then old(ds[did].value.Members()) else []) + mids
      ensures ok && action == 'D' ==> ds[..] == old(ds[..])[did := None]
    {
      if did < 0 || did >= ds.Length {
        return false;
      }
      if action == 'R' {
        var present := HasDomain(did);
        if !present {
          var _ := AddDomain(did);
        }
        AddMembers(did, mids);
        ok := true;
      } else if action == 'D' {
        var _ := RemoveDomain(did);
        ok := true;
      } else {
        ok := false;
      }
    }

    /**
     * `das_write`. `buf` is the write of `|buf|` bytes and `uncopied` is what
     * `copy_from_user` reports it could not copy. A write at a positive
     * offset returns 0; a failed copy returns `uncopied`; a request without
     * an id, with an id outside the table or with an unknown action returns
     * -EINVAL. Otherwise the request is dispatched, `|buf|` is returned and
     * the offset advances by it. Only a dispatched request changes the table.
     */
    method Write(offset: int, buf: string, uncopied: nat) returns (ret: int, newOffset: int)
      requires Valid()
      requires (offset <= 0 ==> |buf| <= PROC_BUF_SIZE) && uncopied <= |buf|
      requires offset <= 0 && uncopied == 0 && Decode(buf).Some? ==> Fits(Decode(buf).value.action, Decode(buf).value.did, Decode(buf).value.mids)
      modifies ds
      ensures Valid()
      ensures offset > 0 ==> ret == 0 && newOffset == offset && ds[..] == old(ds[..])
      ensures offset <= 0 && uncopied != 0 ==>
        ret == uncopied && newOffset == offset && ds[..] == old(ds[..])
      ensures offset <= 0 && uncopied == 0 && Decode(buf) == None ==>
        ret == -EINVAL && newOffset == offset && ds[..] == old(ds[..])
      ensures offset <= 0 && uncopied == 0 && Decode(buf).Some? ==>
        var req := Decode(buf).value;
        var accepted := 0 <= req.did < ds.Length && (req.action == 'R' || req.action == 'D');
        && (accepted ==> ret == |buf| && newOffset == offset + |buf|)
        && (!accepted ==> ret == -EINVAL && newOffset == offset && ds[..] == old(ds[..]))
        && (accepted && req.action == 'R' ==>
              ds[..] == old(ds[..])[req.did := Some(
                (if old(ds[req.did]).Some? then old(ds[req.did]).value else Domain.Fresh(capacity)).PushAll(req.mids))] &&
              ds[req.did].Some? &&
              ds[req.did].value.Members() ==
                (if old(ds[req.did]).Some? then old(ds[req.did].value.Members()) else []) + req.mids)
        && (accepted && req.action == 'D' ==> ds[..] == old(ds[..])[req.did := None])
    {
      if offset > 0 {
        return 0, offset;
      }
      if uncopied != 0 {
        return uncopied, offset;
      }
      var req := Decode(buf);
      if req.None? {
        return -EINVAL, offset;
      }
      var ok := Dispatch(req.value.action, req.value.did, req.value.mids);
      if !ok {
        return -EINVAL, offset;
      }
      ret := |buf|;
      newOffset := offset + ret;
    }
  }
}
