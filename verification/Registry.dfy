/** The Registry: entries, their lease index, and the change events that mirror them. Here
    a handler runs alone, so a store write and the event about it are one step;
    `RegistryRaces` takes them apart. */
module Registry {
  import opened Prelude
  import opened Matcher

  datatype Transport = Transport(kind: string, config: map<string, string>)

  datatype Entry = Entry(cap: Id, lease: Id, iface: string, attrs: Attrs, transport: Option<Transport>)

  datatype Change = Registered(e: Entry) | Modified(e: Entry) | Expired(e: Entry)

  datatype Outcome = Ok | NotFound | PermissionDenied | LeaseGone

  /** What a watcher that follows the events has. */
  ghost function Replay(events: seq<Change>): map<Id, Entry> {
    if events == [] then map[]
    else
      var k := |events| - 1; Follow(Replay(events[..k]), events[k])
  }

  ghost function Follow(m: map<Id, Entry>, c: Change): map<Id, Entry> {
    match c
    case Expired(e) => m - {e.cap}
    case _ => m[c.e.cap := c.e]
  }

  lemma ReplaySnoc(events: seq<Change>, c: Change)
    ensures Replay(events + [c]) == Follow(Replay(events), c)
  {
    assert (events + [c])[..|events|] == events;
  }

  /** An update rewrites an existing entry; an unknown one stays unknown. */
  function Rewritten(entries: map<Id, Entry>, e: Entry): map<Id, Entry> {
    if e.cap in entries then entries[e.cap := e] else entries
  }

  /** `lease_index` is exactly the inverse of the entries' lease ids. */
  ghost predicate IndexOk(entries: map<Id, Entry>, index: map<Id, Id>) {
    && (forall c :: c in entries ==> entries[c].cap == c && entries[c].lease in index && index[entries[c].lease] == c)
    && (forall l :: l in index ==> index[l] in entries && entries[index[l]].lease == l)
  }

  /** The presented lease id is the entry's current one (None: not presented). */
  predicate Owns(e: Entry, presented: Option<Id>) {
    presented == Some(e.lease)
  }

  method RemoveKeys(attrs: Attrs, remove: seq<string>) returns (r: Attrs)
    ensures forall k :: k in r <==> k in attrs && k !in remove
    ensures forall k :: k in r ==> r[k] == attrs[k]
  {
    r := attrs;
    for i := 0 to |remove|
      invariant forall k :: k in r <==> k in attrs && k !in remove[..i]
      invariant forall k :: k in r ==> r[k] == attrs[k]
    {
      r := r - {remove[i]};
    }
  }

  method AddKeys(attrs: Attrs, add: Attrs) returns (r: Attrs)
    ensures forall k :: k in r <==> k in attrs || k in add
    ensures forall k :: k in r ==> r[k] == if k in add then add[k] else attrs[k]
  {
    r := attrs;
    var todo := add.Keys;
    while todo != {}
      invariant todo <= add.Keys
      invariant forall k :: k in r <==> (k in add && k !in todo) || k in attrs
      invariant forall k :: k in r ==> r[k] == if k in add && k !in todo then add[k] else attrs[k]
      decreases |todo|
    {
      var k :| k in todo;
      r := r[k := add[k]];
      todo := todo - {k};
    }
  }

  /** Remove first, then add, so an add wins over a remove of the same key. */
  method EditAttrs(attrs: Attrs, remove: seq<string>, add: Attrs) returns (r: Attrs)
    ensures forall k :: k in r <==> k in add || (k in attrs && k !in remove)
    ensures forall k :: k in r ==> r[k] == if k in add then add[k] else attrs[k]
  {
    r := RemoveKeys(attrs, remove);
    r := AddKeys(r, add);
  }

  class Registry {
    var entries: map<Id, Entry>
    var leaseIndex: map<Id, Id>
    /** Everything broadcast so far. */
    var events: seq<Change>

    ghost predicate Valid()
      reads this
    {
      IndexOk(entries, leaseIndex) && Replay(events) == entries
    }

    constructor ()
      ensures Valid() && entries == map[] && events == []
    {
      entries, leaseIndex, events := map[], map[], [];
    }

    method Insert(e: Entry)
      modifies this`entries, this`leaseIndex
      ensures entries == old(entries)[e.cap := e] && leaseIndex == old(leaseIndex)[e.lease := e.cap]
      ensures old(IndexOk(entries, leaseIndex)) && e.cap !in old(entries) && e.lease !in old(leaseIndex) ==>
                IndexOk(entries, leaseIndex)
    {
      leaseIndex := leaseIndex[e.lease := e.cap];
      entries := entries[e.cap := e];
    }

    method Update(e: Entry) returns (found: bool)
      requires IndexOk(entries, leaseIndex)
      requires forall c :: c in entries && c != e.cap ==> entries[c].lease != e.lease
      modifies this`entries, this`leaseIndex
      ensures found <==> e.cap in old(entries)
      ensures entries == Rewritten(old(entries), e)
      ensures IndexOk(entries, leaseIndex)
    {
      found := e.cap in entries;
      if found {
        leaseIndex := map l | l in leaseIndex && leaseIndex[l] != e.cap :: leaseIndex[l];
        leaseIndex := leaseIndex[e.lease := e.cap];
        entries := entries[e.cap := e];
      }
    }

    method RemoveByLease(lease: Id) returns (r: Option<Entry>)
      requires IndexOk(entries, leaseIndex)
      modifies this`entries, this`leaseIndex
      ensures IndexOk(entries, leaseIndex)
      ensures r.None? ==> entries == old(entries) && forall c :: c in entries ==> entries[c].lease != lease
      ensures r.Some? ==>
                && r.value.lease == lease && r.value.cap in old(entries) && old(entries)[r.value.cap] == r.value
                && entries == old(entries) - {r.value.cap}
    {
      if lease !in leaseIndex {
        return None;
      }
      var c := leaseIndex[lease];
      leaseIndex := leaseIndex - {lease};
      r := Some(entries[c]);
      entries := entries - {c};
    }

    /** A new registration, under a fresh capability id and a freshly granted lease. */
    method RegisterNew(e: Entry)
      requires Valid() && e.cap !in entries && e.lease !in leaseIndex
      modifies this
      ensures Valid() && entries == old(entries)[e.cap := e] && events == old(events) + [Registered(e)]
    {
      hide Replay;
      Insert(e);
      ReplaySnoc(events, Registered(e));
      events := events + [Registered(e)];
    }

    /** Re-registration: owner check, lease renewal, and a rewrite with an event only if
        something besides the lease changed. `renewed` is the lease manager's answer. */
    method Reregister(cap: Id, presented: Option<Id>, renewed: bool, iface: string, attrs: Attrs, transport: Option<Transport>)
      returns (r: Outcome)
      requires Valid()
      modifies this
      ensures Valid()
      ensures r == if cap !in old(entries) then NotFound
                   else if !Owns(old(entries)[cap], presented) then PermissionDenied
                   else if !renewed then LeaseGone else Ok
      ensures presented.None? || (cap in old(entries) && presented.value != old(entries)[cap].lease) ==> r in {NotFound, PermissionDenied}
      ensures cap in old(entries) && presented == Some(old(entries)[cap].lease) ==> r in {LeaseGone, Ok}
      ensures r != Ok ==> entries == old(entries) && events == old(events)
      ensures r == Ok ==>
                var e := Entry(cap, old(entries)[cap].lease, iface, attrs, transport);
                && entries == old(entries)[cap := e]
                && events == if e == old(entries)[cap] then old(events) else old(events) + [Modified(e)]
    {
      hide Replay;
      if cap !in entries {
        return NotFound;
      }
      var existing := entries[cap];
      if !Owns(existing, presented) {
        return PermissionDenied;
      }
      if !renewed {
        return LeaseGone;
      }
      var e := Entry(cap, existing.lease, iface, attrs, transport);
      var changed := existing.iface != e.iface || existing.attrs != e.attrs || existing.transport != e.transport;
      if changed {
        WriteBack(e);
      }
      return Ok;
    }

    /** The write and send of a modification, as one step that may come after the entry it
        read has changed or gone: the entry is rewritten only if it still exists, the event
        goes out regardless. So done, a watcher stays in step exactly when the entry still
        exists. */
    method WriteBack(e: Entry)
      requires Valid()
      requires forall c :: c in entries && c != e.cap ==> entries[c].lease != e.lease
      modifies this
      ensures IndexOk(entries, leaseIndex) && events == old(events) + [Modified(e)]
      ensures entries == Rewritten(old(entries), e)
      ensures Replay(events) == entries <==> e.cap in old(entries)
    {
      hide Replay;
      var _ := Update(e);
      ReplaySnoc(events, Modified(e));
      events := events + [Modified(e)];
    }

    method ModifyAttrs(cap: Id, presented: Option<Id>, remove: seq<string>, add: Attrs) returns (r: Outcome)
      requires Valid()
      modifies this
      ensures Valid()
      ensures r == if cap !in old(entries) then NotFound
                   else if !Owns(old(entries)[cap], presented) then PermissionDenied else Ok
      ensures presented.None? || (cap in old(entries) && presented.value != old(entries)[cap].lease) ==> r in {NotFound, PermissionDenied}
      ensures cap in old(entries) && presented == Some(old(entries)[cap].lease) ==> r == Ok
      ensures r != Ok ==> entries == old(entries) && events == old(events)
      ensures r == Ok ==>
                && cap in entries && entries == old(entries)[cap := old(entries)[cap].(attrs := entries[cap].attrs)]
                && (forall k :: k in entries[cap].attrs <==> k in add || (k in old(entries)[cap].attrs && k !in remove))
                && (forall k :: k in entries[cap].attrs ==>
                      entries[cap].attrs[k] == if k in add then add[k] else old(entries)[cap].attrs[k])
                && events == old(events) + [Modified(entries[cap])]
    {
      hide Replay;
      if cap !in entries {
        return NotFound;
      }
      var existing := entries[cap];
      if !Owns(existing, presented) {
        return PermissionDenied;
      }
      var attrs := EditAttrs(existing.attrs, remove, add);
      WriteBack(existing.(attrs := attrs));
      return Ok;
    }

    /** The reclaim cascade: remove what the lease backs and say so. */
    method OnLeaseReclaimed(lease: Id)
      requires Valid()
      modifies this
      ensures Valid()
      ensures forall c :: c in entries <==> c in old(entries) && old(entries)[c].lease != lease
      ensures forall c :: c in entries ==> entries[c] == old(entries)[c]
      ensures if exists c :: c in old(entries) && old(entries)[c].lease == lease
              then exists c :: && c in old(entries) && old(entries)[c].lease == lease
                               && events == old(events) + [Expired(old(entries)[c])]
              else events == old(events)
    {
      hide Replay;
      var r := RemoveByLease(lease);
      if r.Some? {
        ReplaySnoc(events, Expired(r.value));
        events := events + [Expired(r.value)];
      }
    }
  }
}
