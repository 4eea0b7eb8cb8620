/** The batch as the code runs it: aggregate the entries by host, then delete the stale types
    and set the declared ones, host by host. Any call to the provider may fail. */
module DnsBatch {
  import opened Common
  import opened DnsSync

  /** The host's RRsets hold what its aggregate says, other RRsets are as before. */
  ghost predicate HostDone(before: Zones, after: Zones, zone: string, name: string, sets: RecordSets) {
    forall k :: Lookup(after, k) ==
      if k.zone == zone && k.name == name && Managed(k.rtype) then
        if k.rtype in sets then DataOf(sets[k.rtype], name, k.rtype) else {}
      else Lookup(before, k)
  }

  /** The records are all of managed types and at this name. */
  ghost predicate AtHost(zone: string, name: string, records: seq<DnsRecord>) {
    forall k :: k in KeysOf(zone, records) ==> k.zone == zone && k.name == name && Managed(k.rtype)
  }

  /** Nothing changed but managed types at this name. */
  ghost predicate OnlyHost(before: Zones, after: Zones, zone: string, name: string) {
    forall k: Key :: !(k.zone == zone && k.name == name && Managed(k.rtype)) ==> Lookup(after, k) == Lookup(before, k)
  }

  /** Nothing changed but managed types at names the entries declare. */
  ghost predicate OnlyDeclared(before: Zones, after: Zones, entries: seq<Desired>, rel: Relative) {
    forall k: Key :: !(Named(entries, k, rel) && Managed(k.rtype)) ==> Lookup(after, k) == Lookup(before, k)
  }

  class DnsClient {
    var zones: Zones

    constructor (zones: Zones)
      ensures this.zones == zones
    {
      this.zones := zones;
    }

    /** A failed call leaves anything behind, but only at the RRsets it was about. */
    method Garble(keys: set<Key>)
      modifies this
      ensures forall k :: k !in keys ==> Lookup(zones, k) == Lookup(old(zones), k)
    {
      var junk: Zones := *;
      zones := (zones - keys) + map k | k in keys && k in junk :: junk[k];
    }

    method SetRecords(zone: string, records: seq<DnsRecord>) returns (ok: bool)
      modifies this
      ensures ok ==> zones == DnsSync.SetRecords(old(zones), zone, records)
      ensures forall k :: k !in KeysOf(zone, records) ==> Lookup(zones, k) == Lookup(old(zones), k)
    {
      ok := *;
      if ok {
        zones := DnsSync.SetRecords(zones, zone, records);
      } else {
        Garble(KeysOf(zone, records));
      }
    }

    method DeleteRecords(k: Key) returns (ok: bool)
      modifies this
      ensures ok ==> zones == DnsSync.DeleteRecords(old(zones), k)
      ensures forall j :: j != k ==> Lookup(zones, j) == Lookup(old(zones), j)
    {
      ok := *;
      if ok {
        zones := DnsSync.DeleteRecords(zones, k);
      } else {
        Garble({k});
      }
    }

    /** Proxy and comment options do not touch the records. */
    method ApplyRecordOptions() returns (ok: bool)
    {
      ok := *;
    }

    /** Deletes the managed types the host does not declare. */
    method DeleteStale(zone: string, name: string, sets: RecordSets) returns (ok: bool)
      modifies this
      ensures OnlyHost(old(zones), zones, zone, name)
      ensures ok ==> zones == WithoutStale(old(zones), zone, name, sets)
    {
      for i := 0 to |MANAGED|
        invariant OnlyHost(old(zones), zones, zone, name)
        invariant zones == old(zones) - set t | t in MANAGED[..i] && t !in sets :: Key(zone, name, t)
      {
        assert MANAGED[..i + 1] == MANAGED[..i] + [MANAGED[i]];
        if MANAGED[i] !in sets {
          ok := DeleteRecords(Key(zone, name, MANAGED[i]));
          if !ok {
            return;
          }
        }
      }
      assert MANAGED[..|MANAGED|] == MANAGED;
      return true;
    }

    /** Sets the declared types, in the order of their names. */
    method SetDeclared(zone: string, name: string, sets: RecordSets) returns (ok: bool)
      requires forall t :: t in sets ==> AtHost(zone, name, sets[t])
      modifies this
      ensures OnlyHost(old(zones), zones, zone, name)
      ensures ok ==> zones == SetTypes(old(zones), zone, sets, MANAGED)
    {
      for i := 0 to |MANAGED|
        invariant OnlyHost(old(zones), zones, zone, name)
        invariant zones == SetTypes(old(zones), zone, sets, MANAGED[..i])
      {
        assert Front(MANAGED[..i + 1]) == MANAGED[..i] && Last(MANAGED[..i + 1]) == MANAGED[i];
        if MANAGED[i] in sets {
          assert AtHost(zone, name, sets[MANAGED[i]]);
          ok := SetType(zone, sets[MANAGED[i]]);
          if !ok {
            return;
          }
        }
      }
      assert MANAGED[..|MANAGED|] == MANAGED;
      return true;
    }

    /** Sets the records filed under one type, and their options. */
    method SetType(zone: string, records: seq<DnsRecord>) returns (ok: bool)
      modifies this
      ensures forall k :: k !in KeysOf(zone, records) ==> Lookup(zones, k) == Lookup(old(zones), k)
      ensures ok ==> zones == DnsSync.SetRecords(old(zones), zone, records)
    {
      ok := SetRecords(zone, records);
      if ok {
        ok := ApplyRecordOptions();
      }
    }

    method SyncHost(zone: string, name: string, sets: RecordSets) returns (ok: bool)
      requires forall t :: t in sets ==> AtHost(zone, name, sets[t])
      modifies this
      ensures OnlyHost(old(zones), zones, zone, name)
      ensures ok ==> zones == SyncedHost(old(zones), zone, name, sets)
    {
      ok := DeleteStale(zone, name, sets);
      if ok {
        ok := SetDeclared(zone, name, sets);
      }
    }

    /** syncServiceDNSBatch: on success the hosts were synchronised one after the other, and the
        provider holds exactly what the entries declare when their records are filed under their
        own type; on failure nothing outside the declared names and managed types was touched. */
    method SyncServiceDNSBatch(entries: seq<Desired>, rel: Relative) returns (ok: bool, ghost hosts: seq<HostKey>)
      requires Separate(entries, rel) && forall e :: e in entries ==> Shaped(e, rel)
      modifies this
      ensures ok ==> ListsHosts(entries, hosts) && zones == Synced(old(zones), entries, hosts, rel)
      ensures ok && (forall e :: e in entries ==> WellFormed(e, rel)) ==> Converged(old(zones), zones, entries, rel)
      ensures OnlyDeclared(old(zones), zones, entries, rel)
    {
      var aggregates := Aggregate(entries);
      var left := aggregates.Keys;
      hosts := [];
      while left != {}
        invariant left <= aggregates.Keys && forall h :: h in hosts <==> h in aggregates.Keys - left
        invariant OnlyDeclared(old(zones), zones, entries, rel)
        invariant zones == Synced(old(zones), entries, hosts, rel)
        decreases left
      {
        var h :| h in left;
        left := left - {h};
        ghost var was := zones;
        AggregateIsSets(entries, aggregates, h, rel);
        HostIsAt(entries, h, rel);
        ok := SyncHost(h.zone, rel(h.fqdn, h.zone), aggregates[h]);
        OnlyHostIsDeclared(old(zones), was, zones, entries, h, rel);
        if !ok {
          return;
        }
        assert Front(hosts + [h]) == hosts && Last(hosts + [h]) == h;
        hosts := hosts + [h];
      }
      ok := true;
      if forall e :: e in entries ==> WellFormed(e, rel) {
        SyncedConverges(old(zones), entries, hosts, rel);
      }
    }
  }

  // ----- Aggregation -----

  method Aggregate(entries: seq<Desired>) returns (aggregates: map<HostKey, RecordSets>)
    ensures Aggregates(entries, aggregates)
  {
    aggregates := map[];
    for i := 0 to |entries|
      invariant Aggregates(entries[..i], aggregates)
    {
      var e := entries[i];
      var key := HostKey(e.zone, e.fqdn);
      var before := if key in aggregates then aggregates[key] else map[];
      var sets := AppendAll(before, e.recordSets);
      AggregatesStep(entries[..i], aggregates, e, sets);
      assert entries[..i] + [e] == entries[..i+1];
      aggregates := aggregates[key := sets];
    }
    assert entries[..|entries|] == entries;
  }

  method AppendAll(before: RecordSets, more: RecordSets) returns (sets: RecordSets)
    ensures forall t :: t in sets <==> t in before || t in more
    ensures forall t :: t in sets ==>
              sets[t] == (if t in before then before[t] else []) + (if t in more then more[t] else [])
  {
    sets := before;
    var types := more.Keys;
    while types != {}
      invariant types <= more.Keys
      invariant forall t :: t in sets <==> t in before || (t in more && t !in types)
      invariant forall t :: t in sets ==>
                  sets[t] == (if t in before then before[t] else []) + (if t in more && t !in types then more[t] else [])
      decreases types
    {
      var t :| t in types;
      types := types - {t};
      sets := sets[t := (if t in sets then sets[t] else []) + more[t]];
    }
  }

  // ----- Host by host -----

  ghost predicate NamedBy(hosts: set<HostKey>, k: Key, rel: Relative) {
    exists h :: h in hosts && h.zone == k.zone && rel(h.fqdn, h.zone) == k.name
  }

  /** The names of the hosts done so far hold their unions, everything else is as before. */
  ghost predicate HostsDone(before: Zones, now: Zones, entries: seq<Desired>, done: set<HostKey>, rel: Relative) {
    forall k :: Lookup(now, k) ==
      if NamedBy(done, k, rel) && Managed(k.rtype) then Union(entries, k, rel) else Lookup(before, k)
  }

  lemma DeclaredIsManaged(entries: seq<Desired>, h: HostKey, t: RecordType, rel: Relative)
    requires DeclaresType(entries, h, t) && forall e :: e in entries ==> Shaped(e, rel)
    ensures Managed(t)
  {
    var e :| e in entries && e.zone == h.zone && e.fqdn == h.fqdn && t in e.recordSets;
    assert Shaped(e, rel);
  }

  lemma AggregateIsSets(entries: seq<Desired>, aggregates: map<HostKey, RecordSets>, h: HostKey, rel: Relative)
    requires Aggregates(entries, aggregates) && h in aggregates && forall e :: e in entries ==> Shaped(e, rel)
    ensures aggregates[h] == SetsOf(entries, h)
  {
    forall t | t in aggregates[h] ensures t in MANAGED {
      DeclaredIsManaged(entries, h, t, rel);
      ManagedIsListed(t);
    }
  }

  lemma ManagedIsListed(t: RecordType)
    ensures Managed(t) <==> t in MANAGED
  {
    assert MANAGED[0] == A && MANAGED[1] == AAAA && MANAGED[2] == CNAME;
  }

  lemma HostIsAt(entries: seq<Desired>, h: HostKey, rel: Relative)
    requires forall e :: e in entries ==> Shaped(e, rel)
    ensures forall t :: t in SetsOf(entries, h) ==> AtHost(h.zone, rel(h.fqdn, h.zone), SetsOf(entries, h)[t])
  {
    forall t, r | t in SetsOf(entries, h) && r in SetsOf(entries, h)[t]
      ensures r.name == rel(h.fqdn, h.zone) && Managed(r.rtype)
    {
      GatheredMembers(entries, h, t, r);
      var e :| e in entries && e.zone == h.zone && e.fqdn == h.fqdn && t in e.recordSets && r in e.recordSets[t];
      assert Shaped(e, rel);
    }
  }

  /** One host, when its records are filed under their own type. */
  lemma SyncedHostDone(z: Zones, zone: string, name: string, sets: RecordSets)
    requires forall t :: t in sets ==> Managed(t) && KeysOf(zone, sets[t]) == {Key(zone, name, t)}
    ensures HostDone(z, SyncedHost(z, zone, name, sets), zone, name, sets)
  {
    var z0 := WithoutStale(z, zone, name, sets);
    assert MANAGED[..1] == [A] && MANAGED[..2] == [A, AAAA];
    assert Front([A]) == [] && Front([A, AAAA]) == [A] && Front(MANAGED) == [A, AAAA];
    var z1, z2, z3 := SetTypes(z0, zone, sets, [A]), SetTypes(z0, zone, sets, [A, AAAA]), SetTypes(z0, zone, sets, MANAGED);
    assert SetTypes(z0, zone, sets, []) == z0 && Last([A]) == A;
    OneTypeSet(z0, z1, zone, name, sets, A);
    OneTypeSet(z1, z2, zone, name, sets, AAAA);
    OneTypeSet(z2, z3, zone, name, sets, CNAME);
    forall k
      ensures Lookup(z3, k) ==
                if k.zone == zone && k.name == name && Managed(k.rtype) then
                  if k.rtype in sets then DataOf(sets[k.rtype], name, k.rtype) else {}
                else Lookup(z, k)
    {
      ManagedIsListed(k.rtype);
      StaleLookup(z, zone, name, sets, k);
    }
  }

  lemma StaleLookup(z: Zones, zone: string, name: string, sets: RecordSets, k: Key)
    ensures Lookup(WithoutStale(z, zone, name, sets), k) ==
              if k.zone == zone && k.name == name && Managed(k.rtype) && k.rtype !in sets then {} else Lookup(z, k)
  {
    ManagedIsListed(k.rtype);
  }

  lemma OneTypeSet(z: Zones, z': Zones, zone: string, name: string, sets: RecordSets, t: RecordType)
    requires z' == if t in sets then SetRecords(z, zone, sets[t]) else z
    requires t in sets ==> KeysOf(zone, sets[t]) == {Key(zone, name, t)}
    ensures forall k :: Lookup(z', k) == if t in sets && k == Key(zone, name, t) then DataOf(sets[t], name, t) else Lookup(z, k)
  {
    if t in sets {
      assert Key(zone, name, t) in KeysOf(zone, sets[t]);
    }
  }

  lemma OnlyHostIsDeclared(before: Zones, was: Zones, now: Zones, entries: seq<Desired>, h: HostKey, rel: Relative)
    requires OnlyDeclared(before, was, entries, rel) && OnlyHost(was, now, h.zone, rel(h.fqdn, h.zone))
    requires Declares(entries, h)
    ensures OnlyDeclared(before, now, entries, rel)
  {
    var e :| e in entries && e.zone == h.zone && e.fqdn == h.fqdn;
    forall k | !(Named(entries, k, rel) && Managed(k.rtype)) ensures Lookup(now, k) == Lookup(before, k) {
      assert Names(e, k, rel) ==> Named(entries, k, rel);
      assert Lookup(was, k) == Lookup(before, k);
    }
  }

  lemma OneMoreHost(before: Zones, was: Zones, now: Zones, entries: seq<Desired>, done: set<HostKey>, h: HostKey, rel: Relative)
    requires Separate(entries, rel) && forall e :: e in entries ==> WellFormed(e, rel)
    requires Declares(entries, h) && HostsDone(before, was, entries, done, rel)
    requires HostDone(was, now, h.zone, rel(h.fqdn, h.zone), SetsOf(entries, h))
    ensures HostsDone(before, now, entries, done + {h}, rel)
  {
    forall k
      ensures Lookup(now, k) ==
                if NamedBy(done + {h}, k, rel) && Managed(k.rtype) then Union(entries, k, rel) else Lookup(before, k)
    {
      NamedByMore(done, h, k, rel);
      GatheredIsUnion(entries, h, k.rtype, rel);
      ManagedIsListed(k.rtype);
      assert Lookup(was, k) ==
        if NamedBy(done, k, rel) && Managed(k.rtype) then Union(entries, k, rel) else Lookup(before, k);
    }
  }

  lemma {:induction false} SyncedHostsDone(z: Zones, entries: seq<Desired>, hosts: seq<HostKey>, rel: Relative)
    requires Separate(entries, rel) && forall e :: e in entries ==> WellFormed(e, rel)
    requires forall h :: h in hosts ==> Declares(entries, h)
    ensures HostsDone(z, Synced(z, entries, hosts, rel), entries, (set h | h in hosts), rel)
  {
    if hosts != [] {
      var h := Last(hosts);
      assert hosts == Front(hosts) + [h];
      SyncedHostsDone(z, entries, Front(hosts), rel);
      var was := Synced(z, entries, Front(hosts), rel);
      hide SyncedHost, HostsDone, HostDone, Separate, WellFormed;
      OwnTypes(entries, h, rel);
      SyncedHostDone(was, h.zone, rel(h.fqdn, h.zone), SetsOf(entries, h));
      OneMoreHost(z, was, Synced(z, entries, hosts, rel), entries, (set g | g in Front(hosts)), h, rel);
      assert (set g | g in hosts) == (set g | g in Front(hosts)) + {h};
    }
  }

  lemma OwnTypes(entries: seq<Desired>, h: HostKey, rel: Relative)
    requires Separate(entries, rel) && Declares(entries, h) && forall e :: e in entries ==> WellFormed(e, rel)
    ensures var sets := SetsOf(entries, h);
            forall t :: t in sets ==> Managed(t) && KeysOf(h.zone, sets[t]) == {Key(h.zone, rel(h.fqdn, h.zone), t)}
  {
    forall t | t in SetsOf(entries, h)
      ensures Managed(t) && KeysOf(h.zone, SetsOf(entries, h)[t]) == {Key(h.zone, rel(h.fqdn, h.zone), t)}
    {
      ManagedIsListed(t);
      GatheredIsUnion(entries, h, t, rel);
    }
  }

  /** A batch without failures brings well-formed entries about, from any state of the provider. */
  lemma SyncedConverges(z: Zones, entries: seq<Desired>, hosts: seq<HostKey>, rel: Relative)
    requires Separate(entries, rel) && (forall e :: e in entries ==> WellFormed(e, rel)) && ListsHosts(entries, hosts)
    ensures Converged(z, Synced(z, entries, hosts, rel), entries, rel)
  {
    SyncedHostsDone(z, entries, hosts, rel);
    AllHostsDone(z, Synced(z, entries, hosts, rel), entries, (set h | h in hosts), rel);
  }

  // ----- Exactly when a batch converges -----

  /** No two records of different types have the same data, as with addresses of both families. */
  ghost predicate Telling(entries: seq<Desired>) {
    forall d, s, q, e, t, r ::
      d in entries && s in d.recordSets && q in d.recordSets[s] && e in entries && t in e.recordSets && r in e.recordSets[t]
      ==> (q.data == r.data ==> q.rtype == r.rtype)
  }

  /** Some entry has a record of this type with these data. */
  ghost predicate Stems(entries: seq<Desired>, t: RecordType, x: (int, string)) {
    exists e, s, r :: e in entries && s in e.recordSets && r in e.recordSets[s] && r.rtype == t && x == (r.ttl, r.data)
  }

  lemma {:induction false} SetTypesStems(z: Zones, zone: string, entries: seq<Desired>, h: HostKey, types: seq<RecordType>)
    ensures var after := SetTypes(z, zone, SetsOf(entries, h), types);
            forall k, x :: x in Lookup(after, k) ==> x in Lookup(z, k) || Stems(entries, k.rtype, x)
  {
    if types != [] {
      var t, sets := Last(types), SetsOf(entries, h);
      var before := SetTypes(z, zone, sets, Front(types));
      SetTypesStems(z, zone, entries, h, Front(types));
      if t in sets {
        forall k, x | x in Lookup(SetRecords(before, zone, sets[t]), k)
          ensures x in Lookup(z, k) || Stems(entries, k.rtype, x)
        {
          if k in KeysOf(zone, sets[t]) {
            var r: DnsRecord :| r in sets[t] && r.name == k.name && r.rtype == k.rtype && x == (r.ttl, r.data);
            GatheredMembers(entries, h, t, r);
          } else {
            assert x in Lookup(before, k);
          }
        }
      }
    }
  }

  /** Whatever the provider holds afterwards it held before, or an entry has it under that type. */
  lemma {:induction false} SyncedStems(z: Zones, entries: seq<Desired>, hosts: seq<HostKey>, rel: Relative)
    ensures forall k, x :: x in Lookup(Synced(z, entries, hosts, rel), k) ==> x in Lookup(z, k) || Stems(entries, k.rtype, x)
  {
    if hosts != [] {
      var h := Last(hosts);
      var was := Synced(z, entries, Front(hosts), rel);
      SyncedStems(z, entries, Front(hosts), rel);
      hide Stems, SetsOf, SetTypes;
      SetTypesStems(WithoutStale(was, h.zone, rel(h.fqdn, h.zone), SetsOf(entries, h)), h.zone, entries, h, MANAGED);
      forall k, x | x in Lookup(Synced(z, entries, hosts, rel), k)
        ensures x in Lookup(z, k) || Stems(entries, k.rtype, x)
      {
        StaleLookup(was, h.zone, rel(h.fqdn, h.zone), SetsOf(entries, h), k);
      }
    }
  }

  /** A record under a foreign type keeps the batch from converging on an empty provider. */
  lemma ForeignTypeFails(entries: seq<Desired>, hosts: seq<HostKey>, rel: Relative, e: Desired, t: RecordType, r: DnsRecord)
    requires Telling(entries) && e in entries && Shaped(e, rel) && t in e.recordSets && r in e.recordSets[t] && r.rtype != t
    ensures !Converged(map[], Synced(map[], entries, hosts, rel), entries, rel)
  {
    var k, x := Key(e.zone, rel(e.fqdn, e.zone), t), (r.ttl, r.data);
    var after := Synced(map[], entries, hosts, rel);
    SyncedStems(map[], entries, hosts, rel);
    assert Names(e, k, rel) && Named(entries, k, rel) && x in Union(entries, k, rel);
    assert !Stems(entries, t, x);
  }

  /** A batch without failures converges from every state of the provider if and only if every
      record is filed under its own type. */
  lemma ConvergesIffWellFormed(entries: seq<Desired>, hosts: seq<HostKey>, rel: Relative)
    requires Separate(entries, rel) && (forall e :: e in entries ==> Shaped(e, rel))
    requires Telling(entries) && ListsHosts(entries, hosts)
    ensures (forall z :: Converged(z, Synced(z, entries, hosts, rel), entries, rel)) <==>
              forall e :: e in entries ==> WellFormed(e, rel)
  {
    hide Telling, Separate, Converged, Synced, ListsHosts;
    if forall e :: e in entries ==> WellFormed(e, rel) {
      forall z ensures Converged(z, Synced(z, entries, hosts, rel), entries, rel) {
        SyncedConverges(z, entries, hosts, rel);
      }
    } else {
      var e :| e in entries && !WellFormed(e, rel);
      assert Shaped(e, rel);
      var t, r :| t in e.recordSets && r in e.recordSets[t] && r.rtype != t;
      ForeignTypeFails(entries, hosts, rel, e, t, r);
    }
  }

  lemma NamedByMore(done: set<HostKey>, h: HostKey, k: Key, rel: Relative)
    ensures NamedBy(done + {h}, k, rel) <==> NamedBy(done, k, rel) || (h.zone == k.zone && rel(h.fqdn, h.zone) == k.name)
  {
    if NamedBy(done, k, rel) {
      var g :| g in done && g.zone == k.zone && rel(g.fqdn, g.zone) == k.name;
      assert g in done + {h};
    }
    assert h in done + {h};
  }

  lemma AllHostsDone(before: Zones, now: Zones, entries: seq<Desired>, done: set<HostKey>, rel: Relative)
    requires HostsDone(before, now, entries, done, rel) && forall h :: h in done <==> Declares(entries, h)
    ensures Converged(before, now, entries, rel)
  {
    forall k
      ensures Lookup(now, k) ==
                if Named(entries, k, rel) && Managed(k.rtype) then Union(entries, k, rel) else Lookup(before, k)
    {
      if Named(entries, k, rel) {
        var e :| e in entries && Names(e, k, rel);
        assert Declares(entries, HostKey(e.zone, e.fqdn));
        assert NamedBy(done, k, rel);
      }
      if NamedBy(done, k, rel) {
        var h :| h in done && h.zone == k.zone && rel(h.fqdn, h.zone) == k.name;
        var e :| e in entries && e.zone == h.zone && e.fqdn == h.fqdn;
        assert Names(e, k, rel);
      }
    }
  }

  // ----- A whole service -----

  /** An entry of a service after its provider, zone and records were resolved, or not. */
  datatype Resolved = Unresolved | Resolved(provider: string, desired: Desired)

  /** The entries for one provider, in order. */
  function For(entries: seq<Resolved>, provider: string): seq<Desired> {
    if entries == [] then []
    else if Last(entries).Resolved? && Last(entries).provider == provider then
      For(Front(entries), provider) + [Last(entries).desired]
    else For(Front(entries), provider)
  }

  lemma {:induction false} ForMembers(entries: seq<Resolved>, provider: string, d: Desired)
    ensures d in For(entries, provider) <==> Resolved.Resolved(provider, d) in entries
  {
    if entries != [] {
      ForMembers(Front(entries), provider, d);
      assert entries == Front(entries) + [Last(entries)];
    }
  }

  /** The grouping loop: it stops at the first entry that cannot be resolved. */
  method GroupByProvider(entries: seq<Resolved>) returns (ok: bool, byProvider: map<string, seq<Desired>>)
    ensures ok <==> Unresolved !in entries
    ensures ok ==> forall p :: p in byProvider <==> For(entries, p) != []
    ensures ok ==> forall p :: p in byProvider ==> byProvider[p] == For(entries, p)
  {
    byProvider := map[];
    for i := 0 to |entries|
      invariant Unresolved !in entries[..i]
      invariant forall p :: p in byProvider <==> For(entries[..i], p) != []
      invariant forall p :: p in byProvider ==> byProvider[p] == For(entries[..i], p)
    {
      assert Front(entries[..i+1]) == entries[..i] && entries[..i+1] == entries[..i] + [entries[i]];
      match entries[i]
      case Unresolved =>
        assert entries[i] in entries;
        return false, byProvider;
      case Resolved(p, d) =>
        byProvider := byProvider[p := (if p in byProvider then byProvider[p] else []) + [d]];
    }
    assert entries[..|entries|] == entries;
    ok := true;
  }

  ghost predicate EntriesFit(entries: seq<Desired>, rel: Relative) {
    Separate(entries, rel) && forall e :: e in entries ==> Shaped(e, rel)
  }

  /** The provider holds what its entries declare, if their records are filed under their own type. */
  ghost predicate Settled(before: Zones, after: Zones, entries: seq<Desired>, rel: Relative) {
    (forall e :: e in entries ==> WellFormed(e, rel)) ==> Converged(before, after, entries, rel)
  }

  lemma NothingDone(z: Zones, entries: seq<Desired>, rel: Relative)
    ensures OnlyDeclared(z, z, entries, rel) && (entries == [] ==> Settled(z, z, entries, rel))
  {}

  lemma Fit(entries: seq<Desired>, rel: Relative)
    requires EntriesFit(entries, rel)
    ensures Separate(entries, rel) && forall e :: e in entries ==> Shaped(e, rel)
  {}

  /** syncServiceDNSForService: an entry that cannot be resolved stops everything before the
      first write; otherwise each provider's batch runs in turn. */
  method SyncServiceDNSForService(clients: map<string, DnsClient>, entries: seq<Resolved>, rel: Relative) returns (ok: bool)
    requires forall p, q :: p in clients && q in clients && p != q ==> clients[p] != clients[q]
    requires forall p, d :: Resolved.Resolved(p, d) in entries ==> p in clients
    requires forall p :: EntriesFit(For(entries, p), rel)
    modifies clients.Values
    ensures Unresolved in entries ==> !ok && forall p :: p in clients ==> clients[p].zones == old(clients[p].zones)
    ensures ok ==> forall p :: p in clients ==> Settled(old(clients[p].zones), clients[p].zones, For(entries, p), rel)
    ensures forall p :: p in clients ==> OnlyDeclared(old(clients[p].zones), clients[p].zones, For(entries, p), rel)
  {
    hide Converged, OnlyDeclared, EntriesFit, For, WellFormed, Shaped, Separate;
    forall p | p in clients ensures OnlyDeclared(clients[p].zones, clients[p].zones, For(entries, p), rel)
      && (For(entries, p) == [] ==> Settled(clients[p].zones, clients[p].zones, For(entries, p), rel))
    {
      NothingDone(clients[p].zones, For(entries, p), rel);
    }
    var byProvider;
    ok, byProvider := GroupByProvider(entries);
    if !ok {
      return;
    }
    forall p | p in byProvider ensures p in clients {
      ForMembers(entries, p, byProvider[p][0]);
    }
    var providers := byProvider.Keys;
    while providers != {}
      invariant providers <= byProvider.Keys
      invariant forall p :: p in clients && p in providers ==> clients[p].zones == old(clients[p].zones)
      invariant forall p :: p in clients && p !in providers ==>
                  Settled(old(clients[p].zones), clients[p].zones, For(entries, p), rel)
      invariant forall p :: p in clients ==> OnlyDeclared(old(clients[p].zones), clients[p].zones, For(entries, p), rel)
      decreases providers
    {
      var p :| p in providers;
      providers := providers - {p};
      assert EntriesFit(For(entries, p), rel);
      assert clients[p] in clients.Values;
      Fit(For(entries, p), rel);
      ghost var hosts;
      ok, hosts := clients[p].SyncServiceDNSBatch(byProvider[p], rel);
      if !ok {
        return;
      }
    }
    return true;
  }
}
