/** DNS synchronisation: the batch that brings a provider's records to what the services of a
    repository declare. Source: internal/app/controller/dns.go. */
module DnsSync {
  import opened Common

  // ----- Records and zones -----

  datatype RecordType = A | AAAA | CNAME | Unmanaged(name: string)

  predicate Managed(t: RecordType) { !t.Unmanaged? }

  datatype DnsRecord = DnsRecord(name: string, rtype: RecordType, ttl: int, data: string)

  /** An RRset is identified by its zone, its name relative to the zone, and its type; it is a
      set of records without duplicates (section 5 of RFC 2181). */
  datatype Key = Key(zone: string, name: string, rtype: RecordType)

  type RRset = set<(int, string)>

  type Zones = map<Key, RRset>

  function Lookup(z: Zones, k: Key): RRset {
    if k in z then z[k] else {}
  }

  function DataOf(records: seq<DnsRecord>, name: string, t: RecordType): RRset {
    set r | r in records && r.name == name && r.rtype == t :: (r.ttl, r.data)
  }

  function KeysOf(zone: string, records: seq<DnsRecord>): set<Key> {
    set r | r in records :: Key(zone, r.name, r.rtype)
  }

  /** What the library's SetRecords promises: for every name and type in the input, only the
      input's records remain. */
  function SetRecords(z: Zones, zone: string, records: seq<DnsRecord>): Zones {
    z + map k | k in KeysOf(zone, records) :: DataOf(records, k.name, k.rtype)
  }

  function DeleteRecords(z: Zones, k: Key): Zones {
    z - {k}
  }

  // ----- What a service wants -----

  /** One resolved entry: its zone, its host name with a trailing dot, and its records by type. */
  datatype Desired = Desired(zone: string, fqdn: string, recordSets: map<RecordType, seq<DnsRecord>>)

  type Relative = (string, string) -> string

  /** The records of an entry carry the entry's relative name. */
  ghost predicate Shaped(e: Desired, rel: Relative) {
    forall t :: t in e.recordSets ==>
      && Managed(t) && e.recordSets[t] != []
      && forall r :: r in e.recordSets[t] ==> Managed(r.rtype) && r.name == rel(e.fqdn, e.zone)
  }

  /** ... and the type they are filed under. */
  ghost predicate WellFormed(e: Desired, rel: Relative) {
    forall t :: t in e.recordSets ==>
      && Managed(t) && e.recordSets[t] != []
      && forall r :: r in e.recordSets[t] ==> r.rtype == t && r.name == rel(e.fqdn, e.zone)
  }

  /** Within a zone, different host names have different relative names. */
  ghost predicate Separate(entries: seq<Desired>, rel: Relative) {
    forall d, e :: d in entries && e in entries && d.zone == e.zone && rel(d.fqdn, d.zone) == rel(e.fqdn, e.zone)
      ==> d.fqdn == e.fqdn
  }

  ghost predicate Names(e: Desired, k: Key, rel: Relative) {
    e.zone == k.zone && rel(e.fqdn, e.zone) == k.name
  }

  ghost predicate Named(entries: seq<Desired>, k: Key, rel: Relative) {
    exists e :: e in entries && Names(e, k, rel)
  }

  /** The union of the records that all entries for this name declare under this type. */
  ghost function Union(entries: seq<Desired>, k: Key, rel: Relative): RRset {
    set e, r | e in entries && Names(e, k, rel) && k.rtype in e.recordSets && r in e.recordSets[k.rtype] :: (r.ttl, r.data)
  }

  /** Every name an entry declares holds exactly the union of what its entries declare, for each
      managed type, and everything else is as it was. */
  ghost predicate Converged(before: Zones, after: Zones, entries: seq<Desired>, rel: Relative) {
    forall k :: Lookup(after, k) ==
      if Named(entries, k, rel) && Managed(k.rtype) then Union(entries, k, rel) else Lookup(before, k)
  }

  /** A second synchronisation changes nothing. */
  lemma ConvergedTwice(z0: Zones, z1: Zones, z2: Zones, entries: seq<Desired>, rel: Relative)
    requires Converged(z0, z1, entries, rel) && Converged(z1, z2, entries, rel)
    ensures forall k :: Lookup(z2, k) == Lookup(z1, k)
  {
    forall k ensures Lookup(z2, k) == Lookup(z1, k) {
      assert Lookup(z1, k) == if Named(entries, k, rel) && Managed(k.rtype) then Union(entries, k, rel) else Lookup(z0, k);
    }
  }

  // ----- Aggregation -----

  datatype HostKey = HostKey(zone: string, fqdn: string)

  type RecordSets = map<RecordType, seq<DnsRecord>>

  /** The records of `fqdn` of one type, over all entries, in the order of the entries. */
  function Gathered(entries: seq<Desired>, host: HostKey, t: RecordType): seq<DnsRecord> {
    if entries == [] then []
    else
      var rest, e := Gathered(Front(entries), host, t), Last(entries);
      if e.zone == host.zone && e.fqdn == host.fqdn && t in e.recordSets then rest + e.recordSets[t] else rest
  }

  ghost predicate Declares(entries: seq<Desired>, host: HostKey) {
    exists e :: e in entries && e.zone == host.zone && e.fqdn == host.fqdn
  }

  ghost predicate DeclaresType(entries: seq<Desired>, host: HostKey, t: RecordType) {
    exists e :: e in entries && e.zone == host.zone && e.fqdn == host.fqdn && t in e.recordSets
  }

  /** The aggregates hold, for each declared host and type, the gathered records. */
  ghost predicate Aggregates(entries: seq<Desired>, aggregates: map<HostKey, RecordSets>) {
    && (forall h :: h in aggregates <==> Declares(entries, h))
    && (forall h, t :: h in aggregates ==> (t in aggregates[h] <==> DeclaresType(entries, h, t)))
    && (forall h, t :: h in aggregates && t in aggregates[h] ==> aggregates[h][t] == Gathered(entries, h, t))
  }

  lemma AggregatesStep(entries: seq<Desired>, aggregates: map<HostKey, RecordSets>, e: Desired, sets: RecordSets)
    requires Aggregates(entries, aggregates)
    requires var h := HostKey(e.zone, e.fqdn); var old_ := if h in aggregates then aggregates[h] else map[];
             && (forall t :: t in sets <==> t in old_ || t in e.recordSets)
             && (forall t :: t in sets ==>
                   sets[t] == (if t in old_ then old_[t] else []) + (if t in e.recordSets then e.recordSets[t] else []))
    ensures Aggregates(entries + [e], aggregates[HostKey(e.zone, e.fqdn) := sets])
  {
    var h0 := HostKey(e.zone, e.fqdn);
    var after, as' := entries + [e], aggregates[h0 := sets];
    assert Front(after) == entries && e in after;
    forall h ensures h in as' <==> Declares(after, h) {
      DeclaresAppend(entries, e, h);
    }
    forall h, t | h in as' ensures t in as'[h] <==> DeclaresType(after, h, t) {
      DeclaresAppend(entries, e, h);
      DeclaresTypeAppend(entries, e, h, t);
    }
    forall h, t | h in as' && t in as'[h] ensures as'[h][t] == Gathered(after, h, t) {
      DeclaresAppend(entries, e, h);
      DeclaresTypeAppend(entries, e, h, t);
      NothingGathered(entries, h, t);
    }
  }

  lemma DeclaresAppend(entries: seq<Desired>, e: Desired, h: HostKey)
    ensures Declares(entries + [e], h) <==> Declares(entries, h) || h == HostKey(e.zone, e.fqdn)
  {
    assert e in entries + [e];
    if Declares(entries, h) {
      var d :| d in entries && d.zone == h.zone && d.fqdn == h.fqdn;
      assert d in entries + [e];
    }
  }

  lemma DeclaresTypeAppend(entries: seq<Desired>, e: Desired, h: HostKey, t: RecordType)
    ensures DeclaresType(entries + [e], h, t) <==> DeclaresType(entries, h, t) || (h == HostKey(e.zone, e.fqdn) && t in e.recordSets)
  {
    assert e in entries + [e];
    if DeclaresType(entries, h, t) {
      var d :| d in entries && d.zone == h.zone && d.fqdn == h.fqdn && t in d.recordSets;
      assert d in entries + [e];
    }
  }

  lemma {:induction false} NothingGathered(entries: seq<Desired>, h: HostKey, t: RecordType)
    ensures !DeclaresType(entries, h, t) ==> Gathered(entries, h, t) == []
  {
    if entries != [] {
      NothingGathered(Front(entries), h, t);
      assert Last(entries) in entries;
      if DeclaresType(Front(entries), h, t) {
        var d :| d in Front(entries) && d.zone == h.zone && d.fqdn == h.fqdn && t in d.recordSets;
        assert d in entries;
      }
    }
  }

  /** Gathering for a host is the union over the entries that name it. */
  lemma {:induction false} GatheredMembers(entries: seq<Desired>, h: HostKey, t: RecordType, r: DnsRecord)
    ensures r in Gathered(entries, h, t) <==>
              exists e :: e in entries && e.zone == h.zone && e.fqdn == h.fqdn && t in e.recordSets && r in e.recordSets[t]
  {
    if entries != [] {
      GatheredMembers(Front(entries), h, t, r);
      var e := Last(entries);
      assert entries == Front(entries) + [e];
      if exists d :: d in Front(entries) && d.zone == h.zone && d.fqdn == h.fqdn && t in d.recordSets && r in d.recordSets[t] {
        var d :| d in Front(entries) && d.zone == h.zone && d.fqdn == h.fqdn && t in d.recordSets && r in d.recordSets[t];
        assert d in entries;
      }
    }
  }

  /** Setting the gathered records of a host gives the union its name should hold. */
  lemma GatheredIsUnion(entries: seq<Desired>, h: HostKey, t: RecordType, rel: Relative)
    requires Separate(entries, rel) && Declares(entries, h)
    requires forall e :: e in entries ==> WellFormed(e, rel)
    ensures var name := rel(h.fqdn, h.zone);
            && DataOf(Gathered(entries, h, t), name, t) == Union(entries, Key(h.zone, name, t), rel)
            && (DeclaresType(entries, h, t) ==> KeysOf(h.zone, Gathered(entries, h, t)) == {Key(h.zone, name, t)})
            && (!DeclaresType(entries, h, t) ==> Union(entries, Key(h.zone, name, t), rel) == {})
  {
    var name, k, g := rel(h.fqdn, h.zone), Key(h.zone, rel(h.fqdn, h.zone), t), Gathered(entries, h, t);
    var d :| d in entries && d.zone == h.zone && d.fqdn == h.fqdn;
    forall x | x in Union(entries, k, rel) ensures x in DataOf(g, name, t) {
      var e, r :| e in entries && Names(e, k, rel) && t in e.recordSets && r in e.recordSets[t] && x == (r.ttl, r.data);
      assert WellFormed(e, rel) && e.fqdn == d.fqdn;
      GatheredMembers(entries, h, t, r);
    }
    forall r | r in g
      ensures r.name == name && r.rtype == t && (r.ttl, r.data) in Union(entries, k, rel) && DeclaresType(entries, h, t)
    {
      GatheredMembers(entries, h, t, r);
      var e :| e in entries && e.zone == h.zone && e.fqdn == h.fqdn && t in e.recordSets && r in e.recordSets[t];
      assert WellFormed(e, rel) && Names(e, k, rel);
    }
    if DeclaresType(entries, h, t) {
      var e :| e in entries && e.zone == h.zone && e.fqdn == h.fqdn && t in e.recordSets;
      assert WellFormed(e, rel);
      GatheredMembers(entries, h, t, e.recordSets[t][0]);
      assert e.recordSets[t][0] in g;
    } else {
      NothingGathered(entries, h, t);
    }
  }

  // ----- What a batch without failures leaves -----

  const MANAGED: seq<RecordType> := [A, AAAA, CNAME]

  /** The records of one host, by type. */
  ghost function SetsOf(entries: seq<Desired>, h: HostKey): RecordSets {
    map t | t in MANAGED && DeclaresType(entries, h, t) :: Gathered(entries, h, t)
  }

  function WithoutStale(z: Zones, zone: string, name: string, sets: RecordSets): Zones {
    z - set t | t in MANAGED && t !in sets :: Key(zone, name, t)
  }

  /** Setting the records filed under `types`, one type after the other. */
  function SetTypes(z: Zones, zone: string, sets: RecordSets, types: seq<RecordType>): Zones {
    if types == [] then z
    else
      var before := SetTypes(z, zone, sets, Front(types));
      if Last(types) in sets then SetRecords(before, zone, sets[Last(types)]) else before
  }

  function SyncedHost(z: Zones, zone: string, name: string, sets: RecordSets): Zones {
    SetTypes(WithoutStale(z, zone, name, sets), zone, sets, MANAGED)
  }

  ghost function Synced(z: Zones, entries: seq<Desired>, hosts: seq<HostKey>, rel: Relative): Zones {
    if hosts == [] then z
    else
      var h := Last(hosts);
      SyncedHost(Synced(z, entries, Front(hosts), rel), h.zone, rel(h.fqdn, h.zone), SetsOf(entries, h))
  }

  ghost predicate ListsHosts(entries: seq<Desired>, hosts: seq<HostKey>) {
    forall h :: h in hosts <==> Declares(entries, h)
  }
}
