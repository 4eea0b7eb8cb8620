/** What a service's DNS settings ask for: the zone of a host name and the records by type. */
module DnsDesired {
  import opened Common
  import opened DnsSync
  import opened DnsBatch

  // ----- The zone of a host name -----

  function Lower(s: string): string {
    seq(|s|, i requires 0 <= i < |s| => if 'A' <= s[i] <= 'Z' then (s[i] as int + 32) as char else s[i])
  }

  predicate HasSuffix(s: string, suffix: string) {
    |suffix| <= |s| && s[|s| - |suffix|..] == suffix
  }

  function TrimDot(s: string): string {
    if HasSuffix(s, ".") then s[..|s| - 1] else s
  }

  /** The host is the zone's apex or lies below it. */
  predicate Below(fqdn: string, zone: string) {
    var name, host := TrimDot(Lower(zone)), TrimDot(Lower(fqdn));
    host == name || HasSuffix(host, "." + name)
  }

  /** ... that is, its labels are the zone's, possibly after some of its own. */
  lemma BelowMeans(fqdn: string, zone: string)
    ensures var name, host := TrimDot(Lower(zone)), TrimDot(Lower(fqdn));
            Below(fqdn, zone) <==> host == name || exists own: string :: host == own + ['.'] + name
  {
    var name, host := TrimDot(Lower(zone)), TrimDot(Lower(fqdn));
    if HasSuffix(host, "." + name) {
      var own := host[..|host| - |name| - 1];
      assert host == own + ("." + name) == own + ['.'] + name;
    }
    if own: string :| host == own + ['.'] + name {
      assert host[|host| - |name| - 1..] == "." + name;
    }
  }

  function WithDot(zone: string): string {
    if zone == "" || HasSuffix(zone, ".") then zone else zone + "."
  }

  ghost predicate LongestFirst(zones: seq<string>) {
    forall i, j :: 0 <= i < j < |zones| ==> |zones[i]| >= |zones[j]|
  }

  /** Puts a zone behind those that are at least as long. */
  method InsertZone(zones: seq<string>, z: string) returns (r: seq<string>)
    requires LongestFirst(zones)
    ensures LongestFirst(r) && multiset(r) == multiset(zones) + multiset{z}
  {
    var i := 0;
    while i < |zones| && |zones[i]| >= |z|
      invariant 0 <= i <= |zones| && forall j :: 0 <= j < i ==> |zones[j]| >= |z|
    {
      i := i + 1;
    }
    r := zones[..i] + [z] + zones[i..];
    assert zones == zones[..i] + zones[i..];
  }

  method SortByLength(zones: seq<string>) returns (sorted: seq<string>)
    ensures LongestFirst(sorted) && multiset(sorted) == multiset(zones)
  {
    sorted := [];
    for i := 0 to |zones|
      invariant LongestFirst(sorted) && multiset(sorted) == multiset(zones[..i])
    {
      assert zones[..i + 1] == zones[..i] + [zones[i]];
      sorted := InsertZone(sorted, zones[i]);
    }
    assert zones[..|zones|] == zones;
  }

  /** matchingZone: a longest zone the host lies in, with its trailing dot, or none exactly when the
      host lies in none. */
  method MatchingZone(zones: seq<string>, fqdn: string) returns (zone: Option<string>)
    ensures zone.None? <==> forall z :: z in zones ==> !Below(fqdn, z)
    ensures zone.Some? ==> exists z :: z in zones && zone.value == WithDot(z) && Longest(zones, fqdn, z)
  {
    hide Lower, TrimDot, HasSuffix, WithDot;
    var sorted := SortByLength(zones);
    assert forall z :: z in zones <==> z in multiset(sorted);
    for i := 0 to |sorted|
      invariant forall j :: 0 <= j < i ==> !Below(fqdn, sorted[j])
    {
      var name, host := TrimDot(Lower(sorted[i])), TrimDot(Lower(fqdn));
      if host == name || HasSuffix(host, "." + name) {
        assert Below(fqdn, sorted[i]) && sorted[i] in sorted;
        forall y | y in zones && Below(fqdn, y) ensures |y| <= |sorted[i]| {
          assert y in sorted;
          var j :| 0 <= j < |sorted| && sorted[j] == y;
          assert j >= i;
        }
        assert Longest(zones, fqdn, sorted[i]);
        return Some(WithDot(sorted[i]));
      }
    }
    return None;
  }

  ghost predicate Longest(zones: seq<string>, fqdn: string, z: string) {
    Below(fqdn, z) && forall y :: y in zones && Below(fqdn, y) ==> |y| <= |z|
  }

  /** A zone name has no empty first label. */
  predicate Labelled(zone: string) {
    var name := TrimDot(Lower(zone)); name == "" || name[0] != '.'
  }

  /** The code compares lengths with trailing dots counted. That finds a longest name all the same,
      and ties do not matter: of two zones of one host the one at least as long, dots counted, is
      at least as long without them, and equally long zones have the same name. */
  lemma MatchIsUnique(fqdn: string, y: string, z: string)
    requires Below(fqdn, y) && Below(fqdn, z) && Labelled(y) && Labelled(z) && |y| <= |z|
    ensures |TrimDot(Lower(y))| <= |TrimDot(Lower(z))|
    ensures |y| == |z| ==> TrimDot(Lower(y)) == TrimDot(Lower(z))
  {
    var host, a, b := TrimDot(Lower(fqdn)), TrimDot(Lower(y)), TrimDot(Lower(z));
    assert |a| in {|y|, |y| - 1} && |b| in {|z|, |z| - 1};
    assert host[|host| - |a|..] == a by { SuffixOf(host, a); }
    assert host[|host| - |b|..] == b by { SuffixOf(host, b); }
    hide Lower, TrimDot;
    if |a| == |b| + 1 {
      LongerBegins(host, a, b);
    } else if |b| == |a| + 1 {
      LongerBegins(host, b, a);
    }
  }

  /** Of two zones of a host, one a character longer, the longer begins with a dot. */
  lemma LongerBegins(host: string, a: string, b: string)
    requires |a| == |b| + 1 && |a| <= |host| && host[|host| - |a|..] == a
    requires host == b || HasSuffix(host, "." + b)
    ensures a[0] == '.'
  {
    assert host[|host| - |b| - 1..] == "." + b;
  }

  lemma SuffixOf(host: string, name: string)
    requires host == name || HasSuffix(host, "." + name)
    ensures |name| <= |host| && host[|host| - |name|..] == name
  {
    if host != name {
      assert host[|host| - |name|..] == host[|host| - |name| - 1..][1..] == ("." + name)[1..];
    }
  }

  // ----- The records -----

  datatype Address = V4(text: string) | V6(text: string)

  /** A configured address: absent, not an address, or parsed. */
  datatype Field = Empty | Invalid | Parsed(address: Address)

  datatype Value = Ip(address: Address) | Host(target: string)

  datatype Node = Node(publicIPv4: Field, publicIPv6: Field)

  /** The DNS library derives an address record's type from the address. */
  function AddressRecord(name: string, ttl: int, a: Address): DnsRecord {
    DnsRecord(name, if a.V4? then A else AAAA, ttl, a.text)
  }

  function ForValue(name: string, ttl: int, recordType: string, value: Value): Option<RecordSets> {
    match value
    case Ip(a) =>
      if recordType !in ["", "A", "AAAA"] then None
      else if a.V4? then (if recordType == "AAAA" then None else Some(map[A := [AddressRecord(name, ttl, a)]]))
      else if recordType == "A" then None
      else Some(map[AAAA := [AddressRecord(name, ttl, a)]])
    case Host(target) =>
      if recordType in ["", "CNAME"] then Some(map[CNAME := [DnsRecord(name, CNAME, ttl, WithDot(target))]]) else None
  }

  function ForNode(name: string, ttl: int, recordType: string, node: Node): Option<RecordSets> {
    if recordType == "" then
      if node.publicIPv4.Invalid? || node.publicIPv6.Invalid? then None
      else if node.publicIPv4.Empty? && node.publicIPv6.Empty? then None
      else
        var v4: RecordSets := if node.publicIPv4.Parsed? then map[A := [AddressRecord(name, ttl, node.publicIPv4.address)]] else map[];
        var v6: RecordSets := if node.publicIPv6.Parsed? then map[AAAA := [AddressRecord(name, ttl, node.publicIPv6.address)]] else map[];
        Some(v4 + v6)
    else if recordType == "A" then
      if node.publicIPv4.Parsed? then Some(map[A := [AddressRecord(name, ttl, node.publicIPv4.address)]]) else None
    else if recordType == "AAAA" then
      if node.publicIPv6.Parsed? then Some(map[AAAA := [AddressRecord(name, ttl, node.publicIPv6.address)]]) else None
    else None
  }

  /** What a record for a value says. */
  function TextOf(value: Value): string {
    match value
    case Ip(a) => a.text
    case Host(target) => WithDot(target)
  }

  /** An explicit value gives exactly one record, with that value, name and lifetime and always filed
      under its own type, or none when the type asked for does not fit it. */
  lemma ValueIsWellFormed(zone: string, fqdn: string, rel: Relative, ttl: int, recordType: string, value: Value)
    ensures var sets := ForValue(rel(fqdn, zone), ttl, recordType, value);
            && (sets.Some? ==> WellFormed(Desired(zone, fqdn, sets.value), rel) && |sets.value| == 1)
            && (sets.Some? ==> forall t :: t in sets.value ==>
                  && sets.value[t] == [DnsRecord(rel(fqdn, zone), t, ttl, TextOf(value))]
                  && (value.Host? <==> t == CNAME) && (value.Ip? ==> (value.address.V4? <==> t == A)))
            && (sets.Some? <==>
                  match value
                  case Ip(a) => recordType == "" || recordType == if a.V4? then "A" else "AAAA"
                  case Host(_) => recordType == "" || recordType == "CNAME")
  {}

  /** The addresses a record type takes from a node. */
  predicate Uses4(recordType: string, node: Node) { recordType in ["", "A"] && node.publicIPv4.Parsed? }
  predicate Uses6(recordType: string, node: Node) { recordType in ["", "AAAA"] && node.publicIPv6.Parsed? }

  /** A node gives exactly one record per field that is used, under the type the field is named for,
      with the field's address and the given name and lifetime. It gives none at all when a field it
      would use is missing or is no address, or when the type asked for is no address type. */
  lemma NodeRecordsExactly(name: string, ttl: int, recordType: string, node: Node)
    ensures var sets := ForNode(name, ttl, recordType, node);
            && (sets.Some? ==>
                  && (forall t :: t in sets.value <==>
                        (t == A && Uses4(recordType, node)) || (t == AAAA && Uses6(recordType, node)))
                  && (forall t :: t in sets.value ==> |sets.value[t]| == 1)
                  && (forall t, r :: t in sets.value && r in sets.value[t] ==>
                        && r.name == name && r.ttl == ttl
                        && r.data == (if t == A then node.publicIPv4 else node.publicIPv6).address.text))
            && (sets.Some? <==>
                  && (Uses4(recordType, node) || Uses6(recordType, node))
                  && (recordType == "" ==> !node.publicIPv4.Invalid? && !node.publicIPv6.Invalid?))
  {}

  /** Records for a node are filed under their own type exactly when public_ipv4 holds an IPv4
      address and public_ipv6 an IPv6 address, for the ones that are used. */
  lemma NodeIsWellFormedIff(zone: string, fqdn: string, rel: Relative, ttl: int, recordType: string, node: Node)
    requires ForNode(rel(fqdn, zone), ttl, recordType, node).Some?
    ensures WellFormed(Desired(zone, fqdn, ForNode(rel(fqdn, zone), ttl, recordType, node).value), rel) <==>
              && (Uses4(recordType, node) ==> node.publicIPv4.address.V4?)
              && (Uses6(recordType, node) ==> node.publicIPv6.address.V6?)
  {
    var sets := ForNode(rel(fqdn, zone), ttl, recordType, node).value;
    if Uses4(recordType, node) {
      assert A in sets && sets[A][0] == AddressRecord(rel(fqdn, zone), ttl, node.publicIPv4.address);
    }
    if Uses6(recordType, node) {
      assert AAAA in sets && sets[AAAA][0] == AddressRecord(rel(fqdn, zone), ttl, node.publicIPv6.address);
    }
  }

  // ----- Batches of node entries -----

  /** The text of an IPv6 address has a colon, that of an IPv4 address has none. */
  predicate Written(a: Address) { a.V6? <==> ':' in a.text }

  predicate WrittenNode(node: Node) {
    (node.publicIPv4.Parsed? ==> Written(node.publicIPv4.address)) && (node.publicIPv6.Parsed? ==> Written(node.publicIPv6.address))
  }

  /** An entry for the addresses of a node. */
  datatype NodeEntry = NodeEntry(zone: string, fqdn: string, ttl: int, recordType: string, node: Node)

  ghost predicate Usable(e: NodeEntry, rel: Relative) {
    WrittenNode(e.node) && ForNode(rel(e.fqdn, e.zone), e.ttl, e.recordType, e.node).Some?
  }

  predicate OwnFamilies(e: NodeEntry) {
    && (Uses4(e.recordType, e.node) ==> e.node.publicIPv4.address.V4?)
    && (Uses6(e.recordType, e.node) ==> e.node.publicIPv6.address.V6?)
  }

  ghost function DesiredOf(e: NodeEntry, rel: Relative): Desired
    requires Usable(e, rel)
  {
    Desired(e.zone, e.fqdn, ForNode(rel(e.fqdn, e.zone), e.ttl, e.recordType, e.node).value)
  }

  ghost function AllDesired(nodes: seq<NodeEntry>, rel: Relative): seq<Desired>
    requires forall i :: 0 <= i < |nodes| ==> Usable(nodes[i], rel)
  {
    seq(|nodes|, i requires 0 <= i < |nodes| => DesiredOf(nodes[i], rel))
  }

  lemma NodeRecords(e: NodeEntry, rel: Relative)
    requires Usable(e, rel)
    ensures Shaped(DesiredOf(e, rel), rel)
    ensures forall t, r :: t in DesiredOf(e, rel).recordSets && r in DesiredOf(e, rel).recordSets[t] ==>
              r.rtype in {A, AAAA} && (r.rtype.AAAA? <==> ':' in r.data)
  {}

  lemma NodesTell(nodes: seq<NodeEntry>, rel: Relative)
    requires forall i :: 0 <= i < |nodes| ==> Usable(nodes[i], rel)
    ensures Telling(AllDesired(nodes, rel)) && forall d :: d in AllDesired(nodes, rel) ==> Shaped(d, rel)
  {
    var all := AllDesired(nodes, rel);
    forall d | d in all
      ensures Shaped(d, rel)
      ensures forall t, r :: t in d.recordSets && r in d.recordSets[t] ==> r.rtype in {A, AAAA} && (r.rtype.AAAA? <==> ':' in r.data)
    {
      var i :| 0 <= i < |nodes| && d == DesiredOf(nodes[i], rel);
      NodeRecords(nodes[i], rel);
    }
    hide Shaped, Usable;
  }

  /** A batch of node entries without failures converges from every state of the provider if and
      only if every address it uses is of the family its field is named for. */
  lemma NodesConvergeIff(nodes: seq<NodeEntry>, hosts: seq<HostKey>, rel: Relative)
    requires forall i :: 0 <= i < |nodes| ==> Usable(nodes[i], rel)
    requires Separate(AllDesired(nodes, rel), rel) && ListsHosts(AllDesired(nodes, rel), hosts)
    ensures (forall z :: Converged(z, Synced(z, AllDesired(nodes, rel), hosts, rel), AllDesired(nodes, rel), rel)) <==>
              forall i :: 0 <= i < |nodes| ==> OwnFamilies(nodes[i])
  {
    var all := AllDesired(nodes, rel);
    NodesTell(nodes, rel);
    ConvergesIffWellFormed(all, hosts, rel);
    hide Converged, Synced, Separate, ListsHosts, Shaped, Telling, WellFormed;
    forall i | 0 <= i < |nodes| ensures WellFormed(all[i], rel) <==> OwnFamilies(nodes[i]) {
      NodeIsWellFormedIff(nodes[i].zone, nodes[i].fqdn, rel, nodes[i].ttl, nodes[i].recordType, nodes[i].node);
    }
    if forall d :: d in all ==> WellFormed(d, rel) {
      forall i | 0 <= i < |nodes| ensures OwnFamilies(nodes[i]) {
        assert all[i] in all;
      }
    }
  }

  predicate Wrong4(recordType: string, node: Node) { Uses4(recordType, node) && node.publicIPv4.address.V6? }
  predicate Wrong6(recordType: string, node: Node) { Uses6(recordType, node) && node.publicIPv6.address.V4? }

  /** What goes wrong: with one address of the wrong family, the old records of the type that its
      field stands for survive, since that type counts as declared and is never written. */
  lemma WrongFamilyKeepsOldRecords(z: Zones, zone: string, name: string, ttl: int, node: Node, recordType: string)
    requires ForNode(name, ttl, recordType, node).Some?
    ensures var sets := ForNode(name, ttl, recordType, node).value; var after := SyncedHost(z, zone, name, sets);
            && (Wrong4(recordType, node) && !Wrong6(recordType, node) ==>
                  Lookup(after, Key(zone, name, A)) == Lookup(z, Key(zone, name, A)))
            && (Wrong6(recordType, node) && !Wrong4(recordType, node) ==>
                  Lookup(after, Key(zone, name, AAAA)) == Lookup(z, Key(zone, name, AAAA)))
  {
    var sets := ForNode(name, ttl, recordType, node).value;
    if Wrong4(recordType, node) && !Wrong6(recordType, node) {
      TypeIsLeft(z, zone, name, sets, A);
    }
    if Wrong6(recordType, node) && !Wrong4(recordType, node) {
      TypeIsLeft(z, zone, name, sets, AAAA);
    }
  }

  /** A declared type of which there is no record keeps what it had. */
  lemma TypeIsLeft(z: Zones, zone: string, name: string, sets: RecordSets, t: RecordType)
    requires t in sets && forall s, r :: s in sets && r in sets[s] ==> r.rtype != t
    ensures Lookup(SyncedHost(z, zone, name, sets), Key(zone, name, t)) == Lookup(z, Key(zone, name, t))
  {
    StaleLookup(z, zone, name, sets, Key(zone, name, t));
    TypeIsNeverSet(WithoutStale(z, zone, name, sets), zone, sets, MANAGED, Key(zone, name, t));
  }

  lemma {:induction false} TypeIsNeverSet(z: Zones, zone: string, sets: RecordSets, types: seq<RecordType>, k: Key)
    requires forall s, r :: s in sets && r in sets[s] ==> r.rtype != k.rtype
    ensures Lookup(SetTypes(z, zone, sets, types), k) == Lookup(z, k)
  {
    if types != [] {
      TypeIsNeverSet(z, zone, sets, Front(types), k);
      var s := Last(types);
      if s in sets {
        assert k !in KeysOf(zone, sets[s]);
      }
    }
  }
}
