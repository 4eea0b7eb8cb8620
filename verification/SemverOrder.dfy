/** Version precedence and the list path of image-update discovery
    (internal/app/agent/filter.go). Precedence is section 11 of Semantic Versioning 2.0.0,
    pre-release identifiers included; build metadata takes no part in it. */
module SemverOrder {
  import opened Common

  datatype Identifier = Numeric(value: nat) | Alphanumeric(text: string)

  datatype Version = Version(major: nat, minor: nat, patch: nat, pre: seq<Identifier>)

  function CompareInt(a: int, b: int): int {
    if a < b then -1 else if a > b then 1 else 0
  }

  function CompareText(a: string, b: string): int {
    if a == [] && b == [] then 0
    else if a == [] then -1
    else if b == [] then 1
    else if a[0] != b[0] then CompareInt(a[0] as int, b[0] as int)
    else CompareText(a[1..], b[1..])
  }

  function CompareIdentifier(a: Identifier, b: Identifier): int {
    match (a, b)
    case (Numeric(x), Numeric(y)) => CompareInt(x, y)
    case (Numeric(_), Alphanumeric(_)) => -1
    case (Alphanumeric(_), Numeric(_)) => 1
    case (Alphanumeric(x), Alphanumeric(y)) => CompareText(x, y)
  }

  /** Identifier by identifier; of two lists with a common prefix the longer one is higher. */
  function CompareIdentifiers(a: seq<Identifier>, b: seq<Identifier>): int {
    if a == [] && b == [] then 0
    else if a == [] then -1
    else if b == [] then 1
    else if CompareIdentifier(a[0], b[0]) != 0 then CompareIdentifier(a[0], b[0])
    else CompareIdentifiers(a[1..], b[1..])
  }

  /** A version without pre-release identifiers is above every pre-release of it. */
  function ComparePre(a: seq<Identifier>, b: seq<Identifier>): int {
    if a == [] && b == [] then 0
    else if a == [] then 1
    else if b == [] then -1
    else CompareIdentifiers(a, b)
  }

  function Compare(a: Version, b: Version): int {
    if a.major != b.major then CompareInt(a.major, b.major)
    else if a.minor != b.minor then CompareInt(a.minor, b.minor)
    else if a.patch != b.patch then CompareInt(a.patch, b.patch)
    else ComparePre(a.pre, b.pre)
  }

  lemma {:induction false} TextOrder(a: string, b: string, c: string)
    ensures CompareText(a, b) == -CompareText(b, a)
    ensures CompareText(a, b) == 0 <==> a == b
    ensures CompareText(a, b) <= 0 && CompareText(b, c) <= 0 ==> CompareText(a, c) <= 0
    decreases |a| + |b| + |c|
  {
    if a != [] && b != [] {
      if a[0] == b[0] {
        assert a == [a[0]] + a[1..] && b == [b[0]] + b[1..];
        TextOrder(a[1..], b[1..], if c == [] then [] else c[1..]);
      }
    }
  }

  lemma IdentifierOrder(a: Identifier, b: Identifier, c: Identifier)
    ensures CompareIdentifier(a, b) == -CompareIdentifier(b, a)
    ensures CompareIdentifier(a, b) == 0 <==> a == b
    ensures CompareIdentifier(a, b) <= 0 && CompareIdentifier(b, c) <= 0 ==> CompareIdentifier(a, c) <= 0
  {
    if a.Alphanumeric? && b.Alphanumeric? {
      TextOrder(a.text, b.text, if c.Alphanumeric? then c.text else "");
    }
  }

  lemma {:induction false} IdentifiersOrder(a: seq<Identifier>, b: seq<Identifier>, c: seq<Identifier>)
    ensures CompareIdentifiers(a, b) == -CompareIdentifiers(b, a)
    ensures CompareIdentifiers(a, b) == 0 <==> a == b
    ensures CompareIdentifiers(a, b) <= 0 && CompareIdentifiers(b, c) <= 0 ==> CompareIdentifiers(a, c) <= 0
    decreases |a| + |b| + |c|
  {
    if a != [] && b != [] {
      var c0 := if c == [] then b[0] else c[0];
      IdentifierOrder(a[0], b[0], c0);
      IdentifierOrder(b[0], c0, a[0]);
      IdentifierOrder(a[0], c0, b[0]);
      assert a == [a[0]] + a[1..] && b == [b[0]] + b[1..];
      IdentifiersOrder(a[1..], b[1..], if c == [] then [] else c[1..]);
    }
  }

  /** Precedence is a total order on versions. */
  lemma PrecedenceIsTotalOrder(a: Version, b: Version, c: Version)
    ensures Compare(a, b) == -Compare(b, a)
    ensures Compare(a, b) == 0 <==> a == b
    ensures Compare(a, b) <= 0 && Compare(b, c) <= 0 ==> Compare(a, c) <= 0
  {
    IdentifiersOrder(a.pre, b.pre, c.pre);
  }

  // ----- The rules of section 11 -----

  /** `a` and `b` first differ at `k`: there `a` ends, or holds something lower. */
  ghost predicate FirstLower<T(!new)>(a: seq<T>, b: seq<T>, k: nat, lower: (T, T) -> bool) {
    && k <= |a| && k < |b| && a[..k] == b[..k]
    && (k < |a| ==> lower(a[k], b[k]))
  }

  predicate LowerChar(c: char, d: char) { c < d }

  /** Rules 11.4.1 to 11.4.3: numbers by value, texts character by character, numbers below texts. */
  ghost predicate LowerIdentifier(a: Identifier, b: Identifier) {
    match (a, b)
    case (Numeric(x), Numeric(y)) => x < y
    case (Numeric(_), Alphanumeric(_)) => true
    case (Alphanumeric(_), Numeric(_)) => false
    case (Alphanumeric(x), Alphanumeric(y)) => exists k: nat :: FirstLower(x, y, k, LowerChar)
  }

  /** Rules 11.2 to 11.4: major, minor and patch decide first; of two versions with the same core
      one with identifiers is below one without, and of two with identifiers the first that
      differs decides, a list that merely ends being below the longer one. */
  ghost predicate Below(a: Version, b: Version) {
    || a.major < b.major
    || (a.major == b.major && a.minor < b.minor)
    || (a.major == b.major && a.minor == b.minor && a.patch < b.patch)
    || (a.major == b.major && a.minor == b.minor && a.patch == b.patch && a.pre != []
        && (b.pre == [] || exists k: nat :: FirstLower(a.pre, b.pre, k, LowerIdentifier)))
  }

  lemma FirstsAgree<T(!new)>(a: seq<T>, b: seq<T>, lower: (T, T) -> bool)
    ensures forall k: nat :: k > 0 && FirstLower(a, b, k, lower) ==> a[0] == b[0]
  {
    forall k: nat | k > 0 && FirstLower(a, b, k, lower) ensures a[0] == b[0] {
      assert a[0] == a[..k][0] && b[0] == b[..k][0];
    }
  }

  lemma {:induction false} TextFirst(a: string, b: string)
    ensures CompareText(a, b) < 0 <==> exists k: nat :: FirstLower(a, b, k, LowerChar)
  {
    if a != [] && b != [] && a[0] == b[0] {
      TextFirst(a[1..], b[1..]);
      FirstInTail(a, b, LowerChar);
    } else if CompareText(a, b) < 0 {
      assert FirstLower(a, b, 0, LowerChar);
    } else {
      FirstsAgree(a, b, LowerChar);
    }
  }

  lemma FirstInTail<T(!new)>(a: seq<T>, b: seq<T>, lower: (T, T) -> bool)
    requires a != [] && b != [] && a[0] == b[0] && !lower(a[0], a[0])
    ensures (exists k: nat :: FirstLower(a, b, k, lower)) <==> exists k: nat :: FirstLower(a[1..], b[1..], k, lower)
  {
    forall k: nat | FirstLower(a, b, k, lower)
      ensures k > 0 && FirstLower(a[1..], b[1..], k - 1, lower)
    {
      assert k > 0;
      assert a[1..][..k-1] == a[..k][1..] && b[1..][..k-1] == b[..k][1..];
    }
    forall k: nat | FirstLower(a[1..], b[1..], k, lower)
      ensures FirstLower(a, b, k + 1, lower)
    {
      assert a[..k+1] == [a[0]] + a[1..][..k] && b[..k+1] == [b[0]] + b[1..][..k];
    }
  }

  lemma IdentifierRules(a: Identifier, b: Identifier)
    ensures CompareIdentifier(a, b) < 0 <==> LowerIdentifier(a, b)
  {
    if a.Alphanumeric? && b.Alphanumeric? {
      TextFirst(a.text, b.text);
    }
  }

  lemma {:induction false} IdentifiersFirst(a: seq<Identifier>, b: seq<Identifier>)
    ensures CompareIdentifiers(a, b) < 0 <==> exists k: nat :: FirstLower(a, b, k, LowerIdentifier)
  {
    if a != [] && b != [] {
      IdentifierRules(a[0], b[0]);
      IdentifierOrder(a[0], b[0], a[0]);
      IdentifierRules(a[0], a[0]);
      IdentifierOrder(a[0], a[0], a[0]);
    }
    hide CompareIdentifier, LowerIdentifier;
    if a != [] && b != [] && a[0] == b[0] {
      IdentifiersFirst(a[1..], b[1..]);
      FirstInTail(a, b, LowerIdentifier);
    } else if CompareIdentifiers(a, b) < 0 {
      assert FirstLower(a, b, 0, LowerIdentifier);
    } else {
      FirstsAgree(a, b, LowerIdentifier);
    }
  }

  /** The comparison is the one of section 11, for all versions. */
  lemma PrecedenceIsSection11(a: Version, b: Version)
    ensures Compare(a, b) < 0 <==> Below(a, b)
    ensures Compare(a, b) > 0 <==> Below(b, a)
  {
    IdentifiersFirst(a.pre, b.pre);
    IdentifiersFirst(b.pre, a.pre);
    PrecedenceIsTotalOrder(a, b, a);
    hide CompareIdentifiers, FirstLower;
  }

  // ----- Allowed updates -----

  datatype UpdateKind = PatchUpdate | MinorUpdate | MajorUpdate

  function AllowedUpdates(allow: seq<UpdateKind>): set<UpdateKind> {
    if allow == [] then {PatchUpdate, MinorUpdate} else set k | k in allow
  }

  function KindOf(current: Version, candidate: Version): UpdateKind {
    if candidate.major != current.major then MajorUpdate
    else if candidate.minor != current.minor then MinorUpdate
    else PatchUpdate
  }

  predicate IsCandidate(current: Version, v: Version, allowed: set<UpdateKind>) {
    Compare(v, current) > 0 && KindOf(current, v) in allowed
  }

  /** What a filter permits: with no list patch and minor updates but no major ones, otherwise the
      kinds listed, where the first part of the core that differs gives the kind. */
  predicate Permits(allow: seq<UpdateKind>, current: Version, v: Version) {
    if v.major != current.major then MajorUpdate in allow
    else allow == [] || (if v.minor != current.minor then MinorUpdate else PatchUpdate) in allow
  }

  /** A candidate is above the current version and permitted. No pre-release of a plain current
      version ever is one. */
  lemma CandidateMeans(current: Version, v: Version, allow: seq<UpdateKind>)
    ensures IsCandidate(current, v, AllowedUpdates(allow)) <==> Below(current, v) && Permits(allow, current, v)
    ensures current.pre == [] && v == current.(pre := v.pre) ==> !IsCandidate(current, v, AllowedUpdates(allow))
  {
    PrecedenceIsSection11(v, current);
    hide Compare;
  }

  // ----- The list path -----

  datatype Tagged = Tagged(tag: string, version: Version)

  type Parser = string -> Option<Version>

  /** The tags that parse to a newer, allowed version, in list order. */
  function Selected(current: Version, tags: seq<string>, allowed: set<UpdateKind>, parse: Parser): seq<Tagged> {
    if tags == [] then []
    else
      var rest := Selected(current, Front(tags), allowed, parse);
      var v := parse(Last(tags));
      if v.Some? && IsCandidate(current, v.value, allowed) then rest + [Tagged(Last(tags), v.value)] else rest
  }

  ghost predicate Descending(xs: seq<Tagged>) {
    forall i, j :: 0 <= i < j < |xs| ==> Compare(xs[i].version, xs[j].version) >= 0
  }

  function Insert(x: Tagged, xs: seq<Tagged>): seq<Tagged> {
    if xs == [] then [x]
    else if Compare(x.version, xs[0].version) >= 0 then [x] + xs
    else [xs[0]] + Insert(x, xs[1..])
  }

  /** Stands for the library sort by descending precedence. */
  function SortDescending(xs: seq<Tagged>): seq<Tagged> {
    if xs == [] then [] else Insert(xs[0], SortDescending(xs[1..]))
  }

  lemma {:induction false} InsertAdds(x: Tagged, xs: seq<Tagged>)
    ensures multiset(Insert(x, xs)) == multiset(xs) + multiset{x}
  {
    hide Compare;
    if xs != [] {
      assert xs == [xs[0]] + xs[1..];
      InsertAdds(x, xs[1..]);
    }
  }

  lemma {:induction false} InsertKeeps(x: Tagged, xs: seq<Tagged>)
    requires Descending(xs)
    ensures Descending(Insert(x, xs))
    ensures multiset(Insert(x, xs)) == multiset(xs) + multiset{x}
  {
    hide Compare;
    InsertAdds(x, xs);
    if xs != [] {
      if Compare(x.version, xs[0].version) >= 0 {
        forall j | 0 <= j < |xs|
          ensures Compare(x.version, xs[j].version) >= 0
        {
          AtLeast(x.version, xs[0].version, xs[j].version);
        }
      } else {
        InsertKeeps(x, xs[1..]);
        PrecedenceIsTotalOrder(x.version, xs[0].version, x.version);
        BelowHead(x, xs);
      }
    }
  }

  lemma BelowHead(x: Tagged, xs: seq<Tagged>)
    requires xs != [] && Descending(xs) && Compare(xs[0].version, x.version) >= 0
    ensures forall j :: 0 <= j < |Insert(x, xs[1..])| ==> Compare(xs[0].version, Insert(x, xs[1..])[j].version) >= 0
  {
    hide Compare;
    var r := Insert(x, xs[1..]);
    InsertAdds(x, xs[1..]);
    forall j | 0 <= j < |r| ensures Compare(xs[0].version, r[j].version) >= 0 {
      assert r[j] in multiset(r);
      assert r[j] == x || r[j] in xs[1..];
    }
  }

  lemma AtLeast(a: Version, b: Version, c: Version)
    requires Compare(a, b) >= 0 && (Compare(b, c) >= 0 || b == c)
    ensures Compare(a, c) >= 0
  {
    PrecedenceIsTotalOrder(c, b, a);
    PrecedenceIsTotalOrder(b, a, c);
    PrecedenceIsTotalOrder(a, c, b);
  }

  lemma {:induction false} SortDescendingSorts(xs: seq<Tagged>)
    ensures Descending(SortDescending(xs))
    ensures multiset(SortDescending(xs)) == multiset(xs)
  {
    if xs != [] {
      assert xs == [xs[0]] + xs[1..];
      SortDescendingSorts(xs[1..]);
      InsertKeeps(xs[0], SortDescending(xs[1..]));
    }
  }

  function TagsOf(xs: seq<Tagged>): (r: seq<string>)
    ensures |r| == |xs| && forall i :: 0 <= i < |xs| ==> r[i] == xs[i].tag
  {
    seq(|xs|, i requires 0 <= i < |xs| => xs[i].tag)
  }

  lemma TagsCons(x: Tagged, xs: seq<Tagged>)
    ensures TagsOf([x] + xs) == [x.tag] + TagsOf(xs)
  {}

  lemma {:induction false} InsertTags(x: Tagged, xs: seq<Tagged>)
    ensures multiset(TagsOf(Insert(x, xs))) == multiset(TagsOf(xs)) + multiset{x.tag}
  {
    hide Compare, TagsOf;
    if xs == [] {
      TagsCons(x, []);
      assert [x] + [] == [x];
    } else if Compare(x.version, xs[0].version) >= 0 {
      TagsCons(x, xs);
    } else {
      InsertTags(x, xs[1..]);
      TagsCons(xs[0], Insert(x, xs[1..]));
      TagsCons(xs[0], xs[1..]);
      assert xs == [xs[0]] + xs[1..];
    }
  }

  lemma {:induction false} SortTags(xs: seq<Tagged>)
    ensures multiset(TagsOf(SortDescending(xs))) == multiset(TagsOf(xs))
  {
    hide TagsOf;
    if xs != [] {
      SortTags(xs[1..]);
      InsertTags(xs[0], SortDescending(xs[1..]));
      TagsCons(xs[0], xs[1..]);
      assert xs == [xs[0]] + xs[1..];
    }
  }

  /** The tag parses to a version above the current one that the filter permits. */
  ghost predicate Good(current: Version, tag: string, allow: seq<UpdateKind>, parse: Parser) {
    parse(tag).Some? && Below(current, parse(tag).value) && Permits(allow, current, parse(tag).value)
  }

  lemma {:induction false} SelectedCounts(current: Version, tags: seq<string>, allow: seq<UpdateKind>, parse: Parser, t: string)
    ensures multiset(TagsOf(Selected(current, tags, AllowedUpdates(allow), parse)))[t] ==
              if Good(current, t, allow, parse) then multiset(tags)[t] else 0
  {
    if tags != [] {
      hide IsCandidate, AllowedUpdates;
      SelectedCounts(current, Front(tags), allow, parse, t);
      var rest, v := Selected(current, Front(tags), AllowedUpdates(allow), parse), parse(Last(tags));
      assert tags == Front(tags) + [Last(tags)];
      if v.Some? {
        CandidateMeans(current, v.value, allow);
        assert TagsOf(rest + [Tagged(Last(tags), v.value)]) == TagsOf(rest) + [Last(tags)];
      }
    }
  }

  /** Selected keeps exactly the tags that parse to a candidate, with their versions. */
  lemma {:induction false} SelectedMeans(current: Version, tags: seq<string>, allowed: set<UpdateKind>, parse: Parser)
    ensures var s := Selected(current, tags, allowed, parse);
            && (forall x :: x in s ==> x.tag in tags && parse(x.tag) == Some(x.version) && IsCandidate(current, x.version, allowed))
            && (forall t :: t in tags && parse(t).Some? && IsCandidate(current, parse(t).value, allowed)
                  ==> Tagged(t, parse(t).value) in s)
  {
    if tags != [] {
      assert tags == Front(tags) + [Last(tags)];
      SelectedMeans(current, Front(tags), allowed, parse);
    }
  }

  /** No tag's version is below that of a tag further down. */
  ghost predicate HighestFirst(tags: seq<string>, parse: Parser) {
    forall i, j :: 0 <= i < j < |tags| ==>
      parse(tags[i]).Some? && parse(tags[j]).Some? && !Below(parse(tags[i]).value, parse(tags[j]).value)
  }

  lemma DescendingIsHighestFirst(xs: seq<Tagged>, parse: Parser)
    requires Descending(xs) && forall i :: 0 <= i < |xs| ==> parse(xs[i].tag) == Some(xs[i].version)
    ensures HighestFirst(TagsOf(xs), parse)
  {
    hide Compare, Below;
    forall i, j | 0 <= i < j < |xs| ensures !Below(xs[i].version, xs[j].version) {
      PrecedenceIsSection11(xs[i].version, xs[j].version);
    }
  }

  lemma CandidatesAre(current: Version, tags: seq<string>, allow: seq<UpdateKind>, parse: Parser, selected: seq<Tagged>)
    requires selected == Selected(current, tags, AllowedUpdates(allow), parse)
    ensures var r := TagsOf(SortDescending(selected));
            && (forall t :: multiset(r)[t] == if Good(current, t, allow, parse) then multiset(tags)[t] else 0)
            && HighestFirst(r, parse)
  {
    var sorted := SortDescending(selected);
    SortTags(selected);
    SortDescendingSorts(selected);
    SelectedMeans(current, tags, AllowedUpdates(allow), parse);
    hide Descending, Selected, SortDescending, HighestFirst, Good, IsCandidate, AllowedUpdates, TagsOf;
    forall t ensures multiset(TagsOf(sorted))[t] == if Good(current, t, allow, parse) then multiset(tags)[t] else 0 {
      SelectedCounts(current, tags, allow, parse, t);
    }
    forall i | 0 <= i < |sorted| ensures parse(sorted[i].tag) == Some(sorted[i].version) {
      assert sorted[i] in multiset(sorted);
    }
    DescendingIsHighestFirst(sorted, parse);
  }

  /** candidateImageTags with the semver filter: the candidates are the tags above the current
      version that the filter permits, each as often as it was listed, highest first. */
  method CandidateImageTags(current: string, tags: seq<string>, allow: seq<UpdateKind>, parse: Parser)
    returns (candidates: seq<string>, ghost sorted: seq<Tagged>)
    ensures parse(current).None? ==> candidates == []
    ensures parse(current).Some? ==>
              && multiset(sorted) == multiset(Selected(parse(current).value, tags, AllowedUpdates(allow), parse))
              && Descending(sorted) && candidates == TagsOf(sorted)
    ensures parse(current).Some? ==>
              forall t :: multiset(candidates)[t] == if Good(parse(current).value, t, allow, parse) then multiset(tags)[t] else 0
    ensures HighestFirst(candidates, parse)
  {
    hide Below, Good, KindOf, Compare, SortDescending;
    var currentVersion := parse(current);
    if currentVersion.None? {
      return [], [];
    }
    var allowed := AllowedUpdates(allow);
    var versions := [];
    for i := 0 to |tags|
      invariant versions == Selected(currentVersion.value, tags[..i], allowed, parse)
    {
      assert Front(tags[..i+1]) == tags[..i];
      var v := parse(tags[i]);
      if v.None? || !(Compare(v.value, currentVersion.value) > 0) || KindOf(currentVersion.value, v.value) !in allowed {
        continue;
      }
      versions := versions + [Tagged(tags[i], v.value)];
    }
    assert tags[..|tags|] == tags;
    SortDescendingSorts(versions);
    CandidatesAre(currentVersion.value, tags, allow, parse, versions);
    versions := SortDescending(versions);
    candidates := [];
    for i := 0 to |versions|
      invariant candidates == TagsOf(versions)[..i]
    {
      candidates := candidates + [versions[i].tag];
    }
    assert candidates == TagsOf(versions);
    sorted := versions;
  }
}
