/** probeSemverImageTag (internal/app/agent/discovery.go): which version the probe offers,
    for any registry, and why on a gap-free registry it is the head of the tag list's
    candidates. */
module SemverDiscovery {
  import opened Common
  import opened SemverOrder
  import opened SemverProbe

  /** Whether the tag major.minor.patch, with the current tag's prefix, exists. */
  type Registry = (int, int, int) -> Answer

  datatype Offer = NoUpdate | Update(version: Version) | Failure

  function Plain(major: nat, minor: nat, patch: nat): Version {
    Version(major, minor, patch, [])
  }

  function PatchRow(reg: Registry, major: int, minor: int): Oracle {
    patch => reg(major, minor, patch)
  }

  function MinorRow(reg: Registry, major: int): Oracle {
    minor => reg(major, minor, 0)
  }

  function MajorRow(reg: Registry): Oracle {
    major => reg(major, 0, 0)
  }

  const SMALL: int := 0x1000_0000_0000_0000

  /** No component of an existing tag reaches 2^60. */
  ghost predicate SmallTags(reg: Registry) {
    forall a, b, c :: reg(a, b, c) == Yes ==> a < SMALL && b < SMALL && c < SMALL
  }

  ghost predicate NeverFails(reg: Registry, cancelled: nat -> bool) {
    (forall a, b, c :: reg(a, b, c) != Failed) && (forall j :: !cancelled(j))
  }

  /** Above the current version nothing is skipped: patches of the current line, minors of
      the current major and majors come without holes, and so do the lines below each. */
  ghost predicate GapFreeAbove(reg: Registry, cur: Version) {
    forall a: nat, b: nat, c: nat :: reg(a, b, c) == Yes ==>
      && (a == cur.major && b == cur.minor ==> Filled(PatchRow(reg, a, b), cur.patch + 1, c))
      && (a == cur.major && b > cur.minor ==>
            Filled(MinorRow(reg, a), cur.minor + 1, b) && Filled(PatchRow(reg, a, b), 0, c))
      && (a > cur.major ==>
            Filled(MajorRow(reg), cur.major + 1, a) && Filled(MinorRow(reg, a), 0, b) && Filled(PatchRow(reg, a, b), 0, c))
  }

  ghost predicate Filled(oracle: Oracle, from: int, upTo: int) {
    forall i :: from <= i <= upTo ==> oracle(i) == Yes
  }

  /** What an offer promises whatever the registry: the tag exists, is newer and allowed. */
  ghost predicate Sound(reg: Registry, cur: Version, allowed: set<UpdateKind>, r: Offer) {
    r.Update? ==>
      && r.version.pre == []
      && reg(r.version.major, r.version.minor, r.version.patch) == Yes
      && IsCandidate(cur, r.version, allowed)
  }

  /** No existing candidate is above the offer; without an offer there is none. */
  ghost predicate Best(reg: Registry, cur: Version, allowed: set<UpdateKind>, r: Offer) {
    forall a: nat, b: nat, c: nat :: reg(a, b, c) == Yes && IsCandidate(cur, Plain(a, b, c), allowed) ==>
      r.Update? && Compare(r.version, Plain(a, b, c)) >= 0
  }

  // ----- One row -----

  lemma SmallRow(oracle: Oracle, start: int)
    requires 0 <= start && (forall i :: oracle(i) == Yes ==> i < SMALL)
    ensures !FailsFirstAtTop(oracle, start)
    ensures oracle(start + Pow2(TOP)) != Yes
  {
    Pow2Top();
    assert oracle(start + Pow2(TOP - 1)) != Yes;
  }

  /** On a row without holes from `start` on, the search ends at the highest value. */
  lemma RowTop(oracle: Oracle, cancelled: nat -> bool, start: int)
    requires 0 <= start && (forall i :: oracle(i) == Yes ==> i < SMALL)
    requires forall i :: oracle(i) == Yes ==> Filled(oracle, start, i)
    requires !Disturbed(oracle, cancelled)
    ensures var r := Probe(oracle, cancelled, start).0;
            && !r.Aborted?
            && (r.NotFound? ==> forall i :: i >= start ==> oracle(i) != Yes)
            && (r.Found? ==> r.at >= start && oracle(r.at) == Yes && forall i :: oracle(i) == Yes ==> i <= r.at)
  {
    ProbeFindsEdge(oracle, cancelled, start);
    SmallRow(oracle, start);
  }

  // ----- The three phases as functions -----

  function Nat(x: int): nat { if x < 0 then 0 else x }

  function PatchOffer(reg: Registry, cancelled: nat -> bool, major: nat, minor: nat, start: nat): Offer {
    match Probe(PatchRow(reg, major, minor), cancelled, start).0
    case NotFound => NoUpdate
    case Aborted => Failure
    case Found(patch) => Update(Plain(major, minor, Nat(patch)))
  }

  function LineOffer(reg: Registry, cancelled: nat -> bool, major: nat, start: nat): Offer {
    match Probe(MinorRow(reg, major), cancelled, start).0
    case NotFound => NoUpdate
    case Aborted => Failure
    case Found(minor) => PatchOffer(reg, cancelled, major, Nat(minor), 0)
  }

  function MajorOffer(reg: Registry, cancelled: nat -> bool, start: nat): Offer {
    match Probe(MajorRow(reg), cancelled, start).0
    case NotFound => NoUpdate
    case Aborted => Failure
    case Found(major) => LineOffer(reg, cancelled, Nat(major), 0)
  }

  function PhaseOffer(reg: Registry, cancelled: nat -> bool, cur: Version, kind: UpdateKind): Offer {
    match kind
    case PatchUpdate => PatchOffer(reg, cancelled, cur.major, cur.minor, cur.patch + 1)
    case MinorUpdate => LineOffer(reg, cancelled, cur.major, cur.minor + 1)
    case MajorUpdate => MajorOffer(reg, cancelled, cur.major + 1)
  }

  // ----- Soundness, for any registry -----

  lemma PatchOfferSound(reg: Registry, cancelled: nat -> bool, major: nat, minor: nat, start: nat)
    ensures var r := PatchOffer(reg, cancelled, major, minor, start);
            && (r.Update? ==> r.version.major == major && r.version.minor == minor && r.version.patch >= start &&
                              r.version.pre == [] && reg(major, minor, r.version.patch) == Yes)
            && (r.Failure? ==> !NeverFails(reg, cancelled))
  {
    ProbeFindsEdge(PatchRow(reg, major, minor), cancelled, start);
  }

  lemma LineOfferSound(reg: Registry, cancelled: nat -> bool, major: nat, start: nat)
    ensures var r := LineOffer(reg, cancelled, major, start);
            && (r.Update? ==> r.version.major == major && r.version.minor >= start &&
                              r.version.pre == [] && reg(major, r.version.minor, r.version.patch) == Yes)
            && (r.Failure? ==> !NeverFails(reg, cancelled))
  {
    ProbeFindsEdge(MinorRow(reg, major), cancelled, start);
    var s := Probe(MinorRow(reg, major), cancelled, start).0;
    if s.Found? { PatchOfferSound(reg, cancelled, major, s.at, 0); }
  }

  lemma PhaseOfferSound(reg: Registry, cancelled: nat -> bool, cur: Version, kind: UpdateKind, allowed: set<UpdateKind>)
    requires kind in allowed
    ensures Sound(reg, cur, allowed, PhaseOffer(reg, cancelled, cur, kind))
    ensures PhaseOffer(reg, cancelled, cur, kind).Failure? ==> !NeverFails(reg, cancelled)
  {
    match kind
    case PatchUpdate => PatchOfferSound(reg, cancelled, cur.major, cur.minor, cur.patch + 1);
    case MinorUpdate => LineOfferSound(reg, cancelled, cur.major, cur.minor + 1);
    case MajorUpdate =>
      ProbeFindsEdge(MajorRow(reg), cancelled, cur.major + 1);
      var s := Probe(MajorRow(reg), cancelled, cur.major + 1).0;
      if s.Found? { LineOfferSound(reg, cancelled, s.at, 0); }
  }

  // ----- The highest candidate, on gap-free registries -----

  ghost predicate BestOfKind(reg: Registry, cur: Version, kind: UpdateKind, r: Offer) {
    forall a: nat, b: nat, c: nat :: reg(a, b, c) == Yes && IsCandidate(cur, Plain(a, b, c), {kind}) ==>
      r.Update? && Compare(r.version, Plain(a, b, c)) >= 0
  }

  /** Which plain versions are candidates of a kind. */
  lemma PlainCandidates(cur: Version, a: nat, b: nat, c: nat)
    ensures IsCandidate(cur, Plain(a, b, c), {MajorUpdate}) ==> a > cur.major
    ensures cur.pre == [] && IsCandidate(cur, Plain(a, b, c), {PatchUpdate}) ==> a == cur.major && b == cur.minor && c > cur.patch
  {}

  lemma PlainOrder(v: Version, a: nat, b: nat, c: nat)
    requires v.pre == []
    ensures v.major > a || (v.major == a && (v.minor > b || (v.minor == b && v.patch >= c))) ==> Compare(v, Plain(a, b, c)) >= 0
  {}

  lemma PatchPhaseBest(reg: Registry, cancelled: nat -> bool, cur: Version)
    requires SmallTags(reg) && NeverFails(reg, cancelled) && GapFreeAbove(reg, cur) && cur.pre == []
    ensures BestOfKind(reg, cur, PatchUpdate, PhaseOffer(reg, cancelled, cur, PatchUpdate))
  {
    hide GapFreeAbove, SmallTags, NeverFails, PatchOffer, Compare, IsCandidate;
    PatchRowTop(reg, cancelled, cur, cur.major, cur.minor, cur.patch + 1);
    var r := PhaseOffer(reg, cancelled, cur, PatchUpdate);
    forall a: nat, b: nat, c: nat | reg(a, b, c) == Yes && IsCandidate(cur, Plain(a, b, c), {PatchUpdate})
      ensures r.Update? && Compare(r.version, Plain(a, b, c)) >= 0
    {
      PlainCandidates(cur, a, b, c);
      PlainOrder(r.version, a, b, c);
    }
  }

  /** The patch row of the current line, or of any line above it, probed from where the
      phase starts. */
  lemma PatchRowTop(reg: Registry, cancelled: nat -> bool, cur: Version, major: nat, minor: nat, start: nat)
    requires SmallTags(reg) && NeverFails(reg, cancelled) && GapFreeAbove(reg, cur)
    requires || (major == cur.major && minor == cur.minor && start == cur.patch + 1)
             || ((major > cur.major || (major == cur.major && minor > cur.minor)) && start == 0)
    ensures var r := PatchOffer(reg, cancelled, major, minor, start);
            && !r.Failure?
            && (r.NoUpdate? ==> forall c: nat :: c >= start ==> reg(major, minor, c) != Yes)
            && (r.Update? ==> r.version.major == major && r.version.minor == minor && r.version.pre == [] &&
                              forall c: nat :: reg(major, minor, c) == Yes ==> c <= r.version.patch)
  {
    var row := PatchRow(reg, major, minor);
    forall i | row(i) == Yes
      ensures Filled(row, start, i)
    {
      if i >= 0 { assert reg(major, minor, i) == Yes; }
    }
    RowTop(row, cancelled, start);
    forall c: nat | reg(major, minor, c) == Yes
      ensures row(c) == Yes
    {}
  }

  lemma LineTop(reg: Registry, cancelled: nat -> bool, cur: Version, major: nat, start: nat)
    requires SmallTags(reg) && NeverFails(reg, cancelled) && GapFreeAbove(reg, cur)
    requires (major == cur.major && start == cur.minor + 1) || (major > cur.major && start == 0)
    ensures var r := LineOffer(reg, cancelled, major, start);
            && !r.Failure?
            && (forall b: nat, c: nat :: b >= start && reg(major, b, c) == Yes ==>
                  r.Update? && Compare(r.version, Plain(major, b, c)) >= 0)
  {
    var row := MinorRow(reg, major);
    forall i | row(i) == Yes
      ensures Filled(row, start, i)
    {
      if i >= 0 { assert reg(major, i, 0) == Yes; }
    }
    RowTop(row, cancelled, start);
    var s := Probe(row, cancelled, start).0;
    forall b: nat, c: nat | b >= start && reg(major, b, c) == Yes
      ensures row(b) == Yes
    {
      assert Filled(PatchRow(reg, major, b), 0, c);
      assert PatchRow(reg, major, b)(0) == Yes;
    }
    if s.Found? {
      PatchRowTop(reg, cancelled, cur, major, s.at, 0);
      assert row(s.at) == Yes && reg(major, s.at, 0) == Yes;
    }
  }

  /** Below an existing version of a higher major, its major exists and is reached without holes. */
  lemma MajorGap(reg: Registry, cur: Version, a: nat, b: nat, c: nat)
    requires GapFreeAbove(reg, cur) && a > cur.major && reg(a, b, c) == Yes
    ensures Filled(MajorRow(reg), cur.major + 1, a) && reg(a, 0, 0) == Yes
  {
    assert MajorRow(reg)(a) == Yes;
  }

  lemma MajorTop(reg: Registry, cancelled: nat -> bool, cur: Version)
    requires SmallTags(reg) && NeverFails(reg, cancelled) && GapFreeAbove(reg, cur)
    ensures var s := Probe(MajorRow(reg), cancelled, cur.major + 1).0;
            && !s.Aborted?
            && (s.NotFound? ==> forall a: nat, b: nat, c: nat :: a > cur.major ==> reg(a, b, c) != Yes)
            && (s.Found? ==> s.at > cur.major && reg(s.at, 0, 0) == Yes &&
                             forall a: nat, b: nat, c: nat :: reg(a, b, c) == Yes ==> a <= s.at)
  {
    hide GapFreeAbove, Probe, Pow2;
    var row := MajorRow(reg);
    forall i | row(i) == Yes
      ensures Filled(row, cur.major + 1, i)
    {
      if i > cur.major { MajorGap(reg, cur, i, 0, 0); }
    }
    RowTop(row, cancelled, cur.major + 1);
    forall a: nat, b: nat, c: nat | a > cur.major && reg(a, b, c) == Yes
      ensures row(a) == Yes
    {
      MajorGap(reg, cur, a, b, c);
    }
  }

  lemma MajorPhaseBest(reg: Registry, cancelled: nat -> bool, cur: Version)
    requires SmallTags(reg) && NeverFails(reg, cancelled) && GapFreeAbove(reg, cur)
    ensures BestOfKind(reg, cur, MajorUpdate, PhaseOffer(reg, cancelled, cur, MajorUpdate))
  {
    hide GapFreeAbove, SmallTags, NeverFails, Probe, LineOffer, Compare, IsCandidate;
    MajorTop(reg, cancelled, cur);
    var s := Probe(MajorRow(reg), cancelled, cur.major + 1).0;
    if s.Found? {
      LineTop(reg, cancelled, cur, s.at, 0);
      LineOfferSound(reg, cancelled, s.at, 0);
    }
    var r := PhaseOffer(reg, cancelled, cur, MajorUpdate);
    forall a: nat, b: nat, c: nat | reg(a, b, c) == Yes && IsCandidate(cur, Plain(a, b, c), {MajorUpdate})
      ensures r.Update? && Compare(r.version, Plain(a, b, c)) >= 0
    {
      PlainCandidates(cur, a, b, c);
      assert s.Found? && a <= s.at;
      assert reg(s.at, 0, 0) == Yes;
      PlainOrder(r.version, a, b, c);
    }
  }

  lemma PhaseBest(reg: Registry, cancelled: nat -> bool, cur: Version, kind: UpdateKind)
    requires SmallTags(reg) && NeverFails(reg, cancelled) && GapFreeAbove(reg, cur) && cur.pre == []
    ensures BestOfKind(reg, cur, kind, PhaseOffer(reg, cancelled, cur, kind))
  {
    match kind
    case PatchUpdate => PatchPhaseBest(reg, cancelled, cur);
    case MinorUpdate => LineTop(reg, cancelled, cur, cur.major, cur.minor + 1);
    case MajorUpdate => MajorPhaseBest(reg, cancelled, cur);
  }

  // ----- The probe -----

  method ProbePatch(reg: Registry, cancelled: nat -> bool, major: nat, minor: nat, start: nat) returns (r: Offer)
    requires SmallTags(reg) && start < SMALL
    ensures r == PatchOffer(reg, cancelled, major, minor, start)
  {
    var row := PatchRow(reg, major, minor);
    SmallRow(row, start);
    ProbeFindsEdge(row, cancelled, start);
    var s, _ := ProbeContiguous(row, cancelled, start);
    match s
    case NotFound => return NoUpdate;
    case Aborted => return Failure;
    case Found(patch) => return Update(Plain(major, minor, patch));
  }

  /** The highest minor of a major from `start` on, then its highest patch. */
  method ProbeLine(reg: Registry, cancelled: nat -> bool, major: nat, start: nat) returns (r: Offer)
    requires SmallTags(reg) && start < SMALL
    ensures r == LineOffer(reg, cancelled, major, start)
  {
    var row := MinorRow(reg, major);
    SmallRow(row, start);
    ProbeFindsEdge(row, cancelled, start);
    var s, _ := ProbeContiguous(row, cancelled, start);
    match s
    case NotFound => return NoUpdate;
    case Aborted => return Failure;
    case Found(minor) => r := ProbePatch(reg, cancelled, major, minor, 0);
  }

  method ProbeMajor(reg: Registry, cancelled: nat -> bool, start: nat) returns (r: Offer)
    requires SmallTags(reg) && start < SMALL
    ensures r == MajorOffer(reg, cancelled, start)
  {
    var row := MajorRow(reg);
    SmallRow(row, start);
    ProbeFindsEdge(row, cancelled, start);
    var s, _ := ProbeContiguous(row, cancelled, start);
    match s
    case NotFound => return NoUpdate;
    case Aborted => return Failure;
    case Found(major) => r := ProbeLine(reg, cancelled, major, 0);
  }

  function Consider(best: Offer, next: Offer): Offer {
    if next.Update? && (best.NoUpdate? || (best.Update? && Compare(next.version, best.version) > 0)) then next else best
  }

  lemma ConsiderKeeps(reg: Registry, cur: Version, allowed: set<UpdateKind>, seen: set<UpdateKind>, best: Offer, next: Offer, kind: UpdateKind)
    requires kind in allowed && seen <= allowed
    requires Sound(reg, cur, allowed, best) && Sound(reg, cur, allowed, next)
    ensures Sound(reg, cur, allowed, Consider(best, next))
    ensures Best(reg, cur, seen, best) && BestOfKind(reg, cur, kind, next) && !best.Failure?
            ==> Best(reg, cur, seen + {kind}, Consider(best, next))
  {
    var r := Consider(best, next);
    if Best(reg, cur, seen, best) && BestOfKind(reg, cur, kind, next) && !best.Failure? {
      forall a: nat, b: nat, c: nat | reg(a, b, c) == Yes && IsCandidate(cur, Plain(a, b, c), seen + {kind})
        ensures r.Update? && Compare(r.version, Plain(a, b, c)) >= 0
      {
        var v := Plain(a, b, c);
        var mine := if KindOf(cur, v) in seen then best else next;
        assert IsCandidate(cur, v, {kind}) || IsCandidate(cur, v, seen);
        assert mine.Update? && Compare(mine.version, v) >= 0;
        PrecedenceIsTotalOrder(mine.version, r.version, v);
        AtLeast(r.version, mine.version, v);
      }
    }
  }

  ghost predicate Regular(reg: Registry, cancelled: nat -> bool, cur: Version) {
    NeverFails(reg, cancelled) && GapFreeAbove(reg, cur) && cur.pre == []
  }

  /** One phase of the probe, skipped when its kind is not allowed. */
  method ConsiderKind(reg: Registry, cancelled: nat -> bool, cur: Version, allowed: set<UpdateKind>,
                      kind: UpdateKind, best: Offer, ghost seen: set<UpdateKind>)
    returns (r: Offer)
    requires SmallTags(reg) && cur.major + 1 < SMALL && cur.minor + 1 < SMALL && cur.patch + 1 < SMALL
    requires seen <= allowed && !best.Failure? && Sound(reg, cur, allowed, best)
    requires Regular(reg, cancelled, cur) ==> Best(reg, cur, seen, best)
    ensures Sound(reg, cur, allowed, r)
    ensures r.Failure? ==> !NeverFails(reg, cancelled)
    ensures Regular(reg, cancelled, cur) ==> Best(reg, cur, seen + ({kind} * allowed), r)
  {
    if kind !in allowed {
      assert seen + ({kind} * allowed) == seen;
      return best;
    }
    var next;
    match kind {
      case PatchUpdate => next := ProbePatch(reg, cancelled, cur.major, cur.minor, cur.patch + 1);
      case MinorUpdate => next := ProbeLine(reg, cancelled, cur.major, cur.minor + 1);
      case MajorUpdate => next := ProbeMajor(reg, cancelled, cur.major + 1);
    }
    assert next == PhaseOffer(reg, cancelled, cur, kind);
    hide PhaseOffer, Best, BestOfKind, Sound, GapFreeAbove, SmallTags, NeverFails;
    PhaseOfferSound(reg, cancelled, cur, kind, allowed);
    if next.Failure? {
      return Failure;
    }
    if Regular(reg, cancelled, cur) { PhaseBest(reg, cancelled, cur, kind); }
    ConsiderKeeps(reg, cur, allowed, seen, best, next, kind);
    assert {kind} * allowed == {kind};
    return Consider(best, next);
  }

  /** probeSemverImageTag: for any registry an offer exists, is newer and allowed and a
      failure has a cause; on a registry that never fails and has no gap above a plain current
      version, the offer is the highest candidate and its absence means there is none. */
  method ProbeSemverImageTag(reg: Registry, cancelled: nat -> bool, current: string, parse: Parser, filter: Option<seq<UpdateKind>>)
    returns (r: Offer)
    requires SmallTags(reg)
    requires var v := parse(current); v.Some? ==> v.value.major + 1 < SMALL && v.value.minor + 1 < SMALL && v.value.patch + 1 < SMALL
    ensures filter.None? || parse(current).None? ==> r == NoUpdate
    ensures filter.Some? && parse(current).Some? ==>
              var cur, allowed := parse(current).value, AllowedUpdates(filter.value);
              && Sound(reg, cur, allowed, r)
              && (r.Failure? ==> !NeverFails(reg, cancelled))
              && (NeverFails(reg, cancelled) && GapFreeAbove(reg, cur) && cur.pre == [] ==> Best(reg, cur, allowed, r))
  {
    if filter.None? {
      return NoUpdate;
    }
    var parsed := parse(current);
    if parsed.None? {
      return NoUpdate;
    }
    var cur, allowed := parsed.value, AllowedUpdates(filter.value);
    r := ConsiderKind(reg, cancelled, cur, allowed, PatchUpdate, NoUpdate, {});
    if r.Failure? {
      return Failure;
    }
    ghost var seen := {PatchUpdate} * allowed;
    assert {} + seen == seen;
    r := ConsiderKind(reg, cancelled, cur, allowed, MinorUpdate, r, seen);
    if r.Failure? {
      return Failure;
    }
    ghost var seen2 := seen + ({MinorUpdate} * allowed);
    r := ConsiderKind(reg, cancelled, cur, allowed, MajorUpdate, r, seen2);
    assert seen2 + ({MajorUpdate} * allowed) == allowed by {
      forall k | k in allowed
        ensures k in seen2 + ({MajorUpdate} * allowed)
      {
        match k case PatchUpdate => case MinorUpdate => case MajorUpdate =>
      }
    }
  }

  // ----- Agreement with the list path -----

  /** The tag list shows the registry under one prefix: a plain version exists exactly when
      its rendering is listed, and every listed version is the rendering of a plain one. */
  ghost predicate Lists(tags: seq<string>, reg: Registry, render: Version -> string, parse: Parser) {
    && (forall a: nat, b: nat, c: nat :: reg(a, b, c) == Yes <==> render(Plain(a, b, c)) in tags)
    && (forall a: nat, b: nat, c: nat :: parse(render(Plain(a, b, c))) == Some(Plain(a, b, c)))
    && (forall t :: t in tags && parse(t).Some? ==> parse(t).value.pre == [] && t == render(parse(t).value))
  }

  /** On a gap-free registry the probe offers the head of the candidate list, and nothing
      exactly when that list is empty. */
  lemma ProbeIsHeadOfCandidates(reg: Registry, cancelled: nat -> bool, cur: Version, allowed: set<UpdateKind>, r: Offer,
                                tags: seq<string>, render: Version -> string, parse: Parser, sorted: seq<Tagged>)
    requires Lists(tags, reg, render, parse)
    requires Sound(reg, cur, allowed, r) && Best(reg, cur, allowed, r) && !r.Failure?
    requires multiset(sorted) == multiset(Selected(cur, tags, allowed, parse)) && Descending(sorted)
    ensures r.NoUpdate? <==> sorted == []
    ensures r.Update? ==> TagsOf(sorted)[0] == render(r.version)
  {
    var selected := Selected(cur, tags, allowed, parse);
    SelectedMeans(cur, tags, allowed, parse);
    forall x | x in sorted
      ensures x in selected && r.Update? && Compare(r.version, x.version) >= 0
    {
      assert x in multiset(sorted);
      var v := x.version;
      assert v == Plain(v.major, v.minor, v.patch);
      assert reg(v.major, v.minor, v.patch) == Yes;
    }
    if r.Update? {
      var v := r.version;
      assert v == Plain(v.major, v.minor, v.patch);
      assert render(v) in tags;
      var mine := Tagged(render(v), v);
      assert mine in selected;
      assert mine in multiset(selected);
      assert mine in multiset(sorted);
      var k :| 0 <= k < |sorted| && sorted[k] == mine;
      var head := sorted[0];
      assert Compare(head.version, v) >= 0 by {
        if k == 0 { PrecedenceIsTotalOrder(v, v, v); }
      }
      PrecedenceIsTotalOrder(v, head.version, v);
      assert head in selected;
    }
  }
}
