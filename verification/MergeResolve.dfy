/** Choosing among the captures of one medium for one sector (internal/merge/resolve.go, candidates.go, provenance.go). */
module MergeResolution {
  import opened Prelude
  import opened Transitions
  import opened ByteOrder

  datatype Candidate = Candidate(captureId: string, mark: Mark)

  datatype SelectionRule =
    | TrustedChecksumMatch | ReconstructedTrustedChecksum | IdenticalVerified | SingleVerified
    | IdenticalUnverified | SingleUnverified | ConflictRule | MissingRule

  datatype Evidence =
    | SuccessfulRead | RepeatedAgreement | CrossCaptureAgree | TrustedChecksumEvidence | Reconstruction | TentativeData | ConflictEvidence

  datatype Resolution = Resolution(mark: Mark, selected: string, rule: SelectionRule, hashes: seq<Hash>,
                                   provenance: seq<Evidence>, conflict: bool)

  /** claimsData of this package (candidates.go:83): without checksum errors and conflicts. */
  predicate OffersData(m: Mark) {
    m.state == READ_UNVERIFIED || m.state == VERIFIED || m.state == RECONSTRUCTED
  }

  // ----- the candidates of a kind

  datatype Kind = TrustedOnes | ReconstructedOnes | VerifiedOnes | UnverifiedOnes

  predicate OfKind(c: Candidate, kind: Kind) {
    match kind
    case TrustedOnes => c.mark.state == VERIFIED && c.mark.confidence == TRUSTED_CHECKSUM
    case ReconstructedOnes => c.mark.state == RECONSTRUCTED && c.mark.confidence == RECONSTRUCTED_CHECKSUM
    case VerifiedOnes => c.mark.state == VERIFIED
    case UnverifiedOnes => c.mark.state == READ_UNVERIFIED && c.mark.confidence == SINGLE_READ
  }

  function Select(cs: seq<Candidate>, kind: Kind): (r: seq<Candidate>)
    ensures forall c :: c in r <==> c in cs && OfKind(c, kind)
  {
    if cs == [] then []
    else
      assert cs == cs[..|cs|-1] + [cs[|cs|-1]];
      Select(cs[..|cs|-1], kind) + if OfKind(cs[|cs|-1], kind) then [cs[|cs|-1]] else []
  }

  /** The filters of candidates.go:10-45. */
  method Filter(cs: seq<Candidate>, kind: Kind) returns (filtered: seq<Candidate>)
    ensures filtered == Select(cs, kind)
  {
    filtered := [];
    for i := 0 to |cs|
      invariant filtered == Select(cs[..i], kind)
    {
      assert cs[..i+1][..i] == cs[..i];
      if OfKind(cs[i], kind) {
        filtered := filtered + [cs[i]];
      }
    }
    assert cs[..|cs|] == cs;
  }

  predicate AllSameHash(cs: seq<Candidate>) {
    cs != [] && forall i :: 0 < i < |cs| ==> cs[i].mark.hash == cs[0].mark.hash
  }

  function Captures(cs: seq<Candidate>): set<string> {
    set c | c in cs :: c.captureId
  }

  /** distinctCaptures (candidates.go:58). */
  method DistinctCaptures(cs: seq<Candidate>) returns (n: nat)
    ensures n == |Captures(cs)|
  {
    var seen: set<string> := {};
    for i := 0 to |cs|
      invariant seen == Captures(cs[..i])
    {
      assert cs[..i+1] == cs[..i] + [cs[i]];
      seen := seen + {cs[i].captureId};
    }
    assert cs[..|cs|] == cs;
    return |seen|;
  }

  // ----- the hashes offered, in order

  ghost predicate Ascending(hs: seq<Hash>) {
    forall i, j :: 0 <= i < j < |hs| ==> Less(hs[i], hs[j])
  }

  function HashesOf(cs: seq<Candidate>): set<Hash> {
    set c | c in cs && OffersData(c.mark) :: c.mark.hash
  }

  function InsertHash(hs: seq<Hash>, h: Hash): (r: seq<Hash>)
    ensures forall x :: x in r <==> x in hs || x == h
  {
    if hs == [] then [h]
    else if h == hs[0] then hs
    else if Less(h, hs[0]) then [h] + hs
    else [hs[0]] + InsertHash(hs[1..], h)
  }

  function UniqueHashes(cs: seq<Candidate>): (hs: seq<Hash>)
    ensures forall h :: h in hs <==> h in HashesOf(cs)
  {
    if cs == [] then []
    else
      assert cs == cs[..|cs|-1] + [cs[|cs|-1]];
      var rest, c := UniqueHashes(cs[..|cs|-1]), cs[|cs|-1];
      if OffersData(c.mark) then InsertHash(rest, c.mark.hash) else rest
  }

  lemma {:induction false} InsertAscending(hs: seq<Hash>, h: Hash)
    requires Ascending(hs)
    ensures Ascending(InsertHash(hs, h))
  {
    if hs != [] && h != hs[0] {
      LessTotal(h, hs[0]);
      if Less(h, hs[0]) {
        var r: seq<Hash> := [h] + hs;
        forall j | 0 < j < |r| ensures Less(r[0], r[j]) {
          if j > 1 {
            LessTransitive(h, hs[0], hs[j-1]);
          }
        }
      } else {
        assert Ascending(hs[1..]);
        InsertAscending(hs[1..], h);
        var r := InsertHash(hs[1..], h);
        forall j | 0 <= j < |r| ensures Less(hs[0], r[j]) {
          assert r[j] in r;
          if r[j] != h {
            var k :| 0 <= k < |hs[1..]| && hs[1..][k] == r[j];
            assert hs[1..][k] == hs[k+1];
          }
        }
      }
    }
  }

  lemma {:induction false} HashesAscending(cs: seq<Candidate>)
    ensures Ascending(UniqueHashes(cs))
  {
    if cs != [] {
      HashesAscending(cs[..|cs|-1]);
      InsertAscending(UniqueHashes(cs[..|cs|-1]), cs[|cs|-1].mark.hash);
    }
  }

  /** An ascending list is determined by its members. */
  lemma {:induction false} AscendingUnique(a: seq<Hash>, b: seq<Hash>)
    requires Ascending(a) && Ascending(b) && forall h :: h in a <==> h in b
    ensures a == b
  {
    assert b == [] || b[0] in b;
    if a != [] {
      assert a[0] in a;
      AscendingFirst(a, b);
      forall h ensures h in a[1..] <==> h in b[1..] {
        AscendingTail(a, h);
        AscendingTail(b, h);
      }
      AscendingUnique(a[1..], b[1..]);
      assert a == [a[0]] + a[1..] && b == [b[0]] + b[1..];
    }
  }

  lemma AscendingFirst(a: seq<Hash>, b: seq<Hash>)
    requires a != [] && b != [] && Ascending(a) && Ascending(b) && a[0] in b && b[0] in a
    ensures a[0] == b[0]
  {
    LessTotal(a[0], b[0]);
    var i :| 0 <= i < |b| && b[i] == a[0];
    var j :| 0 <= j < |a| && a[j] == b[0];
  }

  lemma AscendingTail(a: seq<Hash>, h: Hash)
    requires a != [] && Ascending(a)
    ensures Ascending(a[1..]) && (h in a[1..] <==> h in a && h != a[0])
  {
    LessTotal(a[0], a[0]);
    if h in a[1..] {
      var i :| 0 <= i < |a[1..]| && a[1..][i] == h;
      assert a[i+1] == h && Less(a[0], a[i+1]);
    }
    if h in a && h != a[0] {
      var i :| 0 <= i < |a| && a[i] == h;
      assert a[1..][i-1] == h;
    }
  }

  lemma {:induction false} InsertPermutes(hs: seq<Hash>, h: Hash)
    requires h !in hs
    ensures multiset(InsertHash(hs, h)) == multiset(hs) + multiset{h}
  {
    if hs != [] && !Less(h, hs[0]) {
      InsertPermutes(hs[1..], h);
      assert hs == [hs[0]] + hs[1..];
    }
  }

  /** Stands for the library's sort.Slice over distinct hashes. */
  method SortHashes(hs: seq<Hash>) returns (r: seq<Hash>)
    requires forall i, j :: 0 <= i < j < |hs| ==> hs[i] != hs[j]
    ensures Ascending(r) && multiset(r) == multiset(hs)
  {
    r := [];
    for i := 0 to |hs|
      invariant Ascending(r) && multiset(r) == multiset(hs[..i])
    {
      assert hs[..i+1] == hs[..i] + [hs[i]];
      assert hs[i] !in multiset(hs[..i]);
      assert forall x :: x in r <==> x in multiset(r);
      InsertAscending(r, hs[i]);
      InsertPermutes(r, hs[i]);
      r := InsertHash(r, hs[i]);
    }
    assert hs[..|hs|] == hs;
  }

  /** uniqueHashes (candidates.go:65): collect what has not been seen, then sort. */
  method CollectHashes(cs: seq<Candidate>) returns (hashes: seq<Hash>)
    ensures hashes == UniqueHashes(cs)
  {
    var seen: set<Hash> := {};
    var found: seq<Hash> := [];
    for i := 0 to |cs|
      invariant seen == HashesOf(cs[..i])
      invariant forall h :: h in found <==> h in seen
      invariant forall j, k :: 0 <= j < k < |found| ==> found[j] != found[k]
    {
      assert cs[..i+1] == cs[..i] + [cs[i]];
      if !OffersData(cs[i].mark) {
        continue;
      }
      if cs[i].mark.hash in seen {
        continue;
      }
      seen := seen + {cs[i].mark.hash};
      found := found + [cs[i].mark.hash];
    }
    assert cs[..|cs|] == cs;
    hashes := SortHashes(found);
    assert forall h :: h in hashes <==> h in multiset(hashes);
    assert forall h :: h in found <==> h in multiset(found);
    HashesAscending(cs);
    AscendingUnique(hashes, UniqueHashes(cs));
  }

  // ----- the cascade

  function Provenance(rule: SelectionRule, m: Mark): seq<Evidence> {
    match rule
    case TrustedChecksumMatch => [TrustedChecksumEvidence]
    case ReconstructedTrustedChecksum => [Reconstruction, TrustedChecksumEvidence]
    case IdenticalVerified => [RepeatedAgreement, CrossCaptureAgree]
    case SingleVerified => StateEvidence(m)
    case IdenticalUnverified => [CrossCaptureAgree, TentativeData]
    case SingleUnverified => [SuccessfulRead, TentativeData]
    case ConflictRule => [ConflictEvidence]
    case MissingRule => []
  }

  /** EvidenceFromStateConfidence (internal/integrity/provenance.go:39). */
  function StateEvidence(m: Mark): seq<Evidence> {
    if m.state == READ_UNVERIFIED then [SuccessfulRead, TentativeData]
    else if m.state == VERIFIED then
      if m.confidence == REPEATED_SINGLE_CAPTURE then [RepeatedAgreement]
      else if m.confidence == REPEATED_INDEPENDENT_CAPTURE then [RepeatedAgreement, CrossCaptureAgree]
      else if m.confidence == TRUSTED_CHECKSUM then [TrustedChecksumEvidence]
      else []
    else if m.state == RECONSTRUCTED then [Reconstruction, TrustedChecksumEvidence]
    else if m.state == CONFLICTING then [ConflictEvidence]
    else []
  }

  function Chosen(c: Candidate, rule: SelectionRule, state: uint8, confidence: uint8, hashes: seq<Hash>): Resolution {
    var m := c.mark.(state := state, confidence := confidence);
    Resolution(m, c.captureId, rule, hashes, Provenance(rule, m), false)
  }

  function Conflicted(hashes: seq<Hash>): Resolution {
    Resolution(PlainMark(CONFLICTING, NO_CONFIDENCE, 0), "", ConflictRule, hashes, [ConflictEvidence], true)
  }

  function NothingThere(): Resolution {
    Resolution(PlainMark(MISSING, NO_CONFIDENCE, 0), "", MissingRule, [], [], false)
  }

  /** The rule cascade of resolve.go:21-64 for the candidates of one sector. */
  function Resolve(cs: seq<Candidate>): Resolution {
    var hashes := UniqueHashes(cs);
    var trusted, reconstructed := Select(cs, TrustedOnes), Select(cs, ReconstructedOnes);
    var verified, unverified := Select(cs, VerifiedOnes), Select(cs, UnverifiedOnes);
    if trusted != [] then
      if AllSameHash(trusted) then Chosen(trusted[0], TrustedChecksumMatch, VERIFIED, TRUSTED_CHECKSUM, hashes) else Conflicted(hashes)
    else if reconstructed != [] then
      if AllSameHash(reconstructed) then Chosen(reconstructed[0], ReconstructedTrustedChecksum, RECONSTRUCTED, RECONSTRUCTED_CHECKSUM, hashes)
      else Conflicted(hashes)
    else if verified != [] then
      if |verified| >= 2 && AllSameHash(verified) then Chosen(verified[0], IdenticalVerified, VERIFIED, REPEATED_INDEPENDENT_CAPTURE, hashes)
      else if |verified| == 1 then Chosen(verified[0], SingleVerified, verified[0].mark.state, verified[0].mark.confidence, hashes)
      else Conflicted(hashes)
    else if unverified != [] then
      if |unverified| >= 2 && AllSameHash(unverified) && |Captures(unverified)| >= 2 then
        Chosen(unverified[0], IdenticalUnverified, VERIFIED, REPEATED_INDEPENDENT_CAPTURE, hashes)
      else if |unverified| == 1 then Chosen(unverified[0], SingleUnverified, READ_UNVERIFIED, SINGLE_READ, hashes)
      else Conflicted(hashes)
    else if hashes != [] then Conflicted(hashes)
    else NothingThere()
  }

  method ResolveCandidates(cs: seq<Candidate>) returns (r: Resolution)
    ensures r == Resolve(cs)
  {
    var hashes := CollectHashes(cs);
    var trusted := Filter(cs, TrustedOnes);
    if |trusted| > 0 {
      if !AllSameHash(trusted) {
        return Conflicted(hashes);
      }
      return Chosen(trusted[0], TrustedChecksumMatch, VERIFIED, TRUSTED_CHECKSUM, hashes);
    }
    var reconstructed := Filter(cs, ReconstructedOnes);
    if |reconstructed| > 0 {
      if !AllSameHash(reconstructed) {
        return Conflicted(hashes);
      }
      return Chosen(reconstructed[0], ReconstructedTrustedChecksum, RECONSTRUCTED, RECONSTRUCTED_CHECKSUM, hashes);
    }
    var verified := Filter(cs, VerifiedOnes);
    if |verified| > 0 {
      if |verified| >= 2 && AllSameHash(verified) {
        return Chosen(verified[0], IdenticalVerified, VERIFIED, REPEATED_INDEPENDENT_CAPTURE, hashes);
      }
      if |verified| == 1 {
        return Chosen(verified[0], SingleVerified, verified[0].mark.state, verified[0].mark.confidence, hashes);
      }
      return Conflicted(hashes);
    }
    var unverified := Filter(cs, UnverifiedOnes);
    if |unverified| > 0 {
      var distinct := DistinctCaptures(unverified);
      if |unverified| >= 2 && AllSameHash(unverified) && distinct >= 2 {
        return Chosen(unverified[0], IdenticalUnverified, VERIFIED, REPEATED_INDEPENDENT_CAPTURE, hashes);
      }
      if |unverified| == 1 {
        return Chosen(unverified[0], SingleUnverified, READ_UNVERIFIED, SINGLE_READ, hashes);
      }
      return Conflicted(hashes);
    }
    if |hashes| > 0 {
      return Conflicted(hashes);
    }
    return NothingThere();
  }

  // ----- the order of the captures does not matter

  /** What a resolution says apart from which of several equal captures it took. */
  predicate SameVerdict(a: Resolution, b: Resolution) {
    && a.mark.state == b.mark.state && a.mark.confidence == b.mark.confidence && a.mark.hash == b.mark.hash
    && a.rule == b.rule && a.hashes == b.hashes && a.provenance == b.provenance && a.conflict == b.conflict
  }

  lemma {:induction false} SelectCounts(cs: seq<Candidate>, kind: Kind, c: Candidate)
    ensures multiset(Select(cs, kind))[c] == if OfKind(c, kind) then multiset(cs)[c] else 0
  {
    if cs != [] {
      assert cs == cs[..|cs|-1] + [cs[|cs|-1]];
      SelectCounts(cs[..|cs|-1], kind, c);
    }
  }

  lemma SelectPermutes(a: seq<Candidate>, b: seq<Candidate>, kind: Kind)
    requires multiset(a) == multiset(b)
    ensures multiset(Select(a, kind)) == multiset(Select(b, kind))
  {
    forall c ensures multiset(Select(a, kind))[c] == multiset(Select(b, kind))[c] {
      SelectCounts(a, kind, c);
      SelectCounts(b, kind, c);
    }
  }

  lemma SameMembers(a: seq<Candidate>, b: seq<Candidate>)
    requires multiset(a) == multiset(b)
    ensures forall c :: c in a <==> c in b
    ensures |a| == |b|
  {
    assert |multiset(a)| == |a| && |multiset(b)| == |b|;
    forall c ensures c in a <==> c in b {
      assert (c in a <==> c in multiset(a)) && (c in b <==> c in multiset(b));
    }
  }

  lemma SameGroup(a: seq<Candidate>, b: seq<Candidate>)
    requires multiset(a) == multiset(b)
    ensures |a| == |b| && (AllSameHash(a) <==> AllSameHash(b)) && Captures(a) == Captures(b)
    ensures AllSameHash(a) ==> a[0].mark.hash == b[0].mark.hash
    ensures |a| == 1 ==> a == b
  {
    SameMembers(a, b);
    AllSameIs(a);
    AllSameIs(b);
    if a != [] {
      assert a[0] in a && b[0] in b && a[0] in b && b[0] in a;
    }
  }

  lemma AllSameIs(a: seq<Candidate>)
    ensures AllSameHash(a) <==> a != [] && forall x, y :: x in a && y in a ==> x.mark.hash == y.mark.hash
  {
    if a != [] && forall x, y :: x in a && y in a ==> x.mark.hash == y.mark.hash {
      forall i | 0 < i < |a| ensures a[i].mark.hash == a[0].mark.hash {
        assert a[i] in a && a[0] in a;
      }
    }
  }

  lemma HashesPermute(a: seq<Candidate>, b: seq<Candidate>)
    requires multiset(a) == multiset(b)
    ensures UniqueHashes(a) == UniqueHashes(b)
  {
    SameMembers(a, b);
    HashesAscending(a);
    HashesAscending(b);
    assert HashesOf(a) == HashesOf(b);
    AscendingUnique(UniqueHashes(a), UniqueHashes(b));
  }

  /** Permuting the candidates changes at most which of equal captures is named. */
  lemma ResolveIsSymmetric(a: seq<Candidate>, b: seq<Candidate>)
    requires multiset(a) == multiset(b)
    ensures SameVerdict(Resolve(a), Resolve(b))
  {
    hide Select, AllSameHash, UniqueHashes, Captures;
    HashesPermute(a, b);
    forall kind: Kind
      ensures var s, t := Select(a, kind), Select(b, kind);
              && |s| == |t| && (AllSameHash(s) <==> AllSameHash(t)) && Captures(s) == Captures(t)
              && (AllSameHash(s) ==> s != [] && t != [] && s[0].mark.hash == t[0].mark.hash) && (|s| == 1 ==> s == t)
    {
      SelectPermutes(a, b, kind);
      SameGroup(Select(a, kind), Select(b, kind));
      AllSameIs(Select(a, kind));
    }
  }

  // ----- nothing is made up

  /** A sector is anything but missing exactly when some capture offers data for it; without conflict the data chosen is what a named candidate holds, and its hash is listed. */
  lemma ResolveIsConservative(cs: seq<Candidate>)
    ensures var r := Resolve(cs);
            && (r.rule == MissingRule <==> forall c :: c in cs ==> !OffersData(c.mark))
            && (r.rule == MissingRule <==> r.mark.state == MISSING)
            && (r.conflict <==> r.rule == ConflictRule) && (r.conflict <==> r.mark.state == CONFLICTING)
            && (r.rule != MissingRule && !r.conflict ==>
                  && OffersData(r.mark) && r.mark.hash in r.hashes
                  && exists c :: c in cs && c.captureId == r.selected && OffersData(c.mark) && c.mark.hash == r.mark.hash)
  {
    hide AllSameHash, Captures, UniqueHashes, Select;
    OffersMeansHashes(cs);
    FirstOfKind(cs, TrustedOnes);
    FirstOfKind(cs, ReconstructedOnes);
    FirstOfKind(cs, VerifiedOnes);
    FirstOfKind(cs, UnverifiedOnes);
  }

  lemma OffersMeansHashes(cs: seq<Candidate>)
    ensures UniqueHashes(cs) == [] <==> forall c :: c in cs ==> !OffersData(c.mark)
  {
    if UniqueHashes(cs) != [] {
      assert UniqueHashes(cs)[0] in HashesOf(cs);
    } else {
      forall c | c in cs ensures !OffersData(c.mark) {
        assert OffersData(c.mark) ==> c.mark.hash in HashesOf(cs);
      }
    }
  }

  lemma FirstOfKind(cs: seq<Candidate>, kind: Kind)
    ensures Select(cs, kind) != [] ==>
              var c := Select(cs, kind)[0]; c in cs && OfKind(c, kind) && OffersData(c.mark) && c.mark.hash in UniqueHashes(cs)
  {
    if Select(cs, kind) != [] {
      var c := Select(cs, kind)[0];
      assert c in Select(cs, kind);
      assert c.mark.hash in HashesOf(cs);
    }
  }

  /** A trusted checksum outranks everything: such a candidate is contradicted only by another of its kind. */
  lemma TrustedDecides(cs: seq<Candidate>, c: Candidate)
    requires c in cs && OfKind(c, TrustedOnes)
    ensures Resolve(cs).rule == TrustedChecksumMatch || Resolve(cs).rule == ConflictRule
    ensures Resolve(cs).rule == TrustedChecksumMatch ==> Resolve(cs).mark.hash == c.mark.hash
    ensures Resolve(cs).rule == ConflictRule ==> exists d :: d in cs && OfKind(d, TrustedOnes) && d.mark.hash != c.mark.hash
  {
    hide UniqueHashes, Captures;
    var trusted := Select(cs, TrustedOnes);
    assert c in trusted;
    var i :| 0 <= i < |trusted| && trusted[i] == c;
    if !AllSameHash(trusted) {
      var j :| 0 < j < |trusted| && trusted[j].mark.hash != trusted[0].mark.hash;
      assert trusted[j] in trusted && trusted[0] in trusted;
    }
  }

  // ----- the best evidence decides

  /** How good the evidence is: a trusted checksum, a reconstruction against one, a verified read, a single read. */
  function Rank(m: Mark): nat {
    if m.state == VERIFIED && m.confidence == TRUSTED_CHECKSUM then 4
    else if m.state == RECONSTRUCTED && m.confidence == RECONSTRUCTED_CHECKSUM then 3
    else if m.state == VERIFIED then 2
    else if m.state == READ_UNVERIFIED && m.confidence == SINGLE_READ then 1
    else 0
  }

  ghost predicate NoneAbove(cs: seq<Candidate>, rank: nat) {
    forall c :: c in cs ==> Rank(c.mark) <= rank
  }

  /** The candidates of one rank, in order. */
  function Ranked(cs: seq<Candidate>, rank: nat): (r: seq<Candidate>)
    ensures forall c :: c in r <==> c in cs && Rank(c.mark) == rank
  {
    if cs == [] then []
    else
      assert cs == cs[..|cs|-1] + [cs[|cs|-1]];
      Ranked(cs[..|cs|-1], rank) + if Rank(cs[|cs|-1].mark) == rank then [cs[|cs|-1]] else []
  }

  function KindOfRank(rank: nat): Kind {
    if rank == 4 then TrustedOnes else if rank == 3 then ReconstructedOnes else if rank == 2 then VerifiedOnes else UnverifiedOnes
  }

  lemma {:induction false} SelectIsRanked(cs: seq<Candidate>, rank: nat)
    requires NoneAbove(cs, rank) && 1 <= rank <= 4
    ensures Select(cs, KindOfRank(rank)) == Ranked(cs, rank)
  {
    if cs != [] {
      assert cs == cs[..|cs|-1] + [cs[|cs|-1]];
      SelectIsRanked(cs[..|cs|-1], rank);
      assert cs[|cs|-1] in cs;
    }
  }

  lemma HasMember(cs: seq<Candidate>)
    ensures cs == [] || exists c :: c in cs
  {
    if cs != [] {
      assert cs[0] in cs;
    }
  }

  lemma NoneSelectedAbove(cs: seq<Candidate>, rank: nat, above: nat)
    requires NoneAbove(cs, rank) && rank < above <= 4
    ensures Select(cs, KindOfRank(above)) == []
  {
    var s := Select(cs, KindOfRank(above));
    HasMember(s);
  }

  lemma KindsByRank(cs: seq<Candidate>, rank: nat)
    requires NoneAbove(cs, rank)
    ensures rank < 4 ==> Select(cs, TrustedOnes) == []
    ensures rank < 3 ==> Select(cs, ReconstructedOnes) == []
    ensures rank < 2 ==> Select(cs, VerifiedOnes) == []
    ensures rank < 1 ==> Select(cs, UnverifiedOnes) == []
  {
    hide Select, Rank;
    if rank < 4 { NoneSelectedAbove(cs, rank, 4); }
    if rank < 3 { NoneSelectedAbove(cs, rank, 3); }
    if rank < 2 { NoneSelectedAbove(cs, rank, 2); }
    if rank < 1 { NoneSelectedAbove(cs, rank, 1); }
  }

  ghost predicate OneHash(cs: seq<Candidate>) {
    forall x, y :: x in cs && y in cs ==> x.mark.hash == y.mark.hash
  }

  ghost predicate FromOneCapture(cs: seq<Candidate>) {
    forall x, y :: x in cs && y in cs ==> x.captureId == y.captureId
  }

  /** The best evidence there is decides, and nothing below it has a say. Its candidates conflict exactly when their hashes
      differ, or when they are several reads of one capture; otherwise the first of them is taken as it is, and made
      verified when several verified ones, or reads of several captures, agree. */
  lemma BestDecides(cs: seq<Candidate>, rank: nat)
    requires NoneAbove(cs, rank) && 1 <= rank <= 4 && Ranked(cs, rank) != []
    ensures var r, best := Resolve(cs), Ranked(cs, rank);
            && (r.conflict <==> !OneHash(best) || (rank == 1 && 1 < |best| && FromOneCapture(best)))
            && (r.conflict ==> r.mark == PlainMark(CONFLICTING, NO_CONFIDENCE, 0) && r.selected == "" && r.rule == ConflictRule)
            && (!r.conflict ==>
                  && r.selected == best[0].captureId
                  && (rank >= 3 || |best| == 1 ==> r.mark == best[0].mark)
                  && (rank <= 2 && 1 < |best| ==>
                        r.mark == best[0].mark.(state := VERIFIED, confidence := REPEATED_INDEPENDENT_CAPTURE))
                  && r.rule == if rank == 4 then TrustedChecksumMatch else if rank == 3 then ReconstructedTrustedChecksum
                               else if rank == 2 then if |best| == 1 then SingleVerified else IdenticalVerified
                               else if |best| == 1 then SingleUnverified else IdenticalUnverified)
  {
    hide Select, UniqueHashes, AllSameHash, Captures, Ranked, KindOfRank;
    var best := Ranked(cs, rank);
    SelectIsRanked(cs, rank);
    KindsByRank(cs, rank);
    AllSameIs(best);
    ManyCaptures(best);
    assert best[0] in best;
    assert Rank(best[0].mark) == rank;
    KindOfRanks();
    if |best| == 1 {
      assert forall x :: x in best ==> x == best[0];
    }
  }

  lemma KindOfRanks()
    ensures KindOfRank(4) == TrustedOnes && KindOfRank(3) == ReconstructedOnes && KindOfRank(2) == VerifiedOnes && KindOfRank(1) == UnverifiedOnes
  {
  }

  lemma ManyCaptures(cs: seq<Candidate>)
    ensures cs != [] ==> (FromOneCapture(cs) <==> |Captures(cs)| < 2)
  {
    if cs != [] {
      var first, all := cs[0].captureId, Captures(cs);
      assert cs[0] in cs && first in all;
      if FromOneCapture(cs) {
        forall id | id in all ensures id == first {
          var c :| c in cs && c.captureId == id;
        }
        assert all == {first};
      } else {
        var x, y :| x in cs && y in cs && x.captureId != y.captureId;
        assert x.captureId in all && y.captureId in all;
        assert {x.captureId, y.captureId} <= all;
        FewerElements({x.captureId, y.captureId}, all);
      }
    }
  }

  lemma FewerElements(a: set<string>, b: set<string>)
    requires a <= b
    ensures |a| <= |b|
  {
    assert b == a + (b - a);
  }

  /** Whatever stands below the best evidence changes neither what is selected nor how it is marked. */
  lemma LowerChangesNothing(a: seq<Candidate>, b: seq<Candidate>, rank: nat)
    requires NoneAbove(a, rank) && NoneAbove(b, rank) && 1 <= rank <= 4 && Ranked(a, rank) == Ranked(b, rank) != []
    ensures var r, q := Resolve(a), Resolve(b);
            r.mark == q.mark && r.selected == q.selected && r.rule == q.rule && r.provenance == q.provenance && r.conflict == q.conflict
  {
    hide Resolve;
    BestDecides(a, rank);
    BestDecides(b, rank);
    ProvenanceOfRule(a);
    ProvenanceOfRule(b);
  }

  lemma ProvenanceOfRule(cs: seq<Candidate>)
    ensures Resolve(cs).provenance == Provenance(Resolve(cs).rule, Resolve(cs).mark)
  {
    hide Select, UniqueHashes, AllSameHash, Captures;
  }

  predicate RuleFits(rule: SelectionRule, m: Mark) {
    match rule
    case TrustedChecksumMatch => m.state == VERIFIED && m.confidence == TRUSTED_CHECKSUM
    case ReconstructedTrustedChecksum => m.state == RECONSTRUCTED
    case IdenticalVerified => m.state == VERIFIED && m.confidence == REPEATED_INDEPENDENT_CAPTURE
    case SingleVerified => m.state == VERIFIED && m.confidence != TRUSTED_CHECKSUM
    case IdenticalUnverified => m.state == VERIFIED && m.confidence == REPEATED_INDEPENDENT_CAPTURE
    case SingleUnverified => m.state == READ_UNVERIFIED
    case ConflictRule => m.state == CONFLICTING
    case MissingRule => m.state == MISSING
  }

  lemma ResolvedFits(cs: seq<Candidate>)
    ensures RuleFits(Resolve(cs).rule, Resolve(cs).mark) && (Resolve(cs).conflict <==> Resolve(cs).rule == ConflictRule)
  {
    hide UniqueHashes, AllSameHash, Captures, Select;
    FirstOfKind(cs, VerifiedOnes);
    var verified := Select(cs, VerifiedOnes);
    if verified != [] && verified[0].mark.confidence == TRUSTED_CHECKSUM {
      assert verified[0] in Select(cs, TrustedOnes);
    }
  }

  lemma EvidenceOf(rule: SelectionRule, m: Mark)
    requires RuleFits(rule, m)
    ensures var p := Provenance(rule, m);
            && (TrustedChecksumEvidence in p <==> (m.state == VERIFIED && m.confidence == TRUSTED_CHECKSUM) || m.state == RECONSTRUCTED)
            && (Reconstruction in p <==> m.state == RECONSTRUCTED)
            && (CrossCaptureAgree in p <==> m.state == VERIFIED && m.confidence == REPEATED_INDEPENDENT_CAPTURE)
            && (RepeatedAgreement in p <==>
                  m.state == VERIFIED && rule != IdenticalUnverified && m.confidence in {REPEATED_SINGLE_CAPTURE, REPEATED_INDEPENDENT_CAPTURE})
            && (TentativeData in p <==> rule == SingleUnverified || rule == IdenticalUnverified)
            && (SuccessfulRead in p <==> m.state == READ_UNVERIFIED)
            && (ConflictEvidence in p <==> rule == ConflictRule)
  {
  }

  /** The evidence listed is what the mark stands on. */
  lemma EvidenceFits(cs: seq<Candidate>)
    ensures var (m, p, rule) := (Resolve(cs).mark, Resolve(cs).provenance, Resolve(cs).rule);
            && (TrustedChecksumEvidence in p <==> (m.state == VERIFIED && m.confidence == TRUSTED_CHECKSUM) || m.state == RECONSTRUCTED)
            && (Reconstruction in p <==> m.state == RECONSTRUCTED)
            && (CrossCaptureAgree in p <==> m.state == VERIFIED && m.confidence == REPEATED_INDEPENDENT_CAPTURE)
            && (RepeatedAgreement in p <==>
                  m.state == VERIFIED && rule != IdenticalUnverified && m.confidence in {REPEATED_SINGLE_CAPTURE, REPEATED_INDEPENDENT_CAPTURE})
            && (TentativeData in p <==> rule == SingleUnverified || rule == IdenticalUnverified)
            && (SuccessfulRead in p <==> m.state == READ_UNVERIFIED)
            && (ConflictEvidence in p <==> Resolve(cs).conflict)
  {
    hide Resolve, Provenance;
    ResolvedFits(cs);
    ProvenanceOfRule(cs);
    EvidenceOf(Resolve(cs).rule, Resolve(cs).mark);
  }

  /** With no evidence at all the sector is missing, unless some capture offers data for it. */
  lemma NoEvidence(cs: seq<Candidate>)
    requires NoneAbove(cs, 0)
    ensures Resolve(cs).rule == if forall c :: c in cs ==> !OffersData(c.mark) then MissingRule else ConflictRule
  {
    hide Select, UniqueHashes, AllSameHash, Captures;
    KindsByRank(cs, 0);
    OffersMeansHashes(cs);
  }

  /** Confidence comes from a capture that claims it, as it claims it, or from two that agree: two verified candidates, or
      single reads of two captures. */
  lemma ConfidenceHasSource(cs: seq<Candidate>)
    ensures var r := Resolve(cs);
            || r.mark.confidence == NO_CONFIDENCE
            || (exists c :: c in cs && c.captureId == r.selected && c.mark == r.mark)
            || (&& r.mark.state == VERIFIED && r.mark.confidence == REPEATED_INDEPENDENT_CAPTURE
                && exists i, j :: 0 <= i < j < |cs| && cs[i].mark.hash == cs[j].mark.hash == r.mark.hash
                     && Rank(cs[i].mark) == Rank(cs[j].mark)
                     && (Rank(cs[i].mark) == 2 || (Rank(cs[i].mark) == 1 && cs[i].captureId != cs[j].captureId)))
  {
    hide Resolve;
    var rank := BestRank(cs);
    if rank == 0 {
      NothingSure(cs);
      return;
    }
    var best, r := Ranked(cs, rank), Resolve(cs);
    BestDecides(cs, rank);
    if !r.conflict {
      assert best[0] in best;
      if rank <= 2 && 1 < |best| {
        var i, j := TwoRanked(cs, rank);
      }
    }
  }

  lemma NothingSure(cs: seq<Candidate>)
    requires NoneAbove(cs, 0)
    ensures Resolve(cs).mark.confidence == NO_CONFIDENCE
  {
    hide Select, UniqueHashes, AllSameHash, Captures;
    KindsByRank(cs, 0);
  }

  function BestRank(cs: seq<Candidate>): (rank: nat)
    ensures rank <= 4 && forall c :: c in cs ==> Rank(c.mark) <= rank
    ensures rank == 0 || Ranked(cs, rank) != []
  {
    if cs == [] then 0
    else
      assert cs == cs[..|cs|-1] + [cs[|cs|-1]];
      var rest, last := BestRank(cs[..|cs|-1]), Rank(cs[|cs|-1].mark);
      if last > rest then last else rest
  }

  /** Two candidates of a rank that has several: of several captures, where the rank asks for that. */
  lemma TwoRanked(cs: seq<Candidate>, rank: nat) returns (i: nat, j: nat)
    requires 1 < |Ranked(cs, rank)| && (rank == 1 ==> !FromOneCapture(Ranked(cs, rank)))
    ensures i < j < |cs| && Rank(cs[i].mark) == rank && Rank(cs[j].mark) == rank
    ensures rank == 1 ==> cs[i].captureId != cs[j].captureId
  {
    hide Rank;
    if rank == 1 {
      var x, y :| x in Ranked(cs, rank) && y in Ranked(cs, rank) && x.captureId != y.captureId;
      i :| 0 <= i < |cs| && cs[i] == x;
      j :| 0 <= j < |cs| && cs[j] == y;
      if j < i {
        i, j := j, i;
      }
    } else {
      i, j := TwoAmong(cs, rank);
    }
  }

  lemma {:induction false} TwoAmong(cs: seq<Candidate>, rank: nat) returns (i: nat, j: nat)
    requires 1 < |Ranked(cs, rank)|
    ensures i < j < |cs| && Rank(cs[i].mark) == rank && Rank(cs[j].mark) == rank
  {
    hide Rank;
    var front := cs[..|cs|-1];
    if Rank(cs[|cs|-1].mark) == rank {
      var x := Ranked(front, rank)[0];
      assert x in Ranked(front, rank);
      i :| 0 <= i < |front| && front[i] == x;
      j := |cs| - 1;
    } else {
      i, j := TwoAmong(front, rank);
    }
  }
}
