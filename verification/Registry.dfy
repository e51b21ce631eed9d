/** The registry of backend providers and its choice among those that match a request. */
module Registry {
  import opened Statuses
  import opened VideoFormats
  import opened Negotiation

  datatype ProviderKind = Reference | Software | Hardware

  datatype Wanted = Processing(processor: ProcessorRequest) | Encoding(encoder: EncoderRequest)

  datatype Request = Request(wanted: Wanted, requiredId: string, preferredIds: seq<string>, preferHardware: bool,
                             preferZeroCopy: bool)

  /** The configuration and formats a provider has agreed to. */
  datatype Settled = Settled(providerId: string, config: Option<ConfigFields>, actual: VideoFormat, conversion: bool,
                             zeroCopy: bool)

  datatype Score = Score(providerRank: nat, kindRank: nat, zeroCopyRank: nat, providerId: string)

  /** The position among the preferred providers; every other provider comes after all of them. */
  function PreferredRank(preferred: seq<string>, id: string): (r: nat)
    ensures r < |preferred| ==> preferred[r] == id && id !in preferred[..r]
    ensures r >= |preferred| ==> r == |preferred| + 1 && id !in preferred
  {
    if preferred == [] then 1
    else if preferred[0] == id then 0
    else 1 + PreferredRank(preferred[1..], id)
  }

  function KindRank(kind: ProviderKind, preferHardware: bool): nat {
    if !preferHardware then 0
    else match kind case Hardware => 0 case Software => 1 case Reference => 2
  }

  datatype ProviderCapability = ProviderCapability(
    id: string, availability: StatusCode, kind: ProviderKind, processors: seq<ProcessorCapability>,
    encoders: seq<EncoderCapability>) {

    function Count(w: Wanted): nat {
      match w case Processing(_) => |processors| case Encoding(_) => |encoders|
    }

    predicate Serves(w: Wanted, i: nat)
      requires i < Count(w)
    {
      match w
      case Processing(r) => processors[i].Matches(r)
      case Encoding(r) => encoders[i].Matches(r)
    }

    /** The first capability, from `i` on, that matches what is wanted. */
    function FirstServing(w: Wanted, i: nat): (n: nat)
      requires i <= Count(w)
      ensures i <= n <= Count(w)
      ensures n < Count(w) ==> Serves(w, n)
      ensures forall j :: i <= j < n ==> !Serves(w, j)
      decreases Count(w) - i
    {
      if i == Count(w) || Serves(w, i) then i else FirstServing(w, i + 1)
    }

    function Match(r: Request): (code: StatusCode)
      ensures code.OkStatus? <==>
                && (r.requiredId == "" || r.requiredId == id) && availability.OkStatus?
                && exists i: nat :: i < Count(r.wanted) && Serves(r.wanted, i)
      ensures !code.OkStatus? ==>
                code == if (r.requiredId == "" || r.requiredId == id) && !availability.OkStatus? then availability
                        else CapabilityMismatch
    {
      if r.requiredId != "" && r.requiredId != id then CapabilityMismatch
      else if !availability.OkStatus? then availability
      else if FirstServing(r.wanted, 0) == Count(r.wanted) then CapabilityMismatch
      else OkStatus
    }

    function Negotiate(r: Request): Result<Settled> {
      if !Match(r).OkStatus? then Failure(Match(r))
      else
        var i := FirstServing(r.wanted, 0);
        match r.wanted
        case Processing(p) =>
          var config := processors[i].NegotiatedConfig(p);
          if config.Failure? then Failure(config.code)
          else Success(Settled(id, Some(config.value), config.value.output, processors[i].RequiresConversion(p),
                               processors[i].UsesZeroCopy(p)))
        case Encoding(e) =>
          var actual := encoders[i].ActualInput(e);
          if actual.Failure? then Failure(actual.code)
          else Success(Settled(id, None, actual.value, encoders[i].RequiresConversion(e), encoders[i].UsesZeroCopy(e)))
    }

    predicate UsesZeroCopy(w: Wanted, i: nat)
      requires i < Count(w)
    {
      match w
      case Processing(r) => processors[i].UsesZeroCopy(r)
      case Encoding(r) => encoders[i].UsesZeroCopy(r)
    }

    /** The capability that serves the request needs no copy. */
    predicate ServesWithoutCopy(r: Request)
      requires Match(r).OkStatus?
    {
      UsesZeroCopy(r.wanted, FirstServing(r.wanted, 0))
    }

    function Preference(r: Request): Result<Score> {
      if !Match(r).OkStatus? then Failure(Match(r))
      else
        Success(Score(PreferredRank(r.preferredIds, id), KindRank(kind, r.preferHardware),
                      if r.preferZeroCopy && !ServesWithoutCopy(r) then 1 else 0, id))
    }
  }

  /** The score ranks zero copy by what the negotiation will really give. */
  lemma ZeroCopyRankAgrees(c: ProviderCapability, r: Request)
    requires c.Negotiate(r).Success?
    ensures c.Preference(r).Success?
    ensures var settled := c.Negotiate(r).value;
            && settled.providerId == c.id
            && (c.Preference(r).value.zeroCopyRank == 1 <==> r.preferZeroCopy && !settled.zeroCopy)
            && !(settled.zeroCopy && settled.conversion)
  {
    hide EncoderCapability.Matches, ProcessorCapability.Matches;
  }

  // ---- The order of scores ----

  predicate StringLess(a: string, b: string)
    decreases |a|
  {
    if b == "" then false
    else if a == "" then true
    else a[0] < b[0] || (a[0] == b[0] && StringLess(a[1..], b[1..]))
  }

  lemma {:induction false} StringLessIrreflexive(a: string)
    ensures !StringLess(a, a)
  {
    if a != "" {
      StringLessIrreflexive(a[1..]);
    }
  }

  lemma {:induction false} StringLessTotal(a: string, b: string)
    ensures StringLess(a, b) || a == b || StringLess(b, a)
  {
    if a != "" && b != "" && a[0] == b[0] {
      StringLessTotal(a[1..], b[1..]);
      if a[1..] == b[1..] {
        assert a == [a[0]] + a[1..] && b == [b[0]] + b[1..];
      }
    }
  }

  lemma {:induction false} StringLessTransitive(a: string, b: string, c: string)
    requires StringLess(a, b) && StringLess(b, c)
    ensures StringLess(a, c)
    decreases |a|
  {
    if a != "" && a[0] == b[0] == c[0] {
      StringLessTransitive(a[1..], b[1..], c[1..]);
    }
  }

  predicate Less(a: Score, b: Score) {
    if a.providerRank != b.providerRank then a.providerRank < b.providerRank
    else if a.kindRank != b.kindRank then a.kindRank < b.kindRank
    else if a.zeroCopyRank != b.zeroCopyRank then a.zeroCopyRank < b.zeroCopyRank
    else StringLess(a.providerId, b.providerId)
  }

  /** The order is strict and total: different scores are never tied. */
  lemma LessTotal(a: Score, b: Score)
    ensures !Less(a, a)
    ensures Less(a, b) || a == b || Less(b, a)
  {
    StringLessTotal(a.providerId, b.providerId);
    StringLessIrreflexive(a.providerId);
  }

  lemma LessTransitive(a: Score, b: Score, c: Score)
    requires Less(a, b) && Less(b, c)
    ensures Less(a, c)
  {
    if StringLess(a.providerId, b.providerId) && StringLess(b.providerId, c.providerId) {
      StringLessTransitive(a.providerId, b.providerId, c.providerId);
    }
  }

  /** Not being greater is transitive as well. */
  lemma NotGreaterTransitive(a: Score, b: Score, c: Score)
    requires !Less(b, a) && !Less(c, b)
    ensures !Less(c, a)
  {
    LessTotal(a, b);
    LessTotal(b, c);
    if Less(c, a) {
      if a == b || b == c {
        assert false;
      } else {
        LessTransitive(a, b, c);
        LessTransitive(a, c, a);
        LessTotal(a, a);
        assert false;
      }
    }
  }

  lemma FirstsAgree(a: string, b: string, k: nat)
    requires 0 < k <= |a| && k <= |b| && a[..k] == b[..k]
    ensures a[0] == b[0]
  {
    assert a[..k][0] == b[..k][0];
  }

  /** The order of strings is that of a dictionary: the first difference decides, and a beginning comes first. */
  lemma {:induction false} StringLessMeans(a: string, b: string)
    ensures StringLess(a, b) <==>
              exists k :: 0 <= k <= |a| && k < |b| && a[..k] == b[..k] && (k == |a| || a[k] < b[k])
  {
    if a == "" || b == "" || a[0] != b[0] {
      assert a[..0] == b[..0];
      if k :| 0 < k <= |a| && k < |b| && a[..k] == b[..k] {
        FirstsAgree(a, b, k);
      }
    } else {
      StringLessMeans(a[1..], b[1..]);
      assert StringLess(a, b) <==> StringLess(a[1..], b[1..]);
      hide StringLess;
      if k :| 0 <= k <= |a| && k < |b| && a[..k] == b[..k] && (k == |a| || a[k] < b[k]) {
        assert a[1..][..k - 1] == a[..k][1..] == b[..k][1..] == b[1..][..k - 1];
      }
      if j :| 0 <= j <= |a[1..]| && j < |b[1..]| && a[1..][..j] == b[1..][..j]
              && (j == |a[1..]| || a[1..][j] < b[1..][j]) {
        assert a[..j + 1] == [a[0]] + a[1..][..j] == [b[0]] + b[1..][..j] == b[..j + 1];
      }
    }
  }

  // ---- What the scores prefer ----

  /** One provider is listed before any mention of the other. */
  predicate ListedBefore(ids: seq<string>, id: string, other: string) {
    exists i :: 0 <= i < |ids| && ids[i] == id && other !in ids[..i + 1]
  }

  predicate KindBefore(kind: ProviderKind, other: ProviderKind) {
    (kind.Hardware? && !other.Hardware?) || (kind.Software? && other.Reference?)
  }

  lemma RankIsPlace(ids: seq<string>, id: string, other: string)
    ensures PreferredRank(ids, id) < PreferredRank(ids, other) <==> ListedBefore(ids, id, other)
  {
    var rank, last := PreferredRank(ids, id), PreferredRank(ids, other);
    if rank < last {
      assert ids[rank] == id && other !in ids[..rank + 1];
    }
    if i :| 0 <= i < |ids| && ids[i] == id && other !in ids[..i + 1] {
      assert rank <= i;
      assert last > i;
    }
  }

  /**
   * Which of two providers is preferred: the one the request lists first; then, if it asks for hardware, hardware
   * before software before the reference; then, if it asks for zero copy, the one that needs no copy; and then the
   * one whose name comes first.
   */
  predicate Prefers(r: Request, a: ProviderCapability, b: ProviderCapability)
    requires a.Match(r).OkStatus? && b.Match(r).OkStatus?
  {
    if ListedBefore(r.preferredIds, a.id, b.id) then true
    else if ListedBefore(r.preferredIds, b.id, a.id) then false
    else if r.preferHardware && a.kind != b.kind then KindBefore(a.kind, b.kind)
    else if r.preferZeroCopy && a.ServesWithoutCopy(r) != b.ServesWithoutCopy(r) then a.ServesWithoutCopy(r)
    else StringLess(a.id, b.id)
  }

  lemma RanksDecide(r: Request, a: ProviderCapability, b: ProviderCapability, x: Score, y: Score)
    requires a.Match(r).OkStatus? && b.Match(r).OkStatus?
    requires a.Preference(r) == Success(x) && b.Preference(r) == Success(y)
    ensures x.providerRank < y.providerRank <==> ListedBefore(r.preferredIds, a.id, b.id)
    ensures y.providerRank < x.providerRank <==> ListedBefore(r.preferredIds, b.id, a.id)
    ensures x.kindRank < y.kindRank <==> r.preferHardware && KindBefore(a.kind, b.kind)
    ensures x.kindRank == y.kindRank <==> !r.preferHardware || a.kind == b.kind
    ensures x.zeroCopyRank == y.zeroCopyRank <==>
              !r.preferZeroCopy || a.ServesWithoutCopy(r) == b.ServesWithoutCopy(r)
    ensures x.zeroCopyRank < y.zeroCopyRank ==> a.ServesWithoutCopy(r)
    ensures y.zeroCopyRank < x.zeroCopyRank ==> !a.ServesWithoutCopy(r)
    ensures x.providerId == a.id && y.providerId == b.id
  {
    hide ProviderCapability.Match, ProviderCapability.ServesWithoutCopy, ListedBefore, PreferredRank;
    RankIsPlace(r.preferredIds, a.id, b.id);
    RankIsPlace(r.preferredIds, b.id, a.id);
  }

  /** The order of the scores is this preference. */
  lemma LessMeans(r: Request, a: ProviderCapability, b: ProviderCapability)
    requires a.Match(r).OkStatus? && b.Match(r).OkStatus?
    ensures a.Preference(r).Success? && b.Preference(r).Success?
    ensures Less(a.Preference(r).value, b.Preference(r).value) <==> Prefers(r, a, b)
  {
    hide ProviderCapability.Match, ProviderCapability.ServesWithoutCopy, ListedBefore, StringLess, PreferredRank;
    assert a.Preference(r).Success? && b.Preference(r).Success?;
    hide ProviderCapability.Preference;
    RanksDecide(r, a, b, a.Preference(r).value, b.Preference(r).value);
  }

  datatype Candidate<P> = Candidate(provider: P, capability: ProviderCapability, score: Score)

  predicate Sorted<P>(s: seq<Candidate<P>>) {
    forall i, j :: 0 <= i < j < |s| ==> !Less(s[j].score, s[i].score)
  }

  lemma InsertSorted<P>(s: seq<Candidate<P>>, c: Candidate<P>, k: nat)
    requires Sorted(s) && k <= |s|
    requires forall i :: 0 <= i < k ==> !Less(c.score, s[i].score)
    requires k < |s| ==> Less(c.score, s[k].score)
    ensures Sorted(s[..k] + [c] + s[k..])
  {
    var after := s[..k] + [c] + s[k..];
    forall i, j | 0 <= i < j < |after|
      ensures !Less(after[j].score, after[i].score)
    {
      if i == k {
        assert after[j] == s[j - 1];
        LessTotal(c.score, s[k].score);
        if Less(s[k].score, c.score) {
          LessTransitive(c.score, s[k].score, c.score);
          LessTotal(c.score, c.score);
        }
        if j - 1 != k {
          NotGreaterTransitive(c.score, s[k].score, s[j - 1].score);
        }
      }
    }
  }

  lemma InsertAdds<T>(s: seq<T>, c: T, k: nat)
    requires k <= |s|
    ensures multiset(s[..k] + [c] + s[k..]) == multiset(s) + multiset{c}
  {
    assert s == s[..k] + s[k..];
  }

  method SortCandidates<P>(candidates: seq<Candidate<P>>) returns (sorted: seq<Candidate<P>>)
    ensures Sorted(sorted) && multiset(sorted) == multiset(candidates)
  {
    hide Less;
    sorted := [];
    for n := 0 to |candidates|
      invariant Sorted(sorted) && multiset(sorted) == multiset(candidates[..n])
    {
      var c, k := candidates[n], 0;
      while k < |sorted| && !Less(c.score, sorted[k].score)
        invariant 0 <= k <= |sorted|
        invariant forall i :: 0 <= i < k ==> !Less(c.score, sorted[i].score)
      {
        k := k + 1;
      }
      InsertSorted(sorted, c, k);
      InsertAdds(sorted, c, k);
      assert candidates[..n + 1] == candidates[..n] + [c];
      sorted := sorted[..k] + [c] + sorted[k..];
    }
    assert candidates[..|candidates|] == candidates;
  }

  // ---- Selection ----

  datatype Selection<P> = Selection(provider: P, settled: Settled)

  /** The provider answers its probe, and what it can do matches the request. */
  predicate Matching(probes: map<string, Result<ProviderCapability>>, r: Request, id: string) {
    id in probes && probes[id].Success? && probes[id].value.Match(r).OkStatus?
  }

  function ScoreOf(probes: map<string, Result<ProviderCapability>>, r: Request, id: string): Score
    requires Matching(probes, r, id)
  {
    probes[id].value.Preference(r).value
  }

  /** The provider matches, and no other matching provider has a smaller score. */
  ghost predicate Best(probes: map<string, Result<ProviderCapability>>, r: Request, id: string) {
    && Matching(probes, r, id)
    && forall other :: Matching(probes, r, other) ==> !Less(ScoreOf(probes, r, other), ScoreOf(probes, r, id))
  }

  function Offer<P>(provider: P, capability: ProviderCapability, r: Request): Result<Selection<P>> {
    match capability.Negotiate(r)
    case Success(settled) => Success(Selection(provider, settled))
    case Failure(code) => Failure(code)
  }

  /** Every provider answers with the id it was registered under. */
  predicate CarryIds(probes: map<string, Result<ProviderCapability>>) {
    forall id :: id in probes && probes[id].Success? ==> probes[id].value.id == id
  }

  /** There is one best provider, so the choice does not depend on the order in which providers are looked at. */
  lemma BestIsUnique(probes: map<string, Result<ProviderCapability>>, r: Request, a: string, b: string)
    requires CarryIds(probes) && Best(probes, r, a) && Best(probes, r, b)
    ensures a == b
  {
    LessTotal(ScoreOf(probes, r, a), ScoreOf(probes, r, b));
    assert ScoreOf(probes, r, a).providerId == a && ScoreOf(probes, r, b).providerId == b;
  }

  /** A provider can be registered if its probe succeeds and names it. */
  predicate Named(probe: Result<ProviderCapability>) {
    probe.Success? && probe.value.id != ""
  }

  /**
   * What a selection answers. A required provider is the only one considered; otherwise it is a best one, and there
   * is none only if no provider matches.
   */
  ghost predicate IsSelection<P>(providers: map<string, P>, probes: map<string, Result<ProviderCapability>>,
                                 r: Request, s: Result<Selection<P>>) {
    && probes.Keys == providers.Keys
    && if r.requiredId != "" then
         s == (if r.requiredId !in providers then Failure(NotFound)
               else match probes[r.requiredId]
                    case Failure(code) => Failure(code)
                    case Success(c) => Offer(providers[r.requiredId], c, r))
       else if forall id :: !Matching(probes, r, id) then
         s == Failure(CapabilityMismatch)
       else
         exists id :: Best(probes, r, id) && s == Offer(providers[id], probes[id].value, r)
  }

  /** For the same providers and the same answers of their probes, there is one selection. */
  lemma SelectionIsUnique<P>(providers: map<string, P>, probes: map<string, Result<ProviderCapability>>, r: Request,
                             s: Result<Selection<P>>, s': Result<Selection<P>>)
    requires CarryIds(probes) && IsSelection(providers, probes, r, s) && IsSelection(providers, probes, r, s')
    ensures s == s'
  {
    hide ProviderCapability.Negotiate, ProviderCapability.Match, ProviderCapability.Preference, Offer;
    if r.requiredId == "" && exists id :: Matching(probes, r, id) {
      hide Matching;
      var a :| Best(probes, r, a) && s == Offer(providers[a], probes[a].value, r);
      var b :| Best(probes, r, b) && s' == Offer(providers[b], probes[b].value, r);
      BestIsUnique(probes, r, a, b);
    }
  }

  datatype Registration<P> = Registration(provider: P, probe: Result<ProviderCapability>)

  /** The table after one more registration; one that is refused changes nothing. */
  function RegisterOne<P>(providers: map<string, P>, r: Registration<P>): map<string, P> {
    if Named(r.probe) && r.probe.value.id !in providers then providers[r.probe.value.id := r.provider] else providers
  }

  class BackendRegistry<P> {
    var providers: map<string, P>
    var frozen: bool

    constructor ()
      ensures providers == map[] && !frozen
    {
      providers, frozen := map[], false;
    }

    /** Adds a provider under the id that its probe names, unless that id is taken. */
    method Register(provider: Option<P>, probe: Result<ProviderCapability>) returns (code: StatusCode)
      requires probe.Failure? ==> !probe.code.OkStatus?
      modifies this
      ensures frozen == old(frozen)
      ensures code.OkStatus? <==>
                !frozen && provider.Some? && Named(probe) && probe.value.id !in old(providers)
      ensures providers == if code.OkStatus? then old(providers)[probe.value.id := provider.value] else old(providers)
      ensures !code.OkStatus? ==>
                if frozen then code.InvalidState? else if provider.None? then code.InvalidArgument?
                else if probe.Failure? then code == probe.code
                else if probe.value.id == "" then code.InvalidArgument? else code.AlreadyExists?
      ensures !frozen && provider.Some? ==>
                providers == RegisterOne(old(providers), Registration(provider.value, probe))
    {
      if frozen {
        return InvalidState;
      }
      if provider.None? {
        return InvalidArgument;
      }
      if probe.Failure? {
        return probe.code;
      }
      if probe.value.id == "" {
        return InvalidArgument;
      }
      if probe.value.id in providers {
        return AlreadyExists;
      }
      providers := providers[probe.value.id := provider.value];
      return OkStatus;
    }

    method Freeze() returns (code: StatusCode)
      modifies this
      ensures frozen && providers == old(providers) && code.OkStatus?
    {
      frozen := true;
      return OkStatus;
    }

    function CandidateOf(r: Request, probes: map<string, Result<ProviderCapability>>, id: string): Candidate<P>
      requires Matching(probes, r, id) && probes.Keys == providers.Keys
      reads this
    {
      Candidate(providers[id], probes[id].value, ScoreOf(probes, r, id))
    }

    lemma FirstIsBest(r: Request, probes: map<string, Result<ProviderCapability>>, candidates: seq<Candidate<P>>,
                      sorted: seq<Candidate<P>>)
      requires probes.Keys == providers.Keys
      requires forall id :: Matching(probes, r, id) ==> CandidateOf(r, probes, id) in candidates
      requires forall c :: c in candidates ==> exists id :: Matching(probes, r, id) && c == CandidateOf(r, probes, id)
      requires candidates != [] && Sorted(sorted) && multiset(sorted) == multiset(candidates)
      ensures |sorted| > 0
      ensures exists id :: && Best(probes, r, id)
                           && sorted[0] == CandidateOf(r, probes, id)
    {
      hide ProviderCapability.Match, ProviderCapability.Preference;
      assert candidates[0] in multiset(sorted);
      var first := sorted[0];
      assert first in multiset(candidates);
      assert first in candidates;
      var id :| Matching(probes, r, id) && first == CandidateOf(r, probes, id);
      forall other | Matching(probes, r, other)
        ensures !Less(ScoreOf(probes, r, other), first.score)
      {
        var c := CandidateOf(r, probes, other);
        assert c in multiset(sorted);
        var k :| 0 <= k < |sorted| && sorted[k] == c;
        LessTotal(first.score, first.score);
      }
    }

    /** The matching providers with their scores. */
    method Candidates(r: Request, probes: map<string, Result<ProviderCapability>>)
      returns (candidates: seq<Candidate<P>>)
      requires probes.Keys == providers.Keys
      ensures forall id :: Matching(probes, r, id) ==> CandidateOf(r, probes, id) in candidates
      ensures forall c :: c in candidates ==> exists id :: Matching(probes, r, id) && c == CandidateOf(r, probes, id)
    {
      candidates := [];
      var left := providers.Keys;
      while left != {}
        invariant left <= providers.Keys
        invariant forall id :: Matching(probes, r, id) && id !in left ==> CandidateOf(r, probes, id) in candidates
        invariant forall c :: c in candidates ==>
                    exists id :: Matching(probes, r, id) && c == CandidateOf(r, probes, id)
        decreases left
      {
        var id :| id in left;
        left := left - {id};
        var probed := probes[id];
        if probed.Success? && probed.value.Match(r).OkStatus? {
          var score := probed.value.Preference(r);
          candidates := candidates + [Candidate(providers[id], probed.value, score.value)];
          assert Matching(probes, r, id);
        }
      }
    }

    /** Chooses the provider for a request, given what the probes of the registered providers answer. */
    method Select(r: Request, probes: map<string, Result<ProviderCapability>>) returns (s: Result<Selection<P>>)
      requires probes.Keys == providers.Keys
      ensures IsSelection(providers, probes, r, s)
    {
      hide ProviderCapability.Negotiate, ProviderCapability.Match, ProviderCapability.Preference;
      if r.requiredId != "" {
        if r.requiredId !in providers {
          return Failure(NotFound);
        }
        var probed := probes[r.requiredId];
        if probed.Failure? {
          return Failure(probed.code);
        }
        return Offer(providers[r.requiredId], probed.value, r);
      }
      var candidates := Candidates(r, probes);
      if candidates == [] {
        return Failure(CapabilityMismatch);
      }
      var sorted := SortCandidates(candidates);
      FirstIsBest(r, probes, candidates, sorted);
      s := Offer(sorted[0].provider, sorted[0].capability, r);
    }
  }

  // ---- Registration ----

  /** The table after registering the providers one by one. */
  function RegisterAll<P>(rs: seq<Registration<P>>): map<string, P> {
    if rs == [] then map[] else RegisterOne(RegisterAll(rs[..|rs| - 1]), rs[|rs| - 1])
  }

  ghost predicate Names<P>(r: Registration<P>, id: string) {
    Named(r.probe) && r.probe.value.id == id
  }

  /** Exactly the ids that some probe names are registered, each for the first provider that names it. */
  lemma {:induction false} FirstRegistrationWins<P>(rs: seq<Registration<P>>, id: string)
    ensures id in RegisterAll(rs) <==> exists i :: 0 <= i < |rs| && Names(rs[i], id)
    ensures id in RegisterAll(rs) ==>
              exists i :: && 0 <= i < |rs| && Names(rs[i], id) && RegisterAll(rs)[id] == rs[i].provider
                          && forall j :: 0 <= j < i ==> !Names(rs[j], id)
  {
    if rs != [] {
      var shorter, last := rs[..|rs| - 1], |rs| - 1;
      FirstRegistrationWins(shorter, id);
      if id in RegisterAll(shorter) {
        var i :| && 0 <= i < |shorter| && Names(shorter[i], id) && RegisterAll(shorter)[id] == shorter[i].provider
                 && forall j :: 0 <= j < i ==> !Names(shorter[j], id);
        assert Names(rs[i], id);
      } else {
        forall i | 0 <= i < last
          ensures !Names(rs[i], id)
        {
          assert !Names(shorter[i], id);
        }
      }
    }
  }

  ghost predicate DistinctIds<P>(rs: seq<Registration<P>>) {
    forall i, j, id :: 0 <= i < |rs| && 0 <= j < |rs| && Names(rs[i], id) && Names(rs[j], id) ==> i == j
  }

  lemma SameNames<P>(rs: seq<Registration<P>>, other: seq<Registration<P>>, id: string)
    requires multiset(rs) == multiset(other)
    ensures forall i :: 0 <= i < |rs| && Names(rs[i], id) ==> exists j :: 0 <= j < |other| && other[j] == rs[i]
  {
    forall i | 0 <= i < |rs| && Names(rs[i], id)
      ensures exists j :: 0 <= j < |other| && other[j] == rs[i]
    {
      assert rs[i] in multiset(other);
    }
  }

  /** Providers with different ids may be registered in any order. */
  lemma RegistrationOrderIsIrrelevant<P>(rs: seq<Registration<P>>, other: seq<Registration<P>>)
    requires multiset(rs) == multiset(other) && DistinctIds(rs)
    ensures RegisterAll(rs) == RegisterAll(other)
  {
    forall id
      ensures id in RegisterAll(rs) <==> id in RegisterAll(other)
      ensures id in RegisterAll(rs) ==> RegisterAll(rs)[id] == RegisterAll(other)[id]
    {
      FirstRegistrationWins(rs, id);
      FirstRegistrationWins(other, id);
      SameNames(rs, other, id);
      SameNames(other, rs, id);
    }
  }

  /** So the selection does not depend on the order in which providers with different ids were registered. */
  lemma SelectionIgnoresOrder<P>(rs: seq<Registration<P>>, other: seq<Registration<P>>,
                                 probes: map<string, Result<ProviderCapability>>, r: Request,
                                 s: Result<Selection<P>>, s': Result<Selection<P>>)
    requires multiset(rs) == multiset(other) && DistinctIds(rs) && CarryIds(probes)
    requires IsSelection(RegisterAll(rs), probes, r, s) && IsSelection(RegisterAll(other), probes, r, s')
    ensures s == s'
  {
    hide IsSelection;
    RegistrationOrderIsIrrelevant(rs, other);
    SelectionIsUnique(RegisterAll(rs), probes, r, s, s');
  }
}
