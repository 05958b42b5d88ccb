/** What the fields of a bundle summary count, in terms of the attestations' own members. */
module SummaryMeaning {
  import opened Wrappers
  import opened Order
  import opened Sequences
  import opened Unicode
  import opened PythonValues
  import opened RealValues
  import opened FloatRange
  import opened ReceiptBundle
  import Merkle
  import Negotiation
  import PredicateMeaning

  // ---------------------------------------------------------------- one attestation

  function MemberOf(ms: seq<Member>, outer: string, inner: string): Option<Json> {
    match Get(ms, Lit(outer))
    case Some(Obj(inside)) => Get(inside, Lit(inner))
    case _ => None
  }

  predicate IsAgreed(att: Attestation) {
    MemberOf(att, "outcome", "status") == Some(Str(Lit("agreed")))
  }

  /** There is a fulfillment record. */
  predicate IsRated(att: Attestation) {
    Get(att, Lit("fulfillment")).Some? && Get(att, Lit("fulfillment")) != Some(Null)
  }

  predicate IsFulfilled(att: Attestation) {
    || MemberOf(att, "fulfillment", "status") == Some(Str(Lit("fulfilled")))
    || MemberOf(att, "fulfillment", "status") == Some(Str(Lit("complete")))
  }

  predicate HasCategory(att: Attestation, t: Text) {
    t != [] && MemberOf(att, "meta", "category") == Some(Str(t))
  }

  predicate HasTimestamp(att: Attestation, t: Text) {
    t != [] && Get(att, Lit("timestamp")) == Some(Str(t))
  }

  /** The party list. */
  function Entries(att: Attestation): seq<Json> {
    match Get(att, Lit("parties"))
    case Some(Arr(_, elems)) => elems
    case _ => []
  }

  /** The entry's id, which is empty when there is none. */
  predicate EntryId(party: seq<Member>, pid: Text) {
    match Get(party, Lit("agent_id"))
    case None => pid == []
    case Some(v) => v == Str(pid)
  }

  /** A concession magnitude that counts: a number, or a bool taken as one. */
  predicate EntryConcession(party: seq<Member>, x: real) {
    match MemberOf(party, "behavior", "concession_magnitude")
    case Some(Bool(b)) => x == if b then 1.0 else 0.0
    case Some(Num(num)) => Reading(num) == Some(x)
    case _ => false
  }

  predicate EntryReasons(party: seq<Member>) {
    match MemberOf(party, "behavior", "reasoning_provided")
    case Some(v) => Negotiation.Truthy(v)
    case None => false
  }

  /** What is read from one party entry. */
  ghost predicate ReadsEntry(agent: Text, party: seq<Member>, pf: PartyFacts) {
    exists pid :: EntryId(party, pid) && ReadsEntryOf(agent, party, pid, pf)
  }

  ghost predicate ReadsEntryOf(agent: Text, party: seq<Member>, pid: Text, pf: PartyFacts) {
    if pid != agent then pf == PartyFacts(Some(pid), None, false)
    else
      && pf.counterparty.None? && (forall x :: pf.concession == Some(x) <==> EntryConcession(party, x))
      && (pf.reasoned <==> EntryReasons(party))
  }

  lemma EntryFacts(agent: Text, party: seq<Member>)
    requires FactsOfParty(agent, party).Some?
    ensures ReadsEntry(agent, party, FactsOfParty(agent, party).value)
  {
    var pid := PartyId(party).value;
    assert EntryId(party, pid);
    if pid == agent {
      OwnEntryFacts(agent, party, pid);
    }
  }

  lemma OwnEntryFacts(agent: Text, party: seq<Member>, pid: Text)
    requires FactsOfParty(agent, party).Some? && PartyId(party) == Some(pid) && pid == agent
    ensures ReadsEntryOf(agent, party, pid, FactsOfParty(agent, party).value)
  {
    var behavior := DictAt(party, BEHAVIOR).value;
    assert ConcessionIn(behavior) == match Get(behavior, CONCESSION_MAGNITUDE)
        case Some(v) => Negotiation.Numeric(v)
        case None => None;
  }

  /** What is read from one attestation. */
  ghost predicate ReadsAttestation(agent: Text, att: Attestation, f: Facts) {
    && (f.agreed <==> IsAgreed(att))
    && (f.fulfilled.Some? <==> IsRated(att)) && (f.fulfilled == Some(true) <==> IsFulfilled(att))
    && (forall t :: f.category == Some(t) <==> HasCategory(att, t))
    && (forall t :: f.timestamp == Some(t) <==> HasTimestamp(att, t))
    && ReadsEntries(agent, Entries(att), f.parties)
  }

  ghost predicate ReadsEntries(agent: Text, entries: seq<Json>, facts: seq<PartyFacts>) {
    && |facts| == |entries|
    && forall j :: 0 <= j < |entries| ==> entries[j].Obj? && ReadsEntry(agent, entries[j].members, facts[j])
  }

  lemma OutsideFacts(att: Attestation)
    requires OutsideParties(att).Some?
    ensures var f := OutsideParties(att).value;
            && (f.agreed <==> IsAgreed(att))
            && (f.fulfilled.Some? <==> IsRated(att)) && (f.fulfilled == Some(true) <==> IsFulfilled(att))
            && (forall t :: f.category == Some(t) <==> HasCategory(att, t))
            && (forall t :: f.timestamp == Some(t) <==> HasTimestamp(att, t))
  {
  }

  lemma EntriesRead(agent: Text, att: Attestation, facts: seq<PartyFacts>)
    requires PartiesOf(att).Some? && FactsOfParties(agent, PartiesOf(att).value) == Some(facts)
    ensures ReadsEntries(agent, Entries(att), facts)
  {
    var parties, entries := PartiesOf(att).value, Entries(att);
    EachFails(p => FactsOfParty(agent, p), parties);
    EachFails(AsDict, entries);
    forall j | 0 <= j < |entries|
      ensures entries[j].Obj? && ReadsEntry(agent, entries[j].members, facts[j])
    {
      assert AsDict(entries[j]) == Some(parties[j]);
      assert FactsOfParty(agent, parties[j]) == Some(facts[j]);
      EntryFacts(agent, parties[j]);
    }
  }

  /** Every fact the summary is computed from is the member it is named after. */
  lemma FactsAreRead(agent: Text, att: Attestation)
    requires FactsOf(agent, att).Some?
    ensures ReadsAttestation(agent, att, FactsOf(agent, att).value)
  {
    OutsideFacts(att);
    EntriesRead(agent, att, FactsOf(agent, att).value.parties);
  }

  /** A member that can be gone into: absent, or a dict. */
  predicate DictOrAbsent(ms: seq<Member>, key: string) {
    Get(ms, Lit(key)).Some? ==> Get(ms, Lit(key)).value.Obj?
  }

  /** A member that is a text, or false as Python sees it. */
  predicate TextOrFalsy(v: Option<Json>) {
    v.Some? ==> v.value.Str? || !Negotiation.Truthy(v.value)
  }

  predicate EntryReadable(agent: Text, entry: Json) {
    && entry.Obj? && (Get(entry.members, Lit("agent_id")).Some? ==> Get(entry.members, Lit("agent_id")).value.Str?)
    && (EntryId(entry.members, agent) ==>
          DictOrAbsent(entry.members, "behavior") && !HugeMagnitude(entry.members))
  }

  /** The concession magnitude is an int that no float holds. */
  predicate HugeMagnitude(party: seq<Member>) {
    match MemberOf(party, "behavior", "concession_magnitude")
    case Some(Num(Int(v))) => !FitsFloat(v)
    case _ => false
  }

  /** Reading the attestation does not raise. */
  predicate Readable(agent: Text, att: Attestation) {
    && (match Get(att, Lit("parties"))
        case None => true
        case Some(Str(t)) => t == []
        case Some(Obj(ms)) => ms == []
        case Some(Arr(_, elems)) => forall j :: 0 <= j < |elems| ==> EntryReadable(agent, elems[j])
        case _ => false)
    && DictOrAbsent(att, "outcome") && DictOrAbsent(att, "meta")
    && (Get(att, Lit("fulfillment")) == Some(Null) || DictOrAbsent(att, "fulfillment"))
    && TextOrFalsy(MemberOf(att, "meta", "category")) && TextOrFalsy(Get(att, Lit("timestamp")))
  }

  lemma HugeIff(behavior: seq<Member>, party: seq<Member>)
    requires DictAt(party, BEHAVIOR) == Some(behavior)
    ensures ConcessionTooLarge(behavior) <==> HugeMagnitude(party)
  {
    LimitIsLarge();
  }

  lemma EntryReadableIff(agent: Text, party: seq<Member>)
    ensures FactsOfParty(agent, party).Some? <==> EntryReadable(agent, Obj(party))
  {
    if PartyId(party) == Some(agent) && DictAt(party, BEHAVIOR).Some? {
      HugeIff(DictAt(party, BEHAVIOR).value, party);
    }
  }

  lemma OutsideReadableIff(att: Attestation)
    ensures OutsideParties(att).Some? <==>
            && DictOrAbsent(att, "outcome") && DictOrAbsent(att, "meta")
            && (Get(att, Lit("fulfillment")) == Some(Null) || DictOrAbsent(att, "fulfillment"))
            && TextOrFalsy(MemberOf(att, "meta", "category")) && TextOrFalsy(Get(att, Lit("timestamp")))
  {
  }

  /** Reading an attestation raises exactly on the shapes, and on the magnitudes, that cannot be read. */
  lemma ReadableIff(agent: Text, att: Attestation)
    ensures FactsOf(agent, att).Some? <==> Readable(agent, att)
  {
    OutsideReadableIff(att);
    match Get(att, Lit("parties"))
    case Some(Arr(_, elems)) =>
      EachFails(AsDict, elems);
      if PartiesOf(att).Some? {
        var parties := PartiesOf(att).value;
        EachFails(p => FactsOfParty(agent, p), parties);
        forall j | 0 <= j < |elems|
          ensures FactsOfParty(agent, parties[j]).Some? <==> EntryReadable(agent, elems[j])
        {
          assert AsDict(elems[j]) == Some(parties[j]);
          EntryReadableIff(agent, parties[j]);
        }
      }
    case _ =>
  }

  // ---------------------------------------------------------------- counting

  function Count<T>(p: T -> bool, xs: seq<T>): nat {
    if xs == [] then 0 else Count(p, xs[..|xs| - 1]) + if p(xs[|xs| - 1]) then 1 else 0
  }

  lemma {:induction false} FlagsCounted<T>(f: T -> seq<bool>, p: T -> bool, xs: seq<T>)
    requires forall x :: f(x) == Flag(p(x))
    ensures |FlatMap(f, xs)| == Count(p, xs)
  {
    if xs != [] {
      FlagsCounted(f, p, xs[..|xs| - 1]);
    }
  }

  lemma {:induction false} SameCount<S, T>(p: S -> bool, q: T -> bool, xs: seq<S>, ys: seq<T>)
    requires |xs| == |ys| && forall i :: 0 <= i < |xs| ==> p(xs[i]) == q(ys[i])
    ensures Count(p, xs) == Count(q, ys)
  {
    if xs != [] {
      SameCount(p, q, xs[..|xs| - 1], ys[..|ys| - 1]);
    }
  }

  lemma {:induction false} CountBounds<T>(p: T -> bool, xs: seq<T>)
    ensures Count(p, xs) <= |xs|
  {
    if xs != [] {
      CountBounds(p, xs[..|xs| - 1]);
    }
  }

  /** The facts of all attestations, each read from its own. */
  lemma AllFactsAreRead(agent: Text, atts: seq<Attestation>)
    requires AllFacts(agent, atts).Some?
    ensures forall i :: 0 <= i < |atts| ==> ReadsAttestation(agent, atts[i], AllFacts(agent, atts).value[i])
  {
    EachFails(a => FactsOf(agent, a), atts);
    forall i | 0 <= i < |atts|
      ensures ReadsAttestation(agent, atts[i], AllFacts(agent, atts).value[i])
    {
      assert FactsOf(agent, atts[i]) == Some(AllFacts(agent, atts).value[i]);
      FactsAreRead(agent, atts[i]);
    }
  }

  lemma TalliedCounts(agent: Text, atts: seq<Attestation>, fs: seq<Facts>)
    requires |fs| == |atts| && forall i :: 0 <= i < |atts| ==> ReadsAttestation(agent, atts[i], fs[i])
    ensures |TallyOf(fs).agreed| == Count((a: Attestation) => IsAgreed(a), atts)
    ensures |TallyOf(fs).rated| == Count((a: Attestation) => IsRated(a), atts)
    ensures |TallyOf(fs).fulfilled| == Count((a: Attestation) => IsFulfilled(a), atts)
  {
    FlagsCounted((f: Facts) => Flag(f.agreed), (f: Facts) => f.agreed, fs);
    SameCount((f: Facts) => f.agreed, (a: Attestation) => IsAgreed(a), fs, atts);
    FlagsCounted((f: Facts) => Flag(f.fulfilled.Some?), (f: Facts) => f.fulfilled.Some?, fs);
    SameCount((f: Facts) => f.fulfilled.Some?, (a: Attestation) => IsRated(a), fs, atts);
    FlagsCounted((f: Facts) => Flag(f.fulfilled == Some(true)), (f: Facts) => f.fulfilled == Some(true), fs);
    SameCount((f: Facts) => f.fulfilled == Some(true), (a: Attestation) => IsFulfilled(a), fs, atts);
  }

  // ---------------------------------------------------------------- sets of texts

  lemma {:induction false} InFlatMap<S, T>(f: S -> seq<T>, xs: seq<S>, y: T)
    ensures y in FlatMap(f, xs) <==> exists i :: 0 <= i < |xs| && y in f(xs[i])
  {
    if xs != [] {
      var init := xs[..|xs| - 1];
      InFlatMap(f, init, y);
      assert forall i :: 0 <= i < |init| ==> init[i] == xs[i];
    }
  }

  /** Somebody else in the party list of some attestation. */
  ghost predicate IsCounterparty(agent: Text, atts: seq<Attestation>, pid: Text) {
    pid != agent && exists i, j :: 0 <= i < |atts| && EntryNames(atts[i], j, pid)
  }

  ghost predicate EntryNames(att: Attestation, j: int, pid: Text) {
    0 <= j < |Entries(att)| && Entries(att)[j].Obj? && EntryId(Entries(att)[j].members, pid)
  }

  lemma CounterpartyAt(agent: Text, att: Attestation, f: Facts, pid: Text)
    requires ReadsAttestation(agent, att, f)
    ensures pid in Counterparties(f) <==> pid != agent && exists j :: EntryNames(att, j, pid)
  {
    InFlatMap((p: PartyFacts) => Few(p.counterparty), f.parties, pid);
    forall j | 0 <= j < |f.parties|
      ensures pid in Few(f.parties[j].counterparty) <==> pid != agent && EntryNames(att, j, pid)
    {
      var party := Entries(att)[j].members;
      assert ReadsEntry(agent, party, f.parties[j]);
      var id :| EntryId(party, id) && ReadsEntryOf(agent, party, id, f.parties[j]);
      OneEntryId(party, id, pid);
    }
    assert forall j :: EntryNames(att, j, pid) ==> 0 <= j < |f.parties|;
  }

  lemma OneEntryId(party: seq<Member>, a: Text, b: Text)
    requires EntryId(party, a)
    ensures EntryId(party, b) <==> a == b
  {
  }

  /** The facts of some attestations, one each. */
  ghost predicate ReadsAll(agent: Text, atts: seq<Attestation>, fs: seq<Facts>) {
    |fs| == |atts| && forall i :: 0 <= i < |atts| ==> ReadsAttestation(agent, atts[i], fs[i])
  }

  lemma TalliedCounterparties(agent: Text, atts: seq<Attestation>, fs: seq<Facts>, pid: Text)
    requires ReadsAll(agent, atts, fs)
    ensures pid in TallyOf(fs).counterparties <==> IsCounterparty(agent, atts, pid)
  {
    InFlatMap(Counterparties, fs, pid);
    forall i | 0 <= i < |fs|
      ensures pid in Counterparties(fs[i]) <==> pid != agent && exists j :: EntryNames(atts[i], j, pid)
    {
      CounterpartyAt(agent, atts[i], fs[i], pid);
    }
  }

  lemma TalliedCategories(agent: Text, atts: seq<Attestation>, fs: seq<Facts>, t: Text)
    requires ReadsAll(agent, atts, fs)
    ensures t in TallyOf(fs).categories <==> exists i :: 0 <= i < |atts| && HasCategory(atts[i], t)
  {
    InFlatMap((f: Facts) => Few(f.category), fs, t);
    forall i | 0 <= i < |fs|
      ensures t in Few(fs[i].category) <==> HasCategory(atts[i], t)
    {
      assert ReadsAttestation(agent, atts[i], fs[i]);
      assert fs[i].category == Some(t) <==> HasCategory(atts[i], t);
    }
  }

  lemma TalliedTimestamps(agent: Text, atts: seq<Attestation>, fs: seq<Facts>, t: Text)
    requires ReadsAll(agent, atts, fs)
    ensures t in TallyOf(fs).timestamps <==> exists i :: 0 <= i < |atts| && HasTimestamp(atts[i], t)
  {
    InFlatMap((f: Facts) => Few(f.timestamp), fs, t);
    forall i | 0 <= i < |fs|
      ensures t in Few(fs[i].timestamp) <==> HasTimestamp(atts[i], t)
    {
      assert ReadsAttestation(agent, atts[i], fs[i]);
      assert fs[i].timestamp == Some(t) <==> HasTimestamp(atts[i], t);
    }
  }

  lemma {:induction false} SizeOfNoRepeats(xs: seq<Text>)
    requires NoRepeats(xs)
    ensures |set x | x in xs| == |xs|
  {
    if xs != [] {
      var init, last := xs[..|xs| - 1], xs[|xs| - 1];
      SizeOfNoRepeats(init);
      assert last !in init;
      assert xs == init + [last];
      assert (set x | x in xs) == (set x | x in init) + {last};
    }
  }

  lemma SizeOfDistinct(xs: seq<Text>, members: set<Text>)
    requires forall x :: x in members <==> x in xs
    ensures |Distinct(xs)| == |members|
  {
    DistinctIs(xs);
    SizeOfNoRepeats(Distinct(xs));
    assert members == set x | x in Distinct(xs);
  }

  /** A sorted list begins with its least text and ends with its greatest. */
  lemma SortedEnds(xs: seq<Text>)
    ensures xs == [] <==> Merkle.SortIds(xs) == []
    ensures xs != [] ==> var ys := Merkle.SortIds(xs);
              && ys[0] in xs && ys[|ys| - 1] in xs
              && forall x :: x in xs ==> !Precedes(x, ys[0]) && !Precedes(ys[|ys| - 1], x)
  {
    var ys := Merkle.SortIds(xs);
    Merkle.SortIdsPermutes(xs);
    Merkle.SortIdsMembers(xs);
    Merkle.SortedIdsAre(xs);
    if xs != [] {
      forall x | x in xs
        ensures !Precedes(x, ys[0]) && !Precedes(ys[|ys| - 1], x)
      {
        var k :| 0 <= k < |ys| && ys[k] == x;
        NotBefore(ys, k);
      }
    }
  }

  lemma NotBefore(ys: seq<Text>, k: nat)
    requires Sorted(Merkle.KeyedIds(ys)) && k < |ys|
    ensures !Precedes(ys[k], ys[0]) && !Precedes(ys[|ys| - 1], ys[k])
  {
    var keyed := Merkle.KeyedIds(ys);
    LexIrreflexive(ys[k]);
    LexLessIff(ys[k], ys[0]);
    LexLessIff(ys[|ys| - 1], ys[k]);
    assert keyed[k].key == ys[k] && keyed[0].key == ys[0] && keyed[|ys| - 1].key == ys[|ys| - 1];
  }

  // ---------------------------------------------------------------- the summary

  function Quotient(a: nat, b: nat): real {
    if b == 0 then 0.0 else a as real / b as real
  }

  /** Some attestation has this timestamp. */
  ghost predicate IsStamp(atts: seq<Attestation>, t: Text) {
    exists i :: 0 <= i < |atts| && HasTimestamp(atts[i], t)
  }

  /** The first timestamp in text order; empty when there is none. */
  ghost predicate Earliest(atts: seq<Attestation>, t: Text) {
    if t == [] then forall u: Text :: !IsStamp(atts, u)
    else IsStamp(atts, t) && forall u: Text :: IsStamp(atts, u) ==> !Precedes(u, t)
  }

  /** The last one. */
  ghost predicate Latest(atts: seq<Attestation>, t: Text) {
    if t == [] then forall u: Text :: !IsStamp(atts, u)
    else IsStamp(atts, t) && forall u: Text :: IsStamp(atts, u) ==> !Precedes(t, u)
  }

  ghost predicate CountsOf(round: Rounding, atts: seq<Attestation>, s: Summary) {
    var agreed := Count((a: Attestation) => IsAgreed(a), atts);
    var rated := Count((a: Attestation) => IsRated(a), atts);
    var fulfilled := Count((a: Attestation) => IsFulfilled(a), atts);
    && s.total == |atts| && s.agreements == agreed && s.agreementRate == round(Quotient(agreed, |atts|))
    && s.fulfillmentRate == round(Quotient(fulfilled, rated))
  }

  lemma SummaryCounts(round: Rounding, agent: Text, atts: seq<Attestation>)
    requires atts != [] && Summarize(round, agent, atts).Some?
    ensures CountsOf(round, atts, Summarize(round, agent, atts).value)
  {
    AllFactsAreRead(agent, atts);
    TalliedCounts(agent, atts, AllFacts(agent, atts).value);
  }

  /** How many counterparties, and which categories. */
  lemma SummaryNames(round: Rounding, agent: Text, atts: seq<Attestation>) returns (others: set<Text>)
    requires atts != [] && Summarize(round, agent, atts).Some?
    ensures forall pid :: pid in others <==> IsCounterparty(agent, atts, pid)
    ensures var s := Summarize(round, agent, atts).value;
            && s.counterparties == |others| && NoRepeats(s.categories)
            && forall t :: t in s.categories <==> exists i :: 0 <= i < |atts| && HasCategory(atts[i], t)
  {
    var fs := AllFacts(agent, atts).value;
    AllFactsAreRead(agent, atts);
    var t := TallyOf(fs);
    others := set pid | pid in t.counterparties;
    forall pid
      ensures pid in others <==> IsCounterparty(agent, atts, pid)
    {
      TalliedCounterparties(agent, atts, fs, pid);
    }
    SizeOfDistinct(t.counterparties, others);
    DistinctIs(t.categories);
    Merkle.SortIdsMembers(Distinct(t.categories));
    Merkle.SortIdsPermutes(Distinct(t.categories));
    NoRepeatsReordered(Distinct(t.categories), Merkle.SortIds(Distinct(t.categories)));
    forall c
      ensures c in t.categories <==> exists i :: 0 <= i < |atts| && HasCategory(atts[i], c)
    {
      TalliedCategories(agent, atts, fs, c);
    }
  }

  lemma SortedExtremes(atts: seq<Attestation>, stamps: seq<Text>)
    requires forall t: Text :: t in stamps <==> IsStamp(atts, t)
    ensures Earliest(atts, First(Merkle.SortIds(stamps))) && Latest(atts, Final(Merkle.SortIds(stamps)))
  {
    SortedEnds(stamps);
    NoEmptyStamp(atts);
    var ys := Merkle.SortIds(stamps);
    if stamps != [] {
      assert IsStamp(atts, ys[0]) && IsStamp(atts, ys[|ys| - 1]);
    }
  }

  lemma NoEmptyStamp(atts: seq<Attestation>)
    ensures !IsStamp(atts, [])
  {
  }

  /** Both extreme timestamps. */
  lemma SummaryExtremes(round: Rounding, agent: Text, atts: seq<Attestation>)
    requires atts != [] && Summarize(round, agent, atts).Some?
    ensures var s := Summarize(round, agent, atts).value;
            Earliest(atts, s.earliest) && Latest(atts, s.latest)
  {
    var fs := AllFacts(agent, atts).value;
    AllFactsAreRead(agent, atts);
    forall t: Text
      ensures t in TallyOf(fs).timestamps <==> IsStamp(atts, t)
    {
      TalliedTimestamps(agent, atts, fs, t);
    }
    SortedExtremes(atts, TallyOf(fs).timestamps);
  }

  /** The concession magnitude of the agent's own entry. */
  function Magnitude(agent: Text, entry: Json): Option<real> {
    if !entry.Obj? || !EntryId(entry.members, agent) then None
    else
      match MemberOf(entry.members, "behavior", "concession_magnitude")
      case Some(Bool(b)) => Some(if b then 1.0 else 0.0)
      case Some(Num(num)) => Reading(num)
      case _ => None
  }

  /** The agent's own entry, with reasons. */
  predicate GivesReasons(agent: Text, entry: Json) {
    entry.Obj? && EntryId(entry.members, agent) && EntryReasons(entry.members)
  }

  function Magnitudes(agent: Text): Attestation -> seq<real> {
    (att: Attestation) => FlatMap((e: Json) => Few(Magnitude(agent, e)), Entries(att))
  }

  function Reasonings(agent: Text): Attestation -> seq<bool> {
    (att: Attestation) => FlatMap((e: Json) => Flag(GivesReasons(agent, e)), Entries(att))
  }

  lemma {:induction false} SameFlatMap<S, T, U>(f: S -> seq<U>, g: T -> seq<U>, xs: seq<S>, ys: seq<T>)
    requires |xs| == |ys| && forall i :: 0 <= i < |xs| ==> f(xs[i]) == g(ys[i])
    ensures FlatMap(f, xs) == FlatMap(g, ys)
  {
    if xs != [] {
      SameFlatMap(f, g, xs[..|xs| - 1], ys[..|ys| - 1]);
    }
  }

  lemma EntryMeans(agent: Text, entry: Json, pf: PartyFacts)
    requires entry.Obj? && ReadsEntry(agent, entry.members, pf)
    ensures pf.concession == Magnitude(agent, entry) && pf.reasoned == GivesReasons(agent, entry)
  {
    var pid :| EntryId(entry.members, pid) && ReadsEntryOf(agent, entry.members, pid, pf);
    OneEntryId(entry.members, pid, agent);
    if pid == agent && pf.concession.Some? {
      assert EntryConcession(entry.members, pf.concession.value);
    }
    if pid == agent && Magnitude(agent, entry).Some? {
      assert EntryConcession(entry.members, Magnitude(agent, entry).value);
    }
  }

  lemma AttestationMeans(agent: Text, att: Attestation, f: Facts)
    requires ReadsAttestation(agent, att, f)
    ensures ConcessionsIn(f) == Magnitudes(agent)(att) && Reasoned(f) == Reasonings(agent)(att)
  {
    forall j | 0 <= j < |f.parties|
      ensures f.parties[j].concession == Magnitude(agent, Entries(att)[j])
      ensures f.parties[j].reasoned == GivesReasons(agent, Entries(att)[j])
    {
      EntryMeans(agent, Entries(att)[j], f.parties[j]);
    }
    SameFlatMap((p: PartyFacts) => Few(p.concession), (e: Json) => Few(Magnitude(agent, e)), f.parties, Entries(att));
    SameFlatMap((p: PartyFacts) => Flag(p.reasoned), (e: Json) => Flag(GivesReasons(agent, e)),
                f.parties, Entries(att));
  }

  /** The mean of the agent's own magnitudes, in order, and the rate of its entries with reasons. */
  lemma SummaryMeans(round: Rounding, agent: Text, atts: seq<Attestation>)
    requires atts != [] && Summarize(round, agent, atts).Some?
    ensures var s := Summarize(round, agent, atts).value;
            var xs := FlatMap(Magnitudes(agent), atts);
            && s.reasoningRate == round(Quotient(|FlatMap(Reasonings(agent), atts)|, |atts|))
            && (xs == [] ==> s.avgConcession == round(0.0))
            && (xs != [] && (forall k :: 0 < k <= |xs| ==> InFloatRange(PredicateMeaning.PlainSum(xs[..k]))) ==>
                  s.avgConcession == round(PredicateMeaning.PlainSum(xs) / |xs| as real))
  {
    var fs := AllFacts(agent, atts).value;
    AllFactsAreRead(agent, atts);
    forall i | 0 <= i < |atts|
      ensures ConcessionsIn(fs[i]) == Magnitudes(agent)(atts[i]) && Reasoned(fs[i]) == Reasonings(agent)(atts[i])
    {
      AttestationMeans(agent, atts[i], fs[i]);
    }
    SameFlatMap(ConcessionsIn, Magnitudes(agent), fs, atts);
    SameFlatMap(Reasoned, Reasonings(agent), fs, atts);
    var xs := FlatMap(Magnitudes(agent), atts);
    PredicateMeaning.SumIff(xs, PredicateMeaning.PlainSum(xs));
  }
}
