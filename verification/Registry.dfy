/** The want and have stores with their per-agent indexes (`concordia/want_registry.py`). */
module Registry {
  import opened Wrappers
  import opened Sequences
  import opened Unicode
  import opened Numbers
  import opened PythonValues
  import opened FloatRange
  import opened Matching

  const MAX_ENTRIES := 50_000
  const MAX_MATCHES := 100_000
  const MAX_ACTIVE_PER_AGENT := 100
  const MAX_TTL_SECONDS := 7 * 24 * 60 * 60

  /** A store of wants or of haves: entries by id, and each agent's ids. */
  datatype Shelf = Shelf(entries: map<Text, Entry>, index: map<Text, set<Text>>)

  const EMPTY_SHELF := Shelf(map[], map[])

  function Indexed(s: Shelf, agent: Text): set<Text> {
    if agent in s.index then s.index[agent] else {}
  }

  /** The ids of an agent's entries, by a full scan. */
  function Scan(s: Shelf, agent: Text): set<Text> {
    set id | id in s.entries && s.entries[id].agent == agent
  }

  /** The indexes say what a full scan would. */
  ghost predicate IndexOk(s: Shelf) {
    forall agent :: Indexed(s, agent) == Scan(s, agent)
  }

  // ---------------------------------------------------------------- one store

  /** `_remove_want` and `_remove_have` */
  function Remove(s: Shelf, id: Text): Shelf {
    if id !in s.entries then s
    else
      var agent := s.entries[id].agent;
      Shelf(s.entries - {id}, if agent in s.index then s.index[agent := s.index[agent] - {id}] else s.index)
  }

  function Expired(s: Shelf, now: int): set<Text> {
    set id | id in s.entries && IsExpired(s.entries[id], now)
  }

  function Insert(s: Shelf, id: Text, e: Entry): Shelf {
    Shelf(s.entries[id := e], s.index[e.agent := Indexed(s, e.agent) + {id}])
  }

  /** `_active_want_count` and `_active_have_count` */
  function ActiveOf(s: Shelf, agent: Text, now: int): set<Text> {
    set id | id in Indexed(s, agent) && id in s.entries && !IsExpired(s.entries[id], now)
  }

  lemma RemoveKeepsIndex(s: Shelf, id: Text)
    requires IndexOk(s)
    ensures IndexOk(Remove(s, id))
  {
    var next := Remove(s, id);
    forall agent
      ensures Indexed(next, agent) == Scan(next, agent)
    {
      assert Indexed(s, agent) == Scan(s, agent);
    }
  }

  lemma InsertKeepsIndex(s: Shelf, id: Text, e: Entry)
    requires IndexOk(s) && id !in s.entries
    ensures IndexOk(Insert(s, id, e))
  {
    var next := Insert(s, id, e);
    forall agent
      ensures Indexed(next, agent) == Scan(next, agent)
    {
      assert Indexed(s, agent) == Scan(s, agent);
    }
  }

  /** No agent has too many entries that are live at `clock`. */
  ghost predicate CapAt(s: Shelf, clock: int) {
    forall agent :: |ActiveOf(s, agent, clock)| <= MAX_ACTIVE_PER_AGENT
  }

  ghost predicate ShelfOk(s: Shelf, clock: int) {
    IndexOk(s) && |s.entries| <= MAX_ENTRIES && CapAt(s, clock)
  }

  /** Removing entries and letting time pass only makes room. */
  lemma LessIsOk(s: Shelf, next: Shelf, clock: int, now: int)
    requires ShelfOk(s, clock) && IndexOk(next) && clock <= now
    requires next.entries.Keys <= s.entries.Keys && forall id :: id in next.entries ==>
            next.entries[id] == s.entries[id]
    ensures ShelfOk(next, now)
  {
    SubsetSize(next.entries.Keys, s.entries.Keys);
    assert |next.entries| == |next.entries.Keys| && |s.entries| == |s.entries.Keys|;
    forall agent
      ensures |ActiveOf(next, agent, now)| <= MAX_ACTIVE_PER_AGENT
    {
      assert Indexed(next, agent) == Scan(next, agent) && Indexed(s, agent) == Scan(s, agent);
      assert ActiveOf(next, agent, now) <= ActiveOf(s, agent, clock);
      SubsetSize(ActiveOf(next, agent, now), ActiveOf(s, agent, clock));
    }
  }

  lemma RemoveIsOk(s: Shelf, id: Text, clock: int, now: int)
    requires ShelfOk(s, clock) && clock <= now
    ensures ShelfOk(Remove(s, id), now)
  {
    RemoveKeepsIndex(s, id);
    LessIsOk(s, Remove(s, id), clock, now);
  }

  /** An insertion that the two limits allow keeps them. */
  lemma InsertIsOk(s: Shelf, id: Text, e: Entry, countedAt: int, now: int)
    requires ShelfOk(s, countedAt) && id !in s.entries && countedAt <= now
    requires |s.entries| < MAX_ENTRIES && |ActiveOf(s, e.agent, countedAt)| < MAX_ACTIVE_PER_AGENT
    ensures ShelfOk(Insert(s, id, e), now)
  {
    var next := Insert(s, id, e);
    InsertKeepsIndex(s, id, e);
    assert next.entries.Keys == s.entries.Keys + {id};
    assert |next.entries| == |next.entries.Keys| && |s.entries| == |s.entries.Keys|;
    forall agent
      ensures |ActiveOf(next, agent, now)| <= MAX_ACTIVE_PER_AGENT
    {
      var room := if agent == e.agent then {id} else {};
      SubsetSize(ActiveOf(next, agent, now), ActiveOf(s, agent, countedAt) + room);
    }
  }

  /** `_expire_wants` and `_expire_haves` */
  method Expire(s: Shelf, now: int) returns (next: Shelf)
    requires IndexOk(s)
    ensures IndexOk(next) && next.entries == s.entries - Expired(s, now)
  {
    var todo := Expired(s, now);
    next := s;
    while todo != {}
      invariant todo <= Expired(s, now) && IndexOk(next)
      invariant next.entries == s.entries - (Expired(s, now) - todo)
      decreases |todo|
    {
      var id :| id in todo;
      RemoveKeepsIndex(next, id);
      next := Remove(next, id);
      todo := todo - {id};
    }
    assert Expired(s, now) - {} == Expired(s, now);
  }

  // ---------------------------------------------------------------- matches

  datatype Match = Match(want: Text, have: Text, score: real, overlaps: map<Text, Overlap>, distance: Option<real>)

  predicate SortedByScore(ms: seq<Match>) {
    forall i, j :: 0 <= i < j < |ms| ==> ms[i].score >= ms[j].score
  }

  /** Stable insertion in descending order of score. */
  function InsertMatch(m: Match, ms: seq<Match>): seq<Match> {
    if ms == [] then [m]
    else if ms[0].score >= m.score then [ms[0]] + InsertMatch(m, ms[1..])
    else [m] + ms
  }

  lemma {:induction false} InsertMatchItems(m: Match, ms: seq<Match>)
    ensures multiset(InsertMatch(m, ms)) == multiset{m} + multiset(ms)
  {
    if ms != [] {
      assert ms == [ms[0]] + ms[1..];
      if ms[0].score >= m.score {
        InsertMatchItems(m, ms[1..]);
      }
    }
  }

  lemma {:induction false} InsertMatchSorts(m: Match, ms: seq<Match>)
    requires SortedByScore(ms)
    ensures SortedByScore(InsertMatch(m, ms))
  {
    if ms != [] && ms[0].score >= m.score {
      InsertMatchSorts(m, ms[1..]);
      InsertMatchItems(m, ms[1..]);
      var tail := InsertMatch(m, ms[1..]);
      forall j | 0 <= j < |tail|
        ensures ms[0].score >= tail[j].score
      {
        assert tail[j] in multiset(tail);
      }
    }
  }

  /** The entry that is being posted, and on which side. */
  datatype Posting = Posting(id: Text, entry: Entry, wanting: bool)

  /** `compute_match` can give `m` for a posting and an entry of the other side. */
  ghost predicate Gives(tools: Tools, p: Posting, other: Entry, now: int, m: MatchResult) {
    if p.wanting then MatchPossible(tools, p.entry, other, now, m) else MatchPossible(tools, other, p.entry, now, m)
  }

  /** What `compute_match` gave for the entries with these ids. */
  type Results = map<Text, MatchResult>

  function MatchWith(p: Posting, other: Text, found: MatchResult): Match
    requires found.Found?
  {
    Match(if p.wanting then p.id else other, if p.wanting then other else p.id,
          found.score, found.overlaps, found.distance)
  }

  /** The entries that a posting matches. */
  function Hits(rs: Results): set<Text> {
    set id | id in rs && rs[id].Found?
  }

  /** All matches of a posting. */
  function MatchesIn(p: Posting, rs: Results): set<Match> {
    set id | id in Hits(rs) :: MatchWith(p, id, rs[id])
  }

  /** The results are those of the live entries among `ids`. */
  ghost predicate OfLive(others: map<Text, Entry>, now: int, ids: set<Text>, rs: Results) {
    ids <= others.Keys && forall id :: id in rs <==> id in ids && !IsExpired(others[id], now)
  }

  ghost predicate AllReturned(tools: Tools, p: Posting, others: map<Text, Entry>, now: int, rs: Results) {
    forall id :: id in rs ==> id in others && Returned(tools, p, others[id], now, rs[id])
  }

  /** Every live entry among `ids`, and no other, was compared with the posting, and nothing raised. */
  ghost predicate Compared(tools: Tools, p: Posting, others: map<Text, Entry>, now: int, ids: set<Text>, rs: Results) {
    OfLive(others, now, ids, rs) && AllReturned(tools, p, others, now, rs)
  }

  ghost predicate Returned(tools: Tools, p: Posting, other: Entry, now: int, m: MatchResult) {
    Gives(tools, p, other, now, m) && m != MatchRaises
  }

  ghost predicate ComparedAll(tools: Tools, p: Posting, others: map<Text, Entry>, now: int, rs: Results) {
    Compared(tools, p, others, now, others.Keys, rs)
  }

  /** Some of the live entries were compared, and nothing raised. */
  ghost predicate ComparedSome(tools: Tools, p: Posting, others: map<Text, Entry>, now: int, rs: Results) {
    exists ids: set<Text> :: Compared(tools, p, others, now, ids, rs)
  }

  /** For some live entry `compute_match` can raise. */
  ghost predicate SomeRaises(tools: Tools, p: Posting, others: map<Text, Entry>, now: int) {
    exists id :: id in others && !IsExpired(others[id], now) && Gives(tools, p, others[id], now, MatchRaises)
  }

  lemma OneMoreResult(p: Posting, rs: Results, id: Text, m: MatchResult)
    requires id !in rs
    ensures if m.Found? then MatchWith(p, id, m) !in MatchesIn(p, rs)
                          && MatchesIn(p, rs[id := m]) == MatchesIn(p, rs) + {MatchWith(p, id, m)}
            else MatchesIn(p, rs[id := m]) == MatchesIn(p, rs)
  {
    if m.Found? {
      assert Hits(rs[id := m]) == Hits(rs) + {id};
    } else {
      assert Hits(rs[id := m]) == Hits(rs);
    }
  }

  /** `stored` with the matches in `found` behind it, or with some of them up to the cap. */
  ghost predicate Extended(stored: seq<Match>, next: seq<Match>, found: set<Match>) {
    && |stored| <= |next| <= MAX_MATCHES && next[..|stored|] == stored
    && multiset(next[|stored|..]) <= multiset(found)
    && (|next| < MAX_MATCHES ==> multiset(next[|stored|..]) == multiset(found))
  }

  /** Store a match unless the cap is reached. */
  function Store(stored: seq<Match>, m: Match): seq<Match> {
    if |stored| < MAX_MATCHES then stored + [m] else stored
  }

  lemma StoreExtends(stored: seq<Match>, next: seq<Match>, found: set<Match>, m: Match)
    requires Extended(stored, next, found) && m !in found
    ensures Extended(stored, Store(next, m), found + {m})
  {
    assert multiset(found + {m}) == multiset(found) + multiset{m};
    if |next| < MAX_MATCHES {
      assert Store(next, m)[|stored|..] == next[|stored|..] + [m];
      assert Store(next, m)[..|stored|] == next[..|stored|];
    }
  }

  /** Sorted, and exactly the matches in `found`. */
  ghost predicate Ranks(ms: seq<Match>, found: set<Match>) {
    SortedByScore(ms) && multiset(ms) == multiset(found)
  }

  lemma InsertRanks(ms: seq<Match>, found: set<Match>, m: Match)
    requires Ranks(ms, found) && m !in found
    ensures Ranks(InsertMatch(m, ms), found + {m}) && |InsertMatch(m, ms)| == |ms| + 1
  {
    InsertMatchItems(m, ms);
    InsertMatchSorts(m, ms);
    assert multiset(found + {m}) == multiset(found) + multiset{m};
    assert |multiset(InsertMatch(m, ms))| == |InsertMatch(m, ms)| && |multiset(ms)| == |ms|;
  }

  lemma OfLiveMore(others: map<Text, Entry>, now: int, ids: set<Text>, rs: Results, id: Text, m: MatchResult)
    requires OfLive(others, now, ids, rs) && id in others && id !in ids
    ensures OfLive(others, now, ids + {id}, if IsExpired(others[id], now) then rs else rs[id := m])
  {
  }

  lemma AllReturnedMore(tools: Tools, p: Posting, others: map<Text, Entry>, now: int, rs: Results,
                        id: Text, m: MatchResult)
    requires AllReturned(tools, p, others, now, rs) && id in others && Returned(tools, p, others[id], now, m)
    ensures AllReturned(tools, p, others, now, rs[id := m])
  {
    forall k | k in rs[id := m]
      ensures k in others && Returned(tools, p, others[k], now, rs[id := m][k])
    {
      if k != id {
        assert rs[id := m][k] == rs[k];
      }
    }
  }

  lemma ComparedMore(tools: Tools, p: Posting, others: map<Text, Entry>, now: int, ids: set<Text>, rs: Results,
                     id: Text, m: MatchResult)
    requires Compared(tools, p, others, now, ids, rs) && id in others && id !in ids
    requires !IsExpired(others[id], now) && Returned(tools, p, others[id], now, m)
    ensures id !in rs && Compared(tools, p, others, now, ids + {id}, rs[id := m])
  {
    OfLiveMore(others, now, ids, rs, id, m);
    AllReturnedMore(tools, p, others, now, rs, id, m);
  }

  /** The matches found, and those stored, once one entry has been compared. */
  method Collect(p: Posting, id: Text, m: MatchResult, matches: seq<Match>, stored': seq<Match>,
                 ghost rs: Results, ghost stored: seq<Match>)
    returns (more: seq<Match>, store: seq<Match>)
    requires id !in rs && Ranks(matches, MatchesIn(p, rs)) && Extended(stored, stored', MatchesIn(p, rs))
    ensures Ranks(more, MatchesIn(p, rs[id := m])) && Extended(stored, store, MatchesIn(p, rs[id := m]))
  {
    OneMoreResult(p, rs, id, m);
    more, store := matches, stored';
    if m.Found? {
      InsertRanks(matches, MatchesIn(p, rs), MatchWith(p, id, m));
      StoreExtends(stored, stored', MatchesIn(p, rs), MatchWith(p, id, m));
      store := Store(stored', MatchWith(p, id, m));
      more := InsertMatch(MatchWith(p, id, m), matches);
    }
  }

  /** `compute_match` between the posting and one entry. */
  method CompareWith(tools: Tools, p: Posting, other: Entry, now: int) returns (m: MatchResult)
    ensures Gives(tools, p, other, now, m)
  {
    if p.wanting {
      m := ComputeMatch(tools, p.entry, other, now);
    } else {
      m := ComputeMatch(tools, other, p.entry, now);
    }
  }

  /** Everything found among the entries compared so far, ranked and stored. */
  ghost predicate Sofar(tools: Tools, p: Posting, others: map<Text, Entry>, now: int, done: set<Text>, rs: Results,
                        matches: seq<Match>, stored: seq<Match>, stored': seq<Match>) {
    && Compared(tools, p, others, now, done, rs)
    && Ranks(matches, MatchesIn(p, rs)) && Extended(stored, stored', MatchesIn(p, rs))
  }

  lemma NothingYet(tools: Tools, p: Posting, others: map<Text, Entry>, now: int, stored: seq<Match>)
    requires |stored| <= MAX_MATCHES
    ensures Sofar(tools, p, others, now, {}, map[], [], stored, stored)
  {
    assert MatchesIn(p, map[]) == {};
    assert stored[|stored|..] == [];
  }

  /** One turn of the loop over the other entries; `false` when the comparison raises. */
  method MatchOne(tools: Tools, p: Posting, others: map<Text, Entry>, now: int, id: Text,
                  matches: seq<Match>, stored': seq<Match>, ghost done: set<Text>, ghost rs: Results,
                  ghost stored: seq<Match>)
    returns (ok: bool, more: seq<Match>, store: seq<Match>, ghost next: Results)
    requires id in others && id !in done && Sofar(tools, p, others, now, done, rs, matches, stored, stored')
    ensures ok ==> Sofar(tools, p, others, now, done + {id}, next, more, stored, store)
    ensures !ok ==> SomeRaises(tools, p, others, now) && store == stored' && next == rs
  {
    ok, more, store, next := true, matches, stored', rs;
    if IsExpired(others[id], now) {
      OfLiveMore(others, now, done, rs, id, NoMatch);
    } else {
      var m := CompareWith(tools, p, others[id], now);
      if m == MatchRaises {
        return false, matches, stored', rs;
      }
      ComparedMore(tools, p, others, now, done, rs, id, m);
      more, store := Collect(p, id, m, matches, stored', rs, stored);
      next := rs[id := m];
    }
  }

  /** `_match_want` and `_match_have`: the sorted matches, and the stored ones. */
  method MatchAll(tools: Tools, p: Posting, others: map<Text, Entry>, now: int, stored: seq<Match>)
    returns (result: Option<seq<Match>>, stored': seq<Match>, ghost rs: Results)
    requires |stored| <= MAX_MATCHES
    ensures |stored'| <= MAX_MATCHES
    ensures Extended(stored, stored', MatchesIn(p, rs))
    ensures result.None? ==> SomeRaises(tools, p, others, now) && ComparedSome(tools, p, others, now, rs)
    ensures result.Some? ==> ComparedAll(tools, p, others, now, rs) && Ranks(result.value, MatchesIn(p, rs))
  {
    var todo := others.Keys;
    var matches: seq<Match> := [];
    ghost var done: set<Text> := {};
    stored', rs := stored, map[];
    NothingYet(tools, p, others, now, stored);
    while todo != {}
      invariant todo <= others.Keys && done == others.Keys - todo
      invariant Sofar(tools, p, others, now, done, rs, matches, stored, stored')
      decreases |todo|
    {
      var id :| id in todo;
      var ok: bool;
      ok, matches, stored', rs := MatchOne(tools, p, others, now, id, matches, stored', done, rs, stored);
      if !ok {
        return None, stored', rs;
      }
      todo, done := todo - {id}, done + {id};
    }
    assert done == others.Keys;
    return Some(matches), stored', rs;
  }

  // ---------------------------------------------------------------- locations

  predicate IsNumber(j: Json) {
    j.Num?
  }

  predicate NumberOrAbsent(ms: seq<Member>, key: Text) {
    match Get(ms, key)
    case None => true
    case Some(Null) => true
    case Some(v) => IsNumber(v)
  }

  predicate ValidContainer(ms: seq<Member>, key: Text) {
    match Get(ms, key)
    case None => true
    case Some(Obj(inner)) => NumberOrAbsent(inner, LAT) && NumberOrAbsent(inner, LNG)
    case _ => false
  }

  /** `_validate_location` returns. */
  predicate ValidLocation(location: Json) {
    match location
    case Null => true
    case Obj(ms) =>
      && ValidContainer(ms, COORDINATES) && ValidContainer(ms, OF)
      && NumberOrAbsent(ms, LAT) && NumberOrAbsent(ms, LNG) && NumberOrAbsent(ms, WITHIN_KM)
    case _ => false
  }

  function LocationOf(location: Json): Location {
    match location
    case Obj(ms) => Some(ms)
    case _ => None
  }

  // ---------------------------------------------------------------- the registry

  /** The arguments of a post, with the id it generates and the clock readings it makes. */
  datatype Request = Request(
    id: Text, agent: Text, category: Text, terms: Terms, location: Json, ttl: int,
    sweptAt: int, countedAt: int, createdAt: int, matchedAt: int)

  datatype PostResult =
    | BadLocation | TtlTooLong | LimitReached | TtlNoFloat | MatchRaised | Posted(matches: seq<Match>)

  predicate InOrder(clock: int, q: Request) {
    clock <= q.sweptAt <= q.countedAt <= q.createdAt <= q.matchedAt
  }

  function EntryOf(q: Request): Entry {
    Entry(q.agent, q.category, q.terms, LocationOf(q.location), q.createdAt + q.ttl)
  }

  /** What the two limits refuse, after the sweep. */
  predicate Full(entries: map<Text, Entry>, q: Request) {
    |entries| >= MAX_ENTRIES || |LiveOf(entries, q.agent, q.countedAt)| >= MAX_ACTIVE_PER_AGENT
  }

  /** The agent's entries that have not expired. */
  function LiveOf(entries: map<Text, Entry>, agent: Text, now: int): set<Text> {
    set id | id in entries && entries[id].agent == agent && !IsExpired(entries[id], now)
  }

  lemma ActiveIsLive(s: Shelf, agent: Text, now: int)
    requires IndexOk(s)
    ensures ActiveOf(s, agent, now) == LiveOf(s.entries, agent, now)
  {
    assert Indexed(s, agent) == Scan(s, agent);
  }

  /** The store that a successful post leaves: nothing expired, and the new entry. */
  ghost predicate PostedTo(s: Shelf, q: Request, next: Shelf) {
    next.entries == (s.entries - Expired(s, q.sweptAt))[q.id := EntryOf(q)]
  }

  /** Every check passed and the entry is in the store. */
  ghost predicate Placed(s: Shelf, q: Request, next: Shelf) {
    && ValidLocation(q.location) && q.ttl <= MAX_TTL_SECONDS && FitsFloat(q.ttl)
    && !Full(s.entries - Expired(s, q.sweptAt), q) && PostedTo(s, q, next)
  }

  /** A refused post: why, and what it leaves. */
  ghost predicate Refused(s: Shelf, next: Shelf, q: Request, r: PostResult) {
    match r
    case BadLocation => !ValidLocation(q.location) && next == s
    case TtlTooLong => ValidLocation(q.location) && q.ttl > MAX_TTL_SECONDS && next == s
    case LimitReached =>
      && ValidLocation(q.location) && q.ttl <= MAX_TTL_SECONDS
      && next.entries == s.entries - Expired(s, q.sweptAt) && Full(next.entries, q)
    case TtlNoFloat =>
      && ValidLocation(q.location) && q.ttl <= MAX_TTL_SECONDS && !FitsFloat(q.ttl)
      && next.entries == s.entries - Expired(s, q.sweptAt) && !Full(next.entries, q)
    case _ => false
  }

  /** An accepted post: the entry is stored, and its matches are returned, ranked, and stored. */
  ghost predicate Accepted(s: Shelf, next: Shelf, others: Shelf, q: Request, wanting: bool, tools: Tools,
                           stored: seq<Match>, stored': seq<Match>, r: PostResult) {
    var p := Posting(q.id, EntryOf(q), wanting);
    && Placed(s, q, next)
    && match r
       case Posted(matches) =>
         exists rs :: && ComparedAll(tools, p, others.entries, q.matchedAt, rs) && Ranks(matches, MatchesIn(p, rs))
                      && Extended(stored, stored', MatchesIn(p, rs))
       case MatchRaised =>
         && SomeRaises(tools, p, others.entries, q.matchedAt)
         && exists rs :: && ComparedSome(tools, p, others.entries, q.matchedAt, rs)
                         && Extended(stored, stored', MatchesIn(p, rs))
       case _ => false
  }

  /** The checks and the insertion that both kinds of post make. */
  method Place(s: Shelf, q: Request, ghost clock: int) returns (refusal: Option<PostResult>, next: Shelf)
    requires ShelfOk(s, clock) && InOrder(clock, q) && q.id !in s.entries
    ensures ShelfOk(next, q.matchedAt)
    ensures refusal.Some? ==> Refused(s, next, q, refusal.value)
    ensures refusal.None? ==> Placed(s, q, next)
  {
    if !ValidLocation(q.location) {
      LessIsOk(s, s, clock, q.matchedAt);
      return Some(BadLocation), s;
    }
    if q.ttl > MAX_TTL_SECONDS {
      LessIsOk(s, s, clock, q.matchedAt);
      return Some(TtlTooLong), s;
    }
    next := Expire(s, q.sweptAt);
    ActiveIsLive(next, q.agent, q.countedAt);
    LessIsOk(s, next, clock, q.countedAt);
    LessIsOk(s, next, clock, q.matchedAt);
    if |next.entries| >= MAX_ENTRIES {
      return Some(LimitReached), next;
    }
    if |ActiveOf(next, q.agent, q.countedAt)| >= MAX_ACTIVE_PER_AGENT {
      return Some(LimitReached), next;
    }
    if !FitsFloat(q.ttl) {
      return Some(TtlNoFloat), next;
    }
    InsertIsOk(next, q.id, EntryOf(q), q.countedAt, q.matchedAt);
    return None, Insert(next, q.id, EntryOf(q));
  }

  method PostMatches(q: Request, wanting: bool, tools: Tools, others: map<Text, Entry>, stored: seq<Match>)
    returns (r: PostResult, stored': seq<Match>)
    requires |stored| <= MAX_MATCHES
    ensures |stored'| <= MAX_MATCHES
    ensures forall s, next, other: Shelf :: Placed(s, q, next) && other.entries == others ==>
              Accepted(s, next, other, q, wanting, tools, stored, stored', r)
  {
    var found: Option<seq<Match>>;
    ghost var rs: Results;
    found, stored', rs := MatchAll(tools, Posting(q.id, EntryOf(q), wanting), others, q.matchedAt, stored);
    r := if found.Some? then Posted(found.value) else MatchRaised;
  }

  class WantRegistry {
    var wants: Shelf
    var haves: Shelf
    var matches: seq<Match>
    ghost var clock: int

    /** Both indexes equal a full scan, and every cap holds. */
    ghost predicate Valid()
      reads this
    {
      ShelfOk(wants, clock) && ShelfOk(haves, clock) && |matches| <= MAX_MATCHES
    }

    constructor (ghost now: int)
      ensures Valid() && wants == EMPTY_SHELF && haves == EMPTY_SHELF && matches == [] && clock == now
    {
      wants, haves, matches, clock := EMPTY_SHELF, EMPTY_SHELF, [], now;
      new;
      assert forall agent :: ActiveOf(EMPTY_SHELF, agent, now) == {};
    }

    /** `post_want` */
    method PostWant(q: Request, tools: Tools) returns (r: PostResult)
      requires Valid() && InOrder(clock, q) && q.id !in wants.entries
      modifies this
      ensures Valid() && clock == q.matchedAt && haves == old(haves)
      ensures (Refused(old(wants), wants, q, r) && matches == old(matches))
           || Accepted(old(wants), wants, haves, q, true, tools, old(matches), matches, r)
    {
      LessIsOk(haves, haves, clock, q.matchedAt);
      var refusal, next := Place(wants, q, clock);
      wants, clock := next, q.matchedAt;
      if refusal.Some? {
        return refusal.value;
      }
      r, matches := PostMatches(q, true, tools, haves.entries, matches);
    }

    /** `post_have` */
    method PostHave(q: Request, tools: Tools) returns (r: PostResult)
      requires Valid() && InOrder(clock, q) && q.id !in haves.entries
      modifies this
      ensures Valid() && clock == q.matchedAt && wants == old(wants)
      ensures (Refused(old(haves), haves, q, r) && matches == old(matches))
           || Accepted(old(haves), haves, wants, q, false, tools, old(matches), matches, r)
    {
      LessIsOk(wants, wants, clock, q.matchedAt);
      var refusal, next := Place(haves, q, clock);
      haves, clock := next, q.matchedAt;
      if refusal.Some? {
        return refusal.value;
      }
      r, matches := PostMatches(q, false, tools, wants.entries, matches);
    }

    /** `get_want`: an expired want is removed on sight. */
    method GetWant(id: Text, now: int) returns (want: Option<Entry>)
      requires Valid() && clock <= now
      modifies `wants, `clock
      ensures Valid() && clock == now
      ensures want == if id in old(wants).entries && !IsExpired(old(wants).entries[id], now)
                      then Some(old(wants).entries[id]) else None
      ensures wants.entries == if want.Some? then old(wants).entries else old(wants).entries - {id}
    {
      LessIsOk(wants, wants, clock, now);
      LessIsOk(haves, haves, clock, now);
      RemoveIsOk(wants, id, clock, now);
      clock := now;
      if id !in wants.entries {
        return None;
      }
      if IsExpired(wants.entries[id], now) {
        wants := Remove(wants, id);
        return None;
      }
      return Some(wants.entries[id]);
    }

    /** `withdraw_want` */
    method WithdrawWant(id: Text) returns (removed: bool)
      requires Valid()
      modifies `wants
      ensures Valid() && (removed <==> id in old(wants).entries) && wants.entries == old(wants).entries - {id}
    {
      RemoveIsOk(wants, id, clock, clock);
      removed := id in wants.entries;
      wants := Remove(wants, id);
    }

    /** `list_wants(agent_id)`: the index finds exactly what a full scan would. */
    method ListWants(agent: Text, now: int) returns (ids: set<Text>)
      requires Valid() && clock <= now
      modifies `wants, `clock
      ensures Valid() && clock == now && wants.entries == old(wants).entries - Expired(old(wants), now)
      ensures ids == set id | id in old(wants).entries && old(wants).entries[id].agent == agent
                              && !IsExpired(old(wants).entries[id], now)
    {
      LessIsOk(haves, haves, clock, now);
      var next := Expire(wants, now);
      LessIsOk(wants, next, clock, now);
      wants, clock := next, now;
      assert Indexed(wants, agent) == Scan(wants, agent);
      return set id | id in Indexed(wants, agent) && id in wants.entries;
    }
  }

  // ---------------------------------------------------------------- what a post returns

  lemma ReturnedOnce(p: Posting, rs: Results, result: seq<Match>, id: Text)
    requires Ranks(result, MatchesIn(p, rs))
    ensures id in Hits(rs) ==> multiset(result)[MatchWith(p, id, rs[id])] == 1
    ensures id !in Hits(rs) ==> forall m :: m in result ==> id != if p.wanting then m.have else m.want
  {
    if id !in Hits(rs) {
      forall m | m in result
        ensures id != if p.wanting then m.have else m.want
      {
        assert m in multiset(result) && m in MatchesIn(p, rs);
      }
    }
  }

  /** Every match that a post returns scores in (0, 1]. */
  lemma PostedScoresInUnit(tools: Tools, p: Posting, others: map<Text, Entry>, now: int, rs: Results,
                           result: seq<Match>)
    requires NonNegativeDistance(tools)
    requires ComparedAll(tools, p, others, now, rs) && Ranks(result, MatchesIn(p, rs))
    ensures forall m :: m in result ==> 0.0 < m.score <= 1.0
  {
    forall m | m in result
      ensures 0.0 < m.score <= 1.0
    {
      assert m in multiset(result) && m in MatchesIn(p, rs);
      var id :| id in Hits(rs) && m == MatchWith(p, id, rs[id]);
      if p.wanting {
        MatchScoreInUnit(tools, p.entry, others[id], now, rs[id]);
      } else {
        MatchScoreInUnit(tools, others[id], p.entry, now, rs[id]);
      }
    }
  }

  /** The terms that the posting and another entry share are ordinary. */
  predicate OrdinaryWith(tools: Tools, p: Posting, other: Entry) {
    OrdinaryTerms(if p.wanting then Pair(tools, p.entry.terms, other.terms)
                  else Pair(tools, other.terms, p.entry.terms))
  }

  lemma GivesOne(tools: Tools, p: Posting, other: Entry, now: int, m: MatchResult, n: MatchResult)
    requires OrdinaryWith(tools, p, other) && Gives(tools, p, other, now, m) && Gives(tools, p, other, now, n)
    ensures m == n
    ensures OrdinaryLocation(p.entry.location) && OrdinaryLocation(other.location) ==> m != MatchRaises
  {
    if p.wanting {
      MatchUnique(tools, p.entry, other, now, m, n);
    } else {
      MatchUnique(tools, other, p.entry, now, m, n);
    }
  }

  /**
   An entry with ordinary terms is returned, once, exactly when it is live
   and `compute_match` finds a match, with the score and overlap that `compute_match`
   gives, in whatever order the post goes through keys and entries.
   */
  lemma PostReturnsWhatMatches(tools: Tools, p: Posting, others: map<Text, Entry>, now: int, rs: Results,
                               result: seq<Match>, id: Text, m: MatchResult)
    requires ComparedAll(tools, p, others, now, rs) && Ranks(result, MatchesIn(p, rs))
    requires id in others && OrdinaryWith(tools, p, others[id]) && Gives(tools, p, others[id], now, m)
    ensures if !IsExpired(others[id], now) && m.Found?
            then multiset(result)[MatchWith(p, id, m)] == 1
            else forall r :: r in result ==> id != if p.wanting then r.have else r.want
  {
    if id in rs {
      GivesOne(tools, p, others[id], now, m, rs[id]);
    }
    ReturnedOnce(p, rs, result, id);
  }

  /** Between ordinary terms and ordinary locations a post never raises. */
  lemma OrdinaryNeverRaises(tools: Tools, p: Posting, others: map<Text, Entry>, now: int)
    requires OrdinaryLocation(p.entry.location)
    requires forall id :: id in others ==> OrdinaryWith(tools, p, others[id]) && OrdinaryLocation(others[id].location)
    ensures !SomeRaises(tools, p, others, now)
  {
    forall id | id in others
      ensures !Gives(tools, p, others[id], now, MatchRaises)
    {
      if Gives(tools, p, others[id], now, MatchRaises) {
        GivesOne(tools, p, others[id], now, MatchRaises, MatchRaises);
      }
    }
  }

  // ---------------------------------------------------------------- a stored want that makes posts raise

  /** A location with the coordinates of the pole and the radius given. */
  function Around(v: int): Json {
    Obj([Member(COORDINATES, Obj(POLE)), Member(WITHIN_KM, Num(Int(v)))])
  }

  const POLE: seq<Member> := [Member(LAT, Num(Int(90))), Member(LNG, Num(Int(0)))]

  lemma AroundIs(v: int)
    ensures Get(Around(v).members, COORDINATES) == Some(Obj(POLE)) && Get(Around(v).members, OF).None?
    ensures Get(Around(v).members, WITHIN_KM) == Some(Num(Int(v)))
    ensures Get(Around(v).members, LAT).None? && Get(Around(v).members, LNG).None?
    ensures Get(POLE, LAT) == Some(Num(Int(90))) && Get(POLE, LNG) == Some(Num(Int(0)))
  {
    assert |COORDINATES| == 11 && |WITHIN_KM| == 9 && |OF| == 2 && |LAT| == |LNG| == 3;
    assert LAT[1] == 'a' as int && LNG[1] == 'n' as int;
    assert Around(v).members[1..] == [Member(WITHIN_KM, Num(Int(v)))] && Around(v).members[1..][1..] == [];
    assert POLE[1..] == [Member(LNG, Num(Int(0)))];
  }

  lemma AroundThePole(v: int)
    ensures ValidLocation(Around(v)) && ExtractCoords(Around(v).members) == At(90.0, 0.0)
    ensures v >= FLOAT_LIMIT ==>
              TooLargeAt(Around(v).members, WITHIN_KM) && NumberAt(Around(v).members, WITHIN_KM) == Some(v as real)
  {
    AroundIs(v);
    LimitIsLarge();
    assert NumberAt(POLE, LAT) == Some(90.0) && NumberAt(POLE, LNG) == Some(0.0);
    assert NumberAt(Around(v).members, WITHIN_KM) == Some(v as real);
  }

  /**
   A want whose radius is an int that no float holds passes the validation of locations;
   once it is stored, no have that fits its terms and has coordinates can be posted.
   */
  lemma HugeRadiusPoisons(tools: Tools, p: Posting, others: map<Text, Entry>, now: int, id: Text, v: int)
    requires v >= FLOAT_LIMIT && !p.wanting
    requires p.entry.location.Some? && ExtractCoords(p.entry.location.value).At?
    requires id in others && others[id].location == Some(Around(v).members) && Eligible(others[id], p.entry, now)
    requires var terms := Pair(tools, others[id].terms, p.entry.terms);
             OrdinaryTerms(terms) && !Conflicting(OutcomesOf(terms)) && !NothingScored(terms)
    requires var h := ExtractCoords(p.entry.location.value);
             0.0 <= tools.distance(90.0, 0.0, h.lat, h.lng) < FLOAT_LIMIT as real
    ensures ValidLocation(Around(v)) && forall rs :: !ComparedAll(tools, p, others, now, rs)
  {
    AroundThePole(v);
    AroundIs(v);
    forall rs
      ensures !ComparedAll(tools, p, others, now, rs)
    {
      if ComparedAll(tools, p, others, now, rs) {
        assert id in rs;
        HugeRadiusRaises(tools, others[id], p.entry, now, rs[id]);
      }
    }
  }

  // ---------------------------------------------------------------- one outcome

  /** Two posts of one thing against one side return the same matches, up to the order of equal scores. */
  lemma PostResultsAgree(tools: Tools, p: Posting, others: map<Text, Entry>, now: int,
                         rs: Results, ts: Results, xs: seq<Match>, ys: seq<Match>)
    requires forall id :: id in others ==> OrdinaryWith(tools, p, others[id])
    requires ComparedAll(tools, p, others, now, rs) && Ranks(xs, MatchesIn(p, rs))
    requires ComparedAll(tools, p, others, now, ts) && Ranks(ys, MatchesIn(p, ts))
    ensures SameItems(xs, ys)
  {
    forall id | id in rs
      ensures id in ts && rs[id] == ts[id]
    {
      GivesOne(tools, p, others[id], now, rs[id], ts[id]);
    }
    assert rs == ts;
  }
}
