/** Message types, session states and the concession measure of `concordia/session.py`. */
module Negotiation {
  import opened Wrappers
  import opened Unicode
  import opened Numbers
  import opened RealValues
  import opened FloatRange
  import opened PythonValues
  import opened Message

  datatype State = Proposed | Active | Agreed | Rejected | Expired | Dormant

  datatype MessageType =
    | Open | AcceptSession | DeclineSession | Offer | Counter | Accept | Reject | Inquire
    | Constrain | Signal | Withdraw | ProposeMediator | Resolve | Commit

  /** `_TRANSITIONS` */
  function Transition(s: State, t: MessageType): Option<State> {
    match s
    case Proposed =>
      (match t
       case Open => Some(Proposed)
       case AcceptSession => Some(Active)
       case DeclineSession => Some(Rejected)
       case _ => None)
    case Active =>
      (match t
       case Offer | Counter | Signal | Inquire | Constrain | ProposeMediator | Resolve => Some(Active)
       case Accept | Commit => Some(Agreed)
       case Reject | Withdraw => Some(Rejected)
       case _ => None)
    case Dormant => if t == Offer then Some(Active) else None
    case _ => None
  }

  const TYPE: Text := Lit("type")
  const FROM: Text := Lit("from")
  const AGENT_ID: Text := Lit("agent_id")
  const SIGNATURE: Text := Lit("signature")
  const SESSION_ID: Text := Lit("session_id")
  const BODY: Text := Lit("body")
  const TERMS: Text := Lit("terms")
  const VALUE: Text := Lit("value")
  const REASONING: Text := Lit("reasoning")

  function TypeText(t: MessageType): Text {
    match t
    case Open => Lit("negotiate.open")
    case AcceptSession => Lit("negotiate.accept_session")
    case DeclineSession => Lit("negotiate.decline_session")
    case Offer => Lit("negotiate.offer")
    case Counter => Lit("negotiate.counter")
    case Accept => Lit("negotiate.accept")
    case Reject => Lit("negotiate.reject")
    case Inquire => Lit("negotiate.inquire")
    case Constrain => Lit("negotiate.constrain")
    case Signal => Lit("negotiate.signal")
    case Withdraw => Lit("negotiate.withdraw")
    case ProposeMediator => Lit("negotiate.propose_mediator")
    case Resolve => Lit("negotiate.resolve")
    case Commit => Lit("negotiate.commit")
  }

  const ALL_TYPES: seq<MessageType> :=
    [Open, AcceptSession, DeclineSession, Offer, Counter, Accept, Reject, Inquire,
     Constrain, Signal, Withdraw, ProposeMediator, Resolve, Commit]

  function TypeNamed(t: Text, among: seq<MessageType>): Option<MessageType> {
    if among == [] then None
    else if TypeText(among[0]) == t then Some(among[0])
    else TypeNamed(t, among[1..])
  }

  /** `MessageType(message["type"])`; `None` for a KeyError or ValueError. */
  function TypeOf(m: Envelope): Option<MessageType> {
    match Get(m, TYPE)
    case Some(Str(t)) => TypeNamed(t, ALL_TYPES)
    case _ => None
  }

  predicate IsOffer(m: Envelope) {
    TypeOf(m) == Some(Offer) || TypeOf(m) == Some(Counter)
  }

  // ---------------------------------------------------------------- Python values

  /** `bool(j)` */
  predicate Truthy(j: Json) {
    match j
    case Null => false
    case Bool(b) => b
    case Num(Int(v)) => v != 0
    case Num(Float(f)) => !f.Zero?
    case Str(s) => s != []
    case Arr(_, elems) => elems != []
    case Obj(ms) => ms != []
    case Time(_) => true
  }

  /** The value of an `int` or `float`; Python counts `bool` among the integers. */
  function Numeric(j: Json): Option<real> {
    match j
    case Bool(b) => Some(if b then 1.0 else 0.0)
    case Num(num) => Reading(num)
    case _ => None
  }

  /** An `int` or `float` that is no `bool`. */
  function PlainNumber(j: Json): Option<real> {
    if j.Bool? then None else Numeric(j)
  }

  function Abs(x: real): (r: real)
    ensures r >= 0.0
  {
    if x < 0.0 then -x else x
  }

  // ---------------------------------------------------------------- concessions

  /** `key in j`; `None` when the container test itself raises. */
  function ContainsKey(j: Json, key: Text): Option<bool> {
    match j
    case Obj(ms) => Some(Get(ms, key).Some?)
    case Arr(_, elems) => Some(Str(key) in elems)
    case Str(s) => Some(exists i :: 0 <= i <= |s| && key <= s[i..])
    case _ => None
  }

  /** An `int`, which includes `bool`. */
  predicate IsInt(j: Json) {
    j.Bool? || (j.Num? && j.num.Int?)
  }

  /** Turning the value into a float raises. */
  predicate TooLarge(j: Json) {
    IsInt(j) && Numeric(j).Some? && !InFloatRange(Numeric(j).value)
  }

  /**
   `abs(now - was) / abs(was)` raises: a quotient of ints that no float can hold, or an int
   that has to become a float and cannot.
   */
  predicate Overflows(was: Json, now: Json)
    requires Numeric(was).Some? && Numeric(now).Some? && Numeric(was).value != 0.0
  {
    if IsInt(was) && IsInt(now)
    then !InFloatRange(Abs(Numeric(now).value - Numeric(was).value) / Abs(Numeric(was).value))
    else TooLarge(was) || TooLarge(now)
  }

  /** The fractional movement of one term: nothing, a movement, or an exception. */
  datatype Movement = Skip | Moved(amount: real) | Raised

  function TermMovement(prev: Json, key: Text, curr: Json): Movement {
    match ContainsKey(curr, key)
    case None => Raised
    case Some(false) => Skip
    case Some(true) =>
      if !curr.Obj? || !prev.Obj? then Raised
      else
        match Get(curr.members, key)
        case Some(Obj(now)) =>
          (match (NumericMember(prev.members), NumericMember(now))
           case (Some(p), Some(c)) =>
             if p == 0.0 then Skip
             else if Overflows(Get(prev.members, VALUE).value, Get(now, VALUE).value) then Raised
             else Moved(Abs(c - p) / Abs(p))
           case _ => Skip)
        case _ => Raised
  }

  /** `term.get("value")` as a number. */
  function NumericMember(term: seq<Member>): Option<real> {
    var v :- Get(term, VALUE);
    Numeric(v)
  }

  function Movements(prev: seq<Member>, curr: Json): Option<seq<real>> {
    if prev == [] then Some([])
    else
      match TermMovement(prev[0].value, prev[0].key, curr)
      case Raised => None
      case Skip => Movements(prev[1..], curr)
      case Moved(amount) =>
        var rest :- Movements(prev[1..], curr);
        Some([amount] + rest)
  }

  function Sum(xs: seq<real>): real {
    if xs == [] then 0.0 else xs[0] + Sum(xs[1..])
  }

  /** `_compute_concession`; `None` when it raises. */
  function Concession(prev: Json, curr: Json): Option<real> {
    if !prev.Obj? then None
    else
      var moves :- Movements(prev.members, curr);
      Some(if moves == [] then 0.0 else Sum(moves) / |moves| as real)
  }

  lemma RatioNonNegative(x: real, y: real)
    requires x >= 0.0 && y > 0.0
    ensures x / y >= 0.0
  {
  }

  lemma MoveNonNegative(prev: Json, key: Text, curr: Json)
    ensures TermMovement(prev, key, curr).Moved? ==> TermMovement(prev, key, curr).amount >= 0.0
  {
    if TermMovement(prev, key, curr).Moved? {
      var p, c := NumericMember(prev.members).value, NumericMember(Get(curr.members, key).value.members).value;
      RatioNonNegative(Abs(c - p), Abs(p));
    }
  }

  lemma SumCons(x: real, xs: seq<real>)
    ensures Sum([x] + xs) == x + Sum(xs)
  {
    assert ([x] + xs)[1..] == xs;
  }

  lemma {:induction false} MovementsNonNegative(prev: seq<Member>, curr: Json)
    ensures Movements(prev, curr).Some? ==> Sum(Movements(prev, curr).value) >= 0.0
  {
    if prev != [] {
      var move := TermMovement(prev[0].value, prev[0].key, curr);
      MovementsNonNegative(prev[1..], curr);
      if move.Moved? && Movements(prev[1..], curr).Some? {
        MoveNonNegative(prev[0].value, prev[0].key, curr);
        SumCons(move.amount, Movements(prev[1..], curr).value);
      }
    }
  }

  /** A concession is never negative. */
  lemma ConcessionNonNegative(prev: Json, curr: Json)
    ensures Concession(prev, curr).Some? ==> Concession(prev, curr).value >= 0.0
  {
    if prev.Obj? {
      MovementsNonNegative(prev.members, curr);
    }
  }

  // ---------------------------------------------------------------- the documented bound of one

  /** A term that both offers give a number, the earlier one not zero: it counts as a movement. */
  predicate Compared(term: Member, curr: Json) {
    && term.value.Obj? && NumericMember(term.value.members).Some? && NumericMember(term.value.members).value != 0.0
    && curr.Obj? && Get(curr.members, term.key).Some? && Get(curr.members, term.key).value.Obj?
    && NumericMember(Get(curr.members, term.key).value.members).Some?
  }

  function Was(term: Member, curr: Json): real
    requires Compared(term, curr)
  {
    NumericMember(term.value.members).value
  }

  function Now(term: Member, curr: Json): real
    requires Compared(term, curr)
  {
    NumericMember(Get(curr.members, term.key).value.members).value
  }

  /** The term moves by no more than its previous size. */
  predicate MovesWithinSize(term: Member, curr: Json)
    requires Compared(term, curr)
  {
    Abs(Now(term, curr) - Was(term, curr)) <= Abs(Was(term, curr))
  }

  function ComparedCount(prev: seq<Member>, curr: Json): nat {
    if prev == [] then 0 else (if Compared(prev[0], curr) then 1 else 0) + ComparedCount(prev[1..], curr)
  }

  /** The sum of the compared terms' changes, each relative to the term's previous size. */
  function TotalMovement(prev: seq<Member>, curr: Json): real {
    if prev == [] then 0.0
    else
      (if Compared(prev[0], curr) then Abs(Now(prev[0], curr) - Was(prev[0], curr)) / Abs(Was(prev[0], curr)) else 0.0)
      + TotalMovement(prev[1..], curr)
  }

  lemma MovedIsCompared(term: Member, curr: Json)
    requires !TermMovement(term.value, term.key, curr).Raised?
    ensures TermMovement(term.value, term.key, curr) ==
            if Compared(term, curr) then Moved(Abs(Now(term, curr) - Was(term, curr)) / Abs(Was(term, curr))) else Skip
  {
  }

  lemma {:induction false} MovementsAreCompared(prev: seq<Member>, curr: Json)
    requires Movements(prev, curr).Some?
    ensures |Movements(prev, curr).value| == ComparedCount(prev, curr)
    ensures Sum(Movements(prev, curr).value) == TotalMovement(prev, curr)
  {
    if prev != [] {
      MovementsAreCompared(prev[1..], curr);
      MovedIsCompared(prev[0], curr);
      var move := TermMovement(prev[0].value, prev[0].key, curr);
      if move.Moved? {
        SumCons(move.amount, Movements(prev[1..], curr).value);
      }
    }
  }

  /**
   The documentation promises a concession of at most one. It is one exactly when the
   compared terms together move by no more than their number, each movement measured in
   the term's previous size; terms of any number, type and shape are covered.
   */
  lemma ConcessionWithinOneIff(prev: Json, curr: Json)
    requires Concession(prev, curr).Some?
    ensures Concession(prev, curr).value <= 1.0 <==>
            TotalMovement(prev.members, curr) <= ComparedCount(prev.members, curr) as real
  {
    MovementsAreCompared(prev.members, curr);
    if ComparedCount(prev.members, curr) > 0 {
      RatioWithinOne(TotalMovement(prev.members, curr), ComparedCount(prev.members, curr) as real);
    }
  }

  lemma RatioWithinOne(x: real, y: real)
    requires y > 0.0
    ensures x / y <= 1.0 <==> x <= y
  {
  }

  lemma {:induction false} SmallMovesTotal(prev: seq<Member>, curr: Json)
    requires forall i :: 0 <= i < |prev| && Compared(prev[i], curr) ==> MovesWithinSize(prev[i], curr)
    ensures TotalMovement(prev, curr) <= ComparedCount(prev, curr) as real
  {
    if prev != [] {
      SmallMovesTotal(prev[1..], curr);
      if Compared(prev[0], curr) {
        RatioWithinOne(Abs(Now(prev[0], curr) - Was(prev[0], curr)), Abs(Was(prev[0], curr)));
      }
    }
  }

  lemma {:induction false} LargeMovesTotal(prev: seq<Member>, curr: Json)
    requires forall i :: 0 <= i < |prev| && Compared(prev[i], curr) ==> !MovesWithinSize(prev[i], curr)
    ensures TotalMovement(prev, curr) >= ComparedCount(prev, curr) as real
    ensures ComparedCount(prev, curr) > 0 ==> TotalMovement(prev, curr) > ComparedCount(prev, curr) as real
  {
    if prev != [] {
      LargeMovesTotal(prev[1..], curr);
      if Compared(prev[0], curr) {
        RatioWithinOne(Abs(Now(prev[0], curr) - Was(prev[0], curr)), Abs(Was(prev[0], curr)));
      }
    }
  }

  /** Enough for the bound: no compared term moves by more than its size. */
  lemma SmallMovesWithinOne(prev: Json, curr: Json)
    requires Concession(prev, curr).Some?
    requires forall i :: 0 <= i < |prev.members| && Compared(prev.members[i], curr) ==>
                           MovesWithinSize(prev.members[i], curr)
    ensures Concession(prev, curr).value <= 1.0
  {
    SmallMovesTotal(prev.members, curr);
    ConcessionWithinOneIff(prev, curr);
  }

  /** Enough against it: some terms are compared, and all of them move by more than their size. */
  lemma LargeMovesExceedOne(prev: Json, curr: Json)
    requires Concession(prev, curr).Some?
    requires exists i :: 0 <= i < |prev.members| && Compared(prev.members[i], curr)
    requires forall i :: 0 <= i < |prev.members| && Compared(prev.members[i], curr) ==>
                           !MovesWithinSize(prev.members[i], curr)
    ensures Concession(prev, curr).value > 1.0
  {
    var i :| 0 <= i < |prev.members| && Compared(prev.members[i], curr);
    ComparedCounts(prev.members, curr, i);
    LargeMovesTotal(prev.members, curr);
    ConcessionWithinOneIff(prev, curr);
  }

  lemma {:induction false} ComparedCounts(prev: seq<Member>, curr: Json, i: nat)
    requires i < |prev| && Compared(prev[i], curr)
    ensures ComparedCount(prev, curr) > 0
  {
    if i > 0 {
      ComparedCounts(prev[1..], curr, i - 1);
    }
  }

  /** A numeric term as it appears in an offer. */
  function NumberTerm(v: int): Json {
    Obj([Member(VALUE, Num(Int(v)))])
  }

  lemma NumberTermCompared(key: Text, p: int, curr: seq<Member>, c: int)
    requires p != 0 && Get(curr, key) == Some(NumberTerm(c))
    requires InFloatRange(Abs(c as real - p as real) / Abs(p as real))
    ensures var term := Member(key, NumberTerm(p));
            Compared(term, Obj(curr)) && Was(term, Obj(curr)) == p as real && Now(term, Obj(curr)) == c as real
            && TermMovement(term.value, key, Obj(curr)) == Moved(Abs(c as real - p as real) / Abs(p as real))
  {
    assert NumericMember(NumberTerm(p).members) == Some(p as real);
    assert NumericMember(NumberTerm(c).members) == Some(c as real);
  }

  /** An offer of three after an offer of one concedes two. */
  lemma ConcessionExceedsOne(key: Text)
    ensures Concession(Obj([Member(key, NumberTerm(1))]), Obj([Member(key, NumberTerm(3))])) == Some(2.0)
  {
    var prev, curr := [Member(key, NumberTerm(1))], [Member(key, NumberTerm(3))];
    LimitIsLarge();
    assert Abs(3.0 - 1.0) / Abs(1.0) == 2.0;
    NumberTermCompared(key, 1, curr, 3);
    assert prev[1..] == [];
    assert Movements(prev[1..], Obj(curr)) == Some([]);
    assert Movements(prev, Obj(curr)) == Some([2.0] + []);
    assert [2.0] + [] == [2.0] && [2.0][1..] == [];
    assert Sum([2.0]) == 2.0 + Sum([]) == 2.0;
  }

  // ---------------------------------------------------------------- when a comparison raises

  /** `key in j` has a meaning. */
  predicate HasMembership(j: Json) {
    j.Obj? || j.Arr? || j.Str?
  }

  /** Two values of one term whose relative movement cannot be computed. */
  predicate TooFarApart(was: seq<Member>, now: seq<Member>) {
    && NumericMember(was).Some? && NumericMember(now).Some? && NumericMember(was).value != 0.0
    && Overflows(Get(was, VALUE).value, Get(now, VALUE).value)
  }

  /**
   A term that is found in `curr` though `curr`, the term or its counterpart is no object,
   or though the two values are too far apart.
   */
  predicate Clashes(term: Member, curr: Json) {
    && ContainsKey(curr, term.key) == Some(true)
    && (curr.Obj? ==>
          || !term.value.Obj? || !Get(curr.members, term.key).value.Obj?
          || TooFarApart(term.value.members, Get(curr.members, term.key).value.members))
  }

  /** The shapes of two successive terms that make `_compute_concession` raise. */
  predicate Incomparable(prev: Json, curr: Json) {
    || !prev.Obj?
    || (prev.members != [] && !HasMembership(curr))
    || exists i :: 0 <= i < |prev.members| && Clashes(prev.members[i], curr)
  }

  lemma {:induction false} MovementsRaiseIff(prev: seq<Member>, curr: Json)
    ensures Movements(prev, curr).None? <==>
            (prev != [] && !HasMembership(curr)) || exists i :: 0 <= i < |prev| && Clashes(prev[i], curr)
  {
    if prev != [] {
      MovementsRaiseIff(prev[1..], curr);
      assert TermMovement(prev[0].value, prev[0].key, curr).Raised? <==> !HasMembership(curr) || Clashes(prev[0], curr);
      if i :| 0 <= i < |prev| && Clashes(prev[i], curr) {
        assert i > 0 ==> prev[1..][i - 1] == prev[i];
      }
      if i :| 0 <= i < |prev[1..]| && Clashes(prev[1..][i], curr) {
        assert prev[i + 1] == prev[1..][i];
      }
    }
  }

  /** The comparison of two successive terms raises exactly on these shapes. */
  lemma ConcessionRaisesIff(prev: Json, curr: Json)
    ensures Concession(prev, curr).None? <==> Incomparable(prev, curr)
  {
    if prev.Obj? {
      MovementsRaiseIff(prev.members, curr);
    }
  }

  /** An int of a size that cannot push a movement out of the floats. */
  predicate Moderate(j: Json) {
    IsInt(j) ==> Numeric(j).Some? && 2.0 * Abs(Numeric(j).value) < FLOAT_LIMIT as real
  }

  /** A term that is an object, whose value, if it is an int, is moderate. */
  predicate OrdinaryTerm(j: Json) {
    j.Obj? && (Get(j.members, VALUE).Some? ==> Moderate(Get(j.members, VALUE).value))
  }

  /** Terms that are objects of objects with moderate ints, which is what the protocol sends. */
  predicate OrdinaryTerms(j: Json) {
    j.Obj? && forall i :: 0 <= i < |j.members| ==> OrdinaryTerm(j.members[i].value)
  }

  lemma {:induction false} GetOrdinary(ms: seq<Member>, key: Text)
    requires OrdinaryTerms(Obj(ms)) && Get(ms, key).Some?
    ensures OrdinaryTerm(Get(ms, key).value)
  {
    if ms[0].key != key {
      GetOrdinary(ms[1..], key);
    }
  }

  lemma WholeAtLeastOne(j: Json)
    requires IsInt(j) && Numeric(j).Some? && Numeric(j).value != 0.0
    ensures Abs(Numeric(j).value) >= 1.0
  {
  }

  lemma QuotientBelow(x: real, y: real, limit: real)
    requires 0.0 <= x < limit && y >= 1.0
    ensures 0.0 <= x / y < limit
  {
    assert x / y * y == x;
  }

  lemma DifferenceBelow(x: real, y: real, limit: real)
    requires 2.0 * Abs(x) < limit && 2.0 * Abs(y) < limit
    ensures Abs(x - y) < limit
  {
  }

  lemma ModerateNeverOverflows(was: Json, now: Json)
    requires Numeric(was).Some? && Numeric(now).Some? && Numeric(was).value != 0.0
    requires Moderate(was) && Moderate(now)
    ensures !Overflows(was, now)
  {
    if IsInt(was) && IsInt(now) {
      WholeAtLeastOne(was);
      DifferenceBelow(Numeric(now).value, Numeric(was).value, FLOAT_LIMIT as real);
      QuotientBelow(Abs(Numeric(now).value - Numeric(was).value), Abs(Numeric(was).value), FLOAT_LIMIT as real);
    }
  }

  lemma OrdinaryNeverRaises(prev: Json, key: Text, curr: Json)
    requires OrdinaryTerm(prev) && OrdinaryTerms(curr)
    ensures !TermMovement(prev, key, curr).Raised?
  {
    if Get(curr.members, key).Some? {
      GetOrdinary(curr.members, key);
      var was, now := prev.members, Get(curr.members, key).value.members;
      if NumericMember(was).Some? && NumericMember(now).Some? && NumericMember(was).value != 0.0 {
        ModerateNeverOverflows(Get(was, VALUE).value, Get(now, VALUE).value);
      }
    }
  }

  lemma {:induction false} MovementsDefined(prev: seq<Member>, curr: Json)
    requires OrdinaryTerms(Obj(prev)) && OrdinaryTerms(curr)
    ensures Movements(prev, curr).Some?
  {
    if prev != [] {
      MovementsDefined(prev[1..], curr);
      OrdinaryNeverRaises(prev[0].value, prev[0].key, curr);
    }
  }
}
