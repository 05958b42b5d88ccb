/** What the closure-language evaluator means: strict three-valued logic with a classical core. */
module PredicateLaws {
  import opened Wrappers
  import opened Sequences
  import opened Unicode
  import opened PythonValues
  import opened Predicates
  import opened PredicateMeaning

  // ---------------------------------------------------------------- compositions

  /** The sub-nodes of a composition, each of which must be a Boolean check. */
  function Operands(j: Json): (r: seq<Json>)
    ensures forall i :: 0 <= i < |r| ==> r[i] < j
  {
    match OpOf(j)
    case Some(And) => (match ArgsOf(j) case Some(args) => args case None => [])
    case Some(Or) => (match ArgsOf(j) case Some(args) => args case None => [])
    case Some(Not) => (match Child(j, ARG) case Some(arg) => [arg] case None => [])
    case _ => []
  }

  predicate IsComposition(j: Json) {
    OpOf(j) == Some(And) || OpOf(j) == Some(Or) || OpOf(j) == Some(Not)
  }

  ghost predicate Passes(c: Context, j: Json) {
    Eval(c, j).Truth?
  }

  lemma BooleansOf(c: Context, args: seq<Json>, vs: seq<Value>)
    requires |vs| == |args| && forall i :: 0 <= i < |args| ==> vs[i] == Eval(c, args[i])
    ensures Each(InBooleanPosition, vs).Some? <==> forall i :: 0 <= i < |args| ==> Passes(c, args[i])
    ensures Each(InBooleanPosition, vs).Some? ==>
              var bs := Each(InBooleanPosition, vs).value;
              && (false in bs <==> exists i :: 0 <= i < |args| && Eval(c, args[i]) == Truth(false))
              && (true in bs <==> exists i :: 0 <= i < |args| && Eval(c, args[i]) == Truth(true))
  {
    EachFails(InBooleanPosition, vs);
    if Each(InBooleanPosition, vs).Some? {
      var bs := Each(InBooleanPosition, vs).value;
      forall i | 0 <= i < |args|
        ensures Eval(c, args[i]) == Truth(bs[i])
      {
        assert InBooleanPosition(vs[i]) == Some(bs[i]);
      }
    }
  }

  /** A conjunction or disjunction raises exactly when an operand does not pass, and else is classical. */
  lemma CompositionIs(c: Context, j: Json, args: seq<Json>)
    requires j.Obj? && (OpOf(j) == Some(And) || OpOf(j) == Some(Or)) && ArgsOf(j) == Some(args)
    ensures Passes(c, j) <==> forall i :: 0 <= i < |args| ==> Passes(c, args[i])
    ensures Passes(c, j) && OpOf(j) == Some(And) ==>
              (Eval(c, j).b <==> forall i :: 0 <= i < |args| ==> Eval(c, args[i]).b)
    ensures Passes(c, j) && OpOf(j) == Some(Or) ==>
              (Eval(c, j).b <==> exists i :: 0 <= i < |args| && Eval(c, args[i]).b)
    ensures !Passes(c, j) ==> Eval(c, j) == Error
  {
    var vs := seq(|args|, i requires 0 <= i < |args| => Eval(c, args[i]));
    BooleansOf(c, args, vs);
  }

  lemma NegationIs(c: Context, j: Json, arg: Json)
    requires j.Obj? && OpOf(j) == Some(Not) && Child(j, ARG) == Some(arg)
    ensures Eval(c, j) == if Passes(c, arg) then Truth(!Eval(c, arg).b) else Error
  {
  }

  // ---------------------------------------------------------------- errors

  /** The node at the end of a path of operands. */
  function Descend(j: Json, path: seq<nat>): Option<Json>
    decreases |path|
  {
    if path == [] then Some(j)
    else if path[0] < |Operands(j)| then Descend(Operands(j)[path[0]], path[1..])
    else None
  }

  /**
   A node that cannot be a Boolean check on its own account: not a node, an unknown operator,
   a composition without operands, an aggregation, or a test that cannot be evaluated.
   */
  ghost predicate Broken(c: Context, j: Json) {
    if IsComposition(j) then Operands(j) == [] else !TestIs(c, j, true) && !TestIs(c, j, false)
  }

  /** A test passes exactly when its plain reading gives it a truth value. */
  lemma TestPassesIff(c: Context, j: Json)
    requires !IsComposition(j)
    ensures Passes(c, j) <==> !Broken(c, j)
    ensures Passes(c, j) ==> (Eval(c, j).b <==> TestIs(c, j, true))
  {
    TestIff(c, j, true);
    TestIff(c, j, false);
  }

  /** Compositions and their operands, by their literal names. */
  lemma CompositionsByName(j: Json)
    ensures IsComposition(j) <==> Named(j, "and") || Named(j, "or") || Named(j, "not")
    ensures Named(j, "and") || Named(j, "or") ==>
              Operands(j) == match Get(j.members, Lit("args")) case Some(Arr(false, args)) => args case _ => []
    ensures Named(j, "not") ==>
              Operands(j) == match Get(j.members, Lit("arg")) case Some(arg) => [arg] case None => []
  {
    OthersByName(j);
  }

  ghost predicate BrokenAt(c: Context, j: Json, path: seq<nat>) {
    Descend(j, path).Some? && Broken(c, Descend(j, path).value)
  }

  lemma CompositionPassesIff(c: Context, j: Json)
    requires IsComposition(j)
    ensures Passes(c, j) <==> Operands(j) != [] && forall i :: 0 <= i < |Operands(j)| ==> Passes(c, Operands(j)[i])
  {
    assert j.Obj?;
    if OpOf(j) == Some(Not) {
      if Child(j, ARG).Some? {
        var arg := Child(j, ARG).value;
        NegationIs(c, j, arg);
        assert Operands(j) == [arg] && Operands(j)[0] == arg && |Operands(j)| == 1;
        assert Passes(c, j) <==> Passes(c, Operands(j)[0]);
      } else {
        assert Operands(j) == [] && Eval(c, j) == Error;
      }
    } else if ArgsOf(j).Some? {
      assert Operands(j) == ArgsOf(j).value;
      CompositionIs(c, j, ArgsOf(j).value);
    } else {
      assert Operands(j) == [] && Eval(c, j) == Error;
    }
  }

  lemma {:induction false} FindBroken(c: Context, j: Json) returns (path: seq<nat>)
    requires !Passes(c, j)
    ensures BrokenAt(c, j, path)
    decreases j
  {
    path := [];
    if !IsComposition(j) {
      TestPassesIff(c, j);
    }
    if IsComposition(j) && Operands(j) != [] {
      CompositionPassesIff(c, j);
      var i :| 0 <= i < |Operands(j)| && !Passes(c, Operands(j)[i]);
      var rest := FindBroken(c, Operands(j)[i]);
      path := [i] + rest;
      assert path[0] == i && path[1..] == rest;
      assert Descend(j, path) == Descend(Operands(j)[i], rest);
    }
  }

  lemma {:induction false} BrokenFails(c: Context, j: Json, path: seq<nat>)
    requires BrokenAt(c, j, path)
    ensures !Passes(c, j)
    decreases |path|
  {
    if IsComposition(j) {
      CompositionPassesIff(c, j);
    } else {
      TestPassesIff(c, j);
    }
    if path != [] {
      BrokenFails(c, Operands(j)[path[0]], path[1..]);
    }
  }

  /**
   Errors are strict: evaluation fails exactly when some node in a Boolean position, at any
   depth and behind any operand, is broken; short-circuiting never hides one.
   */
  lemma FailsIffSomePositionBroken(c: Context, j: Json)
    ensures !Passes(c, j) <==> exists path: seq<nat> :: BrokenAt(c, j, path)
  {
    if !Passes(c, j) {
      var path := FindBroken(c, j);
    } else {
      forall path: seq<nat>
        ensures !BrokenAt(c, j, path)
      {
        if BrokenAt(c, j, path) {
          BrokenFails(c, j, path);
        }
      }
    }
  }

  lemma AggregationIsBroken(c: Context, j: Json)
    requires OpOf(j).Some? && OpOf(j).value.Aggregate?
    ensures Broken(c, j)
  {
    NoTest(c, j, true);
    NoTest(c, j, false);
  }

  /** An aggregation in a Boolean position fails the whole tree, however deep it is. */
  lemma AggregationNeverPasses(c: Context, j: Json, path: seq<nat>)
    requires Descend(j, path).Some?
    requires OpOf(Descend(j, path).value).Some? && OpOf(Descend(j, path).value).value.Aggregate?
    ensures !Passes(c, j)
  {
    AggregationIsBroken(c, Descend(j, path).value);
    assert BrokenAt(c, j, path);
    BrokenFails(c, j, path);
  }

  // ---------------------------------------------------------------- truth

  /** The classical reading of a tree, its tests by their plain reading. */
  ghost predicate Classical(c: Context, j: Json)
    decreases j
  {
    if Named(j, "and") then forall i :: 0 <= i < |Operands(j)| ==> Classical(c, Operands(j)[i])
    else if Named(j, "or") then exists i :: 0 <= i < |Operands(j)| && Classical(c, Operands(j)[i])
    else if Named(j, "not") then Operands(j) != [] && !Classical(c, Operands(j)[0])
    else TestIs(c, j, true)
  }

  lemma {:induction false} PassingIsClassical(c: Context, j: Json)
    requires Passes(c, j)
    ensures Eval(c, j).b == Classical(c, j)
    decreases j
  {
    OthersByName(j);
    if IsComposition(j) {
      CompositionPassesIff(c, j);
      forall i | 0 <= i < |Operands(j)| {
        PassingIsClassical(c, Operands(j)[i]);
      }
      if OpOf(j) != Some(Not) {
        CompositionIs(c, j, Operands(j));
      }
    } else {
      TestPassesIff(c, j);
    }
  }

  /** Satisfied means: nothing is broken anywhere, and the classical reading is true. */
  lemma SatisfiedIff(c: Context, j: Json)
    ensures Eval(c, j) == Truth(true) <==>
            (forall path: seq<nat> :: !BrokenAt(c, j, path)) && Classical(c, j)
  {
    FailsIffSomePositionBroken(c, j);
    if Passes(c, j) {
      PassingIsClassical(c, j);
    }
  }

  // ---------------------------------------------------------------- laws

  function NotNode(j: Json): Json {
    Obj([Member(OP, Str(Lit("not"))), Member(ARG, j)])
  }

  function AndNode(xs: seq<Json>): Json {
    Obj([Member(OP, Str(Lit("and"))), Member(ARGS, Arr(false, xs))])
  }

  function OrNode(xs: seq<Json>): Json {
    Obj([Member(OP, Str(Lit("or"))), Member(ARGS, Arr(false, xs))])
  }

  function Negated(xs: seq<Json>): (r: seq<Json>)
    ensures |r| == |xs| && forall i :: 0 <= i < |xs| ==> r[i] == NotNode(xs[i])
  {
    if xs == [] then [] else [NotNode(xs[0])] + Negated(xs[1..])
  }

  lemma OpNames()
    ensures OpNamed(Lit("and")) == Some(And) && OpNamed(Lit("or")) == Some(Or) && OpNamed(Lit("not")) == Some(Not)
    ensures OP != ARG && OP != ARGS
  {
    assert Lit("not")[0] != Lit("and")[0];
    assert OP[0] == 'o' as int && ARG[0] == 'a' as int && ARGS[0] == 'a' as int;
  }

  lemma TwoMembers(k: Text, v: Json, l: Text, w: Json)
    requires k != l
    ensures Get([Member(k, v), Member(l, w)], k) == Some(v) && Get([Member(k, v), Member(l, w)], l) == Some(w)
  {
    var ms := [Member(k, v), Member(l, w)];
    assert ms[1..] == [Member(l, w)];
  }

  lemma NotNodeIs(c: Context, j: Json)
    ensures Eval(c, NotNode(j)) == if Passes(c, j) then Truth(!Eval(c, j).b) else Error
  {
    OpNames();
    TwoMembers(OP, Str(Lit("not")), ARG, j);
    NegationIs(c, NotNode(j), j);
  }

  lemma CompositionNodes(xs: seq<Json>)
    ensures OpOf(AndNode(xs)) == Some(And) && OpOf(OrNode(xs)) == Some(Or)
    ensures ArgsOf(AndNode(xs)) == ArgsOf(OrNode(xs)) == if xs == [] then None else Some(xs)
  {
    OpNames();
    TwoMembers(OP, Str(Lit("and")), ARGS, Arr(false, xs));
    TwoMembers(OP, Str(Lit("or")), ARGS, Arr(false, xs));
  }

  lemma AndNodeIs(c: Context, xs: seq<Json>)
    requires xs != []
    ensures Passes(c, AndNode(xs)) <==> forall i :: 0 <= i < |xs| ==> Passes(c, xs[i])
    ensures Passes(c, AndNode(xs)) ==> (Eval(c, AndNode(xs)).b <==> forall i :: 0 <= i < |xs| ==> Eval(c, xs[i]).b)
  {
    CompositionNodes(xs);
    CompositionIs(c, AndNode(xs), xs);
  }

  lemma OrNodeIs(c: Context, xs: seq<Json>)
    requires xs != []
    ensures Passes(c, OrNode(xs)) <==> forall i :: 0 <= i < |xs| ==> Passes(c, xs[i])
    ensures Passes(c, OrNode(xs)) ==> (Eval(c, OrNode(xs)).b <==> exists i :: 0 <= i < |xs| && Eval(c, xs[i]).b)
  {
    CompositionNodes(xs);
    CompositionIs(c, OrNode(xs), xs);
  }

  /** What a Boolean position makes of a node: a truth value, or nothing. */
  ghost function Position(c: Context, j: Json): Option<bool> {
    InBooleanPosition(Eval(c, j))
  }

  /** Double negation, erroneous nodes included. */
  lemma DoubleNegation(c: Context, j: Json)
    ensures Position(c, NotNode(NotNode(j))) == Position(c, j)
  {
    NotNodeIs(c, j);
    NotNodeIs(c, NotNode(j));
  }

  lemma NegatedPasses(c: Context, xs: seq<Json>, i: nat)
    requires i < |xs|
    ensures Passes(c, Negated(xs)[i]) <==> Passes(c, xs[i])
    ensures Passes(c, xs[i]) ==> Eval(c, Negated(xs)[i]).b == !Eval(c, xs[i]).b
  {
    NotNodeIs(c, xs[i]);
  }

  lemma AllNegated(c: Context, xs: seq<Json>)
    ensures forall i :: 0 <= i < |xs| ==> (Passes(c, Negated(xs)[i]) <==> Passes(c, xs[i]))
    ensures forall i :: 0 <= i < |xs| && Passes(c, xs[i]) && Passes(c, Negated(xs)[i]) ==>
                          Eval(c, Negated(xs)[i]).b == !Eval(c, xs[i]).b
  {
    forall i | 0 <= i < |xs|
      ensures Passes(c, Negated(xs)[i]) <==> Passes(c, xs[i])
      ensures Passes(c, xs[i]) ==> Eval(c, Negated(xs)[i]).b == !Eval(c, xs[i]).b
    {
      NegatedPasses(c, xs, i);
    }
  }

  lemma NotAllIsSomeNot(c: Context, xs: seq<Json>)
    ensures Position(c, NotNode(AndNode(xs))) == Position(c, OrNode(Negated(xs)))
  {
    NotNodeIs(c, AndNode(xs));
    if xs == [] {
      CompositionNodes([]);
    } else {
      AndNodeIs(c, xs);
      OrNodeIs(c, Negated(xs));
      AllNegated(c, xs);
    }
  }

  lemma NotSomeIsAllNot(c: Context, xs: seq<Json>)
    ensures Position(c, NotNode(OrNode(xs))) == Position(c, AndNode(Negated(xs)))
  {
    NotNodeIs(c, OrNode(xs));
    if xs == [] {
      CompositionNodes([]);
    } else {
      OrNodeIs(c, xs);
      AndNodeIs(c, Negated(xs));
      AllNegated(c, xs);
    }
  }

  /** De Morgan's laws, erroneous trees and empty operand lists included. */
  lemma DeMorgan(c: Context, xs: seq<Json>)
    ensures Position(c, NotNode(AndNode(xs))) == Position(c, OrNode(Negated(xs)))
    ensures Position(c, NotNode(OrNode(xs))) == Position(c, AndNode(Negated(xs)))
  {
    NotAllIsSomeNot(c, xs);
    NotSomeIsAllNot(c, xs);
  }
}
