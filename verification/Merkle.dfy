/**
 The Merkle commitment of `concordia/competence_proof.py`: tree construction with the
 odd node hashed with itself, inclusion proofs, and what an accepted proof and an equal
 root commit to.
 */
module Merkle {
  import opened Wrappers
  import opened Order
  import opened Sequences
  import opened Unicode
  import opened Hashing

  // ---------------------------------------------------------------- tree

  function KeyedIds(ids: seq<Text>): (ks: seq<Keyed<Text>>)
    ensures |ks| == |ids| && forall i :: 0 <= i < |ids| ==> ks[i] == Keyed(ids[i], ids[i])
  {
    seq(|ids|, i requires 0 <= i < |ids| => Keyed(ids[i], ids[i]))
  }

  /** `sorted(ids)` */
  function SortIds(ids: seq<Text>): seq<Text> {
    Items(Sort(KeyedIds(ids)))
  }

  function Leaves(h: Hash, ids: seq<Text>): (layer: seq<Text>)
    ensures |layer| == |ids| && forall i :: 0 <= i < |ids| ==> layer[i] == h(ids[i])
  {
    seq(|ids|, i requires 0 <= i < |ids| => h(ids[i]))
  }

  /** The text hashed for the pair that starts at `i`; an odd last node pairs with itself. */
  function Combined(layer: seq<Text>, i: nat): Text
    requires i < |layer|
  {
    layer[i] + layer[if i + 1 < |layer| then i + 1 else i]
  }

  function NextLayer(h: Hash, layer: seq<Text>): (next: seq<Text>)
    ensures |next| == (|layer| + 1) / 2
    ensures forall k :: 0 <= k < |next| ==> next[k] == h(Combined(layer, 2 * k))
  {
    seq((|layer| + 1) / 2, k requires 0 <= k < (|layer| + 1) / 2 => h(Combined(layer, 2 * k)))
  }

  function Layers(h: Hash, layer: seq<Text>): (layers: seq<seq<Text>>)
    requires layer != []
    ensures layers != [] && layers[0] == layer
    decreases |layer|
  {
    if |layer| == 1 then [layer] else [layer] + Layers(h, NextLayer(h, layer))
  }

  function Top(h: Hash, layer: seq<Text>): Text
    requires layer != []
    decreases |layer|
  {
    if |layer| == 1 then layer[0] else Top(h, NextLayer(h, layer))
  }

  /** The root over a list of ids; the empty list has the empty root. */
  function Root(h: Hash, ids: seq<Text>): Text {
    if SortIds(ids) == [] then [] else Top(h, Leaves(h, SortIds(ids)))
  }

  lemma SortIdsPermutes(ids: seq<Text>)
    ensures multiset(SortIds(ids)) == multiset(ids)
    ensures |SortIds(ids)| == |ids|
  {
    var ks := KeyedIds(ids);
    SortPermutes(ks);
    SortItems(ks);
    assert Items(ks) == ids;
  }

  lemma {:induction false} InsertItems<T>(x: Keyed<T>, xs: seq<Keyed<T>>)
    ensures multiset(Items(Insert(x, xs))) == multiset{x.item} + multiset(Items(xs))
  {
    if xs != [] && LexLess(xs[0].key, x.key) {
      InsertItems(x, xs[1..]);
      assert Items(xs) == [xs[0].item] + Items(xs[1..]);
      assert Items(Insert(x, xs)) == [xs[0].item] + Items(Insert(x, xs[1..]));
    } else {
      assert Items([x] + xs) == [x.item] + Items(xs);
    }
  }

  lemma {:induction false} SortItems<T>(xs: seq<Keyed<T>>)
    ensures multiset(Items(Sort(xs))) == multiset(Items(xs))
  {
    if xs != [] {
      SortItems(xs[1..]);
      InsertItems(xs[0], Sort(xs[1..]));
      assert Items(xs) == [xs[0].item] + Items(xs[1..]);
    }
  }

  /** One pass of pairing over a layer. */
  method HashPairs(h: Hash, current: seq<Text>) returns (next: seq<Text>)
    ensures next == NextLayer(h, current)
  {
    next := [];
    var i := 0;
    while i < |current|
      invariant i == 2 * |next| && |next| <= (|current| + 1) / 2
      invariant forall k :: 0 <= k < |next| ==> next[k] == h(Combined(current, 2 * k))
    {
      var combined := if i + 1 < |current| then current[i] + current[i + 1] else current[i] + current[i];
      assert combined == Combined(current, 2 * |next|);
      next := next + [h(combined)];
      i := i + 2;
    }
  }

  lemma LayersStep(h: Hash, done: seq<seq<Text>>, layer: seq<Text>)
    requires |layer| > 1
    ensures done + Layers(h, layer) == done + [layer] + Layers(h, NextLayer(h, layer))
  {
  }

  /** `build_merkle_tree` */
  method BuildMerkleTree(h: Hash, ids: seq<Text>) returns (root: Text, layers: seq<seq<Text>>)
    ensures root == Root(h, ids)
    ensures layers == if ids == [] then [] else Layers(h, Leaves(h, SortIds(ids)))
  {
    SortIdsPermutes(ids);
    if ids == [] {
      return [], [];
    }
    var current := Leaves(h, SortIds(ids));
    ghost var leaves := current;
    ghost var done: seq<seq<Text>> := [];
    layers := [current];
    while |current| > 1
      invariant current != [] && layers == done + [current]
      invariant Top(h, current) == Top(h, leaves)
      invariant done + Layers(h, current) == Layers(h, leaves)
      decreases |current|
    {
      var next := HashPairs(h, current);
      LayersStep(h, done, current);
      done := layers;
      layers := layers + [next];
      current := next;
    }
    root := current[0];
  }

  // ---------------------------------------------------------------- proofs

  function Sibling(layer: seq<Text>, i: nat): Text
    requires i < |layer|
  {
    if i % 2 == 1 then layer[i - 1] else if i + 1 < |layer| then layer[i + 1] else layer[i]
  }

  /** The siblings met on the way from position `i` of `layer` to the root. */
  function Path(h: Hash, layer: seq<Text>, i: nat): seq<Text>
    requires i < |layer|
    decreases |layer|
  {
    if |layer| == 1 then [] else [Sibling(layer, i)] + Path(h, NextLayer(h, layer), i / 2)
  }

  datatype InclusionProof = InclusionProof(index: int, siblings: seq<Text>)

  function FirstIndex(id: Text, ids: seq<Text>): (i: nat)
    requires id in ids
    ensures i < |ids| && ids[i] == id
  {
    if ids[0] == id then 0 else 1 + FirstIndex(id, ids[1..])
  }

  /** `generate_merkle_proof`; `None` is the ValueError for an id outside the tree. */
  method GenerateMerkleProof(h: Hash, id: Text, sortedIds: seq<Text>, layers: seq<seq<Text>>)
    returns (proof: Option<InclusionProof>)
    requires layers == if sortedIds == [] then [] else Layers(h, Leaves(h, sortedIds))
    ensures proof.Some? <==> id in sortedIds
    ensures id in sortedIds ==>
              var i := FirstIndex(id, sortedIds);
              proof.value == InclusionProof(i, Path(h, Leaves(h, sortedIds), i))
  {
    if id !in sortedIds {
      return None;
    }
    var index := FirstIndex(id, sortedIds);
    var siblings: seq<Text> := [];
    var current: nat := index;
    ghost var layer := Leaves(h, sortedIds);
    for k := 0 to |layers| - 1
      invariant layer != [] && layers[k..] == Layers(h, layer)
      invariant current < |layer|
      invariant siblings + Path(h, layer, current) == Path(h, Leaves(h, sortedIds), index)
    {
      LayersTail(h, layer, layers[k..]);
      assert layers[k..][1..] == layers[k + 1..];
      var currentLayer := layers[k];
      var siblingIndex := if current % 2 == 0 then current + 1 else current - 1;
      PathStep(h, siblings, layer, current);
      if siblingIndex < |currentLayer| {
        siblings := siblings + [currentLayer[siblingIndex]];
      } else {
        siblings := siblings + [currentLayer[current]];
      }
      layer := NextLayer(h, layer);
      current := current / 2;
    }
    LastLayer(h, layer);
    return Some(InclusionProof(index, siblings));
  }

  lemma LayersTail(h: Hash, layer: seq<Text>, layers: seq<seq<Text>>)
    requires layer != [] && layers == Layers(h, layer) && |layers| > 1
    ensures layers[0] == layer && |layer| > 1 && layers[1..] == Layers(h, NextLayer(h, layer))
  {
  }

  lemma LastLayer(h: Hash, layer: seq<Text>)
    requires layer != [] && |Layers(h, layer)| == 1
    ensures |layer| == 1
  {
  }

  lemma PathStep(h: Hash, done: seq<Text>, layer: seq<Text>, i: nat)
    requires i < |layer| && |layer| > 1
    ensures done + Path(h, layer, i) == done + [Sibling(layer, i)] + Path(h, NextLayer(h, layer), i / 2)
  {
  }

  /** The digest reached from `current` by hashing with each sibling in turn. */
  function Climb(h: Hash, current: Text, index: int, siblings: seq<Text>): Text
    decreases |siblings|
  {
    if siblings == [] then current
    else Climb(h, h(Step(current, index, siblings[0])), index / 2, siblings[1..])
  }

  function Step(current: Text, index: int, sibling: Text): Text {
    if index % 2 == 0 then current + sibling else sibling + current
  }

  predicate Accepts(h: Hash, id: Text, proof: InclusionProof, root: Text) {
    root != [] && Climb(h, h(id), proof.index, proof.siblings) == root
  }

  /** `verify_merkle_proof` */
  method VerifyMerkleProof(h: Hash, id: Text, proof: InclusionProof, root: Text) returns (ok: bool)
    ensures ok <==> Accepts(h, id, proof, root)
  {
    if root == [] {
      return false;
    }
    var current := h(id);
    var index := proof.index;
    for k := 0 to |proof.siblings|
      invariant Climb(h, current, index, proof.siblings[k..])
             == Climb(h, h(id), proof.index, proof.siblings)
    {
      var sibling := proof.siblings[k];
      assert proof.siblings[k..][1..] == proof.siblings[k + 1..];
      var combined := if index % 2 == 0 then current + sibling else sibling + current;
      current := h(combined);
      index := index / 2;
    }
    return current == root;
  }

  // ---------------------------------------------------------------- completeness

  lemma StepIsCombined(layer: seq<Text>, i: nat, k: nat)
    requires i < |layer| && (i == 2 * k || i == 2 * k + 1)
    ensures Step(layer[i], i, Sibling(layer, i)) == Combined(layer, 2 * k)
  {
    assert i % 2 == i - 2 * k;
  }

  lemma SiblingGivesParent(h: Hash, layer: seq<Text>, i: nat)
    requires i < |layer| && |layer| > 1
    ensures h(Step(layer[i], i, Sibling(layer, i))) == NextLayer(h, layer)[i / 2]
  {
    StepIsCombined(layer, i, i / 2);
  }

  lemma ClimbCons(h: Hash, current: Text, index: int, sibling: Text, rest: seq<Text>)
    ensures Climb(h, current, index, [sibling] + rest)
         == Climb(h, h(Step(current, index, sibling)), index / 2, rest)
  {
    assert ([sibling] + rest)[1..] == rest;
  }

  lemma {:induction false} PathClimbsToTop(h: Hash, layer: seq<Text>, i: nat)
    requires i < |layer|
    ensures Climb(h, layer[i], i, Path(h, layer, i)) == Top(h, layer)
    decreases |layer|
  {
    if |layer| > 1 {
      SiblingGivesParent(h, layer, i);
      ClimbCons(h, layer[i], i, Sibling(layer, i), Path(h, NextLayer(h, layer), i / 2));
      PathClimbsToTop(h, NextLayer(h, layer), i / 2);
    }
  }

  lemma {:induction false} TopIsDigest(h: Hash, layer: seq<Text>)
    requires layer != [] && forall i :: 0 <= i < |layer| ==> |layer[i]| == 64
    ensures |Top(h, layer)| == 64
    decreases |layer|
  {
    if |layer| > 1 {
      TopIsDigest(h, NextLayer(h, layer));
    }
  }

  /** The proof of every committed id is accepted, for every list length and position. */
  lemma GeneratedProofAccepted(h: Hash, ids: seq<Text>, id: Text)
    requires id in ids
    ensures id in SortIds(ids)
    ensures var i := FirstIndex(id, SortIds(ids));
            Accepts(h, id, InclusionProof(i, Path(h, Leaves(h, SortIds(ids)), i)), Root(h, ids))
  {
    SortIdsPermutes(ids);
    assert id in multiset(SortIds(ids));
    var layer := Leaves(h, SortIds(ids));
    PathClimbsToTop(h, layer, FirstIndex(id, SortIds(ids)));
    TopIsDigest(h, layer);
  }

  // ---------------------------------------------------------------- what a root commits to

  predicate Digests(layer: seq<Text>) {
    forall i :: 0 <= i < |layer| ==> |layer[i]| == 64
  }

  /** Every text hashed from `layer` up to the root. */
  function LayerInputs(h: Hash, layer: seq<Text>): set<Text>
    decreases |layer|
  {
    if |layer| <= 1 then {}
    else (set i | 0 <= i < |NextLayer(h, layer)| :: Combined(layer, 2 * i)) + LayerInputs(h, NextLayer(h, layer))
  }

  /** Every text hashed to compute the root over `ids`. */
  function TreeInputs(h: Hash, ids: seq<Text>): set<Text> {
    (set id | id in ids) + LayerInputs(h, Leaves(h, SortIds(ids)))
  }

  function Height(h: Hash, layer: seq<Text>): nat
    decreases |layer|
  {
    if |layer| <= 1 then 0 else 1 + Height(h, NextLayer(h, layer))
  }

  /** A layer of digests whose hashed texts, up to the root, lie in a collision-free pool. */
  ghost predicate Sound(h: Hash, layer: seq<Text>, pool: set<Text>) {
    layer != [] && Digests(layer) && LayerInputs(h, layer) <= pool && CollisionFree(h, pool)
  }

  lemma SoundNext(h: Hash, layer: seq<Text>, pool: set<Text>)
    requires Sound(h, layer, pool) && |layer| > 1
    ensures Sound(h, NextLayer(h, layer), pool)
    ensures Height(h, layer) == 1 + Height(h, NextLayer(h, layer))
    ensures Top(h, layer) == Top(h, NextLayer(h, layer))
  {
  }

  /** A node of the next layer is the digest of two nodes of this one. */
  lemma ParentOf(h: Hash, layer: seq<Text>, d: Text, pool: set<Text>) returns (i: nat)
    requires Sound(h, layer, pool) && |layer| > 1 && d in NextLayer(h, layer)
    ensures i < |layer| && d == h(Combined(layer, i)) && Combined(layer, i) in pool
  {
    var k :| 0 <= k < |NextLayer(h, layer)| && NextLayer(h, layer)[k] == d;
    i := 2 * k;
    assert Combined(layer, i) in LayerInputs(h, layer);
  }

  lemma CombinedSplits(layer: seq<Text>, i: nat, left: Text, right: Text)
    requires Digests(layer) && i < |layer|
    requires left + right == Combined(layer, i) && (|left| == 64 || |right| == 64)
    ensures left in layer && right in layer
  {
    var text := Combined(layer, i);
    assert |left| + |right| == |text| == 128;
    assert text[..64] == left && text[64..] == right;
    assert text[..64] == layer[i] && text[64..] == layer[if i + 1 < |layer| then i + 1 else i];
  }

  /** A digest in the next layer hashes, without collisions, two nodes of this layer. */
  lemma ParentTextSplits(h: Hash, layer: seq<Text>, left: Text, right: Text, pool: set<Text>)
    requires Sound(h, layer, pool) && |layer| > 1 && h(left + right) in NextLayer(h, layer)
    requires left + right in pool && (|left| == 64 || |right| == 64)
    ensures left in layer && right in layer
  {
    var i := ParentOf(h, layer, h(left + right), pool);
    SameDigestSameText(h, pool, left + right, Combined(layer, i));
    CombinedSplits(layer, i, left, right);
  }

  /** A digest in the next layer hashes a text of 128 characters. */
  lemma ParentTextLength(h: Hash, layer: seq<Text>, text: Text, pool: set<Text>)
    requires Sound(h, layer, pool) && |layer| > 1 && h(text) in NextLayer(h, layer) && text in pool
    ensures |text| == 128
  {
    var i := ParentOf(h, layer, h(text), pool);
    SameDigestSameText(h, pool, text, Combined(layer, i));
  }

  ghost predicate SoundIds(h: Hash, ids: seq<Text>, pool: set<Text>) {
    && Sound(h, Leaves(h, ids), pool)
    && forall i :: 0 <= i < |ids| ==> ids[i] in pool
  }

  lemma LeafText(h: Hash, ids: seq<Text>, text: Text, pool: set<Text>)
    requires SoundIds(h, ids, pool) && text in pool && h(text) in Leaves(h, ids)
    ensures text in ids
  {
    var i :| 0 <= i < |ids| && Leaves(h, ids)[i] == h(text);
    SameDigestSameText(h, pool, ids[i], text);
  }

  // ---- inclusion

  /** Every text hashed while climbing from `current`. */
  function ClimbInputs(h: Hash, current: Text, index: int, siblings: seq<Text>): set<Text>
    decreases |siblings|
  {
    if siblings == [] then {}
    else {Step(current, index, siblings[0])}
         + ClimbInputs(h, h(Step(current, index, siblings[0])), index / 2, siblings[1..])
  }

  /** A climb from a digest to the top of `layer`, its hashed texts in the pool. */
  ghost predicate Reaches(h: Hash, current: Text, index: int, siblings: seq<Text>, layer: seq<Text>, pool: set<Text>)
    requires layer != []
  {
    && |current| == 64
    && Climb(h, current, index, siblings) == Top(h, layer)
    && ClimbInputs(h, current, index, siblings) <= pool
  }

  lemma ReachesNext(h: Hash, current: Text, index: int, siblings: seq<Text>, layer: seq<Text>, pool: set<Text>)
    requires layer != [] && siblings != [] && Reaches(h, current, index, siblings, layer, pool)
    ensures var text := Step(current, index, siblings[0]);
            text in pool && |text| >= 64 && Reaches(h, h(text), index / 2, siblings[1..], layer, pool)
  {
  }

  lemma StepSplits(h: Hash, layer: seq<Text>, current: Text, index: int, sibling: Text, pool: set<Text>)
    requires Sound(h, layer, pool) && |layer| > 1 && |current| == 64
    requires h(Step(current, index, sibling)) in NextLayer(h, layer) && Step(current, index, sibling) in pool
    ensures current in layer
  {
    if index % 2 == 0 {
      ParentTextSplits(h, layer, current, sibling, pool);
    } else {
      ParentTextSplits(h, layer, sibling, current, pool);
    }
  }

  /** A climb of the tree's own height that reaches the top started from a node of the layer. */
  lemma {:induction false} FullClimb(h: Hash, layer: seq<Text>, current: Text, index: int, siblings: seq<Text>,
                                     pool: set<Text>)
    requires Sound(h, layer, pool) && Reaches(h, current, index, siblings, layer, pool)
    requires |siblings| == Height(h, layer)
    ensures current in layer
    decreases |siblings|
  {
    if siblings != [] {
      SoundNext(h, layer, pool);
      ReachesNext(h, current, index, siblings, layer, pool);
      FullClimb(h, NextLayer(h, layer), h(Step(current, index, siblings[0])), index / 2, siblings[1..], pool);
      StepSplits(h, layer, current, index, siblings[0], pool);
    }
  }

  lemma LeafIsNotStep(h: Hash, ids: seq<Text>, text: Text, index: int, siblings: seq<Text>, pool: set<Text>)
    requires SoundIds(h, ids, pool) && Reaches(h, h(text), index, siblings, Leaves(h, ids), pool)
    requires |siblings| == Height(h, Leaves(h, ids)) && text in pool
    ensures text in ids
  {
    FullClimb(h, Leaves(h, ids), h(text), index, siblings, pool);
    LeafText(h, ids, text, pool);
  }

  /** No climb longer than the tree reaches the top: it would have to hash to a leaf. */
  lemma {:induction false} LongClimb(h: Hash, ids: seq<Text>, current: Text, index: int, siblings: seq<Text>,
                                     pool: set<Text>)
    requires SoundIds(h, ids, pool) && Reaches(h, current, index, siblings, Leaves(h, ids), pool)
    requires |siblings| > Height(h, Leaves(h, ids))
    ensures exists id :: id in ids && |id| >= 64
    decreases |siblings|
  {
    var text := Step(current, index, siblings[0]);
    ReachesNext(h, current, index, siblings, Leaves(h, ids), pool);
    if |siblings| == Height(h, Leaves(h, ids)) + 1 {
      LeafIsNotStep(h, ids, text, index / 2, siblings[1..], pool);
    } else {
      LongClimb(h, ids, h(text), index / 2, siblings[1..], pool);
    }
  }

  /** A climb shorter than the tree starts from an inner node, so its id has 128 characters. */
  lemma {:induction false} ShortClimb(h: Hash, layer: seq<Text>, id: Text, index: int, siblings: seq<Text>,
                                      pool: set<Text>)
    requires Sound(h, layer, pool) && Reaches(h, h(id), index, siblings, layer, pool) && id in pool
    requires |siblings| < Height(h, layer)
    ensures |id| == 128
    decreases |layer|
  {
    SoundNext(h, layer, pool);
    if |siblings| + 1 == Height(h, layer) {
      FullClimb(h, NextLayer(h, layer), h(id), index, siblings, pool);
      ParentTextLength(h, layer, id, pool);
    } else {
      ShortClimb(h, NextLayer(h, layer), id, index, siblings, pool);
    }
  }

  lemma AcceptedIsMember(h: Hash, ids: seq<Text>, id: Text, proof: InclusionProof, pool: set<Text>)
    requires SoundIds(h, ids, pool) && id in pool && |id| != 128
    requires forall x :: x in ids ==> |x| < 64
    requires Reaches(h, h(id), proof.index, proof.siblings, Leaves(h, ids), pool)
    ensures id in ids
  {
    if |proof.siblings| == Height(h, Leaves(h, ids)) {
      FullClimb(h, Leaves(h, ids), h(id), proof.index, proof.siblings, pool);
      LeafText(h, ids, id, pool);
    } else if |proof.siblings| > Height(h, Leaves(h, ids)) {
      LongClimb(h, ids, h(id), proof.index, proof.siblings, pool);
    } else {
      ShortClimb(h, Leaves(h, ids), id, proof.index, proof.siblings, pool);
    }
  }

  lemma SortIdsMembers(ids: seq<Text>)
    ensures forall t :: t in SortIds(ids) <==> t in ids
  {
    SortIdsPermutes(ids);
    forall t
      ensures t in SortIds(ids) <==> t in ids
    {
      assert t in SortIds(ids) <==> t in multiset(SortIds(ids));
      assert t in ids <==> t in multiset(ids);
    }
  }

  lemma SoundPool(h: Hash, ids: seq<Text>, pool: set<Text>)
    requires ids != [] && TreeInputs(h, ids) <= pool && CollisionFree(h, pool)
    ensures SoundIds(h, SortIds(ids), pool)
  {
    SortIdsPermutes(ids);
    SortIdsMembers(ids);
    forall i | 0 <= i < |SortIds(ids)|
      ensures SortIds(ids)[i] in pool
    {
      assert SortIds(ids)[i] in ids;
    }
  }

  /** Every text hashed to check a proof of `id` against the root over `ids`. */
  function CheckInputs(h: Hash, ids: seq<Text>, id: Text, proof: InclusionProof): set<Text> {
    TreeInputs(h, ids) + {id} + ClimbInputs(h, h(id), proof.index, proof.siblings)
  }

  /**
   What an accepted inclusion proof shows, whatever its index and its siblings: the id is
   one of the committed ids, or two different texts hashed on the way collide. Leaves and
   inner nodes share one hash domain, hence the bounds on id length.
   */
  lemma AcceptedProofShowsMembership(h: Hash, ids: seq<Text>, id: Text, proof: InclusionProof)
    returns (a: Text, b: Text)
    requires forall x :: x in ids ==> |x| < 64
    requires |id| != 128
    requires Accepts(h, id, proof, Root(h, ids))
    ensures id in ids || CollisionIn(h, CheckInputs(h, ids, id, proof), a, b)
  {
    a, b := FindCollision(h, CheckInputs(h, ids, id, proof));
    if CollisionFree(h, CheckInputs(h, ids, id, proof)) {
      AcceptedWithoutCollision(h, ids, id, proof, CheckInputs(h, ids, id, proof));
    }
  }

  lemma AcceptedWithoutCollision(h: Hash, ids: seq<Text>, id: Text, proof: InclusionProof, pool: set<Text>)
    requires forall x :: x in ids ==> |x| < 64
    requires |id| != 128
    requires Accepts(h, id, proof, Root(h, ids))
    requires CollisionFree(h, pool) && CheckInputs(h, ids, id, proof) <= pool
    ensures id in ids
  {
    SortIdsPermutes(ids);
    SortIdsMembers(ids);
    SoundPool(h, ids, pool);
    assert id in CheckInputs(h, ids, id, proof);
    AcceptedIsMember(h, SortIds(ids), id, proof, pool);
  }

  /** Why the claimed id may not have 128 characters: an inner node's text is accepted as an id. */
  lemma InnerNodeTextAccepted(h: Hash, x: Text, y: Text)
    ensures |SortIds([x, y])| == 2
    ensures var id := Combined(Leaves(h, SortIds([x, y])), 0);
            |id| == 128 && Accepts(h, id, InclusionProof(0, []), Root(h, [x, y]))
  {
    SortIdsPermutes([x, y]);
    TwoLeaves(h, Leaves(h, SortIds([x, y])));
  }

  lemma TwoLeaves(h: Hash, layer: seq<Text>)
    requires |layer| == 2
    ensures Top(h, layer) == h(Combined(layer, 0))
  {
    assert |NextLayer(h, layer)| == 1;
  }

  // ---- the whole list

  ghost predicate PairIn(l1: seq<Text>, k: nat, l2: seq<Text>) {
    2 * k < |l1| ==> l1[2 * k] in l2 && (2 * k + 1 < |l1| ==> l1[2 * k + 1] in l2)
  }

  lemma PairsCover(l1: seq<Text>, l2: seq<Text>)
    requires forall k: nat :: PairIn(l1, k, l2)
    ensures forall p :: 0 <= p < |l1| ==> l1[p] in l2
  {
    forall p | 0 <= p < |l1|
      ensures l1[p] in l2
    {
      assert PairIn(l1, p / 2, l2);
    }
  }

  lemma NextCoversPair(h: Hash, l1: seq<Text>, l2: seq<Text>, i: nat, j: nat, pool: set<Text>)
    requires Sound(h, l2, pool) && |l2| > 1 && Digests(l1)
    requires i < |l1| && j == (if i + 1 < |l1| then i + 1 else i)
    requires Combined(l1, i) in pool && h(Combined(l1, i)) in NextLayer(h, l2)
    ensures l1[i] in l2 && l1[j] in l2
  {
    ParentTextSplits(h, l2, l1[i], l1[j], pool);
  }

  lemma LayerTextsInPool(h: Hash, layer: seq<Text>, k: nat, pool: set<Text>)
    requires Sound(h, layer, pool) && |layer| > 1 && k < |NextLayer(h, layer)|
    ensures Combined(layer, 2 * k) in pool && NextLayer(h, layer)[k] == h(Combined(layer, 2 * k))
  {
    assert Combined(layer, 2 * k) in LayerInputs(h, layer);
  }

  lemma PairCovered(h: Hash, l1: seq<Text>, l2: seq<Text>, k: nat, pool: set<Text>)
    requires Sound(h, l1, pool) && Sound(h, l2, pool) && |l2| > 1 && |l1| > 1
    requires k < |NextLayer(h, l1)| && NextLayer(h, l1)[k] in NextLayer(h, l2)
    ensures PairIn(l1, k, l2)
  {
    LayerTextsInPool(h, l1, k, pool);
    NextCoversPair(h, l1, l2, 2 * k, if 2 * k + 1 < |l1| then 2 * k + 1 else 2 * k, pool);
  }

  lemma NextCoversAll(h: Hash, l1: seq<Text>, l2: seq<Text>, pool: set<Text>)
    requires Sound(h, l1, pool) && Sound(h, l2, pool) && |l2| > 1 && |l1| > 1
    requires SameMembers(NextLayer(h, l1), NextLayer(h, l2))
    ensures forall p :: 0 <= p < |l1| ==> l1[p] in l2
  {
    forall k: nat
      ensures PairIn(l1, k, l2)
    {
      if 2 * k < |l1| {
        assert NextLayer(h, l1)[k] in NextLayer(h, l1);
        PairCovered(h, l1, l2, k, pool);
      }
    }
    PairsCover(l1, l2);
  }

  /** Trees of equal height under one root have the same set of nodes in each layer. */
  lemma {:induction false} SameHeightSameLeaves(h: Hash, l1: seq<Text>, l2: seq<Text>, pool: set<Text>)
    requires Sound(h, l1, pool) && Sound(h, l2, pool)
    requires Height(h, l1) == Height(h, l2) && Top(h, l1) == Top(h, l2)
    ensures SameMembers(l1, l2)
    decreases |l1|
  {
    if |l1| > 1 {
      SoundNext(h, l1, pool);
      SoundNext(h, l2, pool);
      SameHeightSameLeaves(h, NextLayer(h, l1), NextLayer(h, l2), pool);
      NextCoversAll(h, l1, l2, pool);
      NextCoversAll(h, l2, l1, pool);
    } else {
      assert l1 == [l1[0]] && l2 == [l2[0]];
    }
  }

  /** Trees of different height have different roots: a leaf would equal an inner node. */
  lemma {:induction false} HeightsAgree(h: Hash, ids: seq<Text>, layer: seq<Text>, pool: set<Text>)
    requires SoundIds(h, ids, pool) && Sound(h, layer, pool)
    requires ids != [] && |ids[0]| != 128
    requires Height(h, Leaves(h, ids)) < Height(h, layer)
    requires Top(h, Leaves(h, ids)) == Top(h, layer)
    ensures false
    decreases |layer|
  {
    SoundNext(h, layer, pool);
    if Height(h, Leaves(h, ids)) + 1 == Height(h, layer) {
      SameHeightSameLeaves(h, Leaves(h, ids), NextLayer(h, layer), pool);
      assert Leaves(h, ids)[0] in Leaves(h, ids);
      ParentTextLength(h, layer, ids[0], pool);
    } else {
      HeightsAgree(h, ids, NextLayer(h, layer), pool);
    }
  }

  lemma DuplicateFreeMultiset(xs: seq<Text>, ys: seq<Text>)
    requires NoRepeats(xs) && NoRepeats(ys) && SameMembers(xs, ys)
    ensures multiset(xs) == multiset(ys)
  {
    forall t
      ensures multiset(xs)[t] == multiset(ys)[t]
    {
      if multiset(xs)[t] >= 2 {
        MultiplicityMeansRepeat(xs, t);
      }
      if multiset(ys)[t] >= 2 {
        MultiplicityMeansRepeat(ys, t);
      }
      assert t in xs <==> t in multiset(xs);
      assert t in ys <==> t in multiset(ys);
    }
  }

  lemma SameTopSameIds(h: Hash, xs: seq<Text>, ys: seq<Text>, pool: set<Text>)
    requires SoundIds(h, xs, pool) && SoundIds(h, ys, pool)
    requires Top(h, Leaves(h, xs)) == Top(h, Leaves(h, ys))
    requires |xs[0]| != 128 && |ys[0]| != 128
    ensures SameMembers(xs, ys)
  {
    var l, m := Leaves(h, xs), Leaves(h, ys);
    if Height(h, l) < Height(h, m) {
      HeightsAgree(h, xs, m, pool);
    } else if Height(h, m) < Height(h, l) {
      HeightsAgree(h, ys, l, pool);
    } else {
      SameHeightSameLeaves(h, l, m, pool);
      LeavesDetermineIds(h, xs, ys, pool);
      LeavesDetermineIds(h, ys, xs, pool);
    }
  }

  lemma LeavesDetermineIds(h: Hash, xs: seq<Text>, ys: seq<Text>, pool: set<Text>)
    requires SoundIds(h, xs, pool) && SoundIds(h, ys, pool)
    requires SameMembers(Leaves(h, xs), Leaves(h, ys))
    ensures forall t :: t in xs ==> t in ys
  {
    forall t | t in xs
      ensures t in ys
    {
      var i :| 0 <= i < |xs| && xs[i] == t;
      assert Leaves(h, xs)[i] in Leaves(h, xs);
      LeafText(h, ys, t, pool);
    }
  }

  lemma SameRootSameIds(h: Hash, xs: seq<Text>, ys: seq<Text>, pool: set<Text>)
    requires forall x :: x in xs ==> |x| != 128
    requires forall y :: y in ys ==> |y| != 128
    requires xs != [] && ys != [] && Root(h, xs) == Root(h, ys)
    requires CollisionFree(h, pool) && TreeInputs(h, xs) <= pool && TreeInputs(h, ys) <= pool
    ensures SameMembers(xs, ys)
  {
    SoundPool(h, xs, pool);
    SoundPool(h, ys, pool);
    SortIdsMembers(xs);
    SortIdsMembers(ys);
    assert SortIds(xs)[0] in SortIds(xs) && SortIds(ys)[0] in SortIds(ys);
    SameTopSameIds(h, SortIds(xs), SortIds(ys), pool);
  }

  /** Only the empty list has the empty root. */
  lemma EmptyRoot(h: Hash, ids: seq<Text>)
    ensures Root(h, ids) == [] <==> ids == []
  {
    SortIdsPermutes(ids);
    if ids != [] {
      TopIsDigest(h, Leaves(h, SortIds(ids)));
    }
  }

  /**
   A root commits to its ids: duplicate-free lists with one root are permutations of each
   other, whatever their lengths and odd nodes, or two texts hashed for them collide.
   */
  lemma RootCommitsToIds(h: Hash, xs: seq<Text>, ys: seq<Text>) returns (a: Text, b: Text)
    requires NoRepeats(xs) && NoRepeats(ys)
    requires forall x :: x in xs ==> |x| != 128
    requires forall y :: y in ys ==> |y| != 128
    requires Root(h, xs) == Root(h, ys)
    ensures multiset(xs) == multiset(ys) || CollisionIn(h, TreeInputs(h, xs) + TreeInputs(h, ys), a, b)
  {
    a, b := FindCollision(h, TreeInputs(h, xs) + TreeInputs(h, ys));
    if CollisionFree(h, TreeInputs(h, xs) + TreeInputs(h, ys)) {
      RootCommitsWithoutCollision(h, xs, ys, TreeInputs(h, xs) + TreeInputs(h, ys));
    }
  }

  lemma RootCommitsWithoutCollision(h: Hash, xs: seq<Text>, ys: seq<Text>, pool: set<Text>)
    requires NoRepeats(xs) && NoRepeats(ys)
    requires forall x :: x in xs ==> |x| != 128
    requires forall y :: y in ys ==> |y| != 128
    requires Root(h, xs) == Root(h, ys)
    requires CollisionFree(h, pool) && TreeInputs(h, xs) <= pool && TreeInputs(h, ys) <= pool
    ensures multiset(xs) == multiset(ys)
  {
    EmptyRoot(h, xs);
    EmptyRoot(h, ys);
    if xs != [] {
      SameRootSameIds(h, xs, ys, pool);
      DuplicateFreeMultiset(xs, ys);
    }
  }

  lemma RepeatedPair(layer: seq<Text>, longer: seq<Text>, k: nat)
    requires |layer| % 2 == 1 && longer == layer + [layer[|layer| - 1]] && 2 * k < |layer|
    ensures Combined(longer, 2 * k) == Combined(layer, 2 * k)
  {
  }

  lemma RepeatedLastNext(h: Hash, layer: seq<Text>, longer: seq<Text>)
    requires |layer| % 2 == 1 && longer == layer + [layer[|layer| - 1]]
    ensures NextLayer(h, longer) == NextLayer(h, layer)
  {
    forall k | 0 <= k < |NextLayer(h, layer)|
      ensures NextLayer(h, longer)[k] == NextLayer(h, layer)[k]
    {
      RepeatedPair(layer, longer, k);
    }
  }

  /** Repeating the odd last leaf of a layer keeps the top. */
  lemma RepeatedLastLeafKeepsTop(h: Hash, layer: seq<Text>)
    requires |layer| >= 3 && |layer| % 2 == 1
    ensures Top(h, layer + [layer[|layer| - 1]]) == Top(h, layer)
  {
    RepeatedLastNext(h, layer, layer + [layer[|layer| - 1]]);
  }

  lemma SortedIdsAre(ids: seq<Text>)
    ensures KeyedIds(SortIds(ids)) == Sort(KeyedIds(ids)) && Sorted(KeyedIds(SortIds(ids)))
  {
    var sorted := Sort(KeyedIds(ids));
    forall i | 0 <= i < |sorted|
      ensures sorted[i].key == sorted[i].item
    {
      SortKeepsMembers(KeyedIds(ids), sorted[i]);
    }
    SortSorts(KeyedIds(ids));
    assert KeyedIds(Items(sorted)) == sorted;
  }

  lemma SortedWithLast(ids: seq<Text>)
    requires ids != [] && Sorted(KeyedIds(ids))
    ensures SortIds(ids) == ids && SortIds(ids + [ids[|ids| - 1]]) == ids + [ids[|ids| - 1]]
  {
    var last := ids[|ids| - 1];
    var longer := KeyedIds(ids + [last]);
    LexIrreflexive(last);
    assert forall i :: 0 <= i < |ids| ==> longer[i] == KeyedIds(ids)[i];
    assert longer[|ids|] == KeyedIds(ids)[|ids| - 1];
    SortedStays(KeyedIds(ids));
    SortedStays(longer);
  }

  /**
   Why duplicates are excluded: over any odd number of ids, three or more, the list that
   repeats the last sorted id has the same root and is not the same list of ids.
   */
  lemma RepeatedLastIdKeepsRoot(h: Hash, ids: seq<Text>)
    requires |ids| >= 3 && |ids| % 2 == 1
    ensures |SortIds(ids)| == |ids|
    ensures var longer := SortIds(ids) + [SortIds(ids)[|ids| - 1]];
            Root(h, longer) == Root(h, ids) && |longer| == |ids| + 1
  {
    SortIdsPermutes(ids);
    SortedIdsAre(ids);
    var sorted := SortIds(ids);
    var last := sorted[|sorted| - 1];
    SortedWithLast(sorted);
    assert Leaves(h, sorted + [last]) == Leaves(h, sorted) + [h(last)];
    RepeatedLastLeafKeepsTop(h, Leaves(h, sorted));
  }
}
