/**
 * The growth tree of the memory garden: the leaf colour chosen from the discovered light,
 * the depth chosen from the number of memories, the scale chosen from the reflection
 * counter, and the recursive branch generator. Geometry (angles, lengths, coordinates)
 * and animation timing are abstracted away: a generated shape records only what it is,
 * the depth it was drawn at and the colour it is filled with.
 */
module GrowthTree {
  import opened Wrappers
  import opened Text
  import opened Types
  import opened Constants
  import Session

  // ---------------------------------------------------------------------------
  // Leaf colour
  // ---------------------------------------------------------------------------

  /** The leaf colour of each light name. */
  const LightColors: map<string, string> := map[
    "Hope" := "#FCD34D",
    "Wisdom" := "#86EFAC",
    "Discovery" := "#93C5FD",
    "Kindness" := "#FDE047",
    "Courage" := "#FCA5A5",
    "Freedom" := "#7DD3FC",
    "Grief" := "#94A3B8",
    "Longing" := "#C4B5FD",
    "Anger" := "#F87171",
    "Pain" := "#475569",
    "Defiance" := "#FDBA74"
  ]

  /** The colour used when the light's name has no entry. */
  const DefaultColor: string := "#FCD34D"

  /** The name of the light the tree is drawn for: its first word, or "Hope" without a light. */
  function LightName(currentLight: Option<string>): (n: string)
    ensures ' ' !in n
    ensures (currentLight.None? || currentLight.value == []) ==> n == "Hope"
    ensures currentLight.Some? && currentLight.value != [] ==>
              && |n| <= |currentLight.value| && currentLight.value[..|n|] == n
              && (|n| == |currentLight.value| || currentLight.value[|n|] == ' ')
  {
    if currentLight.Some? && currentLight.value != [] then FirstWord(currentLight.value) else "Hope"
  }

  /** The leaf colour: the named light's entry, or the default colour. */
  function LeafColor(currentLight: Option<string>): (c: string)
    ensures c in LightColors.Values
  {
    var name := LightName(currentLight);
    assert LightColors["Hope"] == DefaultColor;
    if name in LightColors then LightColors[name] else DefaultColor
  }

  /** The colour of each light of the pool, in the pool's order. */
  const PoolColors: seq<string> := [
    "#FCD34D", "#86EFAC", "#93C5FD", "#FDE047", "#FCA5A5", "#7DD3FC",
    "#94A3B8", "#C4B5FD", "#F87171", "#475569", "#FDBA74"
  ]

  /** The tree is drawn for the name of a pool light: the word before its glyph. */
  lemma PoolLightName(k: nat)
    requires k < |PossibleLights|
    ensures LightName(Some(PossibleLights[k])) == LightNames[k]
  {
    LightShape(k);
    Session.SplitTwoWords(LightNames[k], LightGlyphs[k]);
  }

  /** Every pool name has an entry, holding the pool's colour for it. */
  lemma PoolNameColor(k: nat)
    requires k < |LightNames|
    ensures LightNames[k] in LightColors && LightColors[LightNames[k]] == PoolColors[k]
  {
  }

  /** Every discoverable light has its own entry, and the tree takes that colour. */
  lemma PoolLightColor(k: nat)
    requires k < |PossibleLights|
    ensures LightName(Some(PossibleLights[k])) in LightColors
    ensures LeafColor(Some(PossibleLights[k])) == PoolColors[k]
  {
    PoolLightName(k);
    PoolNameColor(k);
  }

  /** Without a discovered light the tree has the colour of the light every companion wakes with. */
  lemma NoLightIsAwakeningColor()
    ensures LeafColor(None) == LeafColor(Some(AwakeningLight)) == LeafColor(Some(""))
  {
    assert PossibleLights[0] == AwakeningLight;
    PoolLightColor(0);
  }

  // ---------------------------------------------------------------------------
  // Size
  // ---------------------------------------------------------------------------

  /** The branch depth: two to start with, one more for every two memories, at most seven. */
  function MaxDepth(memoryCount: nat): (d: nat)
    ensures 2 <= d <= 7
    ensures memoryCount >= 10 ==> d == 7
    ensures memoryCount < 10 ==> 2 * (d - 2) <= memoryCount < 2 * (d - 1)
  {
    if memoryCount / 2 + 2 < 7 then memoryCount / 2 + 2 else 7
  }

  /** More memories never make a smaller tree. */
  lemma MaxDepthMonotone(m: nat, n: nat)
    requires m <= n
    ensures MaxDepth(m) <= MaxDepth(n)
  {
  }

  /** The growth stage shown under the tree: the depth less one, from one to six. */
  function Level(memoryCount: nat): (l: nat)
    ensures 1 <= l <= 6
    ensures l + 1 == MaxDepth(memoryCount)
  {
    MaxDepth(memoryCount) - 1
  }

  /** The drawing scale: one half, one hundredth more per reflection, at most 1.2. */
  function Scale(reflectionCounter: nat): (s: real)
    ensures 0.5 <= s <= 1.2
    ensures reflectionCounter >= 70 ==> s == 1.2
    ensures reflectionCounter < 70 ==> s == 0.5 + reflectionCounter as real / 100.0
  {
    var grown := 0.5 + reflectionCounter as real * 0.01;
    if grown < 1.2 then grown else 1.2
  }

  // ---------------------------------------------------------------------------
  // Branches
  // ---------------------------------------------------------------------------

  /** One drawn element: a branch at a depth, or the leaf and glow at a branch's tip. */
  datatype Shape = Line(depth: nat) | Leaf(fill: string) | Glow(fill: string)

  datatype ShapeKind = LineKind | LeafKind | GlowKind

  function KindOf(s: Shape): ShapeKind {
    match s
    case Line(_) => LineKind
    case Leaf(_) => LeafKind
    case Glow(_) => GlowKind
  }

  /** How many shapes of a kind a drawing holds. */
  function Count(s: seq<Shape>, k: ShapeKind): nat {
    if s == [] then 0 else (if KindOf(s[0]) == k then 1 else 0) + Count(s[1..], k)
  }

  lemma {:induction false} CountConcat(a: seq<Shape>, b: seq<Shape>, k: ShapeKind)
    ensures Count(a + b, k) == Count(a, k) + Count(b, k)
  {
    if a == [] {
      assert a + b == b;
    } else {
      assert (a + b)[0] == a[0];
      assert (a + b)[1..] == a[1..] + b;
      CountConcat(a[1..], b, k);
    }
  }

  /**
   * The branches of a subtree of the given depth: its own branch, a leaf and a glow when it
   * is terminal, then the left and the right subtree one level shallower.
   */
  function Branches(depth: nat, color: string): (r: seq<Shape>)
    ensures depth == 0 <==> r == []
    ensures depth > 0 ==> r[0] == Line(depth)
    ensures Bounded(r, depth, color)
    ensures TipsPaired(r)
  {
    if depth == 0 then []
    else
      var tip := if depth == 1 then [Leaf(color), Glow(color)] else [];
      var sub := Branches(depth - 1, color);
      var head := [Line(depth)] + tip;
      assert TipsPaired(head) && Bounded(head, depth, color) by {
        if depth == 1 {
          assert head == [Line(1), Leaf(color), Glow(color)];
        }
      }
      BoundedConcat(head, sub, depth, depth - 1, color);
      BoundedConcat(head + sub, sub, depth, depth - 1, color);
      TipsPairedConcat(head, sub);
      TipsPairedConcat(head + sub, sub);
      head + sub + sub
  }

  /** Every branch has a depth from one to `depth`, and every leaf and glow is filled with `color`. */
  predicate Bounded(r: seq<Shape>, depth: nat, color: string) {
    forall i | 0 <= i < |r| :: if r[i].Line? then 1 <= r[i].depth <= depth else r[i].fill == color
  }

  lemma BoundedConcat(a: seq<Shape>, b: seq<Shape>, depth: nat, under: nat, color: string)
    requires Bounded(a, depth, color) && Bounded(b, under, color) && under <= depth
    ensures Bounded(a + b, depth, color)
  {
    forall i | 0 <= i < |a + b|
      ensures var x := (a + b)[i]; if x.Line? then 1 <= x.depth <= depth else x.fill == color
    {
      if i >= |a| {
        assert (a + b)[i] == b[i - |a|];
      }
    }
  }

  /**
   * Leaves and glows come only in pairs at the tip of a depth-one branch: every such branch
   * is followed by a leaf and a glow, every leaf follows one, and every glow follows a leaf.
   */
  predicate TipsPaired(r: seq<Shape>) {
    && (forall i | 0 <= i < |r| :: r[i] == Line(1) ==> i + 2 < |r| && r[i + 1].Leaf? && r[i + 2].Glow?)
    && (forall i | 0 <= i < |r| :: r[i].Leaf? ==> 1 <= i && r[i - 1] == Line(1))
    && (forall i | 0 <= i < |r| :: r[i].Glow? ==> 2 <= i && r[i - 1].Leaf?)
  }

  lemma TipsPairedConcat(a: seq<Shape>, b: seq<Shape>)
    requires TipsPaired(a) && TipsPaired(b)
    requires b == [] || b[0].Line?
    ensures TipsPaired(a + b)
  {
    var r := a + b;
    forall i | 0 <= i < |r| && r[i] == Line(1)
      ensures i + 2 < |r| && r[i + 1].Leaf? && r[i + 2].Glow?
    {
      if i < |a| {
        assert a[i] == Line(1);
      } else {
        assert b[i - |a|] == Line(1);
      }
    }
    forall i | 0 <= i < |r| && r[i].Leaf?
      ensures 1 <= i && r[i - 1] == Line(1)
    {
      if i < |a| {
        assert a[i].Leaf?;
      } else {
        assert b[i - |a|].Leaf?;
      }
    }
    forall i | 0 <= i < |r| && r[i].Glow?
      ensures 2 <= i && r[i - 1].Leaf?
    {
      if i < |a| {
        assert a[i].Glow?;
      } else {
        assert b[i - |a|].Glow?;
      }
    }
  }

  function Pow2(n: nat): (p: nat)
    ensures p >= 1
  {
    if n == 0 then 1 else 2 * Pow2(n - 1)
  }

  /**
   * A tree of depth `d` is a full binary tree: `2^d - 1` branches and a leaf with its glow at
   * each of its `2^(d-1)` tips.
   */
  lemma {:induction false} BranchCounts(d: nat, color: string)
    ensures Count(Branches(d, color), LineKind) == Pow2(d) - 1
    ensures Count(Branches(d, color), LeafKind) == (if d == 0 then 0 else Pow2(d - 1))
    ensures Count(Branches(d, color), GlowKind) == (if d == 0 then 0 else Pow2(d - 1))
  {
    if d > 0 {
      var tip := if d == 1 then [Leaf(color), Glow(color)] else [];
      var sub := Branches(d - 1, color);
      assert Branches(d, color) == [Line(d)] + tip + sub + sub;
      BranchCounts(d - 1, color);
      var upper := [Line(d)] + tip + sub;
      CountConcat(upper, sub, LineKind);
      CountConcat(upper, sub, LeafKind);
      CountConcat(upper, sub, GlowKind);
      CountConcat([Line(d)] + tip, sub, LineKind);
      CountConcat([Line(d)] + tip, sub, LeafKind);
      CountConcat([Line(d)] + tip, sub, GlowKind);
      assert Count(tip, LineKind) == 0 && Count(tip, LeafKind) == Count(tip, GlowKind) == (if d == 1 then 1 else 0) by {
        if d == 1 {
          assert tip[1..] == [Glow(color)];
          assert tip[1..][1..] == [];
        }
      }
      CountConcat([Line(d)], tip, LineKind);
      CountConcat([Line(d)], tip, LeafKind);
      CountConcat([Line(d)], tip, GlowKind);
      assert [Line(d)][1..] == [];
    }
  }

  /** Everything the tree component derives from its three inputs. */
  datatype Tree = Tree(color: string, depth: nat, level: nat, scale: real, shapes: seq<Shape>)

  /** The growth tree for a counter, a memory count and the discovered light. */
  function DrawTree(reflectionCounter: nat, memoryCount: nat, currentLight: Option<string>): (t: Tree)
    ensures t.depth == t.level + 1 == MaxDepth(memoryCount)
    ensures t.color in LightColors.Values
    ensures |t.shapes| > 0 && t.shapes[0] == Line(t.depth)
    ensures forall i | 0 <= i < |t.shapes| :: !t.shapes[i].Line? ==> t.shapes[i].fill == t.color
    ensures TipsPaired(t.shapes)
  {
    var depth := MaxDepth(memoryCount);
    var color := LeafColor(currentLight);
    Tree(color, depth, Level(memoryCount), Scale(reflectionCounter), Branches(depth, color))
  }

  /** The garden's tree for a session: drawn from its counter, memories and discovered light. */
  function GardenTree(g: GameState): Tree {
    DrawTree(g.reflectionCounter, |g.memories|, g.coreMemory.trueLight)
  }

  /**
   * Revealing a light of the pool recolours the garden's tree with that light's colour, and
   * the new memory it records never makes the tree smaller.
   */
  lemma RevealRecolorsTree(g: GameState, k: nat, now: int)
    requires k < |PossibleLights|
    ensures GardenTree(Session.RevealLight(g, PossibleLights[k], now)).color == PoolColors[k]
    ensures GardenTree(Session.RevealLight(g, PossibleLights[k], now)).depth >= GardenTree(g).depth
  {
    var r := Session.RevealLight(g, PossibleLights[k], now);
    assert r.coreMemory.trueLight == Some(PossibleLights[k]);
    PoolLightColor(k);
    MaxDepthMonotone(|g.memories|, |r.memories|);
  }
}
