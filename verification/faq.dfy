/**
 * The landing page's FAQ accordion: a single open index (or none) over a fixed list of three
 * questions. Pressing a question's button opens it, closing whichever was open, or closes it
 * when it was already the open one.
 */
module Faq {
  import opened Wrappers

  /** The number of entries in the fixed list; their wording is not modelled. */
  const FaqCount: nat := 3

  const OpenGlyph: string := "\U{2212}"
  const ClosedGlyph: string := "+"

  predicate Expanded(open: Option<nat>, i: nat) {
    open == Some(i)
  }

  /** `toggleFaq(index)`. */
  function Toggle(open: Option<nat>, i: nat): (r: Option<nat>)
    ensures Expanded(r, i) <==> !Expanded(open, i)
    ensures forall j: nat :: j != i ==> !Expanded(r, j)
  {
    if open == Some(i) then None else Some(i)
  }

  /** Toggling the same entry twice restores the state when that entry or nothing was open, and
      otherwise leaves everything closed: the first press stole the open slot. */
  lemma ToggleTwice(open: Option<nat>, i: nat)
    ensures open.None? || open == Some(i) ==> Toggle(Toggle(open, i), i) == open
    ensures open.Some? && open != Some(i) ==> Toggle(Toggle(open, i), i).None?
  {
  }

  /** How one entry renders: whether its answer is shown, and the glyph beside the question. */
  datatype ItemView = ItemView(expanded: bool, glyph: string)

  function ViewOf(open: Option<nat>, i: nat): (v: ItemView)
    ensures v.expanded <==> Expanded(open, i)
    ensures v.glyph == OpenGlyph <==> v.expanded
    ensures v.glyph == ClosedGlyph <==> !v.expanded
  {
    if Expanded(open, i) then ItemView(true, OpenGlyph) else ItemView(false, ClosedGlyph)
  }

  function Render(open: Option<nat>): (vs: seq<ItemView>)
    ensures |vs| == FaqCount
    ensures forall i :: 0 <= i < |vs| ==> vs[i] == ViewOf(open, i)
  {
    seq(FaqCount, i requires 0 <= i < FaqCount => ViewOf(open, i))
  }

  function CountExpanded(vs: seq<ItemView>): nat
    decreases |vs|
  {
    if |vs| == 0 then 0 else CountExpanded(vs[..|vs| - 1]) + (if vs[|vs| - 1].expanded then 1 else 0)
  }

  /** Counts expanded entries among the first `k`: one exactly when the open index is below `k`. */
  lemma {:induction false} PrefixExpanded(open: Option<nat>, k: nat)
    requires k <= FaqCount
    ensures CountExpanded(Render(open)[..k]) == if open.Some? && open.value < k then 1 else 0
    decreases k
  {
    if k > 0 {
      PrefixExpanded(open, k - 1);
      assert Render(open)[..k][..k - 1] == Render(open)[..k - 1];
    }
  }

  /** At most one answer is ever shown, and exactly one when the open index names an entry. */
  lemma AtMostOneExpanded(open: Option<nat>)
    ensures CountExpanded(Render(open)) <= 1
    ensures CountExpanded(Render(open)) == 1 <==> open.Some? && open.value < FaqCount
  {
    PrefixExpanded(open, FaqCount);
    assert Render(open)[..FaqCount] == Render(open);
  }

  function Run(open: Option<nat>, presses: seq<nat>): Option<nat>
    decreases |presses|
  {
    if |presses| == 0 then open else Toggle(Run(open, presses[..|presses| - 1]), presses[|presses| - 1])
  }

  /** After any presses from the closed start, the open entry, if any, is the last one pressed. */
  lemma {:induction false} OpenIsLastPressed(presses: seq<nat>)
    ensures |presses| == 0 ==> Run(None, presses).None?
    ensures Run(None, presses).Some? ==> |presses| > 0 && Run(None, presses).value == presses[|presses| - 1]
    decreases |presses|
  {
    if |presses| > 0 {
      OpenIsLastPressed(presses[..|presses| - 1]);
    }
  }
}
